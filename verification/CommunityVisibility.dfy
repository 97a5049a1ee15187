/** The community read gate (`community-visibility.ts`): one object, one page, and its receipt. */
module CommunityVisibility {
  import opened Wrappers
  import Chunks

  datatype Community = Community(visibility: Option<string>, deletedAt: Option<string>)

  /** The two tables the gate reads; a membership row is itself the acceptance. */
  datatype Db = Db(communities: map<string, Community>, members: set<(string, string)>)

  datatype GateObject = GateObject(audience: seq<string>, communityApId: Option<string>)

  datatype RetainedRow = RetainedRow(apId: string, community: Community)

  /** Positive and negative dependencies of one allowed community decision. */
  datatype Receipt = Receipt(ids: seq<string>, rows: seq<RetainedRow>, memberCommunity: Option<string>)

  datatype Decision = Denied | Allowed(receipt: Receipt)

  predicate RequiresMembership(visibility: Option<string>) {
    (if visibility.Some? then visibility.value else "public") == "private"
  }

  function AddNew(ids: seq<string>, id: string): seq<string> {
    if id in ids then ids else ids + [id]
  }

  function AddAudience(ids: seq<string>, audience: seq<string>): seq<string>
    decreases |audience|
  {
    if audience == [] then ids
    else AddAudience(if |audience[0]| > 0 then AddNew(ids, audience[0]) else ids, audience[1..])
  }

  /** The distinct community ids an object is addressed to. */
  function CommunityIds(obj: GateObject): seq<string> {
    AddAudience(if Truthy(obj.communityApId) then [obj.communityApId.value] else [], obj.audience)
  }

  lemma {:induction false} AddAudienceMembers(ids: seq<string>, audience: seq<string>)
    ensures forall x :: x in AddAudience(ids, audience) <==> x in ids || (x in audience && |x| > 0)
    decreases |audience|
  {
    if audience != [] {
      var next := if |audience[0]| > 0 then AddNew(ids, audience[0]) else ids;
      AddAudienceMembers(next, audience[1..]);
      assert audience == [audience[0]] + audience[1..];
    }
  }

  /** An object is addressed to its community column and to every nonempty audience entry, and to nothing else. */
  lemma {:induction false} CommunityIdsMembers(obj: GateObject)
    ensures forall x :: x in CommunityIds(obj) <==> |x| > 0 && (obj.communityApId == Some(x) || x in obj.audience)
  {
    AddAudienceMembers(if Truthy(obj.communityApId) then [obj.communityApId.value] else [], obj.audience);
  }

  /** SELECT ... FROM communities WHERE ap_id IN ids */
  function SelectRows(db: Db, ids: seq<string>): (rows: seq<RetainedRow>)
    ensures forall r <- rows :: r.apId in ids && r.apId in db.communities && r.community == db.communities[r.apId]
    ensures forall id <- ids :: id in db.communities ==> RetainedRow(id, db.communities[id]) in rows
  {
    if ids == [] then []
    else
      var rest := SelectRows(db, ids[1..]);
      if ids[0] in db.communities then [RetainedRow(ids[0], db.communities[ids[0]])] + rest else rest
  }

  function PrivateIds(rows: seq<RetainedRow>): (ids: seq<string>)
    ensures forall id :: id in ids <==> exists r <- rows :: r.apId == id && RequiresMembership(r.community.visibility)
  {
    if rows == [] then []
    else
      assert rows == [rows[0]] + rows[1..];
      (if RequiresMembership(rows[0].community.visibility) then [rows[0].apId] else []) + PrivateIds(rows[1..])
  }

  /** LIMIT 1 over the viewer's memberships: any matching row, `choice` being the engine's pick. */
  function MembershipRow(members: set<(string, string)>, privates: seq<string>, viewer: string, choice: string): (r: Option<string>)
    ensures r.Some? ==> r.value in privates && (r.value, viewer) in members
    ensures r.None? ==> forall p <- privates :: (p, viewer) !in members
  {
    if choice in privates && (choice, viewer) in members then Some(choice)
    else if privates == [] then None
    else if (privates[0], viewer) in members then Some(privates[0])
    else MembershipRow(members, privates[1..], viewer, choice)
  }

  /**
   * The single-object gate. The community rows and the membership are two queries
   * and may see different database states.
   */
  function CanViewerReadObject(rowsDb: Db, membersDb: Db, obj: GateObject, viewer: Option<string>, choice: string): Decision {
    var ids := CommunityIds(obj);
    if ids == [] then Allowed(Receipt([], [], None))
    else
      var rows := SelectRows(rowsDb, ids);
      if exists r <- rows :: r.community.deletedAt.Some? then Denied
      else
        var privates := PrivateIds(rows);
        if privates == [] then Allowed(Receipt(ids, rows, None))
        else if !Truthy(viewer) then Denied
        else
          var m := MembershipRow(membersDb.members, privates, viewer.value, choice);
          if m.None? then Denied else Allowed(Receipt(ids, rows, m))
  }

  /** The recheck of a receipt inside a later batch. */
  predicate ReceiptHolds(db: Db, receipt: Receipt, viewer: Option<string>) {
    && (forall id <- receipt.ids :: id in db.communities <==> exists r <- receipt.rows :: r.apId == id)
    && (forall r <- receipt.rows :: r.apId in db.communities && db.communities[r.apId] == r.community)
    && (receipt.memberCommunity.Some? ==> viewer.Some? && (receipt.memberCommunity.value, viewer.value) in db.members)
  }

  /** The rule in plain terms: no addressed community deleted, and a membership in one of its private ones if any. */
  ghost predicate GateRule(db: Db, obj: GateObject, viewer: Option<string>) {
    && (forall id <- CommunityIds(obj) :: id in db.communities ==> db.communities[id].deletedAt.None?)
    && ((exists id <- CommunityIds(obj) :: IsPrivate(db, id)) ==>
          Truthy(viewer) && exists id <- CommunityIds(obj) :: IsPrivate(db, id) && (id, viewer.value) in db.members)
  }

  predicate IsPrivate(db: Db, id: string) {
    id in db.communities && RequiresMembership(db.communities[id].visibility)
  }

  /** What is private among the selected rows is what is private among the ids. */
  lemma {:induction false} PrivatesOfRows(db: Db, ids: seq<string>)
    ensures forall id :: id in PrivateIds(SelectRows(db, ids)) <==> id in ids && IsPrivate(db, id)
  {
  }

  lemma {:induction false} DeletedRows(db: Db, ids: seq<string>)
    ensures (exists r <- SelectRows(db, ids) :: r.community.deletedAt.Some?)
       <==> (exists id <- ids :: id in db.communities && db.communities[id].deletedAt.Some?)
  {
    if id :| id in ids && id in db.communities && db.communities[id].deletedAt.Some? {
      assert RetainedRow(id, db.communities[id]) in SelectRows(db, ids);
    }
  }

  /** Read in one state, the gate decides exactly the rule, whichever membership row is returned. */
  lemma {:induction false} GateDecidesRule(db: Db, obj: GateObject, viewer: Option<string>, choice: string)
    ensures CanViewerReadObject(db, db, obj, viewer, choice).Allowed? <==> GateRule(db, obj, viewer)
  {
    var ids := CommunityIds(obj);
    var privates := PrivateIds(SelectRows(db, ids));
    DeletedRows(db, ids);
    PrivatesOfRows(db, ids);
    if privates == [] {
      assert forall id <- ids :: !IsPrivate(db, id);
    } else {
      assert privates[0] in ids && IsPrivate(db, privates[0]);
    }
  }

  /** The object names this community, in its community column or its audience. */
  predicate Addressed(obj: GateObject, id: string) {
    id != "" && (obj.communityApId == Some(id) || id in obj.audience)
  }

  predicate Private(db: Db, id: string) {
    id in db.communities && db.communities[id].visibility == Some("private")
  }

  /**
   * Who passes the gate, from the tables: no named community may be deleted, and if one of
   * them is private the viewer must be signed in and a member of a named private one.
   */
  lemma {:induction false} GateInTables(db: Db, obj: GateObject, viewer: Option<string>)
    ensures GateRule(db, obj, viewer) <==>
      && (forall id | Addressed(obj, id) && id in db.communities :: db.communities[id].deletedAt.None?)
      && ((exists id :: Addressed(obj, id) && Private(db, id)) ==>
            && viewer.Some? && viewer.value != ""
            && exists id :: Addressed(obj, id) && Private(db, id) && (id, viewer.value) in db.members)
  {
    CommunityIdsMembers(obj);
    assert forall id :: id in CommunityIds(obj) <==> Addressed(obj, id);
    assert forall id :: IsPrivate(db, id) <==> Private(db, id);
  }

  /**
   * What a receipt of one state carries: every named community, the stored row of each
   * that exists, and a membership of the viewer exactly when a named community is private.
   */
  lemma {:induction false} ReceiptCarries(db: Db, obj: GateObject, viewer: Option<string>, choice: string)
    requires CanViewerReadObject(db, db, obj, viewer, choice).Allowed?
    ensures var r := CanViewerReadObject(db, db, obj, viewer, choice).receipt;
      && (forall id :: id in r.ids <==> Addressed(obj, id))
      && (forall row :: row in r.rows <==> Addressed(obj, row.apId) && row.apId in db.communities && row.community == db.communities[row.apId])
      && (r.memberCommunity.Some? <==> exists id :: Addressed(obj, id) && Private(db, id))
      && (r.memberCommunity.Some? ==>
            && Addressed(obj, r.memberCommunity.value) && Private(db, r.memberCommunity.value)
            && viewer.Some? && (r.memberCommunity.value, viewer.value) in db.members)
  {
    var ids := CommunityIds(obj);
    CommunityIdsMembers(obj);
    assert forall id :: id in ids <==> Addressed(obj, id);
    PrivatesOfRows(db, ids);
    var privates := PrivateIds(SelectRows(db, ids));
    assert forall id :: IsPrivate(db, id) <==> Private(db, id);
    if privates != [] {
      assert Addressed(obj, privates[0]) && Private(db, privates[0]);
    }
  }

  /** A receipt emitted over any two states is enough for the rule wherever it still holds. */
  lemma {:induction false} ReceiptImpliesRule(rowsDb: Db, membersDb: Db, obj: GateObject, viewer: Option<string>, choice: string, later: Db)
    requires CanViewerReadObject(rowsDb, membersDb, obj, viewer, choice).Allowed?
    requires ReceiptHolds(later, CanViewerReadObject(rowsDb, membersDb, obj, viewer, choice).receipt, viewer)
    ensures GateRule(later, obj, viewer)
  {
    var ids := CommunityIds(obj);
    if ids != [] {
      var rows := SelectRows(rowsDb, ids);
      var receipt := CanViewerReadObject(rowsDb, membersDb, obj, viewer, choice).receipt;
      forall id | id in ids && id in later.communities
        ensures id in rowsDb.communities && rowsDb.communities[id] == later.communities[id]
      {
        var r :| r in rows && r.apId == id;
      }
      PrivatesOfRows(rowsDb, ids);
      if id :| id in ids && IsPrivate(later, id) {
        assert id in PrivateIds(rows);
        var m := receipt.memberCommunity.value;
        assert IsPrivate(later, m) && m in ids;
      }
    }
  }

  /** The receipt of an undisturbed decision holds in that very state. */
  lemma {:induction false} ReceiptHoldsAtOnce(db: Db, obj: GateObject, viewer: Option<string>, choice: string)
    requires CanViewerReadObject(db, db, obj, viewer, choice).Allowed?
    ensures ReceiptHolds(db, CanViewerReadObject(db, db, obj, viewer, choice).receipt, viewer)
  {
    var ids := CommunityIds(obj);
    var rows := SelectRows(db, ids);
    forall id | id in ids ensures id in db.communities <==> exists r <- rows :: r.apId == id {
      if id in db.communities {
        assert RetainedRow(id, db.communities[id]) in rows;
      }
    }
  }

  // ---- the page gate ----

  datatype PageObject = PageObject(apId: string, gate: GateObject)

  /** The gate object the page map keeps for an id: the last one on the page. */
  ghost function LastWith(objs: seq<PageObject>, apId: string): GateObject
    requires exists o <- objs :: o.apId == apId
  {
    var n := |objs| - 1;
    if objs[n].apId == apId then objs[n].gate
    else
      assert objs == objs[..n] + [objs[n]];
      LastWith(objs[..n], apId)
  }

  ghost predicate DistinctIds(objs: seq<PageObject>) {
    forall i, j | 0 <= i < j < |objs| :: objs[i].apId != objs[j].apId
  }

  lemma {:induction false} LastWithDistinct(objs: seq<PageObject>, i: nat)
    requires DistinctIds(objs) && i < |objs|
    ensures objs[i] in objs && LastWith(objs, objs[i].apId) == objs[i].gate
  {
    var n := |objs| - 1;
    if i < n {
      LastWithDistinct(objs[..n], i);
    }
  }

  /** First loop: the ids of every object and their union. */
  method CollectIds(objs: seq<PageObject>) returns (perObject: map<string, seq<string>>, union: set<string>)
    ensures forall id :: id in perObject <==> exists o <- objs :: o.apId == id
    ensures forall id <- perObject :: perObject[id] == CommunityIds(LastWith(objs, id))
    ensures forall id :: id in union <==> exists o <- objs :: id in CommunityIds(o.gate)
  {
    perObject, union := map[], {};
    for i := 0 to |objs|
      invariant forall id :: id in perObject <==> exists o <- objs[..i] :: o.apId == id
      invariant forall id <- perObject :: perObject[id] == CommunityIds(LastWith(objs[..i], id))
      invariant forall id :: id in union <==> exists o <- objs[..i] :: id in CommunityIds(o.gate)
    {
      var ids := CommunityIds(objs[i].gate);
      assert objs[..i + 1] == objs[..i] + [objs[i]];
      assert objs[..i + 1][..i] == objs[..i];
      perObject := perObject[objs[i].apId := ids];
      union := union + set id | id in ids;
    }
    assert objs[..|objs|] == objs;
  }

  /** Second loop: lifecycle and visibility of every addressed community, chunk by chunk. */
  method ResolveCommunities(db: Db, union: seq<string>) returns (privateSet: set<string>, deletedSet: set<string>)
    ensures forall id :: id in deletedSet <==> id in union && id in db.communities && db.communities[id].deletedAt.Some?
    ensures forall id :: id in privateSet <==> id in union && IsPrivate(db, id) && db.communities[id].deletedAt.None?
  {
    privateSet, deletedSet := {}, {};
    var chunks := Chunks.ChunkForInClause(union, Chunks.D1_IN_CHUNK);
    for i := 0 to |chunks|
      invariant forall id :: id in deletedSet <==>
        id in Chunks.Concat(chunks[..i]) && id in db.communities && db.communities[id].deletedAt.Some?
      invariant forall id :: id in privateSet <==>
        id in Chunks.Concat(chunks[..i]) && IsPrivate(db, id) && db.communities[id].deletedAt.None?
    {
      assert chunks[..i + 1] == chunks[..i] + [chunks[i]];
      Chunks.ConcatAppend(chunks[..i], chunks[i]);
      var rows := SelectRows(db, chunks[i]);
      deletedSet := deletedSet + set r | r in rows && r.community.deletedAt.Some? :: r.apId;
      privateSet := privateSet + set r | r in rows && r.community.deletedAt.None? && RequiresMembership(r.community.visibility) :: r.apId;
    }
    assert chunks[..|chunks|] == chunks;
  }

  /** Third loop: which private communities the viewer belongs to. */
  method ResolveMemberships(db: Db, privates: seq<string>, viewer: string) returns (memberSet: set<string>)
    ensures forall id :: id in memberSet <==> id in privates && (id, viewer) in db.members
  {
    memberSet := {};
    var chunks := Chunks.ChunkForInClause(privates, Chunks.D1_IN_CHUNK);
    for i := 0 to |chunks|
      invariant forall id :: id in memberSet <==> id in Chunks.Concat(chunks[..i]) && (id, viewer) in db.members
    {
      assert chunks[..i + 1] == chunks[..i] + [chunks[i]];
      Chunks.ConcatAppend(chunks[..i], chunks[i]);
      memberSet := memberSet + set id | id in chunks[i] && (id, viewer) in db.members;
    }
    assert chunks[..|chunks|] == chunks;
  }

  /** An enumeration of a finite set, as spreading a JavaScript Set gives. */
  method Spread(s: set<string>) returns (items: seq<string>)
    ensures forall x :: x in items <==> x in s
  {
    items := [];
    var rest := s;
    while rest != {}
      invariant forall x :: x in s <==> x in items || x in rest
      decreases |rest|
    {
      var x :| x in rest;
      items := items + [x];
      rest := rest - {x};
    }
  }

  /** Last loop: keep the objects whose ids pass the resolved sets. */
  method FilterPage(objs: seq<PageObject>, perObject: map<string, seq<string>>,
                    deletedSet: set<string>, privateSet: set<string>, memberSet: set<string>)
    returns (readable: set<string>)
    requires forall o <- objs :: o.apId in perObject
    ensures forall id :: id in readable <==>
      (exists o <- objs :: o.apId == id) && PassesSets(perObject[id], deletedSet, privateSet, memberSet)
  {
    readable := {};
    for i := 0 to |objs|
      invariant forall id :: id in readable <==>
        (exists o <- objs[..i] :: o.apId == id) && PassesSets(perObject[id], deletedSet, privateSet, memberSet)
    {
      assert objs[..i + 1] == objs[..i] + [objs[i]];
      if PassesSets(perObject[objs[i].apId], deletedSet, privateSet, memberSet) {
        readable := readable + {objs[i].apId};
      }
    }
    assert objs[..|objs|] == objs;
  }

  lemma {:induction false} AddressedIsInUnion(objs: seq<PageObject>, union: set<string>, o: PageObject)
    requires forall id :: id in union <==> exists p <- objs :: id in CommunityIds(p.gate)
    requires o in objs
    ensures CommunityIds(o.gate) != [] ==> exists id :: id in union
  {
    var ids := CommunityIds(o.gate);
    if ids != [] {
      assert ids[0] in union;
    }
  }

  /** With no community addressed at all, every object on the page passes. */
  lemma {:induction false} NothingAddressed(db: Db, objs: seq<PageObject>, viewer: Option<string>, id: string)
    requires forall o <- objs :: CommunityIds(o.gate) == []
    requires exists o <- objs :: o.apId == id
    ensures GateRule(db, LastWith(objs, id), viewer)
  {
    LastIsOnPage(objs, id);
  }

  /** The whole page gate: exactly the ids whose object passes the single-object rule. */
  method CommunityReadableApIds(db: Db, objs: seq<PageObject>, viewer: Option<string>) returns (readable: set<string>)
    ensures forall id :: id in readable <==> (exists o <- objs :: o.apId == id) && GateRule(db, LastWith(objs, id), viewer)
    ensures DistinctIds(objs) ==>
      forall o, choice | o in objs :: o.apId in readable <==> CanViewerReadObject(db, db, o.gate, viewer, choice).Allowed?
  {
    readable := FillPage(db, objs, viewer);
    if DistinctIds(objs) {
      forall o, choice | o in objs ensures o.apId in readable <==> CanViewerReadObject(db, db, o.gate, viewer, choice).Allowed? {
        PageGateEqualsSingleGate(db, objs, viewer, choice, readable);
      }
    }
  }

  /** The queries and loops of the page gate. */
  method FillPage(db: Db, objs: seq<PageObject>, viewer: Option<string>) returns (readable: set<string>)
    ensures forall id :: id in readable <==> (exists o <- objs :: o.apId == id) && GateRule(db, LastWith(objs, id), viewer)
  {
    var perObject, union := CollectIds(objs);
    if union == {} {
      forall o | o in objs ensures CommunityIds(o.gate) == [] {
        AddressedIsInUnion(objs, union, o);
      }
      forall id | exists o <- objs :: o.apId == id ensures GateRule(db, LastWith(objs, id), viewer) {
        NothingAddressed(db, objs, viewer, id);
      }
      readable := set o | o in objs :: o.apId;
      return;
    }
    var unionIds := Spread(union);
    var privateSet, deletedSet := ResolveCommunities(db, unionIds);
    var memberSet := {};
    if Truthy(viewer) && privateSet != {} {
      var privateIds := Spread(privateSet);
      memberSet := ResolveMemberships(db, privateIds, viewer.value);
    }
    readable := FilterPage(objs, perObject, deletedSet, privateSet, memberSet);
    forall id | exists o <- objs :: o.apId == id
      ensures PassesSets(perObject[id], deletedSet, privateSet, memberSet) <==> GateRule(db, LastWith(objs, id), viewer)
    {
      LastIsOnPage(objs, id);
      forall x | x in CommunityIds(LastWith(objs, id)) ensures x in unionIds {
        assert x in CommunityIds(PageObject(id, LastWith(objs, id)).gate);
      }
      SetsDecideRule(db, LastWith(objs, id), viewer, deletedSet, privateSet, memberSet);
    }
  }

  lemma {:induction false} LastIsOnPage(objs: seq<PageObject>, apId: string)
    requires exists o <- objs :: o.apId == apId
    ensures PageObject(apId, LastWith(objs, apId)) in objs
  {
    var n := |objs| - 1;
    if objs[n].apId != apId {
      assert objs == objs[..n] + [objs[n]];
      LastIsOnPage(objs[..n], apId);
    }
  }

  /** The final loop's test for one object. */
  predicate PassesSets(ids: seq<string>, deletedSet: set<string>, privateSet: set<string>, memberSet: set<string>) {
    && (forall id <- ids :: id !in deletedSet)
    && ((forall id <- ids :: id !in privateSet) || (exists id <- ids :: id in privateSet && id in memberSet))
  }

  lemma {:induction false} SetsDecideRule(db: Db, obj: GateObject, viewer: Option<string>, deletedSet: set<string>, privateSet: set<string>, memberSet: set<string>)
    requires forall id <- CommunityIds(obj) :: id in deletedSet <==> id in db.communities && db.communities[id].deletedAt.Some?
    requires forall id <- CommunityIds(obj) :: id in privateSet <==> IsPrivate(db, id) && db.communities[id].deletedAt.None?
    requires forall id <- CommunityIds(obj) :: id in memberSet <==> id in privateSet && Truthy(viewer) && (id, viewer.value) in db.members
    ensures PassesSets(CommunityIds(obj), deletedSet, privateSet, memberSet) <==> GateRule(db, obj, viewer)
  {
  }

  /** On a page of distinct ids the page gate admits exactly what the single-object gate admits. */
  lemma {:induction false} PageGateEqualsSingleGate(db: Db, objs: seq<PageObject>, viewer: Option<string>, choice: string, readable: set<string>)
    requires DistinctIds(objs)
    requires forall id :: id in readable <==> (exists o <- objs :: o.apId == id) && GateRule(db, LastWith(objs, id), viewer)
    ensures forall o <- objs :: o.apId in readable <==> CanViewerReadObject(db, db, o.gate, viewer, choice).Allowed?
  {
    forall o | o in objs ensures o.apId in readable <==> CanViewerReadObject(db, db, o.gate, viewer, choice).Allowed? {
      var i :| 0 <= i < |objs| && objs[i] == o;
      LastWithDistinct(objs, i);
      GateDecidesRule(db, o.gate, viewer, choice);
    }
  }
}
