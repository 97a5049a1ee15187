/**
 * The canonical single-object read decision (`post-visibility.ts`) and the receipt
 * it emits, which a later batch rechecks.
 *
 * The decision issues up to five queries. Each may see a different database state,
 * so the decision is a function of five states and the receipt theorem is stated
 * for all of them.
 */
module PostVisibility {
  import opened Wrappers
  import CV = CommunityVisibility

  /** An `objects` row; `kind` is the type column. */
  datatype Row = Row(
    visibility: string,
    attributedTo: string,
    to: seq<string>,
    cc: seq<string>,
    audience: seq<string>,
    communityApId: Option<string>,
    kind: Option<string>,
    endTime: Option<int>)

  /** What a caller passes: a row, with or without its id. */
  datatype ReadObject = ReadObject(apId: Option<string>, row: Row)

  datatype Db = Db(
    blocked: set<string>,                // operator-blocked authors
    community: CV.Db,
    follows: set<(string, string)>,      // accepted (follower, following)
    recipients: set<(string, string)>,   // projected 'to' (object, recipient)
    objects: map<string, Row>)

  /** The states seen by the five queries, and the clock read at the start. */
  datatype Reads = Reads(block: Db, rows: Db, members: Db, recipients: Db, follows: Db, now: int)

  datatype Receipt = Receipt(
    apId: string,
    row: Row,
    viewer: Option<string>,
    community: Option<CV.Receipt>,
    followRequired: bool,
    projectedRecipientRequired: bool,
    expires: bool)

  /** `receipt` is absent when the caller gave no object id. */
  datatype Decision = Denied | Allowed(receipt: Option<Receipt>)

  predicate IsStory(row: Row) {
    row.kind == Some("Story")
  }

  predicate IsAuthor(row: Row, viewer: Option<string>) {
    viewer == Some(row.attributedTo)
  }

  predicate IsExplicitRecipient(row: Row, viewer: string) {
    viewer in row.to || viewer in row.cc
  }

  predicate Expired(row: Row, now: int) {
    row.endTime.Some? && row.endTime.value <= now
  }

  /** The per-post rule, with the follow and private-recipient lookups injected. */
  predicate PassesPostVisibility(obj: ReadObject, viewer: Option<string>, isFollower: string -> bool,
                                 isRecipient: string -> bool, now: int)
  {
    var row := obj.row;
    if IsStory(row) then
      if Truthy(viewer) && IsAuthor(row, viewer) then true
      else if Expired(row, now) then false
      else if Truthy(row.communityApId) then true
      else Truthy(viewer) && isFollower(row.attributedTo)
    else if row.visibility == "direct" then
      Truthy(viewer)
      && (IsAuthor(row, viewer) || IsExplicitRecipient(row, viewer.value)
          || (Truthy(obj.apId) && isRecipient(obj.apId.value)))
    else if row.visibility == "followers" then
      Truthy(viewer)
      && (IsAuthor(row, viewer) || IsExplicitRecipient(row, viewer.value)
          || (Truthy(obj.apId) && isRecipient(obj.apId.value))
          || isFollower(row.attributedTo))
    else row.visibility == "public" || row.visibility == "unlisted"
  }

  function GateOf(row: Row): CV.GateObject {
    CV.GateObject(row.audience, row.communityApId)
  }

  function Allow(obj: ReadObject, viewer: Option<string>, community: Option<CV.Receipt>, follow: bool, recipient: bool): Decision {
    Allowed(
      if !Truthy(obj.apId) then None
      else Some(Receipt(obj.apId.value, obj.row, viewer, community, follow, recipient,
                        IsStory(obj.row) && !IsAuthor(obj.row, viewer) && obj.row.endTime.Some?)))
  }

  /** Whether the private-recipient query is issued. */
  predicate NeedsProjection(obj: ReadObject, viewer: Option<string>) {
    && Truthy(viewer) && Truthy(obj.apId)
    && !IsAuthor(obj.row, viewer) && !IsStory(obj.row)
    && (obj.row.visibility == "direct" || obj.row.visibility == "followers")
    && !IsExplicitRecipient(obj.row, viewer.value)
  }

  /** Whether the follow query is issued. */
  predicate NeedsFollow(obj: ReadObject, viewer: Option<string>, projected: bool) {
    && Truthy(viewer) && !IsAuthor(obj.row, viewer)
    && ((IsStory(obj.row) && !Truthy(obj.row.communityApId))
        || (!IsStory(obj.row) && obj.row.visibility == "followers"
            && !IsExplicitRecipient(obj.row, viewer.value) && !projected))
  }

  /** The decision as the code takes it: early exits, lazy queries, captured community receipt. */
  function CanViewerReadObjectFull(seen: Reads, obj: ReadObject, viewer: Option<string>, choice: string): Decision {
    var row := obj.row;
    if row.attributedTo in seen.block.blocked then Denied
    else if IsStory(row) && Truthy(viewer) && IsAuthor(row, viewer) then Allow(obj, viewer, None, false, false)
    else if IsStory(row) && Expired(row, seen.now) then Denied
    else
      match CV.CanViewerReadObject(seen.rows.community, seen.members.community, GateOf(row), viewer, choice)
      case Denied => Denied
      case Allowed(communityReceipt) =>
        var projected := NeedsProjection(obj, viewer) && (obj.apId.value, viewer.value) in seen.recipients.recipients;
        var following := NeedsFollow(obj, viewer, projected) && (viewer.value, row.attributedTo) in seen.follows.follows;
        if PassesPostVisibility(obj, viewer, _ => following, _ => projected, seen.now)
        then Allow(obj, viewer, Some(communityReceipt), following, projected)
        else Denied
  }

  /** The predicate a later batch evaluates over its own state and clock. */
  predicate ReceiptHolds(db: Db, now: int, r: Receipt) {
    && r.apId in db.objects && db.objects[r.apId] == r.row
    && r.row.attributedTo !in db.blocked
    && (r.community.Some? ==> CV.ReceiptHolds(db.community, r.community.value, r.viewer))
    && (r.followRequired ==> r.viewer.Some? && (r.viewer.value, r.row.attributedTo) in db.follows)
    && (r.projectedRecipientRequired ==> r.viewer.Some? && (r.apId, r.viewer.value) in db.recipients)
    && (r.expires ==> r.row.endTime.Some? && r.row.endTime.value > now)
  }

  function AllAt(db: Db, now: int): Reads {
    Reads(db, db, db, db, db, now)
  }

  /** The rule with complete oracles: every follow and every private recipient known up front. */
  ghost predicate FullRule(db: Db, now: int, obj: ReadObject, viewer: Option<string>) {
    && obj.row.attributedTo !in db.blocked
    && ((IsStory(obj.row) && Truthy(viewer) && IsAuthor(obj.row, viewer))
        || (&& CV.GateRule(db.community, GateOf(obj.row), viewer)
            && PassesPostVisibility(obj, viewer,
                 author => viewer.Some? && (viewer.value, author) in db.follows,
                 apId => viewer.Some? && (apId, viewer.value) in db.recipients, now)))
  }

  /** Answering no to the lookups that are skipped does not change the rule. */
  lemma {:induction false} SkippedLookups(db: Db, now: int, obj: ReadObject, viewer: Option<string>)
    ensures var projected := NeedsProjection(obj, viewer) && (obj.apId.value, viewer.value) in db.recipients;
      var following := NeedsFollow(obj, viewer, projected) && (viewer.value, obj.row.attributedTo) in db.follows;
      PassesPostVisibility(obj, viewer, _ => following, _ => projected, now)
      <==> PassesPostVisibility(obj, viewer,
             author => viewer.Some? && (viewer.value, author) in db.follows,
             apId => viewer.Some? && (apId, viewer.value) in db.recipients, now)
  {
  }

  /** Skipping queries never changes the answer: the lazy decision is the rule with complete oracles. */
  lemma {:induction false} LazyDecisionIsFullRule(db: Db, now: int, obj: ReadObject, viewer: Option<string>, choice: string)
    ensures CanViewerReadObjectFull(AllAt(db, now), obj, viewer, choice).Allowed? <==> FullRule(db, now, obj, viewer)
  {
    CV.GateDecidesRule(db.community, GateOf(obj.row), viewer, choice);
    SkippedLookups(db, now, obj, viewer);
  }

  /** Signed in as this actor; the empty string counts as signed out. */
  predicate SignedIn(viewer: Option<string>, actor: string) {
    actor != "" && viewer == Some(actor)
  }

  /** The viewer wrote the row, or is named in it or in the projected recipients of its id. */
  predicate IsNamed(db: Db, obj: ReadObject, viewer: Option<string>) {
    && viewer.Some? && viewer.value != ""
    && (|| viewer.value == obj.row.attributedTo
        || viewer.value in obj.row.to || viewer.value in obj.row.cc
        || (obj.apId.Some? && obj.apId.value != "" && (obj.apId.value, viewer.value) in db.recipients))
  }

  predicate FollowsAuthor(db: Db, row: Row, viewer: Option<string>) {
    viewer.Some? && viewer.value != "" && (viewer.value, row.attributedTo) in db.follows
  }

  /** The audience a row's kind and visibility give it. */
  predicate InAudience(db: Db, now: int, obj: ReadObject, viewer: Option<string>) {
    var row := obj.row;
    if row.kind == Some("Story") then
      && (row.endTime.Some? ==> row.endTime.value > now)
      && ((row.communityApId.Some? && row.communityApId.value != "") || FollowsAuthor(db, row, viewer))
    else match row.visibility
      case "direct" => IsNamed(db, obj, viewer)
      case "followers" => IsNamed(db, obj, viewer) || FollowsAuthor(db, row, viewer)
      case "public" => true
      case "unlisted" => true
      case _ => false
  }

  /**
   * Who may read a row, from its columns and the tables: nobody if its author is blocked;
   * the author of a story; otherwise those in its audience whom every community it names
   * lets in.
   */
  lemma {:induction false} WhoMayRead(db: Db, now: int, obj: ReadObject, viewer: Option<string>, choice: string)
    ensures var gate := CV.GateObject(obj.row.audience, obj.row.communityApId);
      CanViewerReadObjectFull(AllAt(db, now), obj, viewer, choice).Allowed? <==>
        && obj.row.attributedTo !in db.blocked
        && (|| (obj.row.kind == Some("Story") && SignedIn(viewer, obj.row.attributedTo))
            || (&& InAudience(db, now, obj, viewer)
                && (forall id | CV.Addressed(gate, id) && id in db.community.communities :: db.community.communities[id].deletedAt.None?)
                && ((exists id :: CV.Addressed(gate, id) && CV.Private(db.community, id)) ==>
                      && viewer.Some? && viewer.value != ""
                      && exists id :: CV.Addressed(gate, id) && CV.Private(db.community, id) && (id, viewer.value) in db.community.members)))
  {
    LazyDecisionIsFullRule(db, now, obj, viewer, choice);
    CV.GateInTables(db.community, CV.GateObject(obj.row.audience, obj.row.communityApId), viewer);
  }

  /**
   * A receipt names the object, its row and the viewer, and requires no more than was
   * needed: the follow exactly when the viewer is in the audience only by following, the
   * projected recipient exactly when only the projection names the viewer.
   */
  lemma {:induction false} ReceiptRequires(db: Db, now: int, obj: ReadObject, viewer: Option<string>, choice: string)
    requires CanViewerReadObjectFull(AllAt(db, now), obj, viewer, choice).Allowed?
    ensures var d := CanViewerReadObjectFull(AllAt(db, now), obj, viewer, choice);
      var ownStory := obj.row.kind == Some("Story") && SignedIn(viewer, obj.row.attributedTo);
      && (d.receipt.None? <==> obj.apId.None? || obj.apId.value == "")
      && (d.receipt.Some? ==>
            var r := d.receipt.value;
            && obj.apId == Some(r.apId) && r.row == obj.row && r.viewer == viewer
            && (r.followRequired <==> !ownStory && !InAudience(db.(follows := {}), now, obj, viewer))
            && (r.projectedRecipientRequired <==>
                  && obj.row.kind != Some("Story") && obj.row.visibility in ["direct", "followers"]
                  && IsNamed(db, obj, viewer) && !IsNamed(db.(recipients := {}), obj, viewer))
            && (r.expires <==> obj.row.kind == Some("Story") && viewer != Some(obj.row.attributedTo) && obj.row.endTime.Some?)
            && r.community == if ownStory then None else Some(
                 CV.CanViewerReadObject(db.community, db.community, CV.GateObject(obj.row.audience, obj.row.communityApId), viewer, choice).receipt))
  {
  }

  /**
   * The one input on which a receipt forgets an expiry: an empty-string viewer is
   * treated as anonymous by the decision but compared as an author by the receipt.
   */
  predicate ForgetsExpiry(row: Row, viewer: Option<string>) {
    IsStory(row) && row.endTime.Some? && row.attributedTo == "" && viewer == Some("")
  }

  /**
   * Receipt soundness, exactly: whatever states the five queries saw, wherever the
   * emitted receipt holds a fresh decision on the stored row allows the same viewer if
   * and only if it is not the case that viewer and author are both the empty string
   * and the story has expired.
   */
  lemma {:induction false} ReceiptIsSufficient(seen: Reads, obj: ReadObject, viewer: Option<string>, choice: string,
                            later: Db, laterNow: int, laterChoice: string)
    requires var d := CanViewerReadObjectFull(seen, obj, viewer, choice);
      d.Allowed? && d.receipt.Some? && ReceiptHolds(later, laterNow, d.receipt.value)
    ensures var r := CanViewerReadObjectFull(seen, obj, viewer, choice).receipt.value;
      && r.apId in later.objects && later.objects[r.apId] == obj.row
      && (CanViewerReadObjectFull(AllAt(later, laterNow), ReadObject(Some(r.apId), later.objects[r.apId]), viewer, laterChoice).Allowed?
          <==> !(ForgetsExpiry(obj.row, viewer) && Expired(obj.row, laterNow)))
  {
    var r := CanViewerReadObjectFull(seen, obj, viewer, choice).receipt.value;
    if r.community.Some? {
      CV.ReceiptImpliesRule(seen.rows.community, seen.members.community, GateOf(obj.row), viewer, choice, later.community);
    }
    LazyDecisionIsFullRule(later, laterNow, ReadObject(Some(r.apId), obj.row), viewer, laterChoice);
  }

  /** In the excluded family every receipt outlives its story: it still holds when the decision denies. */
  lemma {:induction false} ForgottenExpiryOutlivesStory(db: Db, now: int, apId: string, viewer: Option<string>, choice: string)
    requires apId in db.objects && apId != "" && ForgetsExpiry(db.objects[apId], viewer)
    requires CanViewerReadObjectFull(AllAt(db, now), ReadObject(Some(apId), db.objects[apId]), viewer, choice).Allowed?
    ensures var obj := ReadObject(Some(apId), db.objects[apId]);
      var d := CanViewerReadObjectFull(AllAt(db, now), obj, viewer, choice);
      && d.receipt.Some?
      && ReceiptHolds(db, obj.row.endTime.value, d.receipt.value)
      && CanViewerReadObjectFull(AllAt(db, obj.row.endTime.value), obj, viewer, choice).Denied?
  {
    CV.ReceiptHoldsAtOnce(db.community, GateOf(db.objects[apId]), viewer, choice);
  }

  /** A concrete story of an empty author, in a public community, read by an empty viewer. */
  lemma {:induction false} ForgottenExpiryExample()
    ensures var row := Row("public", "", [], [], [], Some("club"), Some("Story"), Some(10));
      var db := Db({}, CV.Db(map["club" := CV.Community(Some("public"), None)], {}), {}, {}, map["story" := row]);
      var d := CanViewerReadObjectFull(AllAt(db, 5), ReadObject(Some("story"), row), Some(""), "");
      && d.Allowed? && d.receipt.Some? && ReceiptHolds(db, 10, d.receipt.value)
      && CanViewerReadObjectFull(AllAt(db, 10), ReadObject(Some("story"), row), Some(""), "").Denied?
  {
    var row := Row("public", "", [], [], [], Some("club"), Some("Story"), Some(10));
    var db := Db({}, CV.Db(map["club" := CV.Community(Some("public"), None)], {}), {}, {}, map["story" := row]);
    var gate := GateOf(row);
    assert CV.CommunityIds(gate) == ["club"];
    assert CV.GateRule(db.community, gate, Some(""));
    CV.GateDecidesRule(db.community, gate, Some(""), "");
    ForgottenExpiryOutlivesStory(db, 5, "story", Some(""), "");
  }

  /** Receipt completeness: a decision read in one state emits a receipt that holds in that state. */
  lemma {:induction false} ReceiptIsNotTooStrong(db: Db, now: int, apId: string, viewer: Option<string>, choice: string)
    requires apId in db.objects && apId != ""
    requires CanViewerReadObjectFull(AllAt(db, now), ReadObject(Some(apId), db.objects[apId]), viewer, choice).Allowed?
    ensures var d := CanViewerReadObjectFull(AllAt(db, now), ReadObject(Some(apId), db.objects[apId]), viewer, choice);
      d.receipt.Some? && ReceiptHolds(db, now, d.receipt.value)
  {
    var row := db.objects[apId];
    if !(IsStory(row) && Truthy(viewer) && IsAuthor(row, viewer)) {
      CV.ReceiptHoldsAtOnce(db.community, GateOf(row), viewer, choice);
    }
  }
}
