/**
 * Severing and accepting follow directions over identity classes
 * (`follow-edge-mutations.ts`). Two IRIs are the same actor when `canon` maps them
 * to the same identity; the physical key of a row is the raw pair.
 */
module FollowEdges {
  import opened Wrappers
  import opened FiniteSets
  import opened FollowTables

  datatype Tables = Tables(actors: map<Id, Counters>, follows: map<Pair, Status>, blocks: set<(Id, Id)>)

  /** `followDirectionIdentityWhere`: one endpoint exact, the other by identity. */
  predicate Matches(canon: Id -> Id, e: Pair, follower: Id, following: Id) {
    || (e.follower == follower && canon(e.following) == canon(following))
    || (e.following == following && canon(e.follower) == canon(follower))
  }

  function AcceptedMatches(canon: Id -> Id, follows: map<Pair, Status>, follower: Id, following: Id): set<Pair> {
    set e | e in follows && Matches(canon, e, follower, following) && follows[e] == Accepted
  }

  /** The accepted rows in which an identity follows, and in which it is followed. */
  function OutRows(canon: Id -> Id, follows: map<Pair, Status>, a: Id): set<Pair> {
    set e | e in follows && follows[e] == Accepted && canon(e.follower) == canon(a)
  }

  function InRows(canon: Id -> Id, follows: map<Pair, Status>, a: Id): set<Pair> {
    set e | e in follows && follows[e] == Accepted && canon(e.following) == canon(a)
  }

  /** Every local actor's counters equal the accepted rows of its identity class. */
  ghost predicate CountersMatch(canon: Id -> Id, t: Tables) {
    forall a <- t.actors ::
      && t.actors[a].following == |OutRows(canon, t.follows, a)|
      && t.actors[a].followers == |InRows(canon, t.follows, a)|
  }

  function Max(x: int, y: int): int {
    if x >= y then x else y
  }

  // ---- the statements ----

  /** SET following_count = MAX(0, following_count - n) WHERE identity AND following_count > 0 */
  function DropFollowing(canon: Id -> Id, actors: map<Id, Counters>, who: Id, n: int): map<Id, Counters> {
    map a | a in actors :: if canon(a) == canon(who) && actors[a].following > 0
                           then actors[a].(following := Max(0, actors[a].following - n)) else actors[a]
  }

  function DropFollowers(canon: Id -> Id, actors: map<Id, Counters>, who: Id, n: int): map<Id, Counters> {
    map a | a in actors :: if canon(a) == canon(who) && actors[a].followers > 0
                           then actors[a].(followers := Max(0, actors[a].followers - n)) else actors[a]
  }

  function DeleteMatches(canon: Id -> Id, follows: map<Pair, Status>, follower: Id, following: Id): map<Pair, Status> {
    map e | e in follows && !Matches(canon, e, follower, following) :: follows[e]
  }

  function Sever(canon: Id -> Id, t: Tables, follower: Id, following: Id): Tables {
    var n := |AcceptedMatches(canon, t.follows, follower, following)|;
    t.(actors := DropFollowers(canon, DropFollowing(canon, t.actors, follower, n), following, n),
       follows := DeleteMatches(canon, t.follows, follower, following))
  }

  /** SET following_count = MAX(0, following_count + delta) WHERE identity */
  function AddFollowing(canon: Id -> Id, actors: map<Id, Counters>, who: Id, delta: int): map<Id, Counters> {
    map a | a in actors :: if canon(a) == canon(who) then actors[a].(following := Max(0, actors[a].following + delta)) else actors[a]
  }

  function AddFollowers(canon: Id -> Id, actors: map<Id, Counters>, who: Id, delta: int): map<Id, Counters> {
    map a | a in actors :: if canon(a) == canon(who) then actors[a].(followers := Max(0, actors[a].followers + delta)) else actors[a]
  }

  predicate Eligible(canon: Id -> Id, follows: map<Pair, Status>, follower: Id, following: Id) {
    exists e <- follows :: Matches(canon, e, follower, following) && (follows[e] == Pending || follows[e] == Accepted)
  }

  function KeepRetained(canon: Id -> Id, follows: map<Pair, Status>, retained: Pair): map<Pair, Status> {
    map e | e in follows && (!Matches(canon, e, retained.follower, retained.following) || e == retained) :: follows[e]
  }

  function AcceptRetained(follows: map<Pair, Status>, retained: Pair): map<Pair, Status> {
    if retained in follows && follows[retained] == Pending then follows[retained := Accepted] else follows
  }

  function AfterAccept(canon: Id -> Id, follows: map<Pair, Status>, retained: Pair): map<Pair, Status> {
    AcceptRetained(KeepRetained(canon, follows, retained), retained)
  }

  function Accept(canon: Id -> Id, t: Tables, retained: Pair): Tables {
    var F, G := retained.follower, retained.following;
    var delta := (if Eligible(canon, t.follows, F, G) then 1 else 0) - |AcceptedMatches(canon, t.follows, F, G)|;
    t.(actors := AddFollowers(canon, AddFollowing(canon, t.actors, F, delta), G, delta), follows := AfterAccept(canon, t.follows, retained))
  }

  function SeverPair(canon: Id -> Id, t: Tables, left: Id, right: Id): Tables {
    Sever(canon, Sever(canon, t, left, right), right, left)
  }

  function Block(canon: Id -> Id, t: Tables, blocker: Id, blocked: Id, retainedTarget: Option<Id>): Tables {
    var target := if retainedTarget.Some? then retainedTarget.value else blocked;
    Sever(canon, Sever(canon, t.(blocks := t.blocks + {(blocker, target)}), blocked, blocker), blocker, blocked)
  }

  // ---- cardinalities ----

  /** Every matched accepted row counts for both identities, so deleting the matches subtracts exactly them. */
  lemma {:induction false} SeverRows(canon: Id -> Id, follows: map<Pair, Status>, follower: Id, following: Id, a: Id)
    ensures var n := |AcceptedMatches(canon, follows, follower, following)|;
      var rest := DeleteMatches(canon, follows, follower, following);
      && |OutRows(canon, rest, a)| == |OutRows(canon, follows, a)| - (if canon(a) == canon(follower) then n else 0)
      && |InRows(canon, rest, a)| == |InRows(canon, follows, a)| - (if canon(a) == canon(following) then n else 0)
  {
    SeverOutRows(canon, follows, follower, following, a);
    SeverInRows(canon, follows, follower, following, a);
  }

  lemma {:induction false} SeverOutRows(canon: Id -> Id, follows: map<Pair, Status>, follower: Id, following: Id, a: Id)
    ensures |OutRows(canon, DeleteMatches(canon, follows, follower, following), a)|
      == |OutRows(canon, follows, a)| - (if canon(a) == canon(follower) then |AcceptedMatches(canon, follows, follower, following)| else 0)
  {
    var m := AcceptedMatches(canon, follows, follower, following);
    var rest := DeleteMatches(canon, follows, follower, following);
    if canon(a) == canon(follower) {
      assert OutRows(canon, rest, a) == OutRows(canon, follows, a) - m;
      SubsetCount(m, OutRows(canon, follows, a));
    } else {
      assert OutRows(canon, rest, a) == OutRows(canon, follows, a);
    }
  }

  lemma {:induction false} SeverInRows(canon: Id -> Id, follows: map<Pair, Status>, follower: Id, following: Id, a: Id)
    ensures |InRows(canon, DeleteMatches(canon, follows, follower, following), a)|
      == |InRows(canon, follows, a)| - (if canon(a) == canon(following) then |AcceptedMatches(canon, follows, follower, following)| else 0)
  {
    var m := AcceptedMatches(canon, follows, follower, following);
    var rest := DeleteMatches(canon, follows, follower, following);
    if canon(a) == canon(following) {
      assert InRows(canon, rest, a) == InRows(canon, follows, a) - m;
      SubsetCount(m, InRows(canon, follows, a));
    } else {
      assert InRows(canon, rest, a) == InRows(canon, follows, a);
    }
  }

  /** The counters of one actor after a sever, in terms of the matched rows. */
  lemma {:induction false} SeverCounters(canon: Id -> Id, t: Tables, follower: Id, following: Id, a: Id)
    requires a in t.actors
    requires t.actors[a].following == |OutRows(canon, t.follows, a)| && t.actors[a].followers == |InRows(canon, t.follows, a)|
    ensures var n := |AcceptedMatches(canon, t.follows, follower, following)|;
      var t' := Sever(canon, t, follower, following);
      && (canon(a) == canon(follower) ==> t.actors[a].following - n >= 0)
      && (canon(a) == canon(following) ==> t.actors[a].followers - n >= 0)
      && t'.actors[a].following == |OutRows(canon, t'.follows, a)|
      && t'.actors[a].followers == |InRows(canon, t'.follows, a)|
  {
    SeverRows(canon, t.follows, follower, following, a);
    var n := |AcceptedMatches(canon, t.follows, follower, following)|;
    var one := DropFollowing(canon, t.actors, follower, n);
    assert one[a].following == t.actors[a].following - (if canon(a) == canon(follower) then n else 0);
    assert one[a].followers == t.actors[a].followers;
  }

  /** Severing keeps every counter equal to its rows and never meets the clamp. */
  lemma {:induction false} SeverKeepsCounters(canon: Id -> Id, t: Tables, follower: Id, following: Id)
    requires CountersMatch(canon, t)
    ensures CountersMatch(canon, Sever(canon, t, follower, following))
    ensures var n := |AcceptedMatches(canon, t.follows, follower, following)|;
      forall a <- t.actors ::
        && (canon(a) == canon(follower) ==> t.actors[a].following - n >= 0)
        && (canon(a) == canon(following) ==> t.actors[a].followers - n >= 0)
  {
    var n := |AcceptedMatches(canon, t.follows, follower, following)|;
    var t' := Sever(canon, t, follower, following);
    forall a | a in t.actors
      ensures canon(a) == canon(follower) ==> t.actors[a].following - n >= 0
      ensures canon(a) == canon(following) ==> t.actors[a].followers - n >= 0
      ensures t'.actors[a].following == |OutRows(canon, t'.follows, a)| && t'.actors[a].followers == |InRows(canon, t'.follows, a)|
    {
      SeverCounters(canon, t, follower, following, a);
    }
  }

  /** After a pair or a block is severed, neither direction has a row left and the counters still match. */
  lemma {:induction false} SeverPairKeepsCounters(canon: Id -> Id, t: Tables, left: Id, right: Id)
    requires CountersMatch(canon, t)
    ensures var t' := SeverPair(canon, t, left, right);
      && CountersMatch(canon, t')
      && (forall e <- t'.follows :: !Matches(canon, e, left, right) && !Matches(canon, e, right, left))
      && (forall e <- t.follows :: !Matches(canon, e, left, right) && !Matches(canon, e, right, left) ==> e in t'.follows && t'.follows[e] == t.follows[e])
  {
    SeverKeepsCounters(canon, t, left, right);
    SeverKeepsCounters(canon, Sever(canon, t, left, right), right, left);
  }

  lemma {:induction false} BlockKeepsCounters(canon: Id -> Id, t: Tables, blocker: Id, blocked: Id, retainedTarget: Option<Id>)
    requires CountersMatch(canon, t)
    ensures var t' := Block(canon, t, blocker, blocked, retainedTarget);
      && CountersMatch(canon, t')
      && (blocker, if retainedTarget.Some? then retainedTarget.value else blocked) in t'.blocks
      && forall e <- t'.follows :: !Matches(canon, e, blocker, blocked) && !Matches(canon, e, blocked, blocker)
  {
    var t0 := t.(blocks := t.blocks + {(blocker, if retainedTarget.Some? then retainedTarget.value else blocked)});
    assert CountersMatch(canon, t0);
    SeverPairKeepsCounters(canon, t0, blocked, blocker);
  }

  /** The condition accept needs: whenever the direction has a live row, the retained row is one. */
  predicate RetainedIsLive(canon: Id -> Id, follows: map<Pair, Status>, retained: Pair) {
    Eligible(canon, follows, retained.follower, retained.following) ==> retained in follows && follows[retained] != Rejected
  }

  function LiveRetained(follows: map<Pair, Status>, retained: Pair): set<Pair> {
    if retained in follows && follows[retained] != Rejected then {retained} else {}
  }

  /** After an accept, the accepted rows are those outside the direction and the retained row if it was live. */
  lemma {:induction false} AcceptedAfterAccept(canon: Id -> Id, follows: map<Pair, Status>, retained: Pair, e: Pair)
    ensures var after := AfterAccept(canon, follows, retained);
      var rest := DeleteMatches(canon, follows, retained.follower, retained.following);
      (e in after && after[e] == Accepted) <==> ((e in rest && rest[e] == Accepted) || e in LiveRetained(follows, retained))
  {
  }

  /** The rows of both identities after an accept. */
  lemma {:induction false} AcceptRows(canon: Id -> Id, follows: map<Pair, Status>, retained: Pair, a: Id)
    ensures var F, G := retained.follower, retained.following;
      var after := AfterAccept(canon, follows, retained);
      var change := |LiveRetained(follows, retained)| - |AcceptedMatches(canon, follows, F, G)|;
      && |OutRows(canon, after, a)| == |OutRows(canon, follows, a)| + (if canon(a) == canon(F) then change else 0)
      && |InRows(canon, after, a)| == |InRows(canon, follows, a)| + (if canon(a) == canon(G) then change else 0)
  {
    var F, G := retained.follower, retained.following;
    var after := AfterAccept(canon, follows, retained);
    var rest := DeleteMatches(canon, follows, F, G);
    var live := LiveRetained(follows, retained);
    SeverRows(canon, follows, F, G, a);
    forall e ensures (e in after && after[e] == Accepted) <==> ((e in rest && rest[e] == Accepted) || e in live) {
      AcceptedAfterAccept(canon, follows, retained, e);
    }
    AcceptSide(OutRows(canon, after, a), OutRows(canon, rest, a), live, canon(a) == canon(F));
    AcceptSide(InRows(canon, after, a), InRows(canon, rest, a), live, canon(a) == canon(G));
  }

  lemma {:induction false} AcceptSide(after: set<Pair>, rest: set<Pair>, live: set<Pair>, counts: bool)
    requires rest !! live
    requires forall e :: e in after <==> e in rest || (counts && e in live)
    ensures |after| == |rest| + (if counts then |live| else 0)
  {
    if counts {
      assert after == rest + live;
    } else {
      assert after == rest;
    }
  }

  lemma {:induction false} EligibleFromAccepted(canon: Id -> Id, follows: map<Pair, Status>, retained: Pair)
    ensures AcceptedMatches(canon, follows, retained.follower, retained.following) != {} ==> Eligible(canon, follows, retained.follower, retained.following)
    ensures retained in follows && follows[retained] != Rejected ==> Eligible(canon, follows, retained.follower, retained.following)
  {
    var m := AcceptedMatches(canon, follows, retained.follower, retained.following);
    if m != {} {
      var e :| e in m;
      assert e in follows && Matches(canon, e, retained.follower, retained.following);
    }
    if retained in follows && follows[retained] != Rejected {
      assert Matches(canon, retained, retained.follower, retained.following);
    }
  }

  /** By how much accept changes the two counters. */
  function Delta(canon: Id -> Id, follows: map<Pair, Status>, retained: Pair): int {
    (if Eligible(canon, follows, retained.follower, retained.following) then 1 else 0)
    - |AcceptedMatches(canon, follows, retained.follower, retained.following)|
  }

  lemma {:induction false} AcceptValues(canon: Id -> Id, t: Tables, retained: Pair, a: Id)
    requires a in t.actors
    ensures var after, delta := Accept(canon, t, retained).actors, Delta(canon, t.follows, retained);
      && a in after
      && after[a].following == (if canon(a) == canon(retained.follower) then Max(0, t.actors[a].following + delta) else t.actors[a].following)
      && after[a].followers == (if canon(a) == canon(retained.following) then Max(0, t.actors[a].followers + delta) else t.actors[a].followers)
  {
  }

  lemma {:induction false} DeltaIsChange(canon: Id -> Id, follows: map<Pair, Status>, retained: Pair)
    ensures Delta(canon, follows, retained) == |LiveRetained(follows, retained)| - |AcceptedMatches(canon, follows, retained.follower, retained.following)|
      + if RetainedIsLive(canon, follows, retained) then 0 else 1
  {
    EligibleFromAccepted(canon, follows, retained);
  }

  /** One actor's counters after an accept, against the rows then. */
  lemma {:induction false} AcceptCounters(canon: Id -> Id, t: Tables, retained: Pair, a: Id)
    requires a in t.actors
    requires t.actors[a].following == |OutRows(canon, t.follows, a)| && t.actors[a].followers == |InRows(canon, t.follows, a)|
    ensures var after, off := AfterAccept(canon, t.follows, retained), if RetainedIsLive(canon, t.follows, retained) then 0 else 1;
      var c := Accept(canon, t, retained).actors[a];
      && c.following == |OutRows(canon, after, a)| + (if canon(a) == canon(retained.follower) then off else 0)
      && c.followers == |InRows(canon, after, a)| + (if canon(a) == canon(retained.following) then off else 0)
  {
    AcceptRows(canon, t.follows, retained, a);
    AcceptValues(canon, t, retained, a);
    DeltaIsChange(canon, t.follows, retained);
  }

  lemma {:induction false} AcceptLeavesRetained(canon: Id -> Id, follows: map<Pair, Status>, retained: Pair)
    requires retained in follows && follows[retained] != Rejected
    ensures AcceptedMatches(canon, AfterAccept(canon, follows, retained), retained.follower, retained.following) == {retained}
  {
    var after := AfterAccept(canon, follows, retained);
    forall e ensures e in AcceptedMatches(canon, after, retained.follower, retained.following) <==> e == retained {
      AcceptedAfterAccept(canon, follows, retained, e);
    }
  }

  /** Accept keeps every counter when the retained row is live, leaving exactly that accepted row of the direction. */
  lemma {:induction false} AcceptKeepsCounters(canon: Id -> Id, t: Tables, retained: Pair)
    requires CountersMatch(canon, t) && RetainedIsLive(canon, t.follows, retained)
    ensures CountersMatch(canon, Accept(canon, t, retained))
    ensures retained in t.follows && t.follows[retained] != Rejected ==>
      AcceptedMatches(canon, Accept(canon, t, retained).follows, retained.follower, retained.following) == {retained}
  {
    forall a | a in t.actors
      ensures var t' := Accept(canon, t, retained);
        t'.actors[a].following == |OutRows(canon, t'.follows, a)| && t'.actors[a].followers == |InRows(canon, t'.follows, a)|
    {
      AcceptCounters(canon, t, retained, a);
    }
    if retained in t.follows && t.follows[retained] != Rejected {
      AcceptLeavesRetained(canon, t.follows, retained);
    }
  }

  /** If instead only other spellings are live, accept counts a follower that no row backs, for either local endpoint. */
  lemma {:induction false} AcceptDriftsOtherwise(canon: Id -> Id, t: Tables, retained: Pair, a: Id)
    requires CountersMatch(canon, t) && !RetainedIsLive(canon, t.follows, retained)
    requires a in t.actors
    ensures var t' := Accept(canon, t, retained);
      && (canon(a) == canon(retained.follower) ==> t'.actors[a].following == |OutRows(canon, t'.follows, a)| + 1)
      && (canon(a) == canon(retained.following) ==> t'.actors[a].followers == |InRows(canon, t'.follows, a)| + 1)
  {
    AcceptCounters(canon, t, retained, a);
  }

  /** The batches as they run on the tables. */
  class FollowStore {
    var actors: map<Id, Counters>
    var follows: map<Pair, Status>
    var blocks: set<(Id, Id)>

    constructor (t: Tables)
      ensures State() == t
    {
      actors, follows, blocks := t.actors, t.follows, t.blocks;
    }

    function State(): Tables
      reads this
    {
      Tables(actors, follows, blocks)
    }

    /**
     * No row of the direction is left, every other row stays as it was, and counters
     * that matched the rows still do.
     */
    method SeverFollowDirection(canon: Id -> Id, follower: Id, following: Id)
      modifies this
      ensures State() == Sever(canon, old(State()), follower, following)
      ensures forall e :: e in follows <==> e in old(follows) && !Matches(canon, e, follower, following)
      ensures forall e <- follows :: follows[e] == old(follows)[e]
      ensures blocks == old(blocks)
      ensures CountersMatch(canon, old(State())) ==> CountersMatch(canon, State())
    {
      ghost var before := State();
      actors := DropFollowing(canon, actors, follower, |AcceptedMatches(canon, follows, follower, following)|);
      actors := DropFollowers(canon, actors, following, |AcceptedMatches(canon, follows, follower, following)|);
      follows := DeleteMatches(canon, follows, follower, following);
      if CountersMatch(canon, before) {
        SeverKeepsCounters(canon, before, follower, following);
      }
    }

    /** The same for both directions of a pair. */
    method SeverFollowPair(canon: Id -> Id, left: Id, right: Id)
      modifies this
      ensures State() == SeverPair(canon, old(State()), left, right)
      ensures forall e :: e in follows <==> e in old(follows) && !Matches(canon, e, left, right) && !Matches(canon, e, right, left)
      ensures forall e <- follows :: follows[e] == old(follows)[e]
      ensures blocks == old(blocks)
      ensures CountersMatch(canon, old(State())) ==> CountersMatch(canon, State())
    {
      SeverFollowDirection(canon, left, right);
      SeverFollowDirection(canon, right, left);
    }

    /** The block is recorded on the retained spelling, neither direction has a row left, and counters still match. */
    method BlockActorAndSeverFollowPair(canon: Id -> Id, blocker: Id, blocked: Id, retainedTarget: Option<Id>)
      modifies this
      ensures State() == Block(canon, old(State()), blocker, blocked, retainedTarget)
      ensures (blocker, if retainedTarget.Some? then retainedTarget.value else blocked) in blocks && old(blocks) <= blocks
      ensures forall e :: e in follows <==> e in old(follows) && !Matches(canon, e, blocker, blocked) && !Matches(canon, e, blocked, blocker)
      ensures forall e <- follows :: follows[e] == old(follows)[e]
      ensures CountersMatch(canon, old(State())) ==> CountersMatch(canon, State())
    {
      blocks := blocks + {(blocker, if retainedTarget.Some? then retainedTarget.value else blocked)};
      assert CountersMatch(canon, old(State())) ==> CountersMatch(canon, State());
      SeverFollowDirection(canon, blocked, blocker);
      SeverFollowDirection(canon, blocker, blocked);
    }

    /**
     * A live retained row becomes the one accepted row of its direction. Counters that
     * matched still do exactly when the retained row was live whenever the direction
     * had a live row, or no local actor is an endpoint.
     */
    method AcceptRetainedFollowDirection(canon: Id -> Id, retained: Pair)
      modifies this
      ensures State() == Accept(canon, old(State()), retained)
      ensures retained in old(follows) && old(follows)[retained] != Rejected ==>
        AcceptedMatches(canon, follows, retained.follower, retained.following) == {retained}
      ensures CountersMatch(canon, old(State())) ==>
        (CountersMatch(canon, State()) <==> RetainedIsLive(canon, old(follows), retained) || NoLocalEndpoint(canon, old(actors), retained))
    {
      ghost var before := State();
      var F, G := retained.follower, retained.following;
      var delta := (if Eligible(canon, follows, F, G) then 1 else 0) - |AcceptedMatches(canon, follows, F, G)|;
      actors := AddFollowing(canon, actors, F, delta);
      actors := AddFollowers(canon, actors, G, delta);
      follows := KeepRetained(canon, follows, retained);
      follows := AcceptRetained(follows, retained);
      AcceptMeans(canon, before, retained);
    }
  }

  /** Neither endpoint is a local actor under any spelling. */
  ghost predicate NoLocalEndpoint(canon: Id -> Id, actors: map<Id, Counters>, retained: Pair) {
    forall a <- actors :: canon(a) != canon(retained.follower) && canon(a) != canon(retained.following)
  }

  /** What the accept batch achieves. */
  lemma {:induction false} AcceptMeans(canon: Id -> Id, t: Tables, retained: Pair)
    ensures retained in t.follows && t.follows[retained] != Rejected ==>
      AcceptedMatches(canon, Accept(canon, t, retained).follows, retained.follower, retained.following) == {retained}
    ensures CountersMatch(canon, t) ==>
      (CountersMatch(canon, Accept(canon, t, retained)) <==> RetainedIsLive(canon, t.follows, retained) || NoLocalEndpoint(canon, t.actors, retained))
  {
    if retained in t.follows && t.follows[retained] != Rejected {
      AcceptLeavesRetained(canon, t.follows, retained);
    }
    if CountersMatch(canon, t) {
      AcceptKeepsCountersIff(canon, t, retained);
    }
  }

  lemma {:induction false} AcceptKeepsCountersIff(canon: Id -> Id, t: Tables, retained: Pair)
    requires CountersMatch(canon, t)
    ensures CountersMatch(canon, Accept(canon, t, retained))
      <==> RetainedIsLive(canon, t.follows, retained) || NoLocalEndpoint(canon, t.actors, retained)
  {
    if RetainedIsLive(canon, t.follows, retained) {
      AcceptKeepsCounters(canon, t, retained);
    } else if a :| a in t.actors && (canon(a) == canon(retained.follower) || canon(a) == canon(retained.following)) {
      AcceptDriftsOtherwise(canon, t, retained, a);
      assert a in Accept(canon, t, retained).actors;
    } else {
      AcceptSparesStrangers(canon, t, retained);
    }
  }

  lemma {:induction false} AcceptSparesStrangers(canon: Id -> Id, t: Tables, retained: Pair)
    requires CountersMatch(canon, t) && NoLocalEndpoint(canon, t.actors, retained)
    ensures CountersMatch(canon, Accept(canon, t, retained))
  {
    forall a | a in t.actors
      ensures var t' := Accept(canon, t, retained);
        t'.actors[a].following == |OutRows(canon, t'.follows, a)| && t'.actors[a].followers == |InRows(canon, t'.follows, a)|
    {
      AcceptCounters(canon, t, retained, a);
    }
  }

  /** A concrete drift: only another spelling of the follower has a live row, and the followed actor is local. */
  lemma {:induction false} AcceptDriftExample()
    ensures var canon := (x: Id) => if x == Id("Alice") then Id("alice") else x;
      var t := Tables(map[Id("bob") := Counters(0, 0)], map[Pair(Id("Alice"), Id("bob")) := Pending], {});
      var after := Accept(canon, t, Pair(Id("alice"), Id("bob")));
      && CountersMatch(canon, t)
      && Id("bob") in after.actors && after.actors[Id("bob")].followers == 1
      && InRows(canon, after.follows, Id("bob")) == {}
  {
    var canon := (x: Id) => if x == Id("Alice") then Id("alice") else x;
    var t := Tables(map[Id("bob") := Counters(0, 0)], map[Pair(Id("Alice"), Id("bob")) := Pending], {});
    var retained := Pair(Id("alice"), Id("bob"));
    assert OutRows(canon, t.follows, Id("bob")) == {} && InRows(canon, t.follows, Id("bob")) == {};
    assert Matches(canon, Pair(Id("Alice"), Id("bob")), Id("alice"), Id("bob"));
    assert Eligible(canon, t.follows, Id("alice"), Id("bob"));
    AcceptDriftsOtherwise(canon, t, retained, Id("bob"));
    forall e ensures e !in InRows(canon, AfterAccept(canon, t.follows, retained), Id("bob")) {
      AcceptedAfterAccept(canon, t.follows, retained, e);
    }
  }
}
