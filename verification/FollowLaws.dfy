/**
 * What the follow batches leave, row by row and counter by counter, whether or not the
 * counters matched before.
 */
module FollowLaws {
  import opened Wrappers
  import opened FollowTables
  import FE = FollowEdges
  import FM = FollowMove

  // ---- severing, blocking and accepting ----

  /** A row of the direction: one endpoint as given, the other of the same identity. */
  predicate InDirection(canon: Id -> Id, e: Pair, follower: Id, following: Id) {
    || (e.follower == follower && canon(e.following) == canon(following))
    || (e.following == following && canon(e.follower) == canon(follower))
  }

  /** How many accepted rows the direction has. */
  function AcceptedCount(canon: Id -> Id, follows: map<Pair, Status>, follower: Id, following: Id): nat {
    |set e | e in follows && InDirection(canon, e, follower, following) && follows[e] == Accepted|
  }

  /** A counter that goes down by `n` stops at 0; one that is not positive stays. */
  function Lowered(count: int, n: nat): int {
    if count <= 0 then count else if count <= n then 0 else count - n
  }

  /** A counter after an accept; it is cut off at 0 whatever it was. */
  function Shifted(count: int, delta: int): int {
    if count + delta < 0 then 0 else count + delta
  }

  /** The rows that neither direction has are all that is left, as they were. */
  ghost predicate OthersLeft(canon: Id -> Id, before: map<Pair, Status>, after: map<Pair, Status>, left: Id, right: Id) {
    && (forall e :: e in after <==> e in before && !InDirection(canon, e, left, right) && !InDirection(canon, e, right, left))
    && (forall e <- after :: after[e] == before[e])
  }

  lemma {:induction false} SameDirection(canon: Id -> Id, follows: map<Pair, Status>, follower: Id, following: Id)
    ensures forall e :: FE.Matches(canon, e, follower, following) <==> InDirection(canon, e, follower, following)
    ensures |FE.AcceptedMatches(canon, follows, follower, following)| == AcceptedCount(canon, follows, follower, following)
  {
    assert FE.AcceptedMatches(canon, follows, follower, following)
      == set e | e in follows && InDirection(canon, e, follower, following) && follows[e] == Accepted;
  }

  /** Severing takes the rows of the direction and lowers both sides by its accepted rows. */
  lemma {:induction false} SeverMeans(canon: Id -> Id, t: FE.Tables, follower: Id, following: Id)
    ensures var t' := FE.Sever(canon, t, follower, following);
      var n := AcceptedCount(canon, t.follows, follower, following);
      && (forall e :: e in t'.follows <==> e in t.follows && !InDirection(canon, e, follower, following))
      && (forall e <- t'.follows :: t'.follows[e] == t.follows[e])
      && t'.blocks == t.blocks
      && t'.actors.Keys == t.actors.Keys
      && (forall a <- t.actors :: t'.actors[a] == Counters(
            if canon(a) == canon(following) then Lowered(t.actors[a].followers, n) else t.actors[a].followers,
            if canon(a) == canon(follower) then Lowered(t.actors[a].following, n) else t.actors[a].following))
  {
    SameDirection(canon, t.follows, follower, following);
  }

  /** Severing a pair leaves the rows of neither direction, and a block also records itself. */
  lemma {:induction false} PairMeans(canon: Id -> Id, t: FE.Tables, left: Id, right: Id, retainedTarget: Option<Id>)
    ensures OthersLeft(canon, t.follows, FE.SeverPair(canon, t, left, right).follows, left, right)
    ensures FE.SeverPair(canon, t, left, right).blocks == t.blocks
    ensures OthersLeft(canon, t.follows, FE.Block(canon, t, left, right, retainedTarget).follows, left, right)
    ensures FE.Block(canon, t, left, right, retainedTarget).blocks ==
      t.blocks + {(left, match retainedTarget case Some(target) => target case None => right)}
  {
    SeverMeans(canon, t, left, right);
    SeverMeans(canon, FE.Sever(canon, t, left, right), right, left);
    var t0 := t.(blocks := t.blocks + {(left, match retainedTarget case Some(target) => target case None => right)});
    SeverMeans(canon, t0, right, left);
    SeverMeans(canon, FE.Sever(canon, t0, right, left), left, right);
  }

  /** The direction has a row that is not rejected. */
  predicate HasLive(canon: Id -> Id, follows: map<Pair, Status>, follower: Id, following: Id) {
    exists e <- follows :: InDirection(canon, e, follower, following) && follows[e] != Rejected
  }

  /** An accept leaves of the direction the retained row alone, accepted if it was pending. */
  lemma {:induction false} AcceptedRows(canon: Id -> Id, t: FE.Tables, retained: Pair)
    ensures var t' := FE.Accept(canon, t, retained);
      && (forall e :: e in t'.follows <==>
            e in t.follows && (e == retained || !InDirection(canon, e, retained.follower, retained.following)))
      && (forall e <- t'.follows :: t'.follows[e] == if e == retained && t.follows[e] == Pending then Accepted else t.follows[e])
      && t'.blocks == t.blocks
  {
    SameDirection(canon, t.follows, retained.follower, retained.following);
  }

  /** Both sides are shifted by one for a live direction, less its accepted rows. */
  lemma {:induction false} AcceptedCounters(canon: Id -> Id, t: FE.Tables, retained: Pair)
    ensures var after := FE.Accept(canon, t, retained).actors;
      var F, G := retained.follower, retained.following;
      var delta := (if HasLive(canon, t.follows, F, G) then 1 else 0) - AcceptedCount(canon, t.follows, F, G);
      && after.Keys == t.actors.Keys
      && (forall a <- t.actors :: after[a] == Counters(
            if canon(a) == canon(G) then Shifted(t.actors[a].followers, delta) else t.actors[a].followers,
            if canon(a) == canon(F) then Shifted(t.actors[a].following, delta) else t.actors[a].following))
  {
    SameDirection(canon, t.follows, retained.follower, retained.following);
    SameLive(canon, t.follows, retained);
    forall a | a in t.actors ensures a in FE.Accept(canon, t, retained).actors {
      FE.AcceptValues(canon, t, retained, a);
    }
  }

  lemma {:induction false} SameLive(canon: Id -> Id, follows: map<Pair, Status>, retained: Pair)
    ensures FE.Eligible(canon, follows, retained.follower, retained.following)
      <==> HasLive(canon, follows, retained.follower, retained.following)
  {
    SameDirection(canon, follows, retained.follower, retained.following);
  }

  // ---- the Move ----

  /**
   * A local actor's counters after a Move: a local follower of the old actor loses one
   * followee, and whoever the old actor followed loses one follower unless the edge goes on
   * to the new actor.
   */
  lemma {:induction false} MovedCounters(m: FM.Move, g: FM.Graph, g': FM.Graph, a: Id)
    requires FM.Moved(m, g, g') && a in g.actors
    ensures a in g'.actors
    ensures var out, into := Pair(a, m.old_), Pair(m.old_, a);
      g'.actors[a] == Counters(
        if && g.actors[a].followers > 0 && into in g.follows && g.follows[into].status == Accepted
           && (a == m.new_ || Pair(m.new_, a) in g.follows)
        then g.actors[a].followers - 1 else g.actors[a].followers,
        if g.actors[a].following > 0 && out in g.follows && g.follows[out].status == Accepted
        then g.actors[a].following - 1 else g.actors[a].following)
  {
  }

  /** An edge to the new actor, in the final table or from the old actor itself, that carries this re-follow. */
  ghost predicate CarriesRefollow(m: FM.Move, g': FM.Graph, follower: Id, x: Id) {
    && m.isRefollow(x)
    && (follower == m.old_
        || (Pair(follower, m.new_) in g'.follows && g'.follows[Pair(follower, m.new_)].activity == Some(x)))
  }

  /**
   * No activity is lost or changed; every edge to the new actor that carries a re-follow id
   * has its activity; and every activity added is the Follow of such an edge's own follower.
   */
  lemma {:induction false} MovedActivities(m: FM.Move, g: FM.Graph, g': FM.Graph)
    requires m.old_ != m.new_ && FM.Moved(m, g, g')
    ensures forall x <- g.activities :: x in g'.activities && g'.activities[x] == g.activities[x]
    ensures forall e <- g'.follows :: e.following == m.new_ && g'.follows[e].activity.Some? && m.isRefollow(g'.follows[e].activity.value) ==>
      g'.follows[e].activity.value in g'.activities
    ensures forall x <- g'.activities :: x !in g.activities ==>
      && g'.activities[x].kind == "Follow" && g'.activities[x].target == m.new_
      && CarriesRefollow(m, g', g'.activities[x].actor, x)
  {
    var w := FM.Rewritten(m, g.actors, g.follows);
    assert g'.follows == FM.DeleteOldEdges(m, w);
    forall e | e in g'.follows && e.following == m.new_ && g'.follows[e].activity.Some? && m.isRefollow(g'.follows[e].activity.value)
      ensures g'.follows[e].activity.value in g'.activities
    {
      assert e in w && FM.IsRefollowEdge(m, w, e);
    }
    forall x | x in g'.activities && x !in g.activities
      ensures g'.activities[x].kind == "Follow" && g'.activities[x].target == m.new_ && CarriesRefollow(m, g', g'.activities[x].actor, x)
    {
      var e :| e in w && FM.IsRefollowEdge(m, w, e) && w[e].activity.value == x && g'.activities[x] == FM.Activity("Follow", e.follower, m.new_);
      assert e.follower != m.old_ ==> e in g'.follows;
    }
  }
}
