/**
 * Rewriting the follow graph after an inbound Move (`account-migration.ts`): eight
 * set-based statements in one batch.
 */
module FollowMove {
  import opened Wrappers
  import opened FollowTables

  datatype Edge = Edge(status: Status, activity: Option<Id>, createdAt: int, acceptedAt: Option<int>)

  /** An outbound activity row. */
  datatype Activity = Activity(kind: string, actor: Id, target: Id)

  datatype Graph = Graph(actors: map<Id, Counters>, follows: map<Pair, Edge>, activities: map<Id, Activity>)

  /**
   * One Move: the two actors, the refollow namespace and the random ids drawn for
   * the local re-follows.
   */
  datatype Move = Move(old_: Id, new_: Id, isRefollow: Id -> bool, mint: Id -> Id)

  predicate IsAccepted(follows: map<Pair, Edge>, e: Pair) {
    e in follows && follows[e].status == Accepted
  }

  // ---- the eight statements ----

  function DecrementLocalFollowers(m: Move, actors: map<Id, Counters>, follows: map<Pair, Edge>): map<Id, Counters> {
    map a | a in actors :: if actors[a].following > 0 && IsAccepted(follows, Pair(a, m.old_))
                           then actors[a].(following := actors[a].following - 1) else actors[a]
  }

  function DecrementDroppedFollowees(m: Move, actors: map<Id, Counters>, follows: map<Pair, Edge>): map<Id, Counters> {
    map a | a in actors :: if actors[a].followers > 0 && IsAccepted(follows, Pair(m.old_, a)) && (a == m.new_ || Pair(m.new_, a) in follows)
                           then actors[a].(followers := actors[a].followers - 1) else actors[a]
  }

  function RewriteOldAsFollower(m: Move, follows: map<Pair, Edge>): map<Pair, Edge> {
    follows + map e | e in follows && e.follower == m.old_ && e.following != m.new_ && Pair(m.new_, e.following) !in follows
                  :: Pair(m.new_, e.following) := follows[e]
  }

  function RewriteLocalFollowers(m: Move, actors: map<Id, Counters>, follows: map<Pair, Edge>): map<Pair, Edge> {
    follows + map e | e in follows && e.following == m.old_ && e.follower != m.new_ && Pair(e.follower, m.new_) !in follows && e.follower in actors
                  :: Pair(e.follower, m.new_) := Edge(Pending, Some(m.mint(e.follower)), follows[e].createdAt, None)
  }

  function RewriteRemoteFollowers(m: Move, actors: map<Id, Counters>, follows: map<Pair, Edge>): map<Pair, Edge> {
    follows + map e | e in follows && e.following == m.old_ && e.follower != m.new_ && Pair(e.follower, m.new_) !in follows && e.follower !in actors
                  :: Pair(e.follower, m.new_) := follows[e]
  }

  /** The edges whose re-follow activity has to exist. */
  predicate IsRefollowEdge(m: Move, follows: map<Pair, Edge>, e: Pair) {
    e in follows && e.following == m.new_ && follows[e].activity.Some? && m.isRefollow(follows[e].activity.value)
  }

  /** INSERT ... SELECT ... ON CONFLICT DO NOTHING; on a shared id any one of the rows is recorded. */
  ghost predicate RefollowsRecorded(m: Move, follows: map<Pair, Edge>, before: map<Id, Activity>, after: map<Id, Activity>) {
    && (forall x <- before :: x in after && after[x] == before[x])
    && (forall e <- follows :: IsRefollowEdge(m, follows, e) ==> follows[e].activity.value in after)
    && (forall x <- after :: x !in before ==>
          exists e <- follows :: IsRefollowEdge(m, follows, e) && follows[e].activity.value == x && after[x] == Activity("Follow", e.follower, m.new_))
  }

  function DeleteOldEdges(m: Move, follows: map<Pair, Edge>): map<Pair, Edge> {
    map e | e in follows && e.follower != m.old_ && e.following != m.old_ :: follows[e]
  }

  /** The follow table after the three rewrites. */
  function Rewritten(m: Move, actors: map<Id, Counters>, follows: map<Pair, Edge>): map<Pair, Edge> {
    RewriteRemoteFollowers(m, actors, RewriteLocalFollowers(m, actors, RewriteOldAsFollower(m, follows)))
  }

  function ActorsAfter(m: Move, g: Graph): map<Id, Counters> {
    DecrementDroppedFollowees(m, DecrementLocalFollowers(m, g.actors, g.follows), g.follows)
  }

  /** The whole batch. */
  ghost predicate Moved(m: Move, g: Graph, g': Graph) {
    && g'.actors == ActorsAfter(m, g)
    && g'.follows == DeleteOldEdges(m, Rewritten(m, g.actors, g.follows))
    && RefollowsRecorded(m, Rewritten(m, g.actors, g.follows), g.activities, g'.activities)
  }

  // ---- the resulting graph, edge by edge ----

  /** The edge the batch leaves at a pair, stated directly on the graph before it. */
  function EdgeAfter(m: Move, g: Graph, e: Pair): Option<Edge> {
    var viaFollower := Pair(m.old_, e.following);
    var viaFollowing := Pair(e.follower, m.old_);
    if e.follower == m.old_ || e.following == m.old_ then None
    else if e in g.follows then Some(g.follows[e])
    else if e.follower == m.new_ && e.following != m.new_ && viaFollower in g.follows then Some(g.follows[viaFollower])
    else if e.following == m.new_ && e.follower != m.new_ && viaFollowing in g.follows then
      Some(if e.follower in g.actors then Edge(Pending, Some(m.mint(e.follower)), g.follows[viaFollowing].createdAt, None)
           else g.follows[viaFollowing])
    else None
  }

  lemma {:induction false} FirstRewriteAt(m: Move, follows: map<Pair, Edge>, e: Pair)
    ensures var f1 := RewriteOldAsFollower(m, follows);
      if e in follows then e in f1 && f1[e] == follows[e]
      else if e.follower == m.new_ && e.following != m.new_ && Pair(m.old_, e.following) in follows
      then e in f1 && f1[e] == follows[Pair(m.old_, e.following)]
      else e !in f1
  {
  }

  lemma {:induction false} SecondRewriteAt(m: Move, actors: map<Id, Counters>, follows: map<Pair, Edge>, e: Pair)
    ensures var f2 := RewriteLocalFollowers(m, actors, follows);
      if e in follows then e in f2 && f2[e] == follows[e]
      else if e.following == m.new_ && e.follower != m.new_ && Pair(e.follower, m.old_) in follows && e.follower in actors
      then e in f2 && f2[e] == Edge(Pending, Some(m.mint(e.follower)), follows[Pair(e.follower, m.old_)].createdAt, None)
      else e !in f2
  {
  }

  lemma {:induction false} ThirdRewriteAt(m: Move, actors: map<Id, Counters>, follows: map<Pair, Edge>, e: Pair)
    ensures var f3 := RewriteRemoteFollowers(m, actors, follows);
      if e in follows then e in f3 && f3[e] == follows[e]
      else if e.following == m.new_ && e.follower != m.new_ && Pair(e.follower, m.old_) in follows && e.follower !in actors
      then e in f3 && f3[e] == follows[Pair(e.follower, m.old_)]
      else e !in f3
  {
  }

  /** The three rewrites taken together, away from the old actor. */
  lemma {:induction false} RewrittenAt(m: Move, g: Graph, e: Pair)
    requires m.old_ != m.new_ && e.follower != m.old_ && e.following != m.old_
    ensures var f := Rewritten(m, g.actors, g.follows);
      match EdgeAfter(m, g, e)
      case Some(edge) => e in f && f[e] == edge
      case None => e !in f
  {
    var f1 := RewriteOldAsFollower(m, g.follows);
    var f2 := RewriteLocalFollowers(m, g.actors, f1);
    FirstRewriteAt(m, g.follows, e);
    FirstRewriteAt(m, g.follows, Pair(e.follower, m.old_));
    SecondRewriteAt(m, g.actors, f1, e);
    SecondRewriteAt(m, g.actors, f1, Pair(e.follower, m.old_));
    ThirdRewriteAt(m, g.actors, f2, e);
  }

  /** A follow table that is EdgeAfter, pair by pair. */
  ghost predicate EdgesAre(m: Move, g: Graph, follows: map<Pair, Edge>) {
    forall e :: (e in follows <==> EdgeAfter(m, g, e).Some?) && (e in follows ==> follows[e] == EdgeAfter(m, g, e).value)
  }

  /** The batch leaves exactly EdgeAfter at every pair. */
  lemma {:induction false} MovedEdges(m: Move, g: Graph, g': Graph)
    requires m.old_ != m.new_ && Moved(m, g, g')
    ensures EdgesAre(m, g, g'.follows)
  {
    forall e ensures (e in g'.follows <==> EdgeAfter(m, g, e).Some?) && (e in g'.follows ==> g'.follows[e] == EdgeAfter(m, g, e).value) {
      if e.follower != m.old_ && e.following != m.old_ {
        RewrittenAt(m, g, e);
      }
    }
  }

  lemma {:induction false} NoEdgeNamesOld(m: Move, g: Graph, g': Graph)
    requires Moved(m, g, g')
    ensures forall e <- g'.follows :: e.follower != m.old_ && e.following != m.old_
  {
  }

  // ---- counters ----

  function InEdges(follows: map<Pair, Edge>, a: Id): set<Pair> {
    set e | e in follows && e.following == a && follows[e].status == Accepted
  }

  function OutEdges(follows: map<Pair, Edge>, a: Id): set<Pair> {
    set e | e in follows && e.follower == a && follows[e].status == Accepted
  }

  ghost predicate CounterMatch(g: Graph, a: Id)
    requires a in g.actors
  {
    g.actors[a].followers == |InEdges(g.follows, a)| && g.actors[a].following == |OutEdges(g.follows, a)|
  }

  ghost predicate CountersMatch(g: Graph) {
    forall a <- g.actors :: CounterMatch(g, a)
  }

  /** A set that loses one element and gains others. */
  lemma {:induction false} SwapSize<T>(before: set<T>, after: set<T>, lost: set<T>, gained: set<T>)
    requires lost <= before && gained !! before
    requires after == (before - lost) + gained
    ensures |after| == |before| - |lost| + |gained|
  {
    assert before == lost + (before - lost);
  }

  function LostIn(m: Move, g: Graph, a: Id): set<Pair> {
    if IsAccepted(g.follows, Pair(m.old_, a)) then {Pair(m.old_, a)} else {}
  }

  function LostOut(m: Move, g: Graph, a: Id): set<Pair> {
    if IsAccepted(g.follows, Pair(a, m.old_)) then {Pair(a, m.old_)} else {}
  }

  /** Accepted edges a local actor gains as a followee. */
  function GainedIn(m: Move, g: Graph, a: Id): set<Pair> {
    if a != m.new_ then
      if IsAccepted(g.follows, Pair(m.old_, a)) && Pair(m.new_, a) !in g.follows then {Pair(m.new_, a)} else {}
    else
      set e | e in g.follows && e.following == m.old_ && e.follower != m.old_ && e.follower != m.new_ && e.follower !in g.actors
              && Pair(e.follower, m.new_) !in g.follows && g.follows[e].status == Accepted :: Pair(e.follower, m.new_)
  }

  /** Accepted edges a local actor gains as a follower: none unless it is the new actor. */
  function GainedOut(m: Move, g: Graph, a: Id): set<Pair> {
    if a != m.new_ then {}
    else
      set e | e in g.follows && e.follower == m.old_ && e.following != m.old_ && e.following != m.new_
              && Pair(m.new_, e.following) !in g.follows && g.follows[e].status == Accepted :: Pair(m.new_, e.following)
  }

  /** Which accepted edges point at a local actor afterwards, pair by pair. */
  lemma {:induction false} InEdgeAt(m: Move, g: Graph, follows: map<Pair, Edge>, a: Id, e: Pair)
    requires m.old_ != m.new_ && EdgesAre(m, g, follows) && m.old_ !in g.actors && a in g.actors
    ensures e in InEdges(follows, a) <==> e in (InEdges(g.follows, a) - LostIn(m, g, a)) + GainedIn(m, g, a)
  {
    assert e in follows <==> EdgeAfter(m, g, e).Some?;
    if a == m.new_ && e.following == a {
      var via := Pair(e.follower, m.old_);
      assert e in GainedIn(m, g, a) <==>
        (via in g.follows && e.follower != m.old_ && e.follower != m.new_ && e.follower !in g.actors && e !in g.follows && g.follows[via].status == Accepted);
    }
  }

  lemma {:induction false} OutEdgeAt(m: Move, g: Graph, follows: map<Pair, Edge>, a: Id, e: Pair)
    requires m.old_ != m.new_ && EdgesAre(m, g, follows) && m.old_ !in g.actors && a in g.actors
    ensures e in OutEdges(follows, a) <==> e in (OutEdges(g.follows, a) - LostOut(m, g, a)) + GainedOut(m, g, a)
  {
    assert e in follows <==> EdgeAfter(m, g, e).Some?;
    if a == m.new_ && e.follower == a {
      var via := Pair(m.old_, e.following);
      assert e in GainedOut(m, g, a) <==>
        (via in g.follows && e.following != m.old_ && e.following != m.new_ && e !in g.follows && g.follows[via].status == Accepted);
    }
  }

  lemma {:induction false} InEdgesAfter(m: Move, g: Graph, follows: map<Pair, Edge>, a: Id)
    requires m.old_ != m.new_ && EdgesAre(m, g, follows) && m.old_ !in g.actors && a in g.actors
    ensures InEdges(follows, a) == (InEdges(g.follows, a) - LostIn(m, g, a)) + GainedIn(m, g, a)
  {
    forall e ensures e in InEdges(follows, a) <==> e in (InEdges(g.follows, a) - LostIn(m, g, a)) + GainedIn(m, g, a) {
      InEdgeAt(m, g, follows, a, e);
    }
  }

  lemma {:induction false} OutEdgesAfter(m: Move, g: Graph, follows: map<Pair, Edge>, a: Id)
    requires m.old_ != m.new_ && EdgesAre(m, g, follows) && m.old_ !in g.actors && a in g.actors
    ensures OutEdges(follows, a) == (OutEdges(g.follows, a) - LostOut(m, g, a)) + GainedOut(m, g, a)
  {
    forall e ensures e in OutEdges(follows, a) <==> e in (OutEdges(g.follows, a) - LostOut(m, g, a)) + GainedOut(m, g, a) {
      OutEdgeAt(m, g, follows, a, e);
    }
  }

  lemma {:induction false} GainsAreNew(m: Move, g: Graph, a: Id)
    ensures LostIn(m, g, a) <= InEdges(g.follows, a) && GainedIn(m, g, a) !! InEdges(g.follows, a)
    ensures LostOut(m, g, a) <= OutEdges(g.follows, a) && GainedOut(m, g, a) !! OutEdges(g.follows, a)
  {
  }

  /** How many accepted edges a local actor has afterwards. */
  lemma {:induction false} EdgeCountsAfter(m: Move, g: Graph, follows: map<Pair, Edge>, a: Id)
    requires m.old_ != m.new_ && EdgesAre(m, g, follows) && m.old_ !in g.actors && a in g.actors
    ensures |InEdges(follows, a)| == |InEdges(g.follows, a)| - |LostIn(m, g, a)| + |GainedIn(m, g, a)|
    ensures |OutEdges(follows, a)| == |OutEdges(g.follows, a)| - |LostOut(m, g, a)| + |GainedOut(m, g, a)|
  {
    GainsAreNew(m, g, a);
    assert |InEdges(follows, a)| == |InEdges(g.follows, a)| - |LostIn(m, g, a)| + |GainedIn(m, g, a)| by {
      InEdgesAfter(m, g, follows, a);
      SwapSize(InEdges(g.follows, a), InEdges(follows, a), LostIn(m, g, a), GainedIn(m, g, a));
    }
    OutEdgesAfter(m, g, follows, a);
    SwapSize(OutEdges(g.follows, a), OutEdges(follows, a), LostOut(m, g, a), GainedOut(m, g, a));
  }

  /** The two counter statements, for one actor whose counters matched. */
  lemma {:induction false} CountersAfter(m: Move, g: Graph, a: Id)
    requires a in g.actors && CounterMatch(g, a)
    ensures var after := ActorsAfter(m, g);
      && a in after
      && after[a].following == g.actors[a].following - |LostOut(m, g, a)|
      && after[a].followers == g.actors[a].followers -
         (if IsAccepted(g.follows, Pair(m.old_, a)) && (a == m.new_ || Pair(m.new_, a) in g.follows) then 1 else 0)
  {
    if IsAccepted(g.follows, Pair(a, m.old_)) {
      assert Pair(a, m.old_) in OutEdges(g.follows, a);
    }
    if IsAccepted(g.follows, Pair(m.old_, a)) {
      assert Pair(m.old_, a) in InEdges(g.follows, a);
    }
  }

  /** Counters against edges, for any follow table that is EdgeAfter. */
  lemma {:induction false} CounterMatchAfter(m: Move, g: Graph, g': Graph, a: Id)
    requires m.old_ != m.new_ && m.old_ !in g.actors && a in g.actors && CounterMatch(g, a)
    requires g'.actors == ActorsAfter(m, g) && EdgesAre(m, g, g'.follows)
    ensures a in g'.actors
    ensures a != m.new_ ==> CounterMatch(g', a)
    ensures a == m.new_ ==> (CounterMatch(g', a) <==> GainedIn(m, g, a) == {} && GainedOut(m, g, a) == {})
  {
    CountersAfter(m, g, a);
    EdgeCountsAfter(m, g, g'.follows, a);
  }

  /** Every local actor other than the new one keeps counters that match its edges. */
  lemma {:induction false} MoveKeepsCounters(m: Move, g: Graph, g': Graph, a: Id)
    requires m.old_ != m.new_ && m.old_ !in g.actors && Moved(m, g, g') && CountersMatch(g)
    requires a in g.actors && a != m.new_
    ensures a in g'.actors && CounterMatch(g', a)
  {
    MovedEdges(m, g, g');
    CounterMatchAfter(m, g, g', a);
  }

  /**
   * A local new actor's counters stay right exactly when it gains no accepted edge:
   * the batch moves edges onto it without counting them.
   */
  lemma {:induction false} NewActorCounters(m: Move, g: Graph, g': Graph)
    requires m.old_ != m.new_ && m.old_ !in g.actors && Moved(m, g, g') && CountersMatch(g)
    requires m.new_ in g.actors
    ensures m.new_ in g'.actors
    ensures CounterMatch(g', m.new_) <==> GainedIn(m, g, m.new_) == {} && GainedOut(m, g, m.new_) == {}
  {
    MovedEdges(m, g, g');
    CounterMatchAfter(m, g, g', m.new_);
  }

  const OLD := Id("old")
  const NEW := Id("new")
  const REMOTE := Id("remote")
  const DRIFT_MOVE := Move(OLD, NEW, (_: Id) => false, (x: Id) => x)
  const DRIFT_GRAPH := Graph(map[NEW := Counters(0, 0)], map[Pair(REMOTE, OLD) := Edge(Accepted, None, 0, None)], map[])

  /** A concrete drift: one remote follower of the old actor, moved onto a local new actor. */
  lemma {:induction false} NewActorDrift(g': Graph)
    requires Moved(DRIFT_MOVE, DRIFT_GRAPH, g')
    ensures CountersMatch(DRIFT_GRAPH) && NEW in g'.actors && !CounterMatch(g', NEW)
  {
    DriftGraphMatches();
    GainDrifts(DRIFT_MOVE, DRIFT_GRAPH, g', Pair(REMOTE, NEW));
  }

  lemma {:induction false} GainDrifts(m: Move, g: Graph, g': Graph, e: Pair)
    requires m.old_ != m.new_ && m.old_ !in g.actors && Moved(m, g, g') && CountersMatch(g)
    requires m.new_ in g.actors && e in GainedIn(m, g, m.new_)
    ensures m.new_ in g'.actors && !CounterMatch(g', m.new_)
  {
    NewActorCounters(m, g, g');
  }

  lemma {:induction false} DriftGraphMatches()
    ensures CountersMatch(DRIFT_GRAPH)
    ensures Pair(REMOTE, NEW) in GainedIn(DRIFT_MOVE, DRIFT_GRAPH, NEW)
  {
    var g := DRIFT_GRAPH;
    assert InEdges(g.follows, NEW) == {} && OutEdges(g.follows, NEW) == {};
    assert CounterMatch(g, NEW);
    assert Pair(REMOTE, OLD) in g.follows;
  }

  // ---- re-follows ----

  /** The drawn ids are in the namespace, distinct, and not in use. */
  ghost predicate FreshIds(m: Move, g: Graph) {
    && (forall f :: m.isRefollow(m.mint(f)))
    && (forall f, f2 :: m.mint(f) == m.mint(f2) ==> f == f2)
    && (forall f :: m.mint(f) !in g.activities)
    && (forall f, e :: e in g.follows ==> g.follows[e].activity != Some(m.mint(f)))
  }

  /** In the rewritten table a drawn id is carried by its own edge only. */
  lemma {:induction false} MintedEdgeIsOwn(m: Move, g: Graph, f: Id, e: Pair)
    requires FreshIds(m, g)
    requires e in Rewritten(m, g.actors, g.follows) && Rewritten(m, g.actors, g.follows)[e].activity == Some(m.mint(f))
    ensures e == Pair(f, m.new_)
  {
    var f1 := RewriteOldAsFollower(m, g.follows);
    var f2 := RewriteLocalFollowers(m, g.actors, f1);
    FirstRewriteAt(m, g.follows, e);
    FirstRewriteAt(m, g.follows, Pair(e.follower, m.old_));
    SecondRewriteAt(m, g.actors, f1, e);
    SecondRewriteAt(m, g.actors, f1, Pair(e.follower, m.old_));
    ThirdRewriteAt(m, g.actors, f2, e);
    assert forall f3, x :: x in g.follows ==> g.follows[x].activity != Some(m.mint(f3));
  }

  /**
   * Every other local follower of the old actor ends with an edge to the new one;
   * where the batch created it, it is pending and its Follow is persisted under the
   * same id, as an activity of that follower on the new actor.
   */
  lemma {:induction false} LocalFollowersRefollow(m: Move, g: Graph, g': Graph, f: Id)
    requires m.old_ != m.new_ && m.old_ !in g.actors && Moved(m, g, g') && FreshIds(m, g)
    requires f in g.actors && f != m.new_ && Pair(f, m.old_) in g.follows
    ensures Pair(f, m.new_) in g'.follows
    ensures Pair(f, m.new_) !in g.follows ==>
      && g'.follows[Pair(f, m.new_)].status == Pending
      && g'.follows[Pair(f, m.new_)].activity == Some(m.mint(f))
      && m.mint(f) in g'.activities && g'.activities[m.mint(f)] == Activity("Follow", f, m.new_)
  {
    var e := Pair(f, m.new_);
    MovedEdges(m, g, g');
    assert EdgeAfter(m, g, e).Some?;
    if e !in g.follows {
      var w := Rewritten(m, g.actors, g.follows);
      RewrittenAt(m, g, e);
      assert IsRefollowEdge(m, w, e);
      var x :| x in w && IsRefollowEdge(m, w, x) && w[x].activity.value == m.mint(f) && g'.activities[m.mint(f)] == Activity("Follow", x.follower, m.new_);
      MintedEdgeIsOwn(m, g, f, x);
    }
  }

  // ---- running it again ----

  lemma {:induction false} NothingToRewrite(m: Move, actors: map<Id, Counters>, follows: map<Pair, Edge>)
    requires forall e <- follows :: e.follower != m.old_ && e.following != m.old_
    ensures Rewritten(m, actors, follows) == follows && DeleteOldEdges(m, follows) == follows
  {
    assert RewriteOldAsFollower(m, follows) == follows;
    assert RewriteLocalFollowers(m, actors, follows) == follows;
    assert RewriteRemoteFollowers(m, actors, follows) == follows;
  }

  /** Once every re-follow edge has its activity, recording again adds nothing. */
  lemma {:induction false} NothingToRecord(m: Move, follows: map<Pair, Edge>, before: map<Id, Activity>, after: map<Id, Activity>)
    requires RefollowsRecorded(m, follows, before, after)
    requires forall e <- follows :: IsRefollowEdge(m, follows, e) ==> follows[e].activity.value in before
    ensures after == before
  {
    assert forall x <- after :: x in before;
  }

  lemma {:induction false} RecordedStaysRecorded(m: Move, m2: Move, w: map<Pair, Edge>, activities: map<Id, Activity>)
    requires m2 == m.(mint := m2.mint)
    requires forall e <- w :: IsRefollowEdge(m, w, e) ==> w[e].activity.value in activities
    ensures var follows := DeleteOldEdges(m, w);
      forall e <- follows :: IsRefollowEdge(m2, follows, e) ==> follows[e].activity.value in activities
  {
    var follows := DeleteOldEdges(m, w);
    forall e | e in follows && IsRefollowEdge(m2, follows, e) ensures follows[e].activity.value in activities {
      assert IsRefollowEdge(m, w, e);
    }
  }

  lemma {:induction false} CountersUntouched(m: Move, g: Graph)
    requires forall e <- g.follows :: e.follower != m.old_ && e.following != m.old_
    ensures ActorsAfter(m, g) == g.actors
  {
    assert DecrementLocalFollowers(m, g.actors, g.follows) == g.actors;
  }

  /** The batch run again, with any new random ids, changes nothing at all. */
  lemma {:induction false} MoveIsIdempotent(m: Move, m2: Move, g: Graph, g': Graph, g'': Graph)
    requires m.old_ != m.new_ && Moved(m, g, g')
    requires m2 == m.(mint := m2.mint) && Moved(m2, g', g'')
    ensures g'' == g'
  {
    NoEdgeNamesOld(m, g, g');
    NothingToRewrite(m2, g'.actors, g'.follows);
    CountersUntouched(m2, g');
    RecordedStaysRecorded(m, m2, Rewritten(m, g.actors, g.follows), g'.activities);
    NothingToRecord(m2, g'.follows, g'.activities, g''.activities);
  }

  /** The batch as it runs, statement by statement. */
  class GraphStore {
    var actors: map<Id, Counters>
    var follows: map<Pair, Edge>
    var activities: map<Id, Activity>

    constructor (g: Graph)
      ensures State() == g
    {
      actors, follows, activities := g.actors, g.follows, g.activities;
    }

    function State(): Graph
      reads this
    {
      Graph(actors, follows, activities)
    }

    method RecordRefollows(m: Move)
      modifies this`activities
      ensures RefollowsRecorded(m, follows, old(activities), activities)
    {
      var rest := set e | e in follows && IsRefollowEdge(m, follows, e);
      while rest != {}
        invariant forall x <- old(activities) :: x in activities && activities[x] == old(activities)[x]
        invariant forall e <- follows :: IsRefollowEdge(m, follows, e) ==> e in rest || follows[e].activity.value in activities
        invariant forall e <- rest :: IsRefollowEdge(m, follows, e)
        invariant forall x <- activities :: x !in old(activities) ==>
          exists e <- follows :: IsRefollowEdge(m, follows, e) && follows[e].activity.value == x && activities[x] == Activity("Follow", e.follower, m.new_)
        decreases |rest|
      {
        var e :| e in rest;
        var id := follows[e].activity.value;
        if id !in activities {
          activities := activities[id := Activity("Follow", e.follower, m.new_)];
        }
        rest := rest - {e};
      }
    }

    /** Statements one and two: the counters. */
    method RepairCounters(m: Move)
      modifies this`actors
      ensures actors == ActorsAfter(m, old(State()))
    {
      actors := DecrementLocalFollowers(m, actors, follows);
      actors := DecrementDroppedFollowees(m, actors, follows);
    }

    /** Statements three to five: the edges. */
    method RewriteEdges(m: Move)
      modifies this`follows
      ensures follows == Rewritten(m, actors, old(follows))
    {
      follows := RewriteOldAsFollower(m, follows);
      follows := RewriteLocalFollowers(m, actors, follows);
      follows := RewriteRemoteFollowers(m, actors, follows);
    }

    method DeleteOld(m: Move)
      modifies this`follows
      ensures follows == DeleteOldEdges(m, old(follows))
    {
      follows := map e | e in follows && e.follower != m.old_ :: follows[e];
      follows := map e | e in follows && e.following != m.old_ :: follows[e];
    }

    method RewriteMovedFollowGraph(m: Move)
      modifies this
      ensures Moved(m, old(State()), State())
    {
      RepairCounters(m);
      RewriteEdges(m);
      ghost var w := follows;
      RecordRefollows(m);
      DeleteOld(m);
      AssembleMoved(m, old(State()), State(), w);
    }
  }

  lemma {:induction false} AssembleMoved(m: Move, g: Graph, g': Graph, w: map<Pair, Edge>)
    requires g'.actors == ActorsAfter(m, g)
    requires w == Rewritten(m, g'.actors, g.follows)
    requires RefollowsRecorded(m, w, g.activities, g'.activities)
    requires g'.follows == DeleteOldEdges(m, w)
    ensures Moved(m, g, g')
  {
    assert g'.actors.Keys == g.actors.Keys;
    SameLocals(m, g.actors, g'.actors, g.follows);
  }

  /** The rewrites only ask which actors are local. */
  lemma {:induction false} SameLocals(m: Move, a: map<Id, Counters>, b: map<Id, Counters>, follows: map<Pair, Edge>)
    requires a.Keys == b.Keys
    ensures Rewritten(m, a, follows) == Rewritten(m, b, follows)
  {
    var f1 := RewriteOldAsFollower(m, follows);
    assert RewriteLocalFollowers(m, a, f1) == RewriteLocalFollowers(m, b, f1);
    var f2 := RewriteLocalFollowers(m, a, f1);
    assert RewriteRemoteFollowers(m, a, f2) == RewriteRemoteFollowers(m, b, f2);
  }
}
