/**
 * Purging a blocked actor's or domain's interactions (`blocklist-purge.ts`): eight
 * tables are drained in turn, a page at a time, and each page's delete commits with
 * the recount of the counters it touches.
 */
module BlocklistPurge {
  import opened Wrappers
  import opened FiniteSets

  const PAGE: nat := 40
  const PHASES: nat := 8

  /** A row seen from the purged side: `actor` is the column the predicate looks at. */
  datatype Edge = Edge(actor: Id, target: Id)

  datatype Tally = Tally(likes: nat, announces: nat, shares: nat)

  datatype Profile = Profile(followers: nat, following: nat)

  datatype Db = Db(
    likes: set<Edge>, announces: set<Edge>, shares: set<Edge>,
    bookmarks: set<Edge>, views: set<Edge>, votes: set<Edge>,
    /** Follower as `actor`, followed as `target`; whether the follow is accepted. */
    follows: map<Edge, bool>,
    objects: map<Id, Tally>,
    /** Local actors. */
    actors: map<Id, Profile>)

  function Flip(e: Edge): Edge {
    Edge(e.target, e.actor)
  }

  /** The rows of the phase, turned so that the purged side is the actor. */
  function Rows(db: Db, q: nat): set<Edge>
    requires q < PHASES
  {
    if q == 0 then db.likes
    else if q == 1 then db.announces
    else if q == 2 then db.shares
    else if q == 3 then db.bookmarks
    else if q == 4 then db.views
    else if q == 5 then db.votes
    else if q == 6 then db.follows.Keys
    else set e | e in db.follows :: Flip(e)
  }

  function Matching(db: Db, q: nat, hit: Id -> bool): set<Edge>
    requires q < PHASES
  {
    set e | e in Rows(db, q) && hit(e.actor)
  }

  // ----- counters -----

  function Count(rows: set<Edge>, target: Id): nat {
    |set e | e in rows && e.target == target|
  }

  function CountBy(rows: set<Edge>, actor: Id): nat {
    |set e | e in rows && e.actor == actor|
  }

  function Accepted(follows: map<Edge, bool>): set<Edge> {
    set e | e in follows && follows[e]
  }

  ghost predicate ObjectCounts(db: Db) {
    forall o | o in db.objects ::
      db.objects[o] == Tally(Count(db.likes, o), Count(db.announces, o), Count(db.shares, o))
  }

  ghost predicate FollowerCounts(db: Db) {
    forall a | a in db.actors :: db.actors[a].followers == Count(Accepted(db.follows), a)
  }

  ghost predicate FollowingCounts(db: Db) {
    forall a | a in db.actors :: db.actors[a].following == CountBy(Accepted(db.follows), a)
  }

  ghost predicate CountersMatch(db: Db) {
    ObjectCounts(db) && FollowerCounts(db) && FollowingCounts(db)
  }

  // ----- one page, one batch -----

  function Targets(page: set<Edge>): set<Id> {
    set e | e in page :: e.target
  }

  /** The rows of the page are deleted and, in the same batch, the counters of their targets recounted. */
  function CommitPage(db: Db, q: nat, page: set<Edge>): Db
    requires q < PHASES
  {
    var ts := Targets(page);
    if q == 0 then
      var rows := db.likes - page;
      db.(likes := rows, objects := map o | o in db.objects :: if o in ts then db.objects[o].(likes := Count(rows, o)) else db.objects[o])
    else if q == 1 then
      var rows := db.announces - page;
      db.(announces := rows, objects := map o | o in db.objects :: if o in ts then db.objects[o].(announces := Count(rows, o)) else db.objects[o])
    else if q == 2 then
      var rows := db.shares - page;
      db.(shares := rows, objects := map o | o in db.objects :: if o in ts then db.objects[o].(shares := Count(rows, o)) else db.objects[o])
    else if q == 3 then db.(bookmarks := db.bookmarks - page)
    else if q == 4 then db.(views := db.views - page)
    else if q == 5 then db.(votes := db.votes - page)
    else if q == 6 then
      var rows := db.follows - page;
      db.(follows := rows, actors := map a | a in db.actors :: if a in ts then db.actors[a].(followers := Count(Accepted(rows), a)) else db.actors[a])
    else
      var rows := db.follows - set e | e in page :: Flip(e);
      db.(follows := rows, actors := map a | a in db.actors :: if a in ts then db.actors[a].(following := CountBy(Accepted(rows), a)) else db.actors[a])
  }

  lemma {:induction false} CountKept(rows: set<Edge>, page: set<Edge>, target: Id)
    requires target !in Targets(page)
    ensures Count(rows - page, target) == Count(rows, target)
  {
    assert forall e | e in page :: e.target in Targets(page);
    assert (set e | e in rows - page && e.target == target) == (set e | e in rows && e.target == target);
  }

  /** The counters of liked, announced and shared objects always survive a page. */
  lemma {:induction false} PageKeepsObjectCounts(db: Db, q: nat, page: set<Edge>)
    requires q < PHASES && ObjectCounts(db)
    ensures ObjectCounts(CommitPage(db, q, page))
  {
    forall o | o in db.objects && o !in Targets(page)
      ensures Count(db.likes - page, o) == Count(db.likes, o)
      ensures Count(db.announces - page, o) == Count(db.announces, o)
      ensures Count(db.shares - page, o) == Count(db.shares, o)
    {
      CountKept(db.likes, page, o);
      CountKept(db.announces, page, o);
      CountKept(db.shares, page, o);
    }
  }

  /** An accepted follow that the page removes and that counts for a local actor on the purged side. */
  ghost predicate LocalLoss(db: Db, q: nat, page: set<Edge>, e: Edge) {
    && e in page && e.actor in db.actors
    && var row := if q == 6 then e else Flip(e);
    row in db.follows && db.follows[row]
  }

  lemma {:induction false} AcceptedLess(follows: map<Edge, bool>, gone: set<Edge>)
    ensures Accepted(follows - gone) == Accepted(follows) - gone
  {
  }

  /** A count goes down exactly when a counted row is removed. */
  lemma {:induction false} CountDrops(rows: set<Edge>, gone: set<Edge>, a: Id)
    ensures Count(rows - gone, a) == Count(rows, a) <==> forall e | e in gone && e in rows :: e.target != a
    ensures CountBy(rows - gone, a) == CountBy(rows, a) <==> forall e | e in gone && e in rows :: e.actor != a
  {
    var t, t' := set e | e in rows && e.target == a, set e | e in rows - gone && e.target == a;
    SubsetCount(t', t);
    assert t == t' <==> forall e | e in gone && e in rows :: e.target != a by {
      assert forall e :: e in t && e !in t' <==> e in gone && e in rows && e.target == a;
    }
    var b, b' := set e | e in rows && e.actor == a, set e | e in rows - gone && e.actor == a;
    SubsetCount(b', b);
    assert b == b' <==> forall e | e in gone && e in rows :: e.actor != a by {
      assert forall e :: e in b && e !in b' <==> e in gone && e in rows && e.actor == a;
    }
  }

  /** The page's rows as they stand in the follows table. */
  function Gone(q: nat, page: set<Edge>): set<Edge> {
    if q == 6 then page else set e | e in page :: Flip(e)
  }

  lemma {:induction false} FollowerPage(db: Db, page: set<Edge>)
    requires FollowerCounts(db) && FollowingCounts(db)
    ensures FollowerCounts(CommitPage(db, 6, page))
    ensures FollowingCounts(CommitPage(db, 6, page)) <==> forall e :: !LocalLoss(db, 6, page, e)
  {
    var after := CommitPage(db, 6, page);
    var old', rows := Accepted(db.follows), Accepted(after.follows);
    AcceptedLess(db.follows, page);
    forall a | a in db.actors
      ensures a !in Targets(page) ==> Count(rows, a) == Count(old', a)
      ensures CountBy(rows, a) == CountBy(old', a) <==> forall e | e in page && e in old' :: e.actor != a
    {
      CountDrops(old', page, a);
      assert forall e | e in page :: e.target in Targets(page);
    }
    if FollowingCounts(after) {
      forall e ensures !LocalLoss(db, 6, page, e) {
        if e.actor in db.actors {
          assert after.actors[e.actor].following == CountBy(rows, e.actor);
        }
      }
    } else {
      var a :| a in after.actors && after.actors[a].following != CountBy(rows, a);
      var e :| e in page && e in old' && e.actor == a;
      assert LocalLoss(db, 6, page, e);
    }
  }

  lemma {:induction false} FollowingPage(db: Db, page: set<Edge>)
    requires FollowerCounts(db) && FollowingCounts(db)
    ensures FollowingCounts(CommitPage(db, 7, page))
    ensures FollowerCounts(CommitPage(db, 7, page)) <==> forall e :: !LocalLoss(db, 7, page, e)
  {
    var after := CommitPage(db, 7, page);
    var gone := Gone(7, page);
    var old', rows := Accepted(db.follows), Accepted(after.follows);
    AcceptedLess(db.follows, gone);
    forall a | a in db.actors
      ensures a !in Targets(page) ==> CountBy(rows, a) == CountBy(old', a)
      ensures Count(rows, a) == Count(old', a) <==> forall e | e in gone && e in old' :: e.target != a
    {
      CountDrops(old', gone, a);
      assert forall e | e in gone :: Flip(e) in page && e.actor in Targets(page);
    }
    if FollowerCounts(after) {
      forall e ensures !LocalLoss(db, 7, page, e) {
        if e.actor in db.actors {
          assert after.actors[e.actor].followers == Count(rows, e.actor);
          assert e in page ==> Flip(e) in gone;
        }
      }
    } else {
      var a :| a in after.actors && after.actors[a].followers != Count(rows, a);
      var e :| e in gone && e in old' && e.target == a;
      assert LocalLoss(db, 7, page, Flip(e));
    }
  }

  /**
   * A page keeps every counter equal to its edges exactly when it removes no accepted
   * follow of a local actor on the purged side.
   */
  lemma {:induction false} PageKeepsCounters(db: Db, q: nat, page: set<Edge>)
    requires q < PHASES && CountersMatch(db)
    ensures CountersMatch(CommitPage(db, q, page)) <==> q < 6 || forall e :: !LocalLoss(db, q, page, e)
  {
    PageKeepsObjectCounts(db, q, page);
    if q == 6 {
      FollowerPage(db, page);
    } else if q == 7 {
      FollowingPage(db, page);
    }
  }

  lemma {:induction false} FlippedRows(follows: map<Edge, bool>, gone: set<Edge>)
    ensures (set e | e in follows - gone :: Flip(e)) == (set e | e in follows :: Flip(e)) - (set e | e in gone :: Flip(e))
    ensures (set e | e in (set e | e in gone :: Flip(e)) :: Flip(e)) == gone
  {
    var left, right := set e | e in follows - gone :: Flip(e), (set e | e in follows :: Flip(e)) - (set e | e in gone :: Flip(e));
    forall e ensures e in left <==> e in right {
      assert e in left ==> Flip(e) in follows - gone;
      assert e in right ==> Flip(e) in follows - gone;
    }
    assert forall e | e in gone :: Flip(Flip(e)) == e;
  }

  /** A concrete drift: the purged actor is local, and its following counter is not recounted. */
  lemma {:induction false} LocalPurgeDrifts()
    ensures var x, y := Id("local"), Id("friend");
      var db := Db({}, {}, {}, {}, {}, {}, map[Edge(x, y) := true], map[], map[x := Profile(0, 1)]);
      CountersMatch(db) && !CountersMatch(CommitPage(db, 6, {Edge(x, y)}))
  {
    var x, y := Id("local"), Id("friend");
    var e := Edge(x, y);
    var db := Db({}, {}, {}, {}, {}, {}, map[e := true], map[], map[x := Profile(0, 1)]);
    assert (set f | f in Accepted(db.follows) && f.target == x) == {};
    assert (set f | f in Accepted(db.follows) && f.actor == x) == {e};
    assert CountersMatch(db);
    PageKeepsCounters(db, 6, {e});
    assert LocalLoss(db, 6, {e}, e);
  }

  /** What a page leaves in every table. */
  lemma {:induction false} PageRows(db: Db, q: nat, page: set<Edge>, p: nat)
    requires q < PHASES && p < PHASES
    ensures Rows(CommitPage(db, q, page), p) <= Rows(db, p)
    ensures Rows(CommitPage(db, q, page), q) == Rows(db, q) - page
    ensures p != q && !(p >= 6 && q >= 6) ==> Rows(CommitPage(db, q, page), p) == Rows(db, p)
  {
    if q == 6 {
      FlippedRows(db.follows, page);
    } else if q == 7 {
      FlippedRows(db.follows, Gone(7, page));
    }
  }

  /** The page names this as a target. */
  ghost predicate Hits(page: set<Edge>, id: Id) {
    exists e <- page :: e.target == id
  }

  /**
   * A page of an object table sets its counter of every target to the rows that are left,
   * whatever it was before, and changes no other counter and no actor.
   */
  lemma {:induction false} ObjectsAreRecounted(db: Db, q: nat, page: set<Edge>)
    requires q < 6
    ensures var after := CommitPage(db, q, page);
      && after.actors == db.actors && after.follows == db.follows
      && after.objects.Keys == db.objects.Keys
      && forall o <- db.objects :: after.objects[o] == Tally(
           if q == 0 && Hits(page, o) then Count(db.likes - page, o) else db.objects[o].likes,
           if q == 1 && Hits(page, o) then Count(db.announces - page, o) else db.objects[o].announces,
           if q == 2 && Hits(page, o) then Count(db.shares - page, o) else db.objects[o].shares)
  {
    assert forall o :: o in Targets(page) <==> Hits(page, o);
  }

  /** A page of follows sets the counter of every local target to the accepted follows that are left, and no other counter. */
  lemma {:induction false} ActorsAreRecounted(db: Db, q: nat, page: set<Edge>)
    requires 6 <= q < PHASES
    ensures var after := CommitPage(db, q, page);
      && after.objects == db.objects
      && after.actors.Keys == db.actors.Keys
      && forall a <- db.actors :: after.actors[a] == Profile(
           if q == 6 && Hits(page, a) then Count(Accepted(after.follows), a) else db.actors[a].followers,
           if q == 7 && Hits(page, a) then CountBy(Accepted(after.follows), a) else db.actors[a].following)
    ensures forall e :: e in CommitPage(db, q, page).follows <==> e in db.follows && (if q == 6 then e else Edge(e.target, e.actor)) !in page
    ensures forall e <- CommitPage(db, q, page).follows :: CommitPage(db, q, page).follows[e] == db.follows[e]
  {
    assert forall a :: a in Targets(page) <==> Hits(page, a);
    assert forall e :: e in Gone(q, page) <==> (if q == 6 then e else Flip(e)) in page by {
      assert forall e :: Flip(Flip(e)) == e;
      assert forall e :: e in Gone(7, page) <==> Flip(e) in page;
    }
  }

  // ----- runs -----

  /** A purge between two awaits: the table it is draining and, once selected, the page. */
  datatype State = State(db: Db, phase: nat, page: Option<set<Edge>>)

  datatype Step =
    /** Read the next page of the current table. */
    | Select(rows: set<Edge>)
    /** Commit it. */
    | Commit
    /** Another request changed the database meanwhile. */
    | Others(db: Db)

  /** LIMIT: a page holds matching rows, and all of them unless it is full. */
  predicate IsPage(all: set<Edge>, page: set<Edge>) {
    page <= all && |page| <= PAGE && (|page| < PAGE ==> page == all)
  }

  ghost predicate NoLocal(db: Db, hit: Id -> bool) {
    forall a | a in db.actors :: !hit(a)
  }

  ghost predicate Fewer(next: Db, db: Db, hit: Id -> bool) {
    forall q | 0 <= q < PHASES :: Matching(next, q, hit) <= Matching(db, q, hit)
  }

  /** Others keep the counters, make no matching actor local and add no matching row. */
  ghost predicate Allowed(db: Db, next: Db, hit: Id -> bool) {
    && CountersMatch(next) && NoLocal(next, hit)
    && Fewer(next, db, hit)
  }

  ghost predicate Enabled(st: State, step: Step, hit: Id -> bool) {
    match step
    case Select(rows) => st.phase < PHASES && st.page.None? && IsPage(Matching(st.db, st.phase, hit), rows)
    case Commit => st.phase < PHASES && st.page.Some?
    case Others(next) => Allowed(st.db, next, hit)
  }

  /** An empty page ends the table; any other is committed before the next is read. */
  function Next(st: State, step: Step): State {
    match step
    case Select(rows) => if rows == {} then st.(phase := st.phase + 1) else st.(page := Some(rows))
    case Commit => if st.phase < PHASES && st.page.Some? then st.(db := CommitPage(st.db, st.phase, st.page.value), page := None) else st
    case Others(next) => st.(db := next)
  }

  ghost predicate EnabledRun(st: State, steps: seq<Step>, hit: Id -> bool)
    decreases |steps|
  {
    steps == [] || (Enabled(st, steps[0], hit) && EnabledRun(Next(st, steps[0]), steps[1..], hit))
  }

  function Run(st: State, steps: seq<Step>): State
    decreases |steps|
  {
    if steps == [] then st else Run(Next(st, steps[0]), steps[1..])
  }

  ghost predicate Inv(st: State, hit: Id -> bool) {
    && st.phase <= PHASES
    && CountersMatch(st.db) && NoLocal(st.db, hit)
    && (st.page.Some? ==> forall e | e in st.page.value :: hit(e.actor))
    && forall q | 0 <= q < st.phase :: Matching(st.db, q, hit) == {}
  }

  lemma {:induction false} CommitKeepsInv(st: State, hit: Id -> bool)
    requires Inv(st, hit) && Enabled(st, Commit, hit)
    ensures Inv(Next(st, Commit), hit)
  {
    var page := st.page.value;
    var after := CommitPage(st.db, st.phase, page);
    PageKeepsCounters(st.db, st.phase, page);
    assert after.actors.Keys == st.db.actors.Keys;
    forall q | 0 <= q < st.phase ensures Matching(after, q, hit) == {} {
      PageRows(st.db, st.phase, page, q);
      assert Matching(after, q, hit) <= Matching(st.db, q, hit);
    }
  }

  lemma {:induction false} StepKeepsInv(st: State, step: Step, hit: Id -> bool)
    requires Inv(st, hit) && Enabled(st, step, hit)
    ensures Inv(Next(st, step), hit)
  {
    match step {
      case Select(rows) =>
      case Commit => CommitKeepsInv(st, hit);
      case Others(next) =>
        forall q | 0 <= q < st.phase ensures Matching(next, q, hit) == {} {
          assert Matching(next, q, hit) <= Matching(st.db, q, hit);
        }
    }
  }

  /**
   * In every run, with others writing between any two steps and wherever it stops: the
   * counters equal the edges, and no finished table holds a matching row. So a purge
   * that has finished left none in any table.
   */
  lemma {:induction false} RunKeepsInv(st: State, steps: seq<Step>, hit: Id -> bool)
    requires Inv(st, hit) && EnabledRun(st, steps, hit)
    ensures Inv(Run(st, steps), hit)
    ensures Run(st, steps).phase == PHASES ==> forall q | 0 <= q < PHASES :: Matching(Run(st, steps).db, q, hit) == {}
    decreases |steps|
  {
    if steps != [] {
      StepKeepsInv(st, steps[0], hit);
      RunKeepsInv(Next(st, steps[0]), steps[1..], hit);
    }
  }

  // ----- termination -----

  /** Rows of the current table weigh three, or one once selected; a selected page weighs one itself. */
  function Load(all: set<Edge>, page: Option<set<Edge>>): nat {
    if page.None? then 3 * |all| else 3 * |all - page.value| + |all * page.value| + 1
  }

  function Waiting(db: Db, q: nat, hit: Id -> bool): nat
    requires q <= PHASES
    decreases PHASES - q
  {
    if q == PHASES then 0 else 3 * |Matching(db, q, hit)| + Waiting(db, q + 1, hit)
  }

  function Measure(st: State, hit: Id -> bool): nat
    requires st.phase <= PHASES
  {
    if st.phase == PHASES then 0
    else Load(Matching(st.db, st.phase, hit), st.page) + Waiting(st.db, st.phase + 1, hit) + (PHASES - st.phase)
  }

  lemma {:induction false} LoadShrinks(fewer: set<Edge>, all: set<Edge>, page: Option<set<Edge>>)
    requires fewer <= all
    ensures Load(fewer, page) <= Load(all, page)
  {
    if page.Some? {
      SubsetCount(fewer - page.value, all - page.value);
      SubsetCount(fewer * page.value, all * page.value);
    } else {
      SubsetCount(fewer, all);
    }
  }

  lemma {:induction false} LoadSelect(all: set<Edge>, page: set<Edge>)
    requires page <= all && page != {}
    ensures Load(all, Some(page)) < Load(all, None)
  {
    assert all * page == page && all == (all - page) + page && (all - page) !! page;
  }

  lemma {:induction false} LoadCommit(all: set<Edge>, page: set<Edge>)
    ensures Load(all - page, None) < Load(all, Some(page))
  {
  }

  lemma {:induction false} WaitingShrinks(db: Db, next: Db, q: nat, hit: Id -> bool)
    requires q <= PHASES && Fewer(next, db, hit)
    ensures Waiting(next, q, hit) <= Waiting(db, q, hit)
    decreases PHASES - q
  {
    if q < PHASES {
      SubsetCount(Matching(next, q, hit), Matching(db, q, hit));
      WaitingShrinks(db, next, q + 1, hit);
    }
  }

  lemma {:induction false} OthersShrink(st: State, next: Db, hit: Id -> bool)
    requires st.phase <= PHASES && Fewer(next, st.db, hit)
    ensures Measure(st.(db := next), hit) <= Measure(st, hit)
  {
    var q := st.phase;
    if q < PHASES {
      assert Waiting(next, q + 1, hit) <= Waiting(st.db, q + 1, hit) by { WaitingShrinks(st.db, next, q + 1, hit); }
      assert Load(Matching(next, q, hit), st.page) <= Load(Matching(st.db, q, hit), st.page) by {
        LoadShrinks(Matching(next, q, hit), Matching(st.db, q, hit), st.page);
      }
    }
  }

  lemma {:induction false} SelectShrinks(st: State, rows: set<Edge>, hit: Id -> bool)
    requires st.phase < PHASES && st.page.None? && IsPage(Matching(st.db, st.phase, hit), rows)
    ensures Measure(Next(st, Select(rows)), hit) < Measure(st, hit)
  {
    if rows != {} {
      LoadSelect(Matching(st.db, st.phase, hit), rows);
    }
  }

  lemma {:induction false} CommitShrinks(st: State, hit: Id -> bool)
    requires st.phase < PHASES && st.page.Some?
    ensures Measure(Next(st, Commit), hit) < Measure(st, hit)
  {
    var q, page := st.phase, st.page.value;
    var after := CommitPage(st.db, q, page);
    CommitFewer(st.db, q, page, hit);
    WaitingShrinks(st.db, after, q + 1, hit);
    LoadCommit(Matching(st.db, q, hit), page);
  }

  lemma {:induction false} CommitFewer(db: Db, q: nat, page: set<Edge>, hit: Id -> bool)
    requires q < PHASES
    ensures Fewer(CommitPage(db, q, page), db, hit)
    ensures Matching(CommitPage(db, q, page), q, hit) == Matching(db, q, hit) - page
  {
    forall p | 0 <= p < PHASES ensures Matching(CommitPage(db, q, page), p, hit) <= Matching(db, p, hit) {
      PageRows(db, q, page, p);
    }
    PageRows(db, q, page, q);
  }

  function PurgeSteps(steps: seq<Step>): nat {
    if steps == [] then 0 else (if steps[0].Others? then 0 else 1) + PurgeSteps(steps[1..])
  }

  /** However others interleave, the purge takes at most as many steps as its measure at the start. */
  lemma {:induction false} PurgeTerminates(st: State, steps: seq<Step>, hit: Id -> bool)
    requires st.phase <= PHASES && EnabledRun(st, steps, hit)
    ensures PurgeSteps(steps) <= Measure(st, hit)
    decreases |steps|
  {
    if steps != [] {
      match steps[0] {
        case Select(rows) => SelectShrinks(st, rows, hit);
        case Commit => CommitShrinks(st, hit);
        case Others(next) => OthersShrink(st, next, hit);
      }
      PurgeTerminates(Next(st, steps[0]), steps[1..], hit);
    }
  }

  lemma {:induction false} PageExists(all: set<Edge>, room: nat) returns (page: set<Edge>)
    ensures page <= all && |page| <= room && (|page| < room ==> page == all)
  {
    if room == 0 || all == {} {
      page := {};
    } else {
      var e :| e in all;
      page := PageExists(all - {e}, room - 1);
      page := page + {e};
    }
  }

  /** Until it has finished the purge always has a step to take. */
  lemma {:induction false} PurgeNeverStuck(st: State, hit: Id -> bool) returns (step: Step)
    requires st.phase < PHASES
    ensures !step.Others? && Enabled(st, step, hit)
  {
    if st.page.Some? {
      step := Commit;
    } else {
      var page := PageExists(Matching(st.db, st.phase, hit), PAGE);
      step := Select(page);
    }
  }

  // ----- the loops -----

  class Purge {
    var db: Db

    constructor (db: Db)
      ensures this.db == db
    {
      this.db := db;
    }

    /** Up to forty of the matching rows. */
    method SelectPage(q: nat, hit: Id -> bool) returns (page: set<Edge>)
      requires q < PHASES
      ensures IsPage(Matching(db, q, hit), page) && |page| <= 40
    {
      var rest := Matching(db, q, hit);
      page := {};
      while rest != {} && |page| < PAGE
        invariant page + rest == Matching(db, q, hit) && page !! rest && |page| <= PAGE
        decreases rest
      {
        var e :| e in rest;
        page := page + {e};
        rest := rest - {e};
      }
      if rest == {} {
        assert page == Matching(db, q, hit);
      }
    }

    /** Select, commit, until a page is empty. */
    method DrainAffectedEdges(q: nat, hit: Id -> bool)
      requires q < PHASES
      modifies this
      ensures Matching(db, q, hit) == {}
      ensures Rows(db, q) == Rows(old(db), q) - Matching(old(db), q, hit)
      ensures Draining(old(db), db, q, hit)
    {
      ghost var done: set<Edge> := {};
      while true
        invariant Drained(old(db), db, q, done, hit)
        decreases Rows(db, q)
      {
        var page := SelectPage(q, hit);
        if page == {} {
          DrainEnds(old(db), db, q, done, hit);
          return;
        }
        DrainOn(old(db), db, q, done, page, hit);
        db := CommitPage(db, q, page);
        done := done + page;
      }
    }

    /** All eight tables in turn. */
    method PurgeRetainedInteractionEdges(hit: Id -> bool)
      modifies this
      ensures forall q | 0 <= q < PHASES :: Matching(db, q, hit) == {}
      ensures forall q | 0 <= q < 6 :: Rows(db, q) == Rows(old(db), q) - Matching(old(db), q, hit)
      ensures db.follows == LeftFollows(old(db).follows, 8, hit)
      ensures CountersMatch(old(db)) && NoLocal(old(db), hit) ==> CountersMatch(db)
    {
      var q := 0;
      while q < PHASES
        invariant q <= PHASES
        invariant forall p | 0 <= p < q :: Matching(db, p, hit) == {}
        invariant forall p | 0 <= p < q && p < 6 :: Rows(db, p) == Rows(old(db), p) - Matching(old(db), p, hit)
        invariant forall p | q <= p < 6 :: Rows(db, p) == Rows(old(db), p)
        invariant db.follows == LeftFollows(old(db).follows, q, hit)
        invariant CountersMatch(old(db)) && NoLocal(old(db), hit) ==> CountersMatch(db) && NoLocal(db, hit)
      {
        ghost var before := db;
        DrainAffectedEdges(q, hit);
        forall p | 0 <= p < q ensures Matching(db, p, hit) == {} {
          assert Matching(db, p, hit) <= Matching(before, p, hit);
        }
        FollowsAfter(before, db, old(db).follows, q, hit);
        q := q + 1;
      }
    }
  }

  ghost predicate Submap(a: map<Edge, bool>, b: map<Edge, bool>) {
    forall e | e in a :: e in b && a[e] == b[e]
  }

  /** The follows, with their status, that phases before `q` leave. */
  function LeftFollows(follows: map<Edge, bool>, q: nat, hit: Id -> bool): map<Edge, bool> {
    map e | e in follows && (q > 6 ==> !hit(e.actor)) && (q > 7 ==> !hit(e.target)) :: follows[e]
  }

  lemma {:induction false} FollowsAfter(before: Db, after: Db, follows: map<Edge, bool>, q: nat, hit: Id -> bool)
    requires q < PHASES && before.follows == LeftFollows(follows, q, hit) && Submap(after.follows, before.follows)
    requires q < 6 ==> Rows(after, 6) == Rows(before, 6)
    requires q >= 6 ==> Rows(after, q) == Rows(before, q) - Matching(before, q, hit)
    ensures after.follows == LeftFollows(follows, q + 1, hit)
  {
    forall e ensures e in after.follows <==> e in LeftFollows(follows, q + 1, hit) {
      if q == 7 {
        assert forall f :: f in after.follows <==> Flip(f) in Rows(after, 7);
        assert e in before.follows <==> Flip(e) in Rows(before, 7);
      } else {
        assert e in after.follows <==> e in Rows(after, 6);
        assert e in before.follows <==> e in Rows(before, 6);
      }
    }
  }

  /** What draining one table keeps: no row is added, unrelated tables and follow statuses stay, counters match. */
  ghost predicate Draining(before: Db, db: Db, q: nat, hit: Id -> bool)
    requires q < PHASES
  {
    && (forall p | 0 <= p < PHASES :: Rows(db, p) <= Rows(before, p))
    && (forall p | 0 <= p < PHASES && p != q && !(p >= 6 && q >= 6) :: Rows(db, p) == Rows(before, p))
    && Submap(db.follows, before.follows)
    && (CountersMatch(before) && NoLocal(before, hit) ==> CountersMatch(db) && NoLocal(db, hit))
  }

  lemma {:induction false} PageDrains(db: Db, q: nat, page: set<Edge>, hit: Id -> bool)
    requires q < PHASES && page <= Matching(db, q, hit)
    ensures Draining(db, CommitPage(db, q, page), q, hit)
  {
    var after := CommitPage(db, q, page);
    forall p | 0 <= p < PHASES
      ensures Rows(after, p) <= Rows(db, p)
      ensures p != q && !(p >= 6 && q >= 6) ==> Rows(after, p) == Rows(db, p)
    {
      PageRows(db, q, page, p);
    }
    if CountersMatch(db) && NoLocal(db, hit) {
      PageKeepsCounters(db, q, page);
    }
  }

  /** So far exactly the matching rows in `done` are gone. */
  ghost predicate Drained(before: Db, db: Db, q: nat, done: set<Edge>, hit: Id -> bool)
    requires q < PHASES
  {
    Draining(before, db, q, hit) && done <= Matching(before, q, hit) && Rows(db, q) == Rows(before, q) - done
  }

  lemma {:induction false} DrainOn(before: Db, db: Db, q: nat, done: set<Edge>, page: set<Edge>, hit: Id -> bool)
    requires q < PHASES && Drained(before, db, q, done, hit) && page <= Matching(db, q, hit) && page != {}
    ensures var after := CommitPage(db, q, page);
      Drained(before, after, q, done + page, hit) && Rows(after, q) < Rows(db, q)
  {
    PageDrains(db, q, page, hit);
    PageRows(db, q, page, q);
    var e :| e in page;
    assert e in Rows(db, q);
  }

  lemma {:induction false} DrainEnds(before: Db, db: Db, q: nat, done: set<Edge>, hit: Id -> bool)
    requires q < PHASES && Drained(before, db, q, done, hit) && Matching(db, q, hit) == {}
    ensures Rows(db, q) == Rows(before, q) - Matching(before, q, hit)
  {
    assert forall e | e in Matching(before, q, hit) :: e in Rows(db, q) ==> e in Matching(db, q, hit);
  }
}
