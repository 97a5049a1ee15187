/**
 * Guarded write facades (`guarded-writes.ts`): every payload is wrapped in a
 * `before` assertion and an `after` cleanup and handed to the wrapped database as
 * one atomic batch. A facade may itself wrap a facade.
 */
module GuardedWrites {
  import opened Wrappers

  const MAX_BATCH_STATEMENTS: nat := 50

  /** The guarded data plus the assertion table, whose rows live inside a batch only. */
  datatype Store<D> = Store(data: D, markers: set<nat>)

  datatype Ran<D, R> = Failed | Done(store: Store<D>, result: R)

  /** One SQL statement: it fails, or changes the store and reports a result. */
  type Statement<!D, R> = Store<D> -> Ran<D, R>

  datatype Batch<D, R> = Aborted | TooLarge | NoPayload | Committed(store: Store<D>, results: seq<R>)

  /** A fresh marker id and the predicate its witness evaluates. */
  datatype Guard<!D> = Guard(id: nat, holds: D -> bool)

  datatype Database<!D> = Raw | Guarded(inner: Database<D>, guard: Guard<D>)

  /** The driver: all statements in order, or nothing. */
  function RunAll<D, R>(s: Store<D>, stmts: seq<Statement<D, R>>): Batch<D, R>
    decreases |stmts|
  {
    if stmts == [] then Committed(s, [])
    else
      match stmts[0](s)
      case Failed => Aborted
      case Done(s1, r) =>
        match RunAll(s1, stmts[1..])
        case Committed(s2, rs) => Committed(s2, [r] + rs)
        case _ => Aborted
  }

  /** INSERT the witness: NULL, or an already used id, aborts. */
  function Before<D, R>(g: Guard<D>, marker: R): Statement<D, R> {
    (s: Store<D>) => if g.holds(s.data) && g.id !in s.markers then Done(s.(markers := s.markers + {g.id}), marker) else Failed
  }

  function After<D, R>(g: Guard<D>, marker: R): Statement<D, R> {
    (s: Store<D>) => Done(s.(markers := s.markers - {g.id}), marker)
  }

  /** `batch` of a facade; `marker` stands for the result rows of the assertion statements. */
  function RunBatch<D, R>(db: Database<D>, s: Store<D>, payload: seq<Statement<D, R>>, marker: R): Batch<D, R>
    decreases db
  {
    match db
    case Raw => RunAll(s, payload)
    case Guarded(inner, g) =>
      if |payload| > MAX_BATCH_STATEMENTS - 2 then TooLarge
      else if payload == [] then NoPayload
      else
        match RunBatch(inner, s, [Before(g, marker)] + payload + [After(g, marker)], marker)
        case Committed(s', results) => Committed(s', if |results| < 2 then [] else results[1..|results| - 1])
        case other => other
  }

  function Depth<D>(db: Database<D>): nat {
    if db.Raw? then 0 else 1 + Depth(db.inner)
  }

  function MarkerIds<D>(db: Database<D>): set<nat> {
    if db.Raw? then {} else {db.guard.id} + MarkerIds(db.inner)
  }

  /** Marker ids are drawn fresh, so they are distinct and unused. */
  ghost predicate FreshMarkers<D>(db: Database<D>, used: set<nat>) {
    db.Guarded? ==> db.guard.id !in used && db.guard.id !in MarkerIds(db.inner) && FreshMarkers(db.inner, used)
  }

  ghost predicate AllHold<D>(db: Database<D>, data: D) {
    db.Guarded? ==> db.guard.holds(data) && AllHold(db.inner, data)
  }

  /** How many payload statements a facade accepts: two fewer for each level of nesting. */
  ghost predicate SizeOk<D>(db: Database<D>, n: nat) {
    db.Guarded? ==> 1 <= n && n + 2 * Depth(db) <= MAX_BATCH_STATEMENTS
  }

  lemma {:induction false} RunAllConcat<D, R>(s: Store<D>, a: seq<Statement<D, R>>, b: seq<Statement<D, R>>)
    ensures RunAll(s, a + b) ==
      match RunAll(s, a)
      case Committed(s1, r1) => (match RunAll(s1, b) case Committed(s2, r2) => Committed(s2, r1 + r2) case _ => Aborted)
      case _ => Aborted
    ensures !RunAll(s, a).TooLarge? && !RunAll(s, a).NoPayload?
    decreases |a|
  {
    if a == [] {
      assert a + b == b;
      RunAllTotal(s, b);
    } else {
      assert (a + b)[1..] == a[1..] + b;
      match a[0](s)
      case Failed =>
      case Done(s1, r) =>
        RunAllConcat(s1, a[1..], b);
        if RunAll(s1, a[1..]).Committed? {
          var m := RunAll(s1, a[1..]);
          if RunAll(m.store, b).Committed? {
            assert [r] + (m.results + RunAll(m.store, b).results) == ([r] + m.results) + RunAll(m.store, b).results;
          }
        }
    }
  }

  lemma {:induction false} RunAllTotal<D, R>(s: Store<D>, a: seq<Statement<D, R>>)
    ensures RunAll(s, a).Aborted? || (RunAll(s, a).Committed? && |RunAll(s, a).results| == |a|)
    decreases |a|
  {
    if a != [] && a[0](s).Done? {
      RunAllTotal(a[0](s).store, a[1..]);
    }
  }

  /** Running a payload between its assertion and its cleanup. */
  lemma {:induction false} WrappedRun<D, R>(s: Store<D>, g: Guard<D>, payload: seq<Statement<D, R>>, marker: R)
    requires g.holds(s.data) && g.id !in s.markers
    ensures var wrapped := RunAll(s, [Before(g, marker)] + payload + [After(g, marker)]);
      match RunAll(s.(markers := s.markers + {g.id}), payload)
      case Committed(s1, rs) => wrapped == Committed(s1.(markers := s1.markers - {g.id}), [marker] + rs + [marker])
      case _ => wrapped == Aborted
  {
    var before, after := [Before(g, marker)], [After(g, marker)];
    var s0 := s.(markers := s.markers + {g.id});
    assert before[1..] == [] && after[1..] == [];
    assert RunAll(s, before) == Committed(s0, [marker]) by {
      assert RunAll(s0, before[1..]) == Committed(s0, []);
    }
    RunAllConcat(s0, payload, after);
    RunAllConcat(s, before, payload + after);
    assert before + payload + after == before + (payload + after);
    match RunAll(s0, payload)
    case Committed(s1, rs) =>
      var s2 := s1.(markers := s1.markers - {g.id});
      assert RunAll(s1, after) == Committed(s2, [marker]) by {
        assert RunAll(s2, after[1..]) == Committed(s2, []);
      }
      assert [marker] + (rs + [marker]) == [marker] + rs + [marker];
    case _ =>
  }

  lemma {:induction false} FailedGuardAborts<D, R>(s: Store<D>, g: Guard<D>, payload: seq<Statement<D, R>>, marker: R)
    requires !g.holds(s.data)
    ensures RunAll(s, [Before(g, marker)] + payload + [After(g, marker)]) == Aborted
  {
    var all := [Before(g, marker)] + payload + [After(g, marker)];
    assert all[0] == Before(g, marker);
  }

  /**
   * A batch through any nesting of guards commits exactly when it fits, every
   * guard's predicate holds in the state before it, and the payload itself runs;
   * then its results are the payload's own and no marker is left behind.
   */
  lemma {:induction false} NestedGuards<D, R>(db: Database<D>, s: Store<D>, payload: seq<Statement<D, R>>, marker: R)
    requires FreshMarkers(db, s.markers)
    ensures var out := RunBatch(db, s, payload, marker);
      var inside := RunAll(s.(markers := s.markers + MarkerIds(db)), payload);
      if SizeOk(db, |payload|) && AllHold(db, s.data) && inside.Committed?
      then out == Committed(inside.store.(markers := inside.store.markers - MarkerIds(db)), inside.results)
      else !out.Committed?
    decreases db
  {
    match db
    case Raw =>
      assert s.markers + {} == s.markers;
      RunAllTotal(s, payload);
      if RunAll(s, payload).Committed? {
        assert RunAll(s, payload).store.markers - {} == RunAll(s, payload).store.markers;
      }
    case Guarded(inner, g) =>
      if 0 < |payload| <= MAX_BATCH_STATEMENTS - 2 {
        var wrapped := [Before(g, marker)] + payload + [After(g, marker)];
        NestedGuards(inner, s, wrapped, marker);
        var s0 := s.(markers := s.markers + MarkerIds(inner));
        assert s0.markers + {g.id} == s.markers + MarkerIds(db);
        if g.holds(s.data) {
          WrappedRun(s0, g, payload, marker);
          var inside := RunAll(s.(markers := s.markers + MarkerIds(db)), payload);
          if inside.Committed? {
            assert inside.store.markers - {g.id} - MarkerIds(inner) == inside.store.markers - MarkerIds(db);
            assert ([marker] + inside.results + [marker])[1..|inside.results| + 1] == inside.results;
          }
        } else {
          FailedGuardAborts(s0, g, payload, marker);
        }
      }
  }

  /** Which refusal: an empty payload of a facade, or one that is too long for some level of the nesting. */
  lemma {:induction false} RefusedBySize<D, R>(db: Database<D>, s: Store<D>, payload: seq<Statement<D, R>>, marker: R)
    ensures RunBatch(db, s, payload, marker).NoPayload? <==> db.Guarded? && payload == []
    ensures RunBatch(db, s, payload, marker).TooLarge? <==> db.Guarded? && payload != [] && |payload| + 2 * Depth(db) > 50
    decreases db
  {
    match db
    case Raw => RunAllTotal(s, payload);
    case Guarded(inner, g) =>
      if 0 < |payload| <= 48 {
        RefusedBySize(inner, s, [Before(g, marker)] + payload + [After(g, marker)], marker);
      }
  }

  /** A marker id that is in use, in the table or at another level, never lets a batch commit. */
  lemma {:induction false} CommitsNeedFresh<D, R>(db: Database<D>, s: Store<D>, payload: seq<Statement<D, R>>, marker: R)
    requires RunBatch(db, s, payload, marker).Committed?
    ensures FreshMarkers(db, s.markers)
    decreases db
  {
    if db.Guarded? {
      var wrapped := [Before(db.guard, marker)] + payload + [After(db.guard, marker)];
      CommitsNeedFresh(db.inner, s, wrapped, marker);
      NestedGuards(db.inner, s, wrapped, marker);
      assert wrapped[0] == Before(db.guard, marker);
    }
  }
}
