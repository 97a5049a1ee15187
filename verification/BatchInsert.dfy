/**
 * `d1-write.ts`: cutting a row list into INSERT statements by what they compile to,
 * and replacing a set of rows in one batch. `cost` is the number of parameters a
 * chunk of rows compiles to.
 */
module BatchInsert {
  import opened Chunks

  const PARAM_BUDGET: nat := 90
  const MAX_STATEMENTS: nat := 50

  type Cost<!Row> = seq<Row> -> nat

  datatype Plan<Row> = Statements(chunks: seq<seq<Row>>) | ShapeError | TooLarge

  function Min(a: int, b: int): int {
    if a <= b then a else b
  }

  function Max(a: int, b: int): int {
    if a <= b then b else a
  }

  /** The next size to try after `size` rows compiled to `parameters`, over the budget. */
  function Scaled(size: nat, parameters: nat): (n: nat)
    requires size > 1 && parameters > PARAM_BUDGET
    ensures 1 <= n < size
  {
    Max(1, Min(size - 1, size * PARAM_BUDGET / parameters))
  }

  /** How many of the first rows go into the next statement; 0 when one row alone is over. */
  function Fit<Row>(cost: Cost<Row>, rows: seq<Row>, size: nat): (n: nat)
    requires 1 <= size <= |rows|
    ensures n <= size
    decreases size
  {
    var parameters := cost(rows[..size]);
    if parameters <= PARAM_BUDGET then size
    else if size == 1 then 0
    else Fit(cost, rows, Scaled(size, parameters))
  }

  function FirstSize<Row>(rows: seq<Row>): nat {
    Min(PARAM_BUDGET, |rows|)
  }

  /** All chunks, or nothing when some chunk cannot be made to fit. */
  function Cut<Row>(cost: Cost<Row>, rows: seq<Row>): Plan<Row>
    decreases |rows|
  {
    if rows == [] then Statements([])
    else
      var n := Fit(cost, rows, FirstSize(rows));
      if n == 0 then ShapeError
      else
        var more := Cut(cost, rows[n..]);
        if more.Statements? then Statements([rows[..n]] + more.chunks) else more
  }

  function InsertPlan<Row>(cost: Cost<Row>, rows: seq<Row>): Plan<Row> {
    var p := Cut(cost, rows);
    if p.Statements? && |p.chunks| > MAX_STATEMENTS then TooLarge else p
  }

  lemma {:induction false} FitIsWithinBudget<Row>(cost: Cost<Row>, rows: seq<Row>, size: nat)
    requires 1 <= size <= |rows|
    ensures var n := Fit(cost, rows, size); if n == 0 then cost(rows[..1]) > PARAM_BUDGET else cost(rows[..n]) <= PARAM_BUDGET
    decreases size
  {
    var parameters := cost(rows[..size]);
    if parameters > PARAM_BUDGET && size > 1 {
      FitIsWithinBudget(cost, rows, Scaled(size, parameters));
    }
  }

  predicate Sized<Row>(cost: Cost<Row>, chunks: seq<seq<Row>>) {
    forall k | 0 <= k < |chunks| :: chunks[k] != [] && cost(chunks[k]) <= PARAM_BUDGET
  }

  /** Whatever the cost function: no row is lost, moved or repeated, and each statement is within the budget. */
  lemma {:induction false} ChunksAreTheRows<Row>(cost: Cost<Row>, rows: seq<Row>)
    requires Cut(cost, rows).Statements?
    ensures var chunks := Cut(cost, rows).chunks; Concat(chunks) == rows && Sized(cost, chunks)
    decreases |rows|
  {
    if rows != [] {
      var n := Fit(cost, rows, FirstSize(rows));
      FitIsWithinBudget(cost, rows, FirstSize(rows));
      ChunksAreTheRows(cost, rows[n..]);
      var more := Cut(cost, rows[n..]).chunks;
      assert Cut(cost, rows).chunks[1..] == more;
      assert rows[..n] + rows[n..] == rows;
    }
  }

  lemma {:induction false} StatementsWithinLimits<Row>(cost: Cost<Row>, rows: seq<Row>)
    requires InsertPlan(cost, rows).Statements?
    ensures var chunks := InsertPlan(cost, rows).chunks;
      Concat(chunks) == rows && Sized(cost, chunks) && |chunks| <= MAX_STATEMENTS
  {
    ChunksAreTheRows(cost, rows);
  }

  ghost predicate OverBudgetAt<Row>(cost: Cost<Row>, rows: seq<Row>, k: int) {
    0 <= k < |rows| && cost([rows[k]]) > PARAM_BUDGET
  }

  /** Adding rows on either side never lowers the cost. */
  ghost predicate Monotone<Row(!new)>(cost: Cost<Row>) {
    forall a: seq<Row>, b: seq<Row>, c: seq<Row> :: cost(b) <= cost(a + b + c)
  }

  lemma {:induction false} ShapeErrorHasRow<Row>(cost: Cost<Row>, rows: seq<Row>) returns (k: nat)
    requires Cut(cost, rows).ShapeError?
    ensures OverBudgetAt(cost, rows, k)
    decreases |rows|
  {
    var n := Fit(cost, rows, FirstSize(rows));
    FitIsWithinBudget(cost, rows, FirstSize(rows));
    if n == 0 {
      assert rows[..1] == [rows[0]];
      k := 0;
    } else {
      k := ShapeErrorHasRow(cost, rows[n..]);
      assert rows[n..][k] == rows[n + k];
      k := n + k;
    }
  }

  /** Under a monotone cost a row within a fitting chunk fits by itself. */
  lemma {:induction false} RowsFit<Row(!new)>(cost: Cost<Row>, chunks: seq<seq<Row>>, k: nat)
    requires Monotone(cost) && Sized(cost, chunks) && k < |Concat(chunks)|
    ensures cost([Concat(chunks)[k]]) <= PARAM_BUDGET
  {
    var c := chunks[0];
    if k < |c| {
      assert c == c[..k] + [c[k]] + c[k + 1..];
    } else {
      assert forall j | 0 <= j < |chunks| - 1 :: chunks[1..][j] == chunks[j + 1];
      RowsFit(cost, chunks[1..], k - |c|);
    }
  }

  /** A shape error is reported exactly when some single row is over the budget. */
  lemma {:induction false} ShapeErrorIffRow<Row(!new)>(cost: Cost<Row>, rows: seq<Row>)
    requires Monotone(cost)
    ensures InsertPlan(cost, rows).ShapeError? <==> exists k :: OverBudgetAt(cost, rows, k)
  {
    var p := Cut(cost, rows);
    if p.ShapeError? {
      var k := ShapeErrorHasRow(cost, rows);
    } else {
      CutNeverTooLarge(cost, rows);
      ChunksAreTheRows(cost, rows);
      forall k ensures !OverBudgetAt(cost, rows, k) {
        if 0 <= k < |rows| {
          RowsFit(cost, p.chunks, k);
        }
      }
    }
  }

  lemma {:induction false} CutNeverTooLarge<Row>(cost: Cost<Row>, rows: seq<Row>)
    ensures !Cut(cost, rows).TooLarge?
    decreases |rows|
  {
    if rows != [] {
      var n := Fit(cost, rows, FirstSize(rows));
      if n > 0 {
        CutNeverTooLarge(cost, rows[n..]);
      }
    }
  }

  // ----- rows of equal cost -----

  ghost predicate Uniform<Row(!new)>(cost: Cost<Row>, p: nat) {
    forall c: seq<Row> :: cost(c) == p * |c|
  }

  lemma {:induction false} ScaledUniform(p: nat, size: nat)
    requires 1 <= p <= PARAM_BUDGET && size > 1 && p * size > PARAM_BUDGET
    ensures Scaled(size, p * size) == PARAM_BUDGET / p && p * (PARAM_BUDGET / p) <= PARAM_BUDGET
  {
    var q := PARAM_BUDGET / p;
    var r := PARAM_BUDGET % p;
    assert PARAM_BUDGET == p * q + r;
    assert q >= 1;
    QuotientBelow(p, q, r, size);
    assert size * PARAM_BUDGET == q * (p * size) + r * size by {
      assert size * (p * q + r) == size * (p * q) + size * r;
      assert size * (p * q) == q * (p * size);
    }
    assert r * size < p * size;
    QuotientIs(size * PARAM_BUDGET, p * size, q, r * size);
  }

  lemma {:induction false} MulOrder(k: nat, a: int, b: int)
    ensures a <= b ==> k * a <= k * b
  {
  }

  lemma {:induction false} QuotientBelow(p: nat, q: nat, r: nat, size: nat)
    requires p * size > p * q + r
    ensures q < size
  {
    MulOrder(p, size, q);
  }

  lemma {:induction false} QuotientIs(n: nat, d: nat, q: nat, r: nat)
    requires n == q * d + r && r < d
    ensures n / d == q
  {
    var e, s := n / d, n % d;
    assert n == d * e + s;
    MulOrder(d, e + 1, q);
    MulOrder(d, q + 1, e);
  }

  lemma {:induction false} FitUniform<Row(!new)>(cost: Cost<Row>, p: nat, rows: seq<Row>)
    requires Uniform(cost, p) && 1 <= p <= PARAM_BUDGET && rows != []
    ensures Fit(cost, rows, FirstSize(rows)) == Min(PARAM_BUDGET / p, |rows|)
  {
    var size := FirstSize(rows);
    var q := PARAM_BUDGET / p;
    assert cost(rows[..size]) == p * size;
    if p * size > PARAM_BUDGET {
      assert size > 1;
      ScaledUniform(p, size);
      assert cost(rows[..q]) == p * q;
    } else {
      AtMostQuotient(p, size);
    }
  }

  lemma {:induction false} AtMostQuotient(p: nat, size: nat)
    requires p >= 1 && p * size <= PARAM_BUDGET
    ensures size <= PARAM_BUDGET / p && (size == PARAM_BUDGET ==> PARAM_BUDGET / p == size)
  {
    var q, r := PARAM_BUDGET / p, PARAM_BUDGET % p;
    assert PARAM_BUDGET == p * q + r;
    MulOrder(p, q + 1, size);
    MulOrder(q, 1, p);
  }

  /** Every chunk but the last has exactly `n` rows and the last has at least one and at most `n`. */
  ghost predicate EvenChunks<Row>(chunks: seq<seq<Row>>, n: nat) {
    forall k | 0 <= k < |chunks| :: 1 <= |chunks[k]| <= n && (k < |chunks| - 1 ==> |chunks[k]| == n)
  }

  lemma {:induction false} UniformCut<Row(!new)>(cost: Cost<Row>, p: nat, rows: seq<Row>)
    requires Uniform(cost, p) && 1 <= p <= PARAM_BUDGET
    ensures Cut(cost, rows).Statements? && EvenChunks(Cut(cost, rows).chunks, PARAM_BUDGET / p)
    ensures (rows == [] <==> Cut(cost, rows).chunks == [])
    decreases |rows|
  {
    if rows != [] {
      FitUniform(cost, p, rows);
      var n := Min(PARAM_BUDGET / p, |rows|);
      assert PARAM_BUDGET / p >= 1;
      UniformCut(cost, p, rows[n..]);
      assert Cut(cost, rows).chunks == [rows[..n]] + Cut(cost, rows[n..]).chunks;
    }
  }

  /** Even chunks hold more than all but one of them, full, would, and no more than all of them. */
  lemma {:induction false} EvenCount<Row>(chunks: seq<seq<Row>>, n: nat)
    requires EvenChunks(chunks, n) && chunks != []
    ensures n * (|chunks| - 1) < |Concat(chunks)| <= n * |chunks|
  {
    if |chunks| == 1 {
      assert Concat(chunks[1..]) == [];
    } else {
      assert forall k | 0 <= k < |chunks| - 1 :: chunks[1..][k] == chunks[k + 1];
      EvenCount(chunks[1..], n);
      assert n * (|chunks| - 1) == n + n * (|chunks| - 2) && n * |chunks| == n + n * (|chunks| - 1);
    }
  }

  /**
   * Rows of equal cost p, 1 to 90: floor(90/p) rows in every statement but the last,
   * and refusal exactly above 50 such statements.
   */
  lemma {:induction false} UniformPlan<Row(!new)>(cost: Cost<Row>, p: nat, rows: seq<Row>)
    requires Uniform(cost, p) && 1 <= p <= PARAM_BUDGET
    ensures var q := PARAM_BUDGET / p;
      if |rows| <= q * MAX_STATEMENTS then InsertPlan(cost, rows).Statements? && EvenChunks(InsertPlan(cost, rows).chunks, q)
      else InsertPlan(cost, rows).TooLarge?
  {
    UniformCut(cost, p, rows);
    ChunksAreTheRows(cost, rows);
    var q, chunks := PARAM_BUDGET / p, Cut(cost, rows).chunks;
    if chunks != [] {
      EvenCount(chunks, q);
    }
    MulOrder(q, |chunks|, MAX_STATEMENTS);
    MulOrder(q, MAX_STATEMENTS, |chunks| - 1);
  }

  // ----- the loops -----

  /** The statement list with a plan for the rest behind it. */
  function Behind<Row>(done: seq<seq<Row>>, rest: Plan<Row>): Plan<Row> {
    if rest.Statements? then Statements(done + rest.chunks) else rest
  }

  method InsertMany<Row>(cost: Cost<Row>, rows: seq<Row>) returns (r: Plan<Row>)
    ensures r == InsertPlan(cost, rows)
  {
    var statements: seq<seq<Row>> := [];
    var offset := 0;
    assert rows[0..] == rows;
    assert Behind([], Cut(cost, rows)) == Cut(cost, rows) by {
      if Cut(cost, rows).Statements? { assert [] + Cut(cost, rows).chunks == Cut(cost, rows).chunks; }
    }
    while offset < |rows|
      invariant offset <= |rows|
      invariant Cut(cost, rows) == Behind(statements, Cut(cost, rows[offset..]))
      decreases |rows| - offset
    {
      var size := NextChunk(cost, rows, offset);
      if size == 0 {
        return ShapeError;
      }
      var chunk := rows[offset..offset + size];
      PushChunk(cost, rows, offset, size, statements);
      statements := statements + [chunk];
      offset := offset + size;
    }
    assert rows[offset..] == [];
    assert statements + [] == statements;
    return if |statements| > MAX_STATEMENTS then TooLarge else Statements(statements);
  }

  lemma {:induction false} PushChunk<Row>(cost: Cost<Row>, rows: seq<Row>, offset: nat, size: nat, done: seq<seq<Row>>)
    requires offset < |rows| && 0 < size <= |rows| - offset && size == Fit(cost, rows[offset..], FirstSize(rows[offset..]))
    ensures Behind(done, Cut(cost, rows[offset..])) == Behind(done + [rows[offset..offset + size]], Cut(cost, rows[offset + size..]))
  {
    var rest := rows[offset..];
    assert rest[..size] == rows[offset..offset + size] && rest[size..] == rows[offset + size..];
    var more := Cut(cost, rest[size..]);
    if more.Statements? {
      assert done + ([rest[..size]] + more.chunks) == (done + [rest[..size]]) + more.chunks;
    }
  }

  /** The inner loop: compile, compare, shrink. */
  method NextChunk<Row>(cost: Cost<Row>, rows: seq<Row>, offset: nat) returns (n: nat)
    requires offset < |rows|
    ensures n == Fit(cost, rows[offset..], FirstSize(rows[offset..])) && n <= |rows| - offset
  {
    var size := Min(PARAM_BUDGET, |rows| - offset);
    while true
      invariant 1 <= size <= |rows| - offset
      invariant Fit(cost, rows[offset..], FirstSize(rows[offset..])) == Fit(cost, rows[offset..], size)
      decreases size
    {
      assert rows[offset..][..size] == rows[offset..offset + size];
      var parameters := cost(rows[offset..offset + size]);
      if parameters <= PARAM_BUDGET {
        return size;
      }
      if size == 1 {
        return 0;
      }
      var scaled := size * PARAM_BUDGET / parameters;
      size := Max(1, Min(size - 1, scaled));
    }
  }

  // ----- replacing a set of rows -----

  datatype Outcome = Replaced | Refused(error: Error) | Rejected

  datatype Error = Shape | Large

  /** The rows that stay when those matching `gone` are deleted. */
  function Survivors<Row>(rows: seq<Row>, gone: Row -> bool): seq<Row> {
    if rows == [] then [] else (if gone(rows[0]) then [] else [rows[0]]) + Survivors(rows[1..], gone)
  }

  /** Each row that is not gone stays, as often as it was there, and no other. */
  lemma {:induction false} SurvivorsAre<Row>(rows: seq<Row>, gone: Row -> bool, row: Row)
    ensures multiset(Survivors(rows, gone))[row] == if gone(row) then 0 else multiset(rows)[row]
  {
    if rows != [] {
      SurvivorsAre(rows[1..], gone, row);
      assert rows == [rows[0]] + rows[1..];
    }
  }

  /** They stay in order: deleting from a list is deleting from its parts. */
  lemma {:induction false} SurvivorsInOrder<Row>(a: seq<Row>, b: seq<Row>, gone: Row -> bool)
    ensures Survivors(a + b, gone) == Survivors(a, gone) + Survivors(b, gone)
  {
    if a == [] {
      assert a + b == b;
    } else {
      assert (a + b)[1..] == a[1..] + b;
      SurvivorsInOrder(a[1..], b, gone);
      var first := if gone(a[0]) then [] else [a[0]];
      assert first + (Survivors(a[1..], gone) + Survivors(b, gone)) == (first + Survivors(a[1..], gone)) + Survivors(b, gone);
    }
  }

  /** The `conflict` option: a row that has the unique key of another aborts, or is skipped. */
  datatype Conflict<!Row> = Abort | Ignore(same: (Row, Row) -> bool)

  predicate Clashes<Row>(table: seq<Row>, row: Row, same: (Row, Row) -> bool) {
    exists k | 0 <= k < |table| :: same(table[k], row)
  }

  /** ON CONFLICT DO NOTHING, row by row. */
  function Absorb<Row>(table: seq<Row>, rows: seq<Row>, same: (Row, Row) -> bool): seq<Row>
    decreases |rows|
  {
    if rows == [] then table
    else Absorb(if Clashes(table, rows[0], same) then table else table + [rows[0]], rows[1..], same)
  }

  function Inserted<Row>(table: seq<Row>, rows: seq<Row>, conflict: Conflict<Row>): seq<Row> {
    match conflict
    case Abort => table + rows
    case Ignore(same) => Absorb(table, rows, same)
  }

  /** Inserting in two statements is inserting in one. */
  lemma {:induction false} InsertedConcat<Row>(table: seq<Row>, a: seq<Row>, b: seq<Row>, conflict: Conflict<Row>)
    ensures Inserted(Inserted(table, a, conflict), b, conflict) == Inserted(table, a + b, conflict)
    decreases |a|
  {
    match conflict
    case Abort => assert table + a + b == table + (a + b);
    case Ignore(same) =>
      if a == [] {
        assert a + b == b;
      } else {
        assert (a + b)[1..] == a[1..] + b;
        InsertedConcat(if Clashes(table, a[0], same) then table else table + [a[0]], a[1..], b, conflict);
      }
  }

  ghost predicate NoTwins<Row>(table: seq<Row>, same: (Row, Row) -> bool) {
    forall i, j | 0 <= i < j < |table| :: !same(table[i], table[j])
  }

  /**
   * What ignoring conflicts leaves: the rows already there, in place; each new row, or
   * one that has its key; only new rows besides; and still no two rows of one key.
   */
  lemma {:induction false} AbsorbMeans<Row>(table: seq<Row>, rows: seq<Row>, same: (Row, Row) -> bool)
    ensures var r := Absorb(table, rows, same);
      && table <= r
      && (forall k | 0 <= k < |rows| :: rows[k] in r || Clashes(r, rows[k], same))
      && (forall k | |table| <= k < |r| :: r[k] in rows)
      && (NoTwins(table, same) ==> NoTwins(r, same))
    decreases |rows|
  {
    if rows != [] {
      var clash := Clashes(table, rows[0], same);
      var next := if clash then table else table + [rows[0]];
      var r := Absorb(table, rows, same);
      AbsorbMeans(next, rows[1..], same);
      if clash {
        var k :| 0 <= k < |table| && same(table[k], rows[0]);
        assert r[k] == table[k];
      } else {
        assert r[|table|] == rows[0];
      }
      forall k | 0 <= k < |rows| ensures rows[k] in r || Clashes(r, rows[k], same) {
        if k > 0 {
          assert rows[1..][k - 1] == rows[k];
        }
      }
    }
  }

  /** The INSERTs in order; `admits` is what the table's constraints say of one statement, uniqueness only if it aborts. */
  function InsertAll<Row>(table: seq<Row>, chunks: seq<seq<Row>>, conflict: Conflict<Row>, admits: (seq<Row>, seq<Row>) -> bool): (r: (seq<Row>, bool))
    ensures r.1 ==> r.0 == Inserted(table, Concat(chunks), conflict)
    decreases |chunks|
  {
    if chunks == [] then
      assert Inserted(table, [], conflict) == table;
      (table, true)
    else if !admits(table, chunks[0]) then (table, false)
    else
      InsertedConcat(table, chunks[0], Concat(chunks[1..]), conflict);
      InsertAll(Inserted(table, chunks[0], conflict), chunks[1..], conflict, admits)
  }

  class Table<Row> {
    var rows: seq<Row>

    constructor ()
      ensures rows == []
    {
      rows := [];
    }

    /**
     * DELETE and every INSERT are one batch: the set is replaced whole, rows that
     * conflict skipped if so asked, or nothing changed. It is refused before any write
     * exactly when the inserts alone are, or when the DELETE makes one statement too many.
     */
    method ReplaceSet(cost: Cost<Row>, gone: Row -> bool, added: seq<Row>, conflict: Conflict<Row>, admits: (seq<Row>, seq<Row>) -> bool)
      returns (r: Outcome)
      modifies this
      ensures r == Replaced && conflict.Abort? ==> rows == Survivors(old(rows), gone) + added
      ensures r == Replaced && conflict.Ignore? ==> rows == Absorb(Survivors(old(rows), gone), added, conflict.same)
      ensures r != Replaced ==> rows == old(rows)
      ensures r == Rejected <==> var p := InsertPlan(cost, added);
        p.Statements? && |p.chunks| + 1 <= MAX_STATEMENTS && !InsertAll(Survivors(old(rows), gone), p.chunks, conflict, admits).1
      ensures r == Refused(Shape) <==> InsertPlan(cost, added).ShapeError?
      ensures r == Refused(Large) <==> var p := Cut(cost, added); p.Statements? && |p.chunks| + 1 > MAX_STATEMENTS
    {
      CutNeverTooLarge(cost, added);
      var plan := InsertMany(cost, added);
      if plan.ShapeError? {
        return Refused(Shape);
      }
      if plan.TooLarge? {
        return Refused(Large);
      }
      if |plan.chunks| + 1 > MAX_STATEMENTS {
        return Refused(Large);
      }
      ChunksAreTheRows(cost, added);
      var batch := InsertAll(Survivors(rows, gone), plan.chunks, conflict, admits);
      if batch.1 {
        rows := batch.0;
        return Replaced;
      }
      return Rejected;
    }
  }
}
