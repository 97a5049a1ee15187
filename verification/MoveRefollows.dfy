/**
 * Re-enqueueing the persisted re-follows of a Move (`enqueuePersistedMoveRefollows`):
 * pages of activities above a moving cursor, in id order. Ids stand in their
 * collation order as integers.
 */
module MoveRefollows {
  import opened Wrappers
  import opened Chunks

  const PAGE_SIZE: nat := 100

  ghost predicate Increasing(rows: seq<int>) {
    forall i, j | 0 <= i < j < |rows| :: rows[i] < rows[j]
  }

  predicate IsAfter(cursor: Option<int>, row: int) {
    cursor.None? || row > cursor.value
  }

  /** WHERE id > cursor, over rows in id order. */
  function RowsAfter(rows: seq<int>, cursor: Option<int>): seq<int> {
    if rows == [] then [] else (if IsAfter(cursor, rows[0]) then [rows[0]] else []) + RowsAfter(rows[1..], cursor)
  }

  function PageAfter(rows: seq<int>, cursor: Option<int>): seq<int> {
    var rest := RowsAfter(rows, cursor);
    if |rest| > PAGE_SIZE then rest[..PAGE_SIZE] else rest
  }

  lemma {:induction false} FirstIsLeast(rows: seq<int>)
    requires Increasing(rows) && rows != []
    ensures forall row | row in rows[1..] :: rows[0] < row
    ensures forall row :: row in rows <==> row == rows[0] || row in rows[1..]
    ensures Increasing(rows[1..])
  {
    assert rows == [rows[0]] + rows[1..];
    assert forall k | 0 <= k < |rows| - 1 :: rows[1..][k] == rows[k + 1];
  }

  lemma {:induction false} PrependKeeps(first: int, rest: seq<int>, tail: seq<int>, kept: bool)
    requires Increasing(tail) && (forall row | row in tail :: row in rest) && forall row | row in rest :: first < row
    ensures Increasing((if kept then [first] else []) + tail)
  {
    assert forall k | 0 <= k < |tail| :: tail[k] in tail;
  }

  lemma {:induction false} RowsAfterCursor(rows: seq<int>, cursor: Option<int>)
    requires Increasing(rows)
    ensures Increasing(RowsAfter(rows, cursor))
    ensures forall row :: row in RowsAfter(rows, cursor) <==> row in rows && IsAfter(cursor, row)
    decreases |rows|
  {
    if rows != [] {
      var rest := rows[1..];
      FirstIsLeast(rows);
      RowsAfterCursor(rest, cursor);
      assert rows == [rows[0]] + rest;
      PrependKeeps(rows[0], rest, RowsAfter(rest, cursor), IsAfter(cursor, rows[0]));
    }
  }

  /** A page holds the next rows: whatever else comes after the cursor comes after the page, which then is full. */
  lemma {:induction false} PageIsNext(rows: seq<int>, cursor: Option<int>)
    requires Increasing(rows)
    ensures var page := PageAfter(rows, cursor);
      && Increasing(page) && |page| <= PAGE_SIZE
      && (forall row | row in page :: row in rows && IsAfter(cursor, row))
      && (forall row | row in rows && IsAfter(cursor, row) && row !in page :: |page| == PAGE_SIZE && row > page[|page| - 1])
  {
    RowsAfterCursor(rows, cursor);
    var rest, page := RowsAfter(rows, cursor), PageAfter(rows, cursor);
    forall row | row in rest && row !in page ensures |page| == PAGE_SIZE && row > page[|page| - 1] {
      var k :| 0 <= k < |rest| && rest[k] == row;
      assert forall m | 0 <= m < |page| :: page[m] in page && page[m] == rest[m];
      assert k >= |page|;
    }
  }

  /** Everything handed over so far rises, and its last row is the cursor. */
  ghost predicate Sent(flat: seq<int>, cursor: Option<int>) {
    Increasing(flat) && cursor == if flat == [] then None else Some(flat[|flat| - 1])
  }

  lemma {:induction false} SentMore(flat: seq<int>, cursor: Option<int>, page: seq<int>)
    requires Sent(flat, cursor) && Increasing(page) && page != [] && forall row | row in page :: IsAfter(cursor, row)
    ensures Sent(flat + page, Some(page[|page| - 1]))
  {
    forall i, j | 0 <= i < j < |flat + page| ensures (flat + page)[i] < (flat + page)[j] {
      if i < |flat| <= j {
        assert page[j - |flat|] in page;
        assert flat[i] <= flat[|flat| - 1];
      }
    }
  }

  /** A rising sequence is determined by its rows. */
  lemma {:induction false} SameRows(a: seq<int>, b: seq<int>)
    requires Increasing(a) && Increasing(b) && forall row :: row in a <==> row in b
    ensures a == b
    decreases |a|
  {
    if a == [] {
      assert forall k | 0 <= k < |b| :: b[k] in a;
    } else {
      assert a[0] in b && b != [];
      assert b[0] in a;
      FirstIsLeast(a);
      FirstIsLeast(b);
      assert a[0] == b[0];
      assert a == [a[0]] + a[1..] && b == [b[0]] + b[1..];
      SameRows(a[1..], b[1..]);
    }
  }

  ghost predicate AtMost(rows: seq<int>, last: int) {
    forall row | row in rows :: row <= last
  }

  /** The row is found by every query. */
  ghost predicate Throughout(table: nat -> seq<int>, row: int) {
    forall k: nat :: row in table(k)
  }

  /** The row is found by some query. */
  ghost predicate Seen(table: nat -> seq<int>, row: int) {
    exists k: nat :: row in table(k)
  }

  /** After some pages: what went out, and that no row found throughout was passed over. */
  ghost predicate Progress(table: nat -> seq<int>, flat: seq<int>, cursor: Option<int>) {
    && Sent(flat, cursor)
    && (forall row | Throughout(table, row) :: row in flat || IsAfter(cursor, row))
    && (forall row | row in flat :: Seen(table, row))
  }

  lemma {:induction false} ProgressStep(table: nat -> seq<int>, k: nat, flat: seq<int>, cursor: Option<int>)
    requires Progress(table, flat, cursor) && Increasing(table(k)) && PageAfter(table(k), cursor) != []
    ensures var page := PageAfter(table(k), cursor);
      && Progress(table, flat + page, Some(page[|page| - 1]))
      && page[|page| - 1] in table(k) && IsAfter(cursor, page[|page| - 1])
      && (|page| < PAGE_SIZE ==> forall row | Throughout(table, row) :: row in flat + page)
  {
    var page := PageAfter(table(k), cursor);
    PageIsNext(table(k), cursor);
    SentMore(flat, cursor, page);
    assert page[|page| - 1] in page;
    forall row | Throughout(table, row)
      ensures row in flat + page || (|page| == PAGE_SIZE && row > page[|page| - 1])
    {
      assert row in table(k);
    }
    forall row | row in page ensures Seen(table, row) {
      assert row in table(k);
    }
  }

  lemma {:induction false} ProgressEnds(table: nat -> seq<int>, k: nat, flat: seq<int>, cursor: Option<int>)
    requires Progress(table, flat, cursor) && Increasing(table(k)) && PageAfter(table(k), cursor) == []
    ensures forall row | Throughout(table, row) :: row in flat
  {
    PageIsNext(table(k), cursor);
    assert forall row | Throughout(table, row) :: row in table(k);
  }

  lemma {:induction false} Undisturbed(table: nat -> seq<int>, flat: seq<int>)
    requires Increasing(flat) && Increasing(table(0)) && forall k: nat :: table(k) == table(0)
    requires (forall row | Throughout(table, row) :: row in flat) && forall row | row in flat :: Seen(table, row)
    ensures flat == table(0)
  {
    forall row ensures row in flat <==> row in table(0) {
      if row in table(0) {
        assert Throughout(table, row);
      }
      if row in flat {
        var k: nat :| row in table(k);
      }
    }
    SameRows(flat, table(0));
  }

  /**
   * `table(k)` is what the k-th query finds; rows may come and go between queries, ids
   * being bounded. No row is handed over twice, rows go out in order and in pages of at
   * most a hundred, and every row that is there throughout is among them. Undisturbed,
   * exactly the persisted re-follows are handed over.
   */
  method EnqueuePersisted(table: nat -> seq<int>, last: int) returns (sent: seq<seq<int>>, found: nat)
    requires forall k: nat :: Increasing(table(k)) && AtMost(table(k), last)
    ensures Increasing(Concat(sent)) && found == |Concat(sent)|
    ensures forall k | 0 <= k < |sent| :: 1 <= |sent[k]| <= PAGE_SIZE
    ensures forall row | Throughout(table, row) :: row in Concat(sent)
    ensures forall row | row in Concat(sent) :: Seen(table, row)
    ensures (forall k: nat :: table(k) == table(0)) ==> Concat(sent) == table(0)
  {
    sent, found := [], 0;
    var cursor: Option<int> := None;
    var query := 0;
    while true
      invariant Progress(table, Concat(sent), cursor) && found == |Concat(sent)|
      invariant cursor.Some? ==> cursor.value <= last
      invariant forall k | 0 <= k < |sent| :: 1 <= |sent[k]| <= PAGE_SIZE
      decreases if cursor.None? then 1 else 0, if cursor.None? then 0 else last - cursor.value
    {
      var page := PageAfter(table(query), cursor);
      if page == [] {
        ProgressEnds(table, query, Concat(sent), cursor);
        break;
      }
      ProgressStep(table, query, Concat(sent), cursor);
      ConcatAppend(sent, page);
      assert |page| <= PAGE_SIZE;
      sent := sent + [page];
      found := found + |page|;
      cursor := Some(page[|page| - 1]);
      query := query + 1;
      if |page| < PAGE_SIZE {
        break;
      }
    }
    if forall k: nat :: table(k) == table(0) {
      Undisturbed(table, Concat(sent));
    }
  }
}
