/**
 * The append-only log behind ordered inbound Note updates, and the pure rules the
 * SQL statements evaluate over it.
 *
 * The table `inbound_note_update_events` holds one row per admitted activity. Its
 * payload is released once the patch is folded, so the proofs keep a history
 * `log` of entries in which the patch survives and the verdict of the fold that
 * consumed it is recorded. The table is a function of that history (`View`).
 */
module NoteUpdateLog {
  import opened Wrappers

  const MAX_PENDING: nat := 16

  datatype Key = Key(actor: Id, note: Id)

  /** A stored row. `patch` is NULL after its window was committed. */
  datatype Event<P> = Event(sequence: nat, activity: Id, key: Key, patch: Option<P>)

  /** A history entry. `verdict` is the policy the entry was folded under, once folded. */
  datatype Entry<P, V> = Entry(sequence: nat, activity: Id, key: Key, patch: P, verdict: Option<V>)

  function ViewEntry<P, V>(e: Entry<P, V>): Event<P> {
    Event(e.sequence, e.activity, e.key, if e.verdict.Some? then None else Some(e.patch))
  }

  /** The table the history stands for. */
  function View<P, V>(log: seq<Entry<P, V>>): seq<Event<P>> {
    seq(|log|, i requires 0 <= i < |log| => ViewEntry(log[i]))
  }

  ghost predicate Sorted<P, V>(log: seq<Entry<P, V>>) {
    && (forall i | 0 <= i < |log| :: log[i].sequence >= 1)
    && (forall i, j | 0 <= i < j < |log| :: log[i].sequence < log[j].sequence)
  }

  ghost predicate UniqueActivities<P, V>(log: seq<Entry<P, V>>) {
    forall i, j | 0 <= i < j < |log| :: log[i].activity != log[j].activity
  }

  /** SELECT ... WHERE key = k AND sequence > lo ORDER BY sequence (the table is kept in order). */
  function Pending<P>(events: seq<Event<P>>, k: Key, lo: nat): seq<Event<P>> {
    if events == [] then []
    else
      var last := events[|events| - 1];
      var rest := Pending(events[..|events| - 1], k, lo);
      if last.key == k && last.sequence > lo then rest + [last] else rest
  }

  /** COALESCE(MAX(sequence), 0) over one key. */
  function MaxSequence<P>(events: seq<Event<P>>, k: Key): nat {
    if events == [] then 0
    else
      var last := events[|events| - 1];
      var rest := MaxSequence(events[..|events| - 1], k);
      if last.key == k && last.sequence > rest then last.sequence else rest
  }

  /** The history entries of one key with lo < sequence <= hi, in log order. */
  function Range<P, V>(log: seq<Entry<P, V>>, k: Key, lo: nat, hi: nat): (r: seq<Entry<P, V>>)
    ensures forall e <- r :: e in log && e.key == k && lo < e.sequence <= hi
  {
    if log == [] then []
    else
      var last := log[|log| - 1];
      var rest := Range(log[..|log| - 1], k, lo, hi);
      if last.key == k && lo < last.sequence <= hi then rest + [last] else rest
  }

  /** Record the verdicts of one committed window. */
  function Stamp<P, V>(log: seq<Entry<P, V>>, k: Key, lo: nat, hi: nat, verdict: nat -> V): (r: seq<Entry<P, V>>)
    ensures |r| == |log|
  {
    seq(|log|, i requires 0 <= i < |log| =>
      if log[i].key == k && lo < log[i].sequence <= hi then log[i].(verdict := Some(verdict(log[i].sequence))) else log[i])
  }

  /** Fold folded entries, each under the verdict recorded for it, oldest first. */
  function Fold<N, P, V>(apply: (V, N, P) -> N, base: N, s: seq<Entry<P, V>>): N
    requires forall e <- s :: e.verdict.Some?
  {
    if s == [] then base
    else
      var last := s[|s| - 1];
      apply(last.verdict.value, Fold(apply, base, s[..|s| - 1]), last.patch)
  }

  // ---- Range over appends, splits and stamps ----

  lemma {:induction false} RangeEmpty<P, V>(log: seq<Entry<P, V>>, k: Key, lo: nat, hi: nat)
    requires forall e <- log :: !(e.key == k && lo < e.sequence <= hi)
    ensures Range(log, k, lo, hi) == []
  {
    if log != [] {
      var i := |log| - 1;
      assert log[i] in log;
      RangeEmpty(log[..i], k, lo, hi);
    }
  }

  /** A range is complete: it keeps every matching entry. */
  lemma {:induction false} RangeComplete<P, V>(log: seq<Entry<P, V>>, k: Key, lo: nat, hi: nat, e: Entry<P, V>)
    requires e in log && e.key == k && lo < e.sequence <= hi
    ensures e in Range(log, k, lo, hi)
  {
    var n := |log| - 1;
    if log[n] != e {
      assert e in log[..n];
      RangeComplete(log[..n], k, lo, hi, e);
    }
  }

  /** In a sorted log, consecutive ranges concatenate. */
  lemma {:induction false} RangeSplit<P, V>(log: seq<Entry<P, V>>, k: Key, lo: nat, mid: nat, hi: nat)
    requires Sorted(log) && lo <= mid <= hi
    ensures Range(log, k, lo, hi) == Range(log, k, lo, mid) + Range(log, k, mid, hi)
  {
    if log != [] {
      var n := |log| - 1;
      var last, init := log[n], log[..n];
      RangeSplit(init, k, lo, mid, hi);
      var left, right := Range(init, k, lo, mid), Range(init, k, mid, hi);
      if last.key == k && lo < last.sequence <= mid {
        assert right == [] by {
          forall e | e in init ensures e.sequence <= mid {
            var j :| 0 <= j < n && init[j] == e;
            assert log[j].sequence < log[n].sequence;
          }
          RangeEmpty(init, k, mid, hi);
        }
        assert Range(log, k, lo, hi) == left + [last] + [];
      } else if last.key == k && mid < last.sequence <= hi {
        assert left + (right + [last]) == (left + right) + [last];
      }
    }
  }

  /** A stamp outside the range does not change it. */
  lemma {:induction false} RangeStampFrame<P, V>(log: seq<Entry<P, V>>, k: Key, lo: nat, hi: nat,
                                                 k2: Key, lo2: nat, hi2: nat, verdict: nat -> V)
    requires k != k2 || hi <= lo2 || hi2 <= lo
    ensures Range(Stamp(log, k2, lo2, hi2, verdict), k, lo, hi) == Range(log, k, lo, hi)
  {
    if log != [] {
      var n := |log| - 1;
      var st := Stamp(log, k2, lo2, hi2, verdict);
      assert st[..n] == Stamp(log[..n], k2, lo2, hi2, verdict);
      RangeStampFrame(log[..n], k, lo, hi, k2, lo2, hi2, verdict);
    }
  }

  function StampAll<P, V>(s: seq<Entry<P, V>>, verdict: nat -> V): (r: seq<Entry<P, V>>)
    ensures |r| == |s| && forall e <- r :: e.verdict.Some?
  {
    seq(|s|, i requires 0 <= i < |s| => s[i].(verdict := Some(verdict(s[i].sequence))))
  }

  /** A stamp over exactly the range stamps every entry of it. */
  lemma {:induction false} RangeStampSelf<P, V>(log: seq<Entry<P, V>>, k: Key, lo: nat, hi: nat, verdict: nat -> V)
    ensures Range(Stamp(log, k, lo, hi, verdict), k, lo, hi) == StampAll(Range(log, k, lo, hi), verdict)
  {
    if log != [] {
      var n := |log| - 1;
      var st := Stamp(log, k, lo, hi, verdict);
      assert st[..n] == Stamp(log[..n], k, lo, hi, verdict);
      RangeStampSelf(log[..n], k, lo, hi, verdict);
    }
  }

  // ---- the stored table read through the history ----

  /** Reading the rows above `lo` is reading the history range (lo, hi], for any hi above the log. */
  lemma {:induction false} PendingIsRange<P, V>(log: seq<Entry<P, V>>, k: Key, lo: nat, hi: nat)
    requires forall e <- log :: e.sequence <= hi
    ensures Pending(View(log), k, lo) == View(Range(log, k, lo, hi))
  {
    if log != [] {
      var n := |log| - 1;
      assert log[n] in log;
      assert View(log)[..n] == View(log[..n]);
      PendingIsRange(log[..n], k, lo, hi);
    }
  }

  /** The maximum bounds every row of the key, and is 0 or one of them. */
  lemma {:induction false} MaxSequenceSpec<P, V>(log: seq<Entry<P, V>>, k: Key)
    ensures forall e <- log :: e.key == k ==> e.sequence <= MaxSequence(View(log), k)
    ensures MaxSequence(View(log), k) == 0 || exists e <- log :: e.key == k && e.sequence == MaxSequence(View(log), k)
  {
    if log != [] {
      var n := |log| - 1;
      assert View(log)[..n] == View(log[..n]);
      MaxSequenceSpec(log[..n], k);
      assert log == log[..n] + [log[n]];
    }
  }

  /** Cutting a sorted range at the sequence of its last entry loses nothing. */
  lemma {:induction false} RangeLast<P, V>(log: seq<Entry<P, V>>, k: Key, lo: nat, hi: nat)
    requires Sorted(log)
    requires Range(log, k, lo, hi) != []
    ensures var r := Range(log, k, lo, hi);
      && lo < r[|r| - 1].sequence <= hi
      && Range(log, k, lo, r[|r| - 1].sequence) == r
  {
    var r := Range(log, k, lo, hi);
    var m := r[|r| - 1].sequence;
    assert r[|r| - 1] in r;
    RangeSplit(log, k, lo, m, hi);
    var above := Range(log, k, m, hi);
    assert forall e | e in above :: e in r;
  }

  // ---- folds ----

  lemma {:induction false} FoldConcat<N, P, V>(apply: (V, N, P) -> N, base: N, s: seq<Entry<P, V>>, t: seq<Entry<P, V>>)
    requires forall e <- s :: e.verdict.Some?
    requires forall e <- t :: e.verdict.Some?
    ensures Fold(apply, base, s + t) == Fold(apply, Fold(apply, base, s), t)
  {
    if t == [] {
      assert s + t == s;
    } else {
      var n := |t| - 1;
      assert (s + t)[..|s| + n] == s + t[..n];
      FoldConcat(apply, base, s, t[..n]);
    }
  }

  // ---- the life of a stored body ----

  /** What a handler did to the stored body before it folded a window, at watermark `at`. */
  datatype Rewrite<!N> = Rewrite(at: nat, change: N -> N)

  /** How a stored body came to be: its first value, the watermark and Create activity then, and the rewrites since. */
  datatype Birth<!N> = Birth(base: N, start: nat, creation: Option<Id>, rewrites: seq<Rewrite<N>>)

  function Earlier<N>(b: Birth<N>): Birth<N>
    requires b.rewrites != []
  {
    b.(rewrites := b.rewrites[..|b.rewrites| - 1])
  }

  /** Rewrites are in the order of their watermarks, none above `hi`. */
  ghost predicate Lineage<N>(b: Birth<N>, hi: nat) {
    && b.start <= hi
    && (forall i | 0 <= i < |b.rewrites| :: b.start <= b.rewrites[i].at <= hi)
    && (forall i, j | 0 <= i < j < |b.rewrites| :: b.rewrites[i].at <= b.rewrites[j].at)
  }

  ghost predicate AllFolded<P, V>(log: seq<Entry<P, V>>, k: Key, lo: nat, hi: nat) {
    forall e <- log :: e.key == k && lo < e.sequence <= hi ==> e.verdict.Some?
  }

  /** The base with every entry up to `hi` folded in sequence order, and each rewrite applied at its watermark. */
  ghost function Projected<N, P, V>(apply: (V, N, P) -> N, log: seq<Entry<P, V>>, k: Key, b: Birth<N>, hi: nat): N
    requires Lineage(b, hi) && AllFolded(log, k, b.start, hi)
    decreases |b.rewrites|
  {
    if b.rewrites == [] then Fold(apply, b.base, Range(log, k, b.start, hi))
    else
      var last := b.rewrites[|b.rewrites| - 1];
      Fold(apply, last.change(Projected(apply, log, k, Earlier(b), last.at)), Range(log, k, last.at, hi))
  }

  /** The projection depends on the log only through its ranges. */
  lemma {:induction false} ProjectedFrame<N, P, V>(apply: (V, N, P) -> N, log: seq<Entry<P, V>>, log': seq<Entry<P, V>>, k: Key, b: Birth<N>, hi: nat)
    requires Lineage(b, hi) && AllFolded(log, k, b.start, hi) && AllFolded(log', k, b.start, hi)
    requires forall lo, mid | b.start <= lo <= mid <= hi :: Range(log', k, lo, mid) == Range(log, k, lo, mid)
    ensures Projected(apply, log', k, b, hi) == Projected(apply, log, k, b, hi)
    decreases |b.rewrites|
  {
    if b.rewrites != [] {
      var last := b.rewrites[|b.rewrites| - 1];
      ProjectedFrame(apply, log, log', k, Earlier(b), last.at);
      assert Range(log', k, last.at, hi) == Range(log, k, last.at, hi);
    }
  }

  /** Where no rewrite changes anything the projection is one fold over all entries since the start. */
  lemma {:induction false} ProjectedPlain<N, P, V>(apply: (V, N, P) -> N, log: seq<Entry<P, V>>, k: Key, b: Birth<N>, hi: nat)
    requires Sorted(log) && Lineage(b, hi) && AllFolded(log, k, b.start, hi)
    requires forall i, n | 0 <= i < |b.rewrites| :: b.rewrites[i].change(n) == n
    ensures Projected(apply, log, k, b, hi) == Fold(apply, b.base, Range(log, k, b.start, hi))
    decreases |b.rewrites|
  {
    if b.rewrites != [] {
      var m := |b.rewrites| - 1;
      var last := b.rewrites[m];
      var x := Projected(apply, log, k, Earlier(b), last.at);
      ProjectedPlain(apply, log, k, Earlier(b), last.at);
      assert b.rewrites[m].change(x) == x;
      RangeSplit(log, k, b.start, last.at, hi);
      FoldConcat(apply, b.base, Range(log, k, b.start, last.at), Range(log, k, last.at, hi));
    }
  }
}
