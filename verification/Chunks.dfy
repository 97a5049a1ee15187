/** Splitting an id list under D1's bound-parameter cap (`chunk.ts`). */
module Chunks {

  const D1_IN_CHUNK: nat := 90

  function Concat<T>(chunks: seq<seq<T>>): seq<T> {
    if chunks == [] then [] else chunks[0] + Concat(chunks[1..])
  }

  lemma {:induction false} ConcatAppend<T>(chunks: seq<seq<T>>, last: seq<T>)
    ensures Concat(chunks + [last]) == Concat(chunks) + last
  {
    if chunks == [] {
      assert (chunks + [last])[1..] == [];
    } else {
      assert (chunks + [last])[1..] == chunks[1..] + [last];
      ConcatAppend(chunks[1..], last);
    }
  }

  /**
   * Consecutive chunks of at most `size`: nothing lost, repeated or reordered, no
   * chunk empty, and every chunk but the last full.
   */
  method ChunkForInClause<T>(items: seq<T>, size: nat) returns (out: seq<seq<T>>)
    requires size > 0
    ensures Concat(out) == items
    ensures forall c <- out :: 0 < |c| <= size
    ensures forall i | 0 <= i < |out| - 1 :: |out[i]| == size
  {
    if |items| == 0 {
      return [];
    }
    if |items| <= size {
      out := [items];
      assert out[1..] == [];
      assert Concat(out) == items + [];
      return;
    }
    out := [];
    var i := 0;
    while i < |items|
      invariant 0 <= i <= |items|
      invariant Concat(out) == items[..i]
      invariant forall c <- out :: 0 < |c| <= size
      invariant forall j | 0 <= j < |out| :: |out[j]| == size || (j == |out| - 1 && i == |items|)
    {
      var end := if i + size <= |items| then i + size else |items|;
      var chunk := items[i..end];
      ConcatAppend(out, chunk);
      assert items[..i] + chunk == items[..end];
      out := out + [chunk];
      i := end;
    }
    assert items[..|items|] == items;
  }

  /** Every item of the input is in some chunk, and every chunk item is an input item. */
  lemma {:induction false} ConcatMembers<T>(chunks: seq<seq<T>>, x: T)
    ensures x in Concat(chunks) <==> exists c <- chunks :: x in c
  {
    if chunks != [] {
      ConcatMembers(chunks[1..], x);
      assert chunks == [chunks[0]] + chunks[1..];
    }
  }
}
