/** Sizes of finite sets, and the set of a list. */
module FiniteSets {
  lemma {:induction false} SubsetCount<T>(a: set<T>, b: set<T>)
    requires a <= b
    ensures |a| <= |b| && |b - a| == |b| - |a| && (|a| == |b| <==> a == b)
  {
    assert b == a + (b - a) && a !! (b - a);
  }

  function ToSet<T(==)>(s: seq<T>): set<T> {
    set x | x in s
  }

  predicate Distinct<T(==)>(s: seq<T>) {
    forall i, j | 0 <= i < j < |s| :: s[i] != s[j]
  }

  /** A list has as many elements as positions exactly when it names none twice. */
  lemma {:induction false} ToSetSize<T>(s: seq<T>)
    ensures |ToSet(s)| <= |s| && (|ToSet(s)| == |s| <==> Distinct(s))
  {
    if s != [] {
      var n := |s| - 1;
      var front, last := s[..n], s[n];
      ToSetSize(front);
      assert s == front + [last];
      assert ToSet(s) == ToSet(front) + {last};
      if last in front {
        var k :| 0 <= k < n && front[k] == last;
        assert s[k] == s[n];
      }
    }
  }
}
