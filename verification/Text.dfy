/** Strings as the address parsers use them: searching, splitting and joining. */
module Text {
  predicate Without(s: string, c: char) {
    forall k | 0 <= k < |s| :: s[k] != c
  }

  /** The first position of `c`, or the length. */
  function IndexOf(s: string, c: char): (k: nat)
    ensures k <= |s| && forall j | 0 <= j < k :: s[j] != c
    ensures k < |s| ==> s[k] == c
  {
    if s == "" || s[0] == c then 0
    else
      var k := IndexOf(s[1..], c);
      assert forall j | 0 < j < k + 1 :: s[j] == s[1..][j - 1];
      k + 1
  }

  /** One past the last position of `c`, or zero. */
  function LastIndexOf(s: string, c: char): (k: nat)
    ensures k <= |s| && forall j | k <= j < |s| :: s[j] != c
    ensures k > 0 ==> s[k - 1] == c
  {
    if s == "" || s[|s| - 1] == c then |s|
    else
      var k := LastIndexOf(s[..|s| - 1], c);
      assert forall j | k <= j < |s| - 1 :: s[j] == s[..|s| - 1][j];
      k
  }

  function Split(s: string, sep: char): (parts: seq<string>)
    ensures parts != []
    decreases |s|
  {
    var k := IndexOf(s, sep);
    if k == |s| then [s] else [s[..k]] + Split(s[k + 1..], sep)
  }

  function Join(parts: seq<string>, sep: char): string
  {
    if parts == [] then "" else if |parts| == 1 then parts[0] else parts[0] + [sep] + Join(parts[1..], sep)
  }

  lemma {:induction false} IndexIsFirst(g: string, c: char, rest: string)
    requires Without(g, c)
    ensures IndexOf(g + [c] + rest, c) == |g| && IndexOf(g, c) == |g|
  {
    var s := g + [c] + rest;
    assert s[|g|] == c;
    assert forall j | 0 <= j < |g| :: s[j] == g[j];
  }

  lemma {:induction false} LastIndexIsLast(p: string, c: char, g: string)
    requires Without(g, c)
    ensures LastIndexOf(p + [c] + g, c) == |p| + 1
  {
    var s := p + [c] + g;
    assert s[|p|] == c;
    assert forall j | |p| < j < |s| :: s[j] == g[j - |p| - 1];
  }

  /** What follows the last separator is determined. */
  lemma {:induction false} LastPartUnique(p: string, g: string, q: string, h: string, c: char)
    requires Without(g, c) && Without(h, c) && p + [c] + g == q + [c] + h
    ensures p == q && g == h
  {
    var s := p + [c] + g;
    LastIndexIsLast(p, c, g);
    LastIndexIsLast(q, c, h);
    assert p == s[..|p|] && q == s[..|q|] && g == s[|p| + 1..] && h == s[|q| + 1..];
  }

  /** Splitting undoes joining. */
  lemma {:induction false} SplitJoin(parts: seq<string>, sep: char)
    requires parts != [] && forall k | 0 <= k < |parts| :: Without(parts[k], sep)
    ensures Split(Join(parts, sep), sep) == parts
  {
    var s := Join(parts, sep);
    if |parts| == 1 {
      IndexIsFirst(parts[0], sep, "");
    } else {
      var rest := Join(parts[1..], sep);
      IndexIsFirst(parts[0], sep, rest);
      assert s == parts[0] + [sep] + rest;
      SplitJoin(parts[1..], sep);
      assert s[..|parts[0]|] == parts[0] && s[|parts[0]| + 1..] == rest;
    }
  }

  lemma {:induction false} CutAt(s: string, k: nat)
    requires k < |s|
    ensures s == s[..k] + [s[k]] + s[k + 1..]
  {
  }

  lemma {:induction false} JoinCons(first: string, more: seq<string>, sep: char)
    requires more != []
    ensures Join([first] + more, sep) == first + [sep] + Join(more, sep)
  {
    assert ([first] + more)[1..] == more;
  }

  /** Joining undoes splitting. */
  lemma {:induction false} JoinSplit(s: string, sep: char)
    ensures Join(Split(s, sep), sep) == s
    decreases |s|
  {
    var k := IndexOf(s, sep);
    if k < |s| {
      JoinSplit(s[k + 1..], sep);
      JoinCons(s[..k], Split(s[k + 1..], sep), sep);
      CutAt(s, k);
    }
  }

  lemma {:induction false} JoinAppend(parts: seq<string>, last: string, sep: char)
    requires parts != []
    ensures Join(parts + [last], sep) == Join(parts, sep) + [sep] + last
  {
    var all := parts + [last];
    if |parts| == 1 {
      assert all[1..] == [last];
    } else {
      JoinAppend(parts[1..], last, sep);
      assert all[1..] == parts[1..] + [last];
      assert parts[0] + [sep] + (Join(parts[1..], sep) + [sep] + last) == (parts[0] + [sep] + Join(parts[1..], sep)) + [sep] + last;
    }
  }

  /** Parts that something still follows. */
  function Ahead(parts: seq<string>, sep: char): string {
    if parts == [] then "" else Join(parts, sep) + [sep]
  }

  lemma {:induction false} JoinAhead(parts: seq<string>, last: string, sep: char)
    ensures Join(parts + [last], sep) == Ahead(parts, sep) + last
  {
    if parts != [] {
      JoinAppend(parts, last, sep);
    } else {
      assert parts + [last] == [last];
    }
  }

  lemma {:induction false} JoinAheadTwo(parts: seq<string>, a: string, b: string, sep: char)
    ensures Join(parts + [a, b], sep) == Ahead(parts, sep) + a + [sep] + b
  {
    assert parts + [a, b] == (parts + [a]) + [b];
    JoinAppend(parts + [a], b, sep);
    JoinAhead(parts, a, sep);
  }

  /** A letter of a joined text is a separator or a letter of a part. */
  lemma {:induction false} JoinWithout(parts: seq<string>, sep: char, c: char)
    requires c != sep && forall k | 0 <= k < |parts| :: Without(parts[k], c)
    ensures Without(Join(parts, sep), c)
  {
    if |parts| > 1 {
      JoinWithout(parts[1..], sep, c);
    }
  }

  lemma {:induction false} WithoutBoth(a: string, b: string, c: char)
    requires Without(a, c) && Without(b, c)
    ensures Without(a + b, c)
  {
  }
}
