/** `expandIPv6` accepts exactly the spellings of section 2.2 of RFC 4291. */
module AddressExpansion {
  import opened Wrappers
  import opened Text
  import opened AddressText

  /** The same address with the dotted tail written as two groups. */
  function Folded(sp: Spelling): Spelling
    requires Allowed(sp)
  {
    if sp.dotted.None? then sp
    else
      var h := Hextets(Numerals(10, sp.dotted.value));
      sp.(tail := sp.tail + [Spelled(16, h[0]), Spelled(16, h[1])], dotted := None)
  }

  lemma {:induction false} FoldedDenotes(sp: Spelling)
    requires Allowed(sp)
    ensures Allowed(Folded(sp)) && Denoted(Folded(sp)) == Denoted(sp)
  {
    if sp.dotted.Some? {
      var h := Hextets(Numerals(10, sp.dotted.value));
      SpelledGroup(h[0]);
      SpelledGroup(h[1]);
      var two := [Spelled(16, h[0]), Spelled(16, h[1])];
      assert Numerals(16, sp.tail + two) == Numerals(16, sp.tail) + h;
    }
  }

  lemma {:induction false} DottedText(sp: Spelling)
    requires sp.dotted.Some? && Allowed(sp)
    ensures var h, p := Hextets(Numerals(10, sp.dotted.value)), Lead(sp) + Ahead(sp.tail, ':');
      && Written(sp) == p + Join(sp.dotted.value, '.')
      && Written(Folded(sp)) == WithTail(p, h)
  {
    var h := Hextets(Numerals(10, sp.dotted.value));
    assert Written(sp) == Lead(sp) + Ahead(sp.tail, ':') + Join(sp.dotted.value, '.') by {
      JoinAhead(sp.tail, Join(sp.dotted.value, '.'), ':');
      Regroup(Lead(sp), Ahead(sp.tail, ':'), Join(sp.dotted.value, '.'));
    }
    FoldedText(sp, h);
  }

  lemma {:induction false} Regroup(a: string, b: string, c: string)
    ensures a + (b + c) == a + b + c
  {
  }

  lemma {:induction false} FoldedText(sp: Spelling, h: seq<nat>)
    requires sp.dotted.Some? && Allowed(sp) && h == Hextets(Numerals(10, sp.dotted.value))
    ensures Written(Folded(sp)) == WithTail(Lead(sp) + Ahead(sp.tail, ':'), h)
  {
    var a, b := Spelled(16, h[0]), Spelled(16, h[1]);
    JoinAheadTwo(sp.tail, a, b, ':');
    assert Units(Folded(sp)) == sp.tail + [a, b];
    var l, m := Lead(sp), Ahead(sp.tail, ':');
    assert l + (m + a + ":" + b) == l + m + a + ":" + b;
  }

  /** Before a dotted tail there is a colon. */
  lemma {:induction false} ColonBefore(sp: Spelling)
    requires sp.gap || sp.tail != []
    ensures var p := Lead(sp) + Ahead(sp.tail, ':'); p != "" && p[|p| - 1] == ':'
  {
  }

  lemma {:induction false} OctetsWithout(parts: seq<string>, c: char)
    requires AllOctets(parts) && !IsHex(c) && c != '.'
    ensures Without(Join(parts, '.'), c)
  {
    JoinWithout(parts, '.', c);
  }

  lemma {:induction false} WrittenWithout(sp: Spelling, c: char)
    requires Allowed(sp) && !IsHex(c) && c != ':' && (c == '.' ==> sp.dotted.None?)
    ensures Without(Written(sp), c)
  {
    JoinWithout(sp.head, ':', c);
    if sp.dotted.Some? {
      OctetsWithout(sp.dotted.value, c);
    }
    JoinWithout(Units(sp), ':', c);
    WithoutBoth(Lead(sp), Join(Units(sp), ':'), c);
  }

  lemma {:induction false} FoldsAfterColon(p: string, d: string)
    requires p != "" && p[|p| - 1] == ':' && Without(d, ':') && !Without(d, '.')
    ensures LastIndexOf(p + d, ':') == |p| && (p + d)[|p|..] == d && (p + d)[..|p|] == p && !Without(p + d, '.')
  {
    var q := p[..|p| - 1];
    assert p == q + [':'] && p + d == q + [':'] + d;
    LastIndexIsLast(q, ':', d);
    var k :| 0 <= k < |d| && d[k] == '.';
    assert (p + d)[|p| + k] == '.';
  }

  lemma {:induction false} DottedFolds(p: string, octets: seq<string>)
    requires p != "" && p[|p| - 1] == ':' && |octets| == 4 && AllOctets(octets)
    ensures var h := Hextets(Numerals(10, octets));
      FoldTail(p + Join(octets, '.')) == Some(WithTail(p, h))
  {
    var d := Join(octets, '.');
    assert Without(d, ':') by { OctetsWithout(octets, ':'); }
    assert d[|octets[0]|] == '.';
    FoldsAfterColon(p, d);
    assert ParseIPv4(d) == Some(Numerals(10, octets)) by { OctetsParse(octets); }
  }

  lemma {:induction false} TailFolds(sp: Spelling)
    requires Allowed(sp)
    ensures FoldTail(Written(sp)) == Some(Written(Folded(sp)))
  {
    if sp.dotted.Some? {
      DottedText(sp);
      ColonBefore(sp);
      DottedFolds(Lead(sp) + Ahead(sp.tail, ':'), sp.dotted.value);
    } else {
      WrittenWithout(sp, '.');
    }
  }

  lemma {:induction false} GroupsExpand(sp: Spelling)
    requires Allowed(sp) && sp.dotted.None?
    ensures ExpandGroups(Written(sp)) == Some(Denoted(sp))
  {
    assert Units(sp) == sp.tail;
    if sp.gap {
      GapExpands(sp.head, sp.tail);
      assert Written(sp) == Join(sp.head, ':') + "::" + Join(sp.tail, ':');
    } else {
      FullExpands(sp.tail);
      assert Written(sp) == Join(sp.tail, ':');
    }
    PlainDenotes(sp);
  }

  lemma {:induction false} PlainDenotes(sp: Spelling)
    requires Allowed(sp) && sp.dotted.None?
    ensures sp.gap ==> FillGap(Some(Numerals(16, sp.head)), Some(Numerals(16, sp.tail))) == Some(Denoted(sp))
    ensures !sp.gap ==> Denoted(sp) == Numerals(16, sp.tail)
  {
    assert Denoted(sp) == Numerals(16, sp.head) + Zeros(8 - Count(sp)) + Numerals(16, sp.tail);
  }

  lemma {:induction false} GapExpands(head: seq<string>, tail: seq<string>)
    requires AllGroups(head) && AllGroups(tail) && |head| + |tail| <= 7
    ensures ExpandGroups(Join(head, ':') + "::" + Join(tail, ':')) == FillGap(Some(Numerals(16, head)), Some(Numerals(16, tail)))
  {
    var a, b := Join(head, ':'), Join(tail, ':');
    assert ExpandGroups(a + "::" + b) == FillGap(ParseGroups(a), ParseGroups(b)) by {
      GroupsAreSolid(head);
      GroupsAreSolid(tail);
      OneDoubleExpands(a, b);
    }
    assert ParseGroups(a) == Some(Numerals(16, head)) by { GroupsParse(head); }
    assert ParseGroups(b) == Some(Numerals(16, tail)) by { GroupsParse(tail); }
  }

  lemma {:induction false} OneDoubleExpands(a: string, b: string)
    requires Solid(a) && Solid(b)
    ensures ExpandGroups(a + "::" + b) == FillGap(ParseGroups(a), ParseGroups(b))
  {
    OneDouble(a, b);
  }

  lemma {:induction false} FullExpands(tail: seq<string>)
    requires AllGroups(tail) && |tail| == 8
    ensures ExpandGroups(Join(tail, ':')) == Some(Numerals(16, tail))
  {
    GroupsAreSolid(tail);
    GroupsParse(tail);
  }

  lemma {:induction false} NotBlank(sp: Spelling)
    requires Allowed(sp)
    ensures Written(sp) != ""
  {
    if sp.dotted.Some? {
      DottedText(sp);
      ColonBefore(sp);
    } else if !sp.gap {
      assert Units(sp) == sp.tail;
      GroupsAreSolid(sp.tail);
    }
  }

  /** Every allowed spelling expands to the eight numbers it stands for. */
  lemma {:induction false} SpellingExpands(input: string, sp: Spelling)
    requires Allowed(sp) && Core(input) == Written(sp)
    ensures ExpandIPv6(input) == Some(Denoted(sp))
  {
    FoldedDenotes(sp);
    TailFolds(sp);
    GroupsExpand(Folded(sp));
    NotBlank(sp);
  }

  // ----- and nothing else does -----

  lemma {:induction false} ParsedGroups(s: string) returns (parts: seq<string>)
    requires ParseGroups(s).Some?
    ensures AllGroups(parts) && Join(parts, ':') == s && ParseGroups(s).value == Numerals(16, parts)
  {
    if s == "" {
      parts := [];
    } else {
      parts := Split(s, ':');
      JoinSplit(s, ':');
    }
  }

  lemma {:induction false} ExpandedGroups(s: string) returns (sp: Spelling)
    requires ExpandGroups(s).Some?
    ensures Allowed(sp) && sp.dotted.None? && Written(sp) == s && Denoted(sp) == ExpandGroups(s).value
  {
    var k := FirstDouble(s);
    if k < |s| {
      CutAtDouble(s, k);
      sp := FromGap(s[..k], s[k + 2..]);
    } else {
      var tail := ParsedGroups(s);
      sp := Spelling([], false, tail, None);
      assert Units(sp) == sp.tail;
      assert "" + s == s;
      PlainDenotes(sp);
    }
  }

  lemma {:induction false} CutAtDouble(s: string, k: nat)
    requires DoubleAt(s, k)
    ensures s == s[..k] + "::" + s[k + 2..]
  {
  }

  lemma {:induction false} FromGap(a: string, b: string) returns (sp: Spelling)
    requires FillGap(ParseGroups(a), ParseGroups(b)).Some?
    ensures Allowed(sp) && sp.dotted.None? && Written(sp) == a + "::" + b
    ensures Denoted(sp) == FillGap(ParseGroups(a), ParseGroups(b)).value
  {
    var head := ParsedGroups(a);
    var tail := ParsedGroups(b);
    sp := Spelling(head, true, tail, None);
    assert Units(sp) == sp.tail;
    PlainDenotes(sp);
  }

  /** A text that ends in a group after a colon, cut another way. */
  lemma {:induction false} PeelLast(p: string, b: string, lead: string, tail: seq<string>)
    requires p != "" && p[|p| - 1] == ':' && IsGroup(b)
    requires AllGroups(tail) && lead + Join(tail, ':') == p + b
    requires if lead == "" then |tail| > 1 else lead[|lead| - 1] == ':'
    ensures |tail| >= 1 && tail[|tail| - 1] == b && p == lead + Ahead(tail[..|tail| - 1], ':')
  {
    var s, n := p + b, |tail|;
    assert s[|s| - 1] == b[|b| - 1];
    assert n > 0;
    var rest, last := tail[..n - 1], tail[n - 1];
    assert tail == rest + [last];
    JoinAhead(rest, last, ':');
    var x := lead + Ahead(rest, ':');
    assert x + last == s;
    LastGroup(p, b, x, last);
  }

  /** Two ways to cut a text before its last two groups. */
  lemma {:induction false} LastTwo(p: string, a: string, b: string, lead: string, tail: seq<string>)
    requires p != "" && p[|p| - 1] == ':' && IsGroup(a) && IsGroup(b)
    requires AllGroups(tail) && lead + Join(tail, ':') == p + a + ":" + b
    requires if lead == "" then |tail| > 2 else |lead| > 1 && lead[|lead| - 1] == ':' && lead[|lead| - 2] == ':'
    ensures |tail| >= 2 && tail[|tail| - 2..] == [a, b] && p == lead + Ahead(tail[..|tail| - 2], ':')
  {
    var n, q := |tail|, p + a + ":";
    PeelLast(q, b, lead, tail);
    var rest := tail[..n - 1];
    assert q[|q| - 2] == a[|a| - 1];
    assert rest != [];
    assert lead + Ahead(rest, ':') == lead + Join(rest, ':') + ":";
    DropColon(lead + Join(rest, ':'), p + a);
    PeelLast(p, a, lead, rest);
    assert rest[..n - 2] == tail[..n - 2] && tail[n - 2..] == [a, b];
  }

  lemma {:induction false} DropColon(x: string, y: string)
    requires x + ":" == y + ":"
    ensures x == y
  {
    assert x == (x + ":")[..|x|] && y == (y + ":")[..|y|];
  }

  lemma {:induction false} LastGroup(p: string, g: string, q: string, h: string)
    requires p != "" && p[|p| - 1] == ':' && q != "" && q[|q| - 1] == ':'
    requires IsGroup(g) && IsGroup(h) && p + g == q + h
    ensures p == q && g == h
  {
    PartLetters(g);
    PartLetters(h);
    var p0, q0 := p[..|p| - 1], q[..|q| - 1];
    assert p == p0 + [':'] && q == q0 + [':'];
    LastPartUnique(p0, g, q0, h, ':');
  }

  lemma {:induction false} ParsedOctets(s: string) returns (parts: seq<string>)
    requires ParseIPv4(s).Some?
    ensures |parts| == 4 && AllOctets(parts) && Join(parts, '.') == s && ParseIPv4(s).value == Numerals(10, parts)
  {
    parts := Split(s, '.');
    JoinSplit(s, '.');
  }

  /** A plain spelling whose text comes from folding a dotted tail. */
  lemma {:induction false} Unfolded(sp: Spelling, p: string, d: seq<string>) returns (dotted: Spelling)
    requires Allowed(sp) && sp.dotted.None? && |d| == 4 && AllOctets(d) && p != "" && p[|p| - 1] == ':'
    requires var h := Hextets(Numerals(10, d)); Written(sp) == WithTail(p, h)
    ensures Allowed(dotted) && Denoted(dotted) == Denoted(sp) && Written(dotted) == p + Join(d, '.')
  {
    var h := Hextets(Numerals(10, d));
    var a, b := Spelled(16, h[0]), Spelled(16, h[1]);
    SpelledGroup(h[0]);
    SpelledGroup(h[1]);
    assert Units(sp) == sp.tail;
    LastTwo(p, a, b, Lead(sp), sp.tail);
    var front := sp.tail[..|sp.tail| - 2];
    dotted := Spelling(sp.head, sp.gap, front, Some(d));
    assert sp.tail == front + [a, b];
    assert Folded(dotted) == sp;
    FoldedDenotes(dotted);
    DottedText(dotted);
  }

  lemma {:induction false} ExpandedIsSpelled(input: string) returns (sp: Spelling)
    requires ExpandIPv6(input).Some?
    ensures Allowed(sp) && Written(sp) == Core(input) && Denoted(sp) == ExpandIPv6(input).value
  {
    var s := Core(input);
    sp := ExpandedGroups(FoldTail(s).value);
    if !Without(s, '.') {
      sp := UnfoldedTail(s, sp);
    }
  }

  lemma {:induction false} UnfoldedTail(s: string, plain: Spelling) returns (sp: Spelling)
    requires !Without(s, '.') && Allowed(plain) && plain.dotted.None? && FoldTail(s) == Some(Written(plain))
    ensures Allowed(sp) && Written(sp) == s && Denoted(sp) == Denoted(plain)
  {
    var k := LastIndexOf(s, ':');
    FoldParts(s);
    var d := ParsedOctets(s[k..]);
    sp := Unfolded(plain, s[..k], d);
  }

  lemma {:induction false} FoldParts(s: string)
    requires !Without(s, '.') && FoldTail(s).Some?
    ensures var k := LastIndexOf(s, ':');
      && 0 < k <= |s| && s[k - 1] == ':' && s == s[..k] + s[k..] && ParseIPv4(s[k..]).Some?
      && FoldTail(s) == Some(WithTail(s[..k], Hextets(ParseIPv4(s[k..]).value)))
  {
  }

  /**
   * An input expands to `g` exactly when, without case, brackets and zone, it is an
   * allowed spelling of `g`.
   */
  lemma {:induction false} ExpandsExactlySpellings(input: string, g: seq<nat>)
    ensures ExpandIPv6(input) == Some(g) <==> exists sp :: Allowed(sp) && Written(sp) == Core(input) && Denoted(sp) == g
  {
    if ExpandIPv6(input) == Some(g) {
      var sp := ExpandedIsSpelled(input);
    }
    forall sp | Allowed(sp) && Written(sp) == Core(input) && Denoted(sp) == g
      ensures ExpandIPv6(input) == Some(g)
    {
      SpellingExpands(input, sp);
    }
  }

  /** Every accepted input yields eight numbers below 65536. */
  lemma {:induction false} ExpandedIsEightHextets(input: string)
    requires ExpandIPv6(input).Some?
    ensures var g := ExpandIPv6(input).value; |g| == 8 && forall k | 0 <= k < 8 :: g[k] < 65536
  {
    var sp := ExpandedIsSpelled(input);
    DenotesEightHextets(sp);
  }
}
