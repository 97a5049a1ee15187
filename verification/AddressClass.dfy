/** Private or public: the classifiers of `ssrf.ts` over every spelling of an address. */
module AddressClass {
  import opened Wrappers
  import opened Text
  import opened AddressText
  import opened AddressExpansion

  predicate PrivateOctets(p: seq<nat>)
    requires |p| == 4
  {
    var a, b, c := p[0], p[1], p[2];
    || a == 0 || a == 10 || a == 127
    || (a == 169 && b == 254)
    || (a == 172 && 16 <= b <= 31)
    || (a == 192 && b == 168)
    || (a == 100 && 64 <= b <= 127)
    || (a == 192 && b == 0 && c == 0)
    || (a == 192 && b == 0 && c == 2)
    || (a == 198 && (b == 18 || b == 19))
    || (a == 198 && b == 51 && c == 100)
    || (a == 203 && b == 0 && c == 113)
    || a >= 224
  }

  predicate IsPrivateIPv4(s: string) {
    var p := ParseIPv4(s);
    p.Some? && PrivateOctets(p.value)
  }

  /** The high and low bytes of two hextets. */
  function Octets(hi: nat, lo: nat): seq<nat> {
    [hi / 256 % 256, hi % 256, lo / 256 % 256, lo % 256]
  }

  function Dotted(ns: seq<nat>): string
    requires |ns| == 4
  {
    Join([Spelled(10, ns[0]), Spelled(10, ns[1]), Spelled(10, ns[2]), Spelled(10, ns[3])], '.')
  }

  predicate EmbeddedV4IsPrivate(hi: nat, lo: nat) {
    IsPrivateIPv4(Dotted(Octets(hi, lo)))
  }

  predicate AllZeroHigh(g: seq<nat>)
    requires |g| == 8
  {
    g[0] == 0 && g[1] == 0 && g[2] == 0 && g[3] == 0 && g[4] == 0
  }

  predicate PrivateHextets(g: seq<nat>)
    requires |g| == 8
  {
    var hi8 := g[0] / 256;
    if AllZeroHigh(g) && g[5] == 0 && g[6] == 0 && (g[7] == 0 || g[7] == 1) then true
    else if hi8 == 0xfc || hi8 == 0xfd then true
    else if g[0] / 64 == 0xfe80 / 64 || g[0] / 64 == 0xfec0 / 64 then true
    else if hi8 == 0xff then true
    else if AllZeroHigh(g) && (g[5] == 0xffff || g[5] == 0) then EmbeddedV4IsPrivate(g[6], g[7])
    else if g[0] == 0x64 && g[1] == 0xff9b then EmbeddedV4IsPrivate(g[6], g[7])
    else if g[0] == 0x2002 then EmbeddedV4IsPrivate(g[1], g[2])
    else false
  }

  const PRIVATE_EXACT: seq<string> := ["::1", "0:0:0:0:0:0:0:1", "::", "0:0:0:0:0:0:0:0"]
  const PRIVATE_PREFIXES: seq<string> := ["fc", "fd", "fe8", "fe9", "fea", "feb", "fec", "fed", "fee", "fef", "ff"]

  predicate IsPrivateIPv6(input: string) {
    var g := ExpandIPv6(input);
    if g.None? then
      var s := Unbracket(Lower(input));
      s in PRIVATE_EXACT || exists k | 0 <= k < |PRIVATE_PREFIXES| :: PRIVATE_PREFIXES[k] <= s
    else
      |g.value| == 8 && PrivateHextets(g.value)
  }

  /** Reading back what the classifier wrote for an embedded address. */
  lemma {:induction false} DottedReads(ns: seq<nat>)
    requires |ns| == 4 && forall k | 0 <= k < 4 :: ns[k] < 256
    ensures ParseIPv4(Dotted(ns)) == Some(ns)
  {
    var parts := [Spelled(10, ns[0]), Spelled(10, ns[1]), Spelled(10, ns[2]), Spelled(10, ns[3])];
    forall k | 0 <= k < 4 ensures IsOctet(parts[k]) && Numeral(10, parts[k]) == ns[k] {
      SpelledOctet(ns[k]);
    }
    OctetsParse(parts);
    assert Numerals(10, parts) == ns;
  }

  lemma {:induction false} OctetsOfHextets(o: seq<nat>)
    requires |o| == 4 && o[0] < 256 && o[1] < 256 && o[2] < 256 && o[3] < 256
    ensures Octets(Hextets(o)[0], Hextets(o)[1]) == o
  {
  }

  lemma {:induction false} EmbeddedIsOctets(o: seq<nat>)
    requires |o| == 4 && o[0] < 256 && o[1] < 256 && o[2] < 256 && o[3] < 256
    ensures EmbeddedV4IsPrivate(Hextets(o)[0], Hextets(o)[1]) == PrivateOctets(o)
  {
    OctetsOfHextets(o);
    DottedReads(o);
  }

  lemma {:induction false} ClassifiesAsExpanded(input: string, g: seq<nat>)
    requires ExpandIPv6(input) == Some(g) && |g| == 8
    ensures IsPrivateIPv6(input) == PrivateHextets(g)
  {
  }

  /** Spellings of one address classify alike, and as the address does. */
  lemma {:induction false} SpellingsClassifyAlike(a: string, b: string, sp: Spelling, tp: Spelling)
    requires Allowed(sp) && Allowed(tp) && Core(a) == Written(sp) && Core(b) == Written(tp) && Denoted(sp) == Denoted(tp)
    ensures |Denoted(sp)| == 8 && IsPrivateIPv6(a) == IsPrivateIPv6(b) == PrivateHextets(Denoted(sp))
  {
    SpellingExpands(a, sp);
    SpellingExpands(b, tp);
    DenotesEightHextets(sp);
  }

  /**
   * However an IPv4-mapped or IPv4-compatible address is spelled, it is private
   * exactly when the IPv4 address in it is, however that one is spelled.
   */
  lemma {:induction false} MappedClassifiesAsIPv4(input: string, v4: string)
    requires ParseIPv4(v4).Some? && ExpandIPv6(input).Some?
    requires var g, h := ExpandIPv6(input).value, Hextets(ParseIPv4(v4).value);
      |g| == 8 && AllZeroHigh(g) && (g[5] == 0xffff || g[5] == 0) && g[6] == h[0] && g[7] == h[1]
    ensures IsPrivateIPv6(input) == IsPrivateIPv4(v4)
  {
    ClassifiesAsExpanded(input, ExpandIPv6(input).value);
    ParsedBounds(v4);
    MappedIsOctets(ExpandIPv6(input).value, ParseIPv4(v4).value);
  }

  lemma {:induction false} MappedIsOctets(g: seq<nat>, o: seq<nat>)
    requires |o| == 4 && o[0] < 256 && o[1] < 256 && o[2] < 256 && o[3] < 256
    requires |g| == 8 && AllZeroHigh(g) && (g[5] == 0 || g[5] == 0xffff) && g[6] == Hextets(o)[0] && g[7] == Hextets(o)[1]
    ensures PrivateHextets(g) == PrivateOctets(o)
  {
    EmbeddedIsOctets(o);
  }

  lemma {:induction false} ParsedBounds(v4: string)
    requires ParseIPv4(v4).Some?
    ensures var o := ParseIPv4(v4).value; |o| == 4 && o[0] < 256 && o[1] < 256 && o[2] < 256 && o[3] < 256
  {
  }

  /** The same for NAT64 and 6to4. */
  lemma {:induction false} TranslatedClassifiesAsIPv4(input: string, v4: string)
    requires ParseIPv4(v4).Some? && ExpandIPv6(input).Some?
    requires var g, h := ExpandIPv6(input).value, Hextets(ParseIPv4(v4).value);
      |g| == 8 && ((g[0] == 0x64 && g[1] == 0xff9b && g[6] == h[0] && g[7] == h[1]) || (g[0] == 0x2002 && g[1] == h[0] && g[2] == h[1]))
    ensures IsPrivateIPv6(input) == IsPrivateIPv4(v4)
  {
    ClassifiesAsExpanded(input, ExpandIPv6(input).value);
    ParsedBounds(v4);
    EmbeddedIsOctets(ParseIPv4(v4).value);
  }

  // ----- case, brackets and zones -----

  /** Letters that wrap an address and never occur in one. */
  ghost predicate Bare(w: string) {
    w != "" && Without(w, '%') && Without(w, '[') && Without(w, ']')
  }

  lemma {:induction false} CutZone(w: string, z: string)
    requires Bare(w)
    ensures var s := w + "%" + z; s[..IndexOf(s, '%')] == w
    ensures w[..IndexOf(w, '%')] == w
  {
    IndexIsFirst(w, '%', z);
  }

  lemma {:induction false} Unbracketed(w: string, z: string)
    requires Bare(w)
    ensures Unbracket(w) == w && Unbracket("[" + w + "]") == w && Unbracket("[" + (w + "%" + z) + "]") == w + "%" + z
  {
    assert ("[" + w + "]")[1..] == w + "]";
    assert ("[" + (w + "%" + z) + "]")[1..] == (w + "%" + z) + "]";
  }

  lemma {:induction false} ZoneUnbracketed(w: string, z: string)
    requires Bare(w)
    ensures Unbracket(w + "%" + z) == w + "%" + if z != "" && z[|z| - 1] == ']' then z[..|z| - 1] else z
  {
    assert (w + "%" + z)[0] == w[0];
  }

  lemma {:induction false} LowerParts(raw: string, zone: string)
    ensures var w, z := Lower(raw), Lower(zone);
      Lower("[" + raw + "]") == "[" + w + "]" && Lower(raw + "%" + zone) == w + "%" + z
      && Lower("[" + raw + "%" + zone + "]") == "[" + (w + "%" + z) + "]"
  {
  }

  /** Upper case, brackets and a zone do not change what is parsed. */
  lemma {:induction false} WrappedSpelling(raw: string, zone: string, sp: Spelling)
    requires Allowed(sp) && Lower(raw) == Written(sp)
    ensures Core(raw) == Written(sp) && Core("[" + raw + "]") == Written(sp)
    ensures Core(raw + "%" + zone) == Written(sp) && Core("[" + raw + "%" + zone + "]") == Written(sp)
  {
    WrittenWithout(sp, '%');
    WrittenWithout(sp, '[');
    WrittenWithout(sp, ']');
    NotBlank(sp);
    WrappedCore(raw, zone);
  }

  lemma {:induction false} WrappedCore(raw: string, zone: string)
    requires Bare(Lower(raw))
    ensures Core(raw) == Core("[" + raw + "]") == Core(raw + "%" + zone) == Core("[" + raw + "%" + zone + "]") == Lower(raw)
  {
    var w, z := Lower(raw), Lower(zone);
    LowerParts(raw, zone);
    Unbracketed(w, z);
    ZoneUnbracketed(w, z);
    CutZone(w, z);
    CutZone(w, if z != "" && z[|z| - 1] == ']' then z[..|z| - 1] else z);
  }

  // ----- every address has these spellings -----

  function Groups(ns: seq<nat>): (ts: seq<string>)
    ensures |ts| == |ns| && forall k | 0 <= k < |ns| :: ts[k] == Spelled(16, ns[k])
  {
    seq(|ns|, k requires 0 <= k < |ns| => Spelled(16, ns[k]))
  }

  /** The address `g` with the zeros from `i` to `j` left out, the rest in shortest form, the tail dotted or not. */
  function Spell(g: seq<nat>, i: nat, j: nat, dotted: bool): Spelling
    requires |g| == 8 && i <= j <= if dotted then 6 else 8
  {
    var n := if dotted then 6 else 8;
    Spelling(Groups(g[..i]), i < j, Groups(g[j..n]),
      if dotted then Some([Spelled(10, g[6] / 256), Spelled(10, g[6] % 256), Spelled(10, g[7] / 256), Spelled(10, g[7] % 256)]) else None)
  }

  lemma {:induction false} GroupsRead(ns: seq<nat>)
    requires forall k | 0 <= k < |ns| :: ns[k] < 65536
    ensures AllGroups(Groups(ns)) && Numerals(16, Groups(ns)) == ns
  {
    forall k | 0 <= k < |ns| ensures IsGroup(Groups(ns)[k]) && Numeral(16, Groups(ns)[k]) == ns[k] {
      SpelledGroup(ns[k]);
    }
  }

  lemma {:induction false} OctetsRead(hi: nat, lo: nat)
    requires hi < 65536 && lo < 65536
    ensures var ts := [Spelled(10, hi / 256), Spelled(10, hi % 256), Spelled(10, lo / 256), Spelled(10, lo % 256)];
      AllOctets(ts) && Hextets(Numerals(10, ts)) == [hi, lo]
  {
    SpelledOctet(hi / 256);
    SpelledOctet(hi % 256);
    SpelledOctet(lo / 256);
    SpelledOctet(lo % 256);
  }

  /** For all eight hextets: in full, or with any run of zeros left out, dotted or not, the spelling denotes them. */
  lemma {:induction false} EveryAddressIsSpelled(g: seq<nat>, i: nat, j: nat, dotted: bool)
    requires |g| == 8 && forall k | 0 <= k < 8 :: g[k] < 65536
    requires (i == j == 0 || i < j) && j <= (if dotted then 6 else 8) && forall k | i <= k < j :: g[k] == 0
    ensures Allowed(Spell(g, i, j, dotted)) && Denoted(Spell(g, i, j, dotted)) == g
  {
    var n := if dotted then 6 else 8;
    var sp := Spell(g, i, j, dotted);
    GroupsRead(g[..i]);
    GroupsRead(g[j..n]);
    if dotted {
      OctetsRead(g[6], g[7]);
    }
    assert Count(sp) == 8 - (j - i);
    assert Denoted(sp) == g[..i] + Zeros(j - i) + g[j..n] + if dotted then [g[6], g[7]] else [];
    Rejoined(g, i, j, n);
  }

  lemma {:induction false} Rejoined(g: seq<nat>, i: nat, j: nat, n: nat)
    requires |g| == 8 && i <= j <= n && (n == 6 || n == 8) && forall k | i <= k < j :: g[k] == 0
    ensures g[..i] + Zeros(j - i) + g[j..n] + (if n == 6 then [g[6], g[7]] else []) == g
  {
    assert g == g[..i] + g[i..j] + g[j..n] + g[n..];
    assert g[i..j] == Zeros(j - i);
    assert g[n..] == if n == 6 then [g[6], g[7]] else [];
  }

  /** A leading zero changes nothing. */
  lemma {:induction false} PaddedGroup(t: string)
    requires IsGroup(t) && |t| < 4
    ensures IsGroup("0" + t) && Numeral(16, "0" + t) == Numeral(16, t)
  {
    PaddedNumeral(t);
  }

  lemma {:induction false} PaddedNumeral(t: string)
    ensures Numeral(16, "0" + t) == Numeral(16, t)
  {
    var p := "0" + t;
    if t == "" {
      assert p[..0] == "";
    } else {
      PaddedNumeral(t[..|t| - 1]);
      assert p[..|p| - 1] == "0" + t[..|t| - 1];
    }
  }

  // ----- the code's own steps -----

  /** The inner loop: each group is checked and pushed, and a bad one ends it. */
  method ParseGroupsByLoop(s: string) returns (r: Option<seq<nat>>)
    ensures r == ParseGroups(s)
  {
    if s == "" {
      return Some([]);
    }
    var parts := Split(s, ':');
    var out: seq<nat> := [];
    for k := 0 to |parts|
      invariant AllGroups(parts[..k]) && out == Numerals(16, parts[..k])
    {
      if !IsGroup(parts[k]) {
        return None;
      }
      out := out + [Numeral(16, parts[k])];
    }
    assert parts[..|parts|] == parts;
    return Some(out);
  }

  /** `expandIPv6`, reassigning its working string. */
  method Expand(input: string) returns (r: Option<seq<nat>>)
    ensures r == ExpandIPv6(input)
    ensures r.Some? ==> |r.value| == 8 && forall k | 0 <= k < 8 :: r.value[k] < 65536
  {
    if ExpandIPv6(input).Some? {
      ExpandedIsEightHextets(input);
    }
    var s := Unbracket(Lower(input));
    var zone := IndexOf(s, '%');
    s := s[..zone];
    if s == "" {
      return None;
    }
    if exists k | 0 <= k < |s| :: s[k] == '.' {
      var m := LastIndexOf(s, ':');
      var v4 := ParseIPv4(s[m..]);
      if m == 0 || v4.None? {
        return None;
      }
      s := WithTail(s[..m], Hextets(v4.value));
    }
    r := ExpandWorking(s);
  }

  method ExpandWorking(s: string) returns (r: Option<seq<nat>>)
    ensures r == ExpandGroups(s)
  {
    var k := FirstDouble(s);
    if k != LastDouble(s) {
      return None;
    }
    if k == |s| {
      var all := ParseGroupsByLoop(s);
      return if all.Some? && |all.value| == 8 then all else None;
    }
    var head := ParseGroupsByLoop(s[..k]);
    var tail := ParseGroupsByLoop(s[k + 2..]);
    if head.None? || tail.None? {
      return None;
    }
    var missing := 8 - |head.value| - |tail.value|;
    if missing < 1 {
      return None;
    }
    r := Some(head.value + Zeros(missing) + tail.value);
  }
}
