/**
 * IP literals as `ssrf.ts` reads them: `parseIPv4` and `expandIPv6`, and the
 * spellings of section 2.2 of RFC 4291 they are measured against.
 */
module AddressText {
  import opened Wrappers
  import opened Text

  // ----- numerals -----

  predicate IsDecimal(c: char) {
    '0' <= c <= '9'
  }

  predicate IsHex(c: char) {
    '0' <= c <= '9' || 'a' <= c <= 'f'
  }

  function Digit(c: char): (d: nat)
    ensures d < 16
  {
    if '0' <= c <= '9' then (c - '0') as int else if 'a' <= c <= 'f' then 10 + (c - 'a') as int else 0
  }

  function DigitChar(d: nat): (c: char)
    requires d < 16
    ensures IsHex(c) && Digit(c) == d && (d < 10 ==> IsDecimal(c))
  {
    if d < 10 then '0' + d as char else 'a' + (d - 10) as char
  }

  function Numeral(base: nat, text: string): nat {
    if text == "" then 0 else Numeral(base, text[..|text| - 1]) * base + Digit(text[|text| - 1])
  }

  /** `toString(base)`: no leading zeros. */
  function Spelled(base: nat, n: nat): string
    requires base == 10 || base == 16
    decreases n
  {
    if n < base then [DigitChar(n)] else Spelled(base, n / base) + [DigitChar(n % base)]
  }

  predicate AllHex(t: string) {
    forall k | 0 <= k < |t| :: IsHex(t[k])
  }

  predicate AllDecimal(t: string) {
    forall k | 0 <= k < |t| :: IsDecimal(t[k])
  }

  /** `[0-9a-f]{1,4}` */
  predicate IsGroup(t: string) {
    1 <= |t| <= 4 && AllHex(t)
  }

  /** `\d{1,3}`, at most 255. */
  predicate IsOctet(t: string) {
    1 <= |t| <= 3 && AllDecimal(t) && Numeral(10, t) <= 255
  }

  predicate AllGroups(ts: seq<string>) {
    forall k | 0 <= k < |ts| :: IsGroup(ts[k])
  }

  predicate AllOctets(ts: seq<string>) {
    forall k | 0 <= k < |ts| :: IsOctet(ts[k])
  }

  function Numerals(base: nat, ts: seq<string>): (ns: seq<nat>)
    ensures |ns| == |ts| && forall k | 0 <= k < |ts| :: ns[k] == Numeral(base, ts[k])
  {
    seq(|ts|, k requires 0 <= k < |ts| => Numeral(base, ts[k]))
  }

  /** A numeral is below the base to the number of its digits. */
  lemma {:induction false} GroupBound(t: string)
    requires IsGroup(t)
    ensures Numeral(16, t) < 65536
  {
    var t3 := if |t| == 4 then t[..3] else t;
    assert |t| == 4 ==> Numeral(16, t) == Numeral(16, t3) * 16 + Digit(t[3]);
    var t2 := if |t3| == 3 then t3[..2] else t3;
    assert |t3| == 3 ==> Numeral(16, t3) == Numeral(16, t2) * 16 + Digit(t3[2]);
    var t1 := if |t2| == 2 then t2[..1] else t2;
    assert |t2| == 2 ==> Numeral(16, t2) == Numeral(16, t1) * 16 + Digit(t2[1]);
    assert Numeral(16, t1) == Digit(t1[0]) by { assert t1[..0] == ""; }
  }

  /** Spelling a number and reading the numeral gives the number back. */
  lemma {:induction false} SpelledReads(base: nat, n: nat)
    requires base == 10 || base == 16
    ensures Numeral(base, Spelled(base, n)) == n && Spelled(base, n) != ""
    ensures AllHex(Spelled(base, n)) && (base == 10 ==> AllDecimal(Spelled(base, n)))
    decreases n
  {
    var t := Spelled(base, n);
    if n < base {
      assert t[..0] == "";
    } else {
      var q, d := n / base, n % base;
      assert q * base + d == n by { if base == 10 { } else { } }
      SpelledReads(base, q);
      assert t[..|t| - 1] == Spelled(base, q) && t[|t| - 1] == DigitChar(d);
    }
  }

  lemma {:induction false} SpelledGroup(n: nat)
    requires n < 65536
    ensures IsGroup(Spelled(16, n)) && Numeral(16, Spelled(16, n)) == n
  {
    SpelledReads(16, n);
    var a, b, c := n / 16, n / 16 / 16, n / 16 / 16 / 16;
    assert c < 16;
    assert |Spelled(16, c)| == 1;
    assert b >= 16 ==> |Spelled(16, b)| == 2;
    assert |Spelled(16, b)| <= 2;
    assert |Spelled(16, a)| <= 3;
  }

  lemma {:induction false} SpelledOctet(n: nat)
    requires n < 256
    ensures IsOctet(Spelled(10, n)) && Numeral(10, Spelled(10, n)) == n
  {
    SpelledReads(10, n);
    assert |Spelled(10, n / 10 / 10)| == 1;
    assert |Spelled(10, n / 10)| <= 2;
  }

  // ----- parsers -----

  function ParseIPv4(s: string): Option<seq<nat>> {
    var parts := Split(s, '.');
    if |parts| == 4 && AllOctets(parts) then Some(Numerals(10, parts)) else None
  }

  function LowerChar(c: char): char {
    if 'A' <= c <= 'Z' then c - 'A' + 'a' else c
  }

  function Lower(s: string): (r: string)
    ensures |r| == |s| && forall k | 0 <= k < |s| :: r[k] == LowerChar(s[k])
  {
    seq(|s|, k requires 0 <= k < |s| => LowerChar(s[k]))
  }

  /** An opening bracket at the start and a closing one at the end go, each by itself. */
  function Unbracket(s: string): string {
    var t := if s != "" && s[0] == '[' then s[1..] else s;
    if t != "" && t[|t| - 1] == ']' then t[..|t| - 1] else t
  }

  /** What is left of the input to parse: lower case, without brackets and zone. */
  function Core(input: string): string {
    var s := Unbracket(Lower(input));
    s[..IndexOf(s, '%')]
  }

  /** Four octets as two hextets. */
  function Hextets(octets: seq<nat>): seq<nat>
    requires |octets| == 4
  {
    [octets[0] * 256 + octets[1], octets[2] * 256 + octets[3]]
  }

  function WithTail(p: string, h: seq<nat>): string
    requires |h| == 2
  {
    p + Spelled(16, h[0]) + ":" + Spelled(16, h[1])
  }

  /** A dotted tail after the last colon becomes two hexadecimal groups. */
  function FoldTail(s: string): Option<string> {
    if Without(s, '.') then Some(s)
    else
      var k := LastIndexOf(s, ':');
      var v4 := ParseIPv4(s[k..]);
      if k == 0 || v4.None? then None else Some(WithTail(s[..k], Hextets(v4.value)))
  }

  predicate DoubleAt(s: string, k: nat) {
    k + 1 < |s| && s[k] == ':' && s[k + 1] == ':'
  }

  ghost predicate NoDouble(s: string) {
    forall k: nat :: !DoubleAt(s, k)
  }

  /** `indexOf("::")`, with the length for "absent". */
  function FirstDouble(s: string): (k: nat)
    ensures k <= |s| && (k < |s| ==> DoubleAt(s, k)) && forall j: nat | j < k :: !DoubleAt(s, j)
  {
    if s == "" || DoubleAt(s, 0) then 0
    else
      var k := FirstDouble(s[1..]);
      assert forall j: nat | 0 < j :: DoubleAt(s, j) <==> DoubleAt(s[1..], j - 1);
      k + 1
  }

  /** `lastIndexOf("::")`, with the length for "absent". */
  function LastDouble(s: string): (k: nat)
    ensures k <= |s| && (k < |s| ==> DoubleAt(s, k)) && forall j: nat | k < j || k == |s| :: !DoubleAt(s, j)
  {
    LastDoubleFrom(s, |s|)
  }

  function LastDoubleFrom(s: string, n: nat): (k: nat)
    requires n <= |s| && forall j: nat | n <= j :: !DoubleAt(s, j)
    ensures k <= |s| && (k < |s| ==> DoubleAt(s, k)) && forall j: nat | k < j || k == |s| :: !DoubleAt(s, j)
  {
    if n == 0 then |s| else if DoubleAt(s, n - 1) then n - 1 else LastDoubleFrom(s, n - 1)
  }

  function ParseGroups(s: string): Option<seq<nat>> {
    if s == "" then Some([])
    else
      var parts := Split(s, ':');
      if AllGroups(parts) then Some(Numerals(16, parts)) else None
  }

  function Zeros(n: nat): seq<nat> {
    seq(n, _ => 0)
  }

  /** The gap stands for one zero or more. */
  function FillGap(head: Option<seq<nat>>, tail: Option<seq<nat>>): Option<seq<nat>> {
    if head.None? || tail.None? || |head.value| + |tail.value| > 7 then None
    else Some(head.value + Zeros(8 - |head.value| - |tail.value|) + tail.value)
  }

  function ExpandGroups(s: string): Option<seq<nat>> {
    var k := FirstDouble(s);
    if k != LastDouble(s) then None
    else if k < |s| then
      FillGap(ParseGroups(s[..k]), ParseGroups(s[k + 2..]))
    else
      var all := ParseGroups(s);
      if all.Some? && |all.value| == 8 then all else None
  }

  function ExpandIPv6(input: string): Option<seq<nat>> {
    var s := Core(input);
    if s == "" then None
    else
      var folded := FoldTail(s);
      if folded.None? then None else ExpandGroups(folded.value)
  }

  // ----- section 2.2 of RFC 4291 -----

  /**
   * A spelling: groups of one to four hexadecimal digits, at most one `::` (then
   * `head` stands before it and `tail` after it; otherwise all is in `tail`), and
   * possibly a dotted IPv4 address in the place of the last two groups.
   */
  datatype Spelling = Spelling(head: seq<string>, gap: bool, tail: seq<string>, dotted: Option<seq<string>>)

  function Count(sp: Spelling): nat {
    |sp.head| + |sp.tail| + if sp.dotted.Some? then 2 else 0
  }

  predicate Allowed(sp: Spelling) {
    && AllGroups(sp.head) && AllGroups(sp.tail)
    && (sp.dotted.Some? ==> |sp.dotted.value| == 4 && AllOctets(sp.dotted.value))
    && (if sp.gap then Count(sp) <= 7 else sp.head == [] && Count(sp) == 8)
  }

  function Units(sp: Spelling): seq<string> {
    sp.tail + if sp.dotted.Some? then [Join(sp.dotted.value, '.')] else []
  }

  function Lead(sp: Spelling): string {
    if sp.gap then Join(sp.head, ':') + "::" else ""
  }

  function Written(sp: Spelling): string {
    Lead(sp) + Join(Units(sp), ':')
  }

  /** The eight numbers a spelling stands for. */
  function Denoted(sp: Spelling): seq<nat>
    requires Allowed(sp)
  {
    Numerals(16, sp.head) + Zeros(8 - Count(sp)) + Numerals(16, sp.tail)
    + if sp.dotted.Some? then Hextets(Numerals(10, sp.dotted.value)) else []
  }

  lemma {:induction false} DenotesEightHextets(sp: Spelling)
    requires Allowed(sp)
    ensures |Denoted(sp)| == 8 && forall k | 0 <= k < 8 :: Denoted(sp)[k] < 65536
  {
    forall k | 0 <= k < |sp.head| ensures Numeral(16, sp.head[k]) < 65536 {
      GroupBound(sp.head[k]);
    }
    forall k | 0 <= k < |sp.tail| ensures Numeral(16, sp.tail[k]) < 65536 {
      GroupBound(sp.tail[k]);
    }
  }

  // ----- letters of groups and octets -----

  lemma {:induction false} PartLetters(t: string)
    requires IsGroup(t) || IsOctet(t)
    ensures Without(t, ':') && Without(t, '.') && Without(t, '%') && Without(t, '[') && Without(t, ']')
  {
  }

  lemma {:induction false} GroupsParse(parts: seq<string>)
    requires AllGroups(parts)
    ensures ParseGroups(Join(parts, ':')) == Some(Numerals(16, parts))
  {
    if parts != [] {
      forall k | 0 <= k < |parts| ensures Without(parts[k], ':') {
        PartLetters(parts[k]);
      }
      SplitJoin(parts, ':');
      assert Join(parts, ':') != "";
    }
  }

  lemma {:induction false} OctetsParse(parts: seq<string>)
    requires |parts| == 4 && AllOctets(parts)
    ensures ParseIPv4(Join(parts, '.')) == Some(Numerals(10, parts))
  {
    forall k | 0 <= k < |parts| ensures Without(parts[k], '.') {
      PartLetters(parts[k]);
    }
    SplitJoin(parts, '.');
  }

  /** What groups join to: no `::`, no colon at either end. */
  ghost predicate Solid(s: string) {
    NoDouble(s) && (s != "" ==> s[0] != ':' && s[|s| - 1] != ':')
  }

  lemma {:induction false} GroupsAreSolid(parts: seq<string>)
    requires AllGroups(parts)
    ensures Solid(Join(parts, ':')) && (parts != [] ==> Join(parts, ':') != "")
  {
    if parts != [] {
      var g := parts[0];
      PartLetters(g);
      if |parts| > 1 {
        var rest := Join(parts[1..], ':');
        GroupsAreSolid(parts[1..]);
        var s := g + ":" + rest;
        forall k: nat ensures !DoubleAt(s, k) {
          assert k > |g| && k + 1 < |s| ==> !DoubleAt(rest, k - |g| - 1);
        }
      }
    }
  }

  /** One `::` between solid texts is found from both ends. */
  lemma {:induction false} OneDouble(a: string, b: string)
    requires Solid(a) && Solid(b)
    ensures var s := a + "::" + b; FirstDouble(s) == |a| == LastDouble(s) && s[..|a|] == a && s[|a| + 2..] == b
  {
    var s := a + "::" + b;
    assert DoubleAt(s, |a|);
    forall k: nat | k != |a| ensures !DoubleAt(s, k) {
      assert k + 1 < |a| ==> !DoubleAt(a, k);
      assert k >= |a| + 2 && k + 1 < |s| ==> !DoubleAt(b, k - |a| - 2);
    }
  }
}
