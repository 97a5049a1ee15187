/** The classifiers of `ssrf.ts` as lists of address blocks, each a base address and a prefix length. */
module AddressBlocks {
  import opened Wrappers
  import opened AddressText
  import opened AddressExpansion
  import opened AddressClass

  /** An IPv4 address as a number. */
  function Number(o: seq<nat>): nat
    requires |o| == 4
  {
    o[0] * 0x1000000 + o[1] * 0x10000 + o[2] * 0x100 + o[3]
  }

  /** The addresses that agree with a base above the lowest `size` values. */
  datatype Block = Block(base: nat, size: nat)

  predicate Contains(b: Block, v: nat) {
    b.base <= v < b.base + b.size
  }

  /** This network, private use, loopback, link local, shared, protocol assignments, documentation, benchmarking, and multicast and beyond. */
  const IPV4_BLOCKS: seq<Block> := [
    Block(0x00000000, 0x1000000),   // 0.0.0.0/8
    Block(0x0a000000, 0x1000000),   // 10.0.0.0/8
    Block(0x7f000000, 0x1000000),   // 127.0.0.0/8
    Block(0xa9fe0000, 0x10000),     // 169.254.0.0/16
    Block(0xac100000, 0x100000),    // 172.16.0.0/12
    Block(0xc0a80000, 0x10000),     // 192.168.0.0/16
    Block(0x64400000, 0x400000),    // 100.64.0.0/10
    Block(0xc0000000, 0x100),       // 192.0.0.0/24
    Block(0xc0000200, 0x100),       // 192.0.2.0/24
    Block(0xc6120000, 0x20000),     // 198.18.0.0/15
    Block(0xc6336400, 0x100),       // 198.51.100.0/24
    Block(0xcb007100, 0x100),       // 203.0.113.0/24
    Block(0xe0000000, 0x20000000)]  // 224.0.0.0/3

  ghost predicate Blocked(v: nat) {
    exists b <- IPV4_BLOCKS :: Contains(b, v)
  }

  predicate IsV4(o: seq<nat>) {
    |o| == 4 && o[0] < 256 && o[1] < 256 && o[2] < 256 && o[3] < 256
  }

  /** The blocks written out. */
  predicate InRanges(v: nat) {
    || v < 0x01000000
    || 0x0a000000 <= v < 0x0b000000
    || 0x7f000000 <= v < 0x80000000
    || 0xa9fe0000 <= v < 0xa9ff0000
    || 0xac100000 <= v < 0xac200000
    || 0xc0a80000 <= v < 0xc0a90000
    || 0x64400000 <= v < 0x64800000
    || 0xc0000000 <= v < 0xc0000100
    || 0xc0000200 <= v < 0xc0000300
    || 0xc6120000 <= v < 0xc6140000
    || 0xc6336400 <= v < 0xc6336500
    || 0xcb007100 <= v < 0xcb007200
    || 0xe0000000 <= v < 0x1_0000_0000
  }

  lemma {:induction false} BlocksAreRanges(v: nat)
    ensures Blocked(v) <==> InRanges(v)
  {
    if InRanges(v) {
      var n := if v < 0x01000000 then 0 else if v < 0x0b000000 then 1 else if v < 0x64800000 then 6
        else if v < 0x80000000 then 2 else if v < 0xa9ff0000 then 3 else if v < 0xac200000 then 4
        else if v < 0xc0000100 then 7 else if v < 0xc0000300 then 8 else if v < 0xc0a90000 then 5
        else if v < 0xc6140000 then 9 else if v < 0xc6336500 then 10 else if v < 0xcb007200 then 11 else 12;
      assert Contains(IPV4_BLOCKS[n], v) && IPV4_BLOCKS[n] in IPV4_BLOCKS;
    }
  }

  /** An IPv4 address is private exactly when one of the blocks contains it. */
  lemma {:induction false} PrivateIffBlocked(o: seq<nat>)
    requires IsV4(o)
    ensures PrivateOctets(o) <==> Blocked(Number(o))
  {
    BlocksAreRanges(Number(o));
  }

  /** A text is a private IPv4 address exactly when it is four decimal parts of a blocked address. */
  lemma {:induction false} IPv4TextIffBlocked(s: string)
    ensures IsPrivateIPv4(s) <==> ParseIPv4(s).Some? && |ParseIPv4(s).value| == 4 && Blocked(Number(ParseIPv4(s).value))
  {
    if ParseIPv4(s).Some? {
      ParsedBounds(s);
      PrivateIffBlocked(ParseIPv4(s).value);
    }
  }

  predicate StartsWith(g: seq<nat>, prefix: seq<nat>) {
    prefix <= g
  }

  /** The IPv4 address in two hextets. */
  function Embedded(hi: nat, lo: nat): nat {
    hi * 65536 + lo
  }

  /**
   * Unspecified, loopback, unique local (fc00::/7), link or site local (fe80::/10,
   * fec0::/10), multicast (ff00::/8), or the carrier of a blocked IPv4 address: in its last
   * hextets if it is compatible (::/96), mapped (::ffff:0:0/96) or translated
   * (64:ff9b::/32), behind the first one in 2002::/16.
   */
  ghost predicate BlockedIPv6(g: seq<nat>)
    requires |g| == 8
  {
    || g == [0, 0, 0, 0, 0, 0, 0, 0] || g == [0, 0, 0, 0, 0, 0, 0, 1]
    || 0xfc00 <= g[0] < 0xfe00
    || 0xfe80 <= g[0] < 0xff00
    || 0xff00 <= g[0]
    || ((StartsWith(g, [0, 0, 0, 0, 0, 0]) || StartsWith(g, [0, 0, 0, 0, 0, 0xffff]) || StartsWith(g, [0x64, 0xff9b])) && Blocked(Embedded(g[6], g[7])))
    || (StartsWith(g, [0x2002]) && Blocked(Embedded(g[1], g[2])))
  }

  lemma {:induction false} PrivateIPv6Iff(g: seq<nat>)
    requires |g| == 8 && forall k | 0 <= k < 8 :: g[k] < 65536
    ensures PrivateHextets(g) <==> BlockedIPv6(g)
  {
    EmbeddedIffBlocked(g[6], g[7]);
    EmbeddedIffBlocked(g[1], g[2]);
    HighPart(g[0]);
    Prefixes(g);
  }

  lemma {:induction false} HighPart(h: nat)
    requires h < 65536
    ensures (h / 256 == 0xfc || h / 256 == 0xfd) <==> 0xfc00 <= h < 0xfe00
    ensures (h / 64 == 0xfe80 / 64 || h / 64 == 0xfec0 / 64) <==> 0xfe80 <= h < 0xff00
    ensures h / 256 == 0xff <==> 0xff00 <= h
  {
  }

  lemma {:induction false} Prefixes(g: seq<nat>)
    requires |g| == 8
    ensures StartsWith(g, [0, 0, 0, 0, 0, 0]) <==> AllZeroHigh(g) && g[5] == 0
    ensures StartsWith(g, [0, 0, 0, 0, 0, 0xffff]) <==> AllZeroHigh(g) && g[5] == 0xffff
    ensures StartsWith(g, [0x64, 0xff9b]) <==> g[0] == 0x64 && g[1] == 0xff9b
    ensures StartsWith(g, [0x2002]) <==> g[0] == 0x2002
    ensures g == [0, 0, 0, 0, 0, 0, 0, 0] <==> AllZeroHigh(g) && g[5] == 0 && g[6] == 0 && g[7] == 0
    ensures g == [0, 0, 0, 0, 0, 0, 0, 1] <==> AllZeroHigh(g) && g[5] == 0 && g[6] == 0 && g[7] == 1
  {
  }

  lemma {:induction false} EmbeddedIffBlocked(hi: nat, lo: nat)
    requires hi < 65536 && lo < 65536
    ensures EmbeddedV4IsPrivate(hi, lo) <==> Blocked(Embedded(hi, lo))
  {
    var o := Octets(hi, lo);
    NumberOfOctets(hi, lo);
    ReadsAsOctets(o);
    PrivateIffBlocked(o);
  }

  lemma {:induction false} NumberOfOctets(hi: nat, lo: nat)
    requires hi < 65536 && lo < 65536
    ensures IsV4(Octets(hi, lo)) && Number(Octets(hi, lo)) == Embedded(hi, lo)
  {
    assert hi == hi / 256 * 256 + hi % 256 && lo == lo / 256 * 256 + lo % 256;
  }

  lemma {:induction false} ReadsAsOctets(o: seq<nat>)
    requires IsV4(o)
    ensures IsPrivateIPv4(Dotted(o)) <==> PrivateOctets(o)
  {
    DottedReads(o);
  }

  /** However it is spelled, an IPv6 address is private exactly when the address itself is blocked. */
  lemma {:induction false} SpellingIffBlocked(input: string, sp: Spelling)
    requires Allowed(sp) && Core(input) == Written(sp)
    ensures |Denoted(sp)| == 8 && (IsPrivateIPv6(input) <==> BlockedIPv6(Denoted(sp)))
  {
    SpellingsClassifyAlike(input, input, sp, sp);
    SpellingExpands(input, sp);
    ExpandedIsEightHextets(input);
    PrivateIPv6Iff(Denoted(sp));
  }
}
