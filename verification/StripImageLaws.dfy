/**
 * What stripping does to files built from their parts: JPEG segments, PNG chunks and WebP
 * chunks, written out byte by byte. Every accepted file is such a file.
 */
module StripImageLaws {
  import opened Wrappers
  import opened Framing
  import opened StripImage

  // =================================================================
  // JPEG
  // =================================================================

  /** A bare marker, or a marker with a length and a payload. */
  datatype Segment = Bare(marker: Byte) | Sized(marker: Byte, payload: Bytes)

  predicate ValidSegment(s: Segment) {
    var bare := s.marker in {0x01, 0xd0, 0xd1, 0xd2, 0xd3, 0xd4, 0xd5, 0xd6, 0xd7, 0xd8, 0xd9};
    match s
    case Bare(_) => bare
    case Sized(m, payload) => !bare && m != 0xda && |payload| + 2 < 65536
  }

  function SegmentBytes(s: Segment): Bytes
    requires ValidSegment(s)
  {
    match s
    case Bare(m) => [0xff, m]
    case Sized(m, payload) => [0xff, m, ((|payload| + 2) / 256) as Byte, ((|payload| + 2) % 256) as Byte] + payload
  }

  ghost predicate ValidSegments(segments: seq<Segment>) {
    forall s <- segments :: ValidSegment(s)
  }

  /** The bytes of the segments, then the scan. */
  function JpegBody(segments: seq<Segment>, scan: Bytes): Bytes
    requires forall s <- segments :: ValidSegment(s)
  {
    if segments == [] then scan else SegmentBytes(segments[0]) + JpegBody(segments[1..], scan)
  }

  /** Application segments 1 and 13 (Exif, XMP, IPTC) and comments. */
  predicate IsMetadata(s: Segment) {
    s.marker == 0xe1 || s.marker == 0xed || s.marker == 0xfe
  }

  function WithoutMetadata(segments: seq<Segment>): (r: seq<Segment>)
    ensures forall s <- r :: s in segments
  {
    if segments == [] then []
    else
      assert segments == [segments[0]] + segments[1..];
      (if IsMetadata(segments[0]) then [] else [segments[0]]) + WithoutMetadata(segments[1..])
  }

  predicate ScanTail(scan: Bytes) {
    |scan| >= 2 && scan[0] == 0xff && scan[1] == 0xda
  }

  /** A built JPEG is stripped of exactly its metadata segments; the scan is copied. */
  lemma {:induction false} JpegStripped(segments: seq<Segment>, scan: Bytes)
    requires ValidSegments(segments) && ScanTail(scan)
    ensures StripJpeg([0xff, 0xd8] + JpegBody(segments, scan)) == Some([0xff, 0xd8] + JpegBody(WithoutMetadata(segments), scan))
  {
    var c := JpegChain(segments, scan);
    JpegIsFraming();
    ParseComplete(JpegMeasure, IsScan, c);
    var file := SOI + Flatten(c);
    assert file[2..] == Flatten(c);
    EndsInScan(c);
    assert SOI == [0xff, 0xd8];
  }

  /** The segments as a chain of frames. */
  lemma {:induction false} JpegChain(segments: seq<Segment>, scan: Bytes) returns (c: Chain)
    requires ValidSegments(segments) && ScanTail(scan)
    ensures WellFormed(JpegMeasure, IsScan, c) && Flatten(c) == JpegBody(segments, scan)
    ensures Flatten(Keep(c, KeepSegment)) == JpegBody(WithoutMetadata(segments), scan)
  {
    if segments == [] {
      c := End(scan);
    } else {
      var rest := JpegChain(segments[1..], scan);
      c := Frame(SegmentBytes(segments[0]), rest);
      SegmentMeasures(segments[0]);
      BodyOfFirst(segments[0], WithoutMetadata(segments[1..]), scan);
      assert [] + WithoutMetadata(segments[1..]) == WithoutMetadata(segments[1..]);
    }
  }

  lemma {:induction false} BodyOfFirst(s: Segment, rest: seq<Segment>, scan: Bytes)
    requires ValidSegment(s) && forall t <- rest :: ValidSegment(t)
    ensures JpegBody([s] + rest, scan) == SegmentBytes(s) + JpegBody(rest, scan)
  {
    assert ([s] + rest)[1..] == rest;
  }

  lemma {:induction false} SegmentMeasures(s: Segment)
    requires ValidSegment(s)
    ensures var b := SegmentBytes(s); b != [] && JpegMeasure(b) == Some(|b|) && (KeepSegment(b) <==> !IsMetadata(s))
  {
  }

  /** Every accepted JPEG is built in this way. */
  lemma {:induction false} AcceptedJpegIsBuilt(bytes: Bytes) returns (segments: seq<Segment>, scan: Bytes)
    requires StripJpeg(bytes).Some?
    ensures ValidSegments(segments) && ScanTail(scan) && bytes == [0xff, 0xd8] + JpegBody(segments, scan)
  {
    ParsedJpeg(bytes);
    segments, scan := SegmentsOf(ParseJpeg(bytes).value);
  }

  lemma {:induction false} ParsedJpeg(bytes: Bytes)
    requires ParseJpeg(bytes).Some?
    ensures var c := ParseJpeg(bytes).value; WellFormed(JpegMeasure, IsScan, c) && bytes == [0xff, 0xd8] + Flatten(c)
  {
    JpegIsFraming();
    ParseSound(JpegMeasure, IsScan, bytes[2..]);
    StartsWithSoi(bytes);
  }

  lemma {:induction false} StartsWithSoi(bytes: Bytes)
    requires JpegHeader(bytes)
    ensures bytes == [0xff, 0xd8] + bytes[2..]
  {
  }

  lemma {:induction false} SegmentsOf(c: Chain) returns (segments: seq<Segment>, scan: Bytes)
    requires WellFormed(JpegMeasure, IsScan, c)
    ensures ValidSegments(segments) && ScanTail(scan) && Flatten(c) == JpegBody(segments, scan)
  {
    match c
    case End(tail) => segments, scan := [], tail;
    case Frame(h, r) =>
      var rest: seq<Segment>;
      rest, scan := SegmentsOf(r);
      var s := if |h| == 2 && IsStandalone(h[1]) then Bare(h[1]) else Sized(h[1], h[4..]);
      assert ValidSegment(s) && SegmentBytes(s) == h;
      segments := [s] + rest;
      BodyOfFirst(s, rest, scan);
  }

  // =================================================================
  // PNG
  // =================================================================

  datatype Chunk = Chunk(name: Bytes, data: Bytes, checksum: Bytes)

  predicate ValidChunk(c: Chunk) {
    |c.name| == 4 && |c.checksum| == 4 && |c.data| < 0x8000_0000
  }

  /** A number in four bytes, the most significant first. */
  function BigEndian(n: nat): Bytes
    requires n < 0x1_0000_0000
  {
    [(n / 0x1000000) as Byte, (n / 0x10000 % 0x100) as Byte, (n / 0x100 % 0x100) as Byte, (n % 0x100) as Byte]
  }

  function ChunkBytes(c: Chunk): Bytes
    requires ValidChunk(c)
  {
    BigEndian(|c.data|) + c.name + c.data + c.checksum
  }

  /** The chunks are valid, and IEND is nowhere but last. */
  ghost predicate ValidChunks(chunks: seq<Chunk>) {
    && (forall c <- chunks :: ValidChunk(c))
    && (forall k | 0 <= k < |chunks| - 1 :: chunks[k].name != [0x49, 0x45, 0x4e, 0x44])
  }

  function PngBody(chunks: seq<Chunk>): Bytes
    requires forall c <- chunks :: ValidChunk(c)
  {
    if chunks == [] then [] else ChunkBytes(chunks[0]) + PngBody(chunks[1..])
  }

  /** tEXt, zTXt, iTXt, eXIf and tIME. */
  predicate IsTextual(c: Chunk) {
    c.name in [[0x74, 0x45, 0x58, 0x74], [0x7a, 0x54, 0x58, 0x74], [0x69, 0x54, 0x58, 0x74], [0x65, 0x58, 0x49, 0x66], [0x74, 0x49, 0x4d, 0x45]]
  }

  function WithoutText(chunks: seq<Chunk>): (r: seq<Chunk>)
    ensures forall c <- r :: c in chunks
  {
    if chunks == [] then []
    else
      assert chunks == [chunks[0]] + chunks[1..];
      (if IsTextual(chunks[0]) then [] else [chunks[0]]) + WithoutText(chunks[1..])
  }

  const SIGNATURE: Bytes := [0x89, 0x50, 0x4e, 0x47, 0x0d, 0x0a, 0x1a, 0x0a]

  /** The letters IEND stand somewhere behind the signature. */
  ghost predicate HasLetters(file: Bytes) {
    exists k: nat :: k >= 8 && LettersAt(file, k, [0x49, 0x45, 0x4e, 0x44])
  }

  /** A built PNG is stripped of exactly its textual chunks, or refused if the letters IEND are not in what is left. */
  lemma {:induction false} PngStripped(chunks: seq<Chunk>)
    requires ValidChunks(chunks)
    ensures var out := SIGNATURE + PngBody(WithoutText(chunks));
      StripPng(SIGNATURE + PngBody(chunks)) == if HasLetters(out) then Some(out) else None
  {
    var c := PngChainOf(chunks);
    var out := SIGNATURE + PngBody(WithoutText(chunks));
    ParseOfBuiltPng(c);
    assert SIGNATURE == PNG_SIGNATURE;
    var file := PNG_SIGNATURE + Flatten(c);
    assert file[8..] == Flatten(c);
    assert HasLetters(out) <==> ContainsLetters(out, IEND) by {
      if k: nat :| k >= 8 && LettersAt(out, k, IEND) {
        assert 8 <= k <= |out|;
      }
    }
  }

  lemma {:induction false} PngChainOf(chunks: seq<Chunk>) returns (c: Chain)
    requires ValidChunks(chunks)
    ensures WellFormed(PngMeasure, IsEmpty, c) && IendLast(c) && Flatten(c) == PngBody(chunks) && (c.End? <==> chunks == [])
    ensures Flatten(Keep(c, KeepChunk)) == PngBody(WithoutText(chunks))
  {
    if chunks == [] {
      c := End([]);
    } else {
      var tail := chunks[1..];
      assert forall k | 0 <= k < |tail| - 1 :: tail[k] == chunks[k + 1];
      var rest := PngChainOf(tail);
      c := Frame(ChunkBytes(chunks[0]), rest);
      ChunkMeasures(chunks[0]);
      PngOfFirst(chunks[0], WithoutText(tail));
      assert [] + WithoutText(tail) == WithoutText(tail);
    }
  }

  lemma {:induction false} PngOfFirst(c: Chunk, rest: seq<Chunk>)
    requires ValidChunk(c) && forall d <- rest :: ValidChunk(d)
    ensures PngBody([c] + rest) == ChunkBytes(c) + PngBody(rest)
  {
    assert ([c] + rest)[1..] == rest;
  }

  lemma {:induction false} BigEndianDecodes(n: nat)
    requires n < 0x1_0000_0000
    ensures BigEndian32(BigEndian(n)) == n
  {
    var q1, q2, q3 := n / 0x100, n / 0x10000, n / 0x1000000;
    assert q2 == q1 / 0x100 && q3 == q2 / 0x100;
    assert n == n % 0x100 + 0x100 * q1 && q1 == q1 % 0x100 + 0x100 * q2 && q2 == q2 % 0x100 + 0x100 * q3;
  }

  lemma {:induction false} ChunkMeasures(c: Chunk)
    requires ValidChunk(c)
    ensures var b := ChunkBytes(c); b != [] && PngMeasure(b) == Some(|b|)
    ensures KeepChunk(ChunkBytes(c)) <==> !IsTextual(c)
    ensures IsType(ChunkBytes(c), IEND) <==> c.name == [0x49, 0x45, 0x4e, 0x44]
  {
    var b := ChunkBytes(c);
    BigEndianDecodes(|c.data|);
    assert BigEndian32(b) == BigEndian32(BigEndian(|c.data|));
    assert b[4..8] == c.name;
  }

  /** Every accepted PNG is built in this way. */
  lemma {:induction false} AcceptedPngIsBuilt(bytes: Bytes) returns (chunks: seq<Chunk>)
    requires StripPng(bytes).Some?
    ensures ValidChunks(chunks) && bytes == SIGNATURE + PngBody(chunks)
  {
    ParsedPng(bytes);
    chunks := ChunksOf(ParsePng(bytes).value);
  }

  lemma {:induction false} ParsedPng(bytes: Bytes)
    requires ParsePng(bytes).Some?
    ensures var c := ParsePng(bytes).value;
      WellFormed(PngMeasure, IsEmpty, c) && IendLast(c) && bytes == SIGNATURE + Flatten(c)
  {
    PngIsFraming();
    ParseSound(PngMeasure, IsEmpty, bytes[8..]);
    Signed(bytes);
  }

  lemma {:induction false} Signed(bytes: Bytes)
    requires HasSignature(bytes)
    ensures bytes == SIGNATURE + bytes[8..]
  {
  }

  lemma {:induction false} ChunksOf(c: Chain) returns (chunks: seq<Chunk>)
    requires WellFormed(PngMeasure, IsEmpty, c) && IendLast(c)
    ensures ValidChunks(chunks) && Flatten(c) == PngBody(chunks) && (c.End? <==> chunks == [])
  {
    match c
    case End(tail) => chunks := [];
    case Frame(h, r) =>
      var rest := ChunksOf(r);
      var chunk := Chunk(h[4..8], h[8..|h| - 4], h[|h| - 4..]);
      BigEndianUnique(h[..4], |chunk.data|);
      assert ChunkBytes(chunk) == h;
      chunks := [chunk] + rest;
      PngOfFirst(chunk, rest);
  }

  lemma {:induction false} BigEndianUnique(b: Bytes, n: nat)
    requires |b| == 4 && BigEndian32(b) == n
    ensures n < 0x1_0000_0000 && BigEndian(n) == b
  {
    var q1, q2 := n / 0x100, n / 0x10000;
    assert q1 == b[0] as int * 0x10000 + b[1] as int * 0x100 + b[2] as int;
    assert q2 == b[0] as int * 0x100 + b[1] as int;
  }

  // =================================================================
  // WebP
  // =================================================================

  /** `pad` is the byte that makes an odd payload even. */
  datatype Riff = Riff(name: Bytes, payload: Bytes, pad: Bytes)

  predicate ValidRiff(c: Riff) {
    |c.name| == 4 && |c.payload| < 0x8000_0000 && |c.pad| == |c.payload| % 2
  }

  function RiffBytes(c: Riff): Bytes
    requires ValidRiff(c)
  {
    c.name + Encode32(|c.payload|) + c.payload + c.pad
  }

  ghost predicate ValidRiffs(chunks: seq<Riff>) {
    forall c <- chunks :: ValidRiff(c)
  }

  function WebpBody(chunks: seq<Riff>): Bytes
    requires forall c <- chunks :: ValidRiff(c)
  {
    if chunks == [] then [] else RiffBytes(chunks[0]) + WebpBody(chunks[1..])
  }

  /** The names EXIF and "XMP ". */
  predicate IsExifOrXmp(c: Riff) {
    c.name == [0x45, 0x58, 0x49, 0x46] || c.name == [0x58, 0x4d, 0x50, 0x20]
  }

  function WithoutExif(chunks: seq<Riff>): (r: seq<Riff>)
    ensures forall c <- r :: c in chunks
  {
    if chunks == [] then []
    else
      assert chunks == [chunks[0]] + chunks[1..];
      (if IsExifOrXmp(chunks[0]) then [] else [chunks[0]]) + WithoutExif(chunks[1..])
  }

  const EXTENDED: Bytes := [0x56, 0x50, 0x38, 0x58]

  /** The same byte with bits 2 and 3, those of EXIF and XMP, clear. */
  function Cleared(b: Byte): (r: Byte)
    ensures r / 16 == b / 16 && r / 4 % 4 == 0 && r % 4 == b % 4
  {
    b / 16 * 16 + b % 4
  }

  /**
   * The flags are the first payload byte of an extended header that comes first. If that
   * header has no payload, the byte in their place is the first letter of the next chunk.
   */
  function FlagsCleared(chunks: seq<Riff>): seq<Riff>
    requires forall c <- chunks :: ValidRiff(c)
  {
    if chunks == [] || chunks[0].name != EXTENDED then chunks
    else if chunks[0].payload != [] then
      chunks[0 := chunks[0].(payload := chunks[0].payload[0 := Cleared(chunks[0].payload[0])])]
    else if |chunks| == 1 then chunks
    else
      assert ValidRiff(chunks[1]);
      chunks[1 := chunks[1].(name := chunks[1].name[0 := Cleared(chunks[1].name[0])])]
  }

  /** A built WebP: the identifiers with any four size bytes between them, and the chunks. */
  function WebpFile(size: Bytes, chunks: seq<Riff>): Bytes
    requires |size| == 4 && forall c <- chunks :: ValidRiff(c)
  {
    [0x52, 0x49, 0x46, 0x46] + size + [0x57, 0x45, 0x42, 0x50] + WebpBody(chunks)
  }

  /**
   * A built WebP without EXIF and XMP chunks is returned as it is, one without any chunk
   * is refused. Otherwise exactly those chunks go, the flags are cleared and the size is
   * written anew.
   */
  lemma {:induction false} WebpStripped(size: Bytes, chunks: seq<Riff>)
    requires |size| == 4 && ValidRiffs(chunks)
    ensures var kept := WithoutExif(chunks);
      && (forall c <- FlagsCleared(kept) :: ValidRiff(c))
      && StripWebp(WebpFile(size, chunks)) ==
           if chunks == [] then None
           else if kept == chunks then Some(WebpFile(size, chunks))
           else Some(WebpFile(Encode32(4 + |WebpBody(kept)|), FlagsCleared(kept)))
  {
    var file, kept := WebpFile(size, chunks), WithoutExif(chunks);
    var c := WebpChainOf(chunks);
    FlagsInBody(kept);
    WebpOfChain(size, c);
    if chunks != [] {
      assert StripWebp(file) == StripWebp(RIFF + size + WEBP + Flatten(c));
    }
  }

  lemma {:induction false} WebpOfChain(size: Bytes, c: Chain)
    requires |size| == 4 && WellFormed(RiffMeasure, IsEmpty, c)
    ensures var file := RIFF + size + WEBP + Flatten(c); var body := Flatten(Keep(c, KeepRiff));
      StripWebp(file) ==
        if |Flatten(c)| < 4 then None
        else if Every(c, KeepRiff) then Some(file)
        else Some(RIFF + Encode32(4 + |PatchBody(body)|) + WEBP + PatchBody(body))
  {
    var file := RIFF + size + WEBP + Flatten(c);
    assert file[..4] == RIFF && file[8..12] == WEBP && file[12..] == Flatten(c);
    assert file[..12][..4] == RIFF && file[..12][8..12] == WEBP;
    RiffIsFraming();
    ParseComplete(RiffMeasure, IsEmpty, c);
  }

  lemma {:induction false} WebpChainOf(chunks: seq<Riff>) returns (c: Chain)
    requires ValidRiffs(chunks)
    ensures WellFormed(RiffMeasure, IsEmpty, c) && Flatten(c) == WebpBody(chunks) && (chunks != [] ==> |Flatten(c)| >= 8)
    ensures Flatten(Keep(c, KeepRiff)) == WebpBody(WithoutExif(chunks))
    ensures Every(c, KeepRiff) <==> WithoutExif(chunks) == chunks
  {
    if chunks == [] {
      c := End([]);
    } else {
      var first, tail := chunks[0], chunks[1..];
      var rest := WebpChainOf(tail);
      c := Frame(RiffBytes(first), rest);
      RiffMeasures(first);
      WebpOfFirst(first, WithoutExif(tail));
      assert [] + WithoutExif(tail) == WithoutExif(tail);
      assert chunks == [first] + tail;
      NeverLonger(tail);
    }
  }

  lemma {:induction false} NeverLonger(chunks: seq<Riff>)
    ensures |WithoutExif(chunks)| <= |chunks|
  {
    if chunks != [] {
      NeverLonger(chunks[1..]);
    }
  }

  lemma {:induction false} WebpOfFirst(c: Riff, rest: seq<Riff>)
    requires ValidRiff(c) && forall d <- rest :: ValidRiff(d)
    ensures WebpBody([c] + rest) == RiffBytes(c) + WebpBody(rest)
  {
    assert ([c] + rest)[1..] == rest;
  }

  lemma {:induction false} RiffMeasures(c: Riff)
    requires ValidRiff(c)
    ensures var b := RiffBytes(c); |b| >= 8 && RiffMeasure(b) == Some(|b|)
    ensures KeepRiff(RiffBytes(c)) <==> !IsExifOrXmp(c)
  {
    var b := RiffBytes(c);
    Encode32Decodes(|c.payload|);
    RiffFields(c.name, Encode32(|c.payload|), c.payload + c.pad);
    assert b == c.name + Encode32(|c.payload|) + (c.payload + c.pad);
  }

  lemma {:induction false} RiffFields(name: Bytes, size: Bytes, rest: Bytes)
    requires |name| == 4 && |size| == 4
    ensures var b := name + size + rest; b[..4] == name && b[4..8] == size
  {
  }

  /** Clearing the byte at offset 8 of the body is clearing the flags of the chunks. */
  lemma {:induction false} FlagsInBody(chunks: seq<Riff>)
    requires ValidRiffs(chunks)
    ensures ValidRiffs(FlagsCleared(chunks)) && WebpBody(FlagsCleared(chunks)) == PatchBody(WebpBody(chunks))
    ensures |WebpBody(FlagsCleared(chunks))| == |WebpBody(chunks)|
  {
    if chunks != [] {
      var first, tail := chunks[0], chunks[1..];
      StartsWithName(first, tail);
      assert chunks == [first] + tail;
      if first.name == EXTENDED && first.payload != [] {
        FlagsInFirst(first, tail);
        assert FlagsCleared(chunks)[1..] == tail;
      } else if first.name == EXTENDED && tail != [] {
        FlagsInSecond(first, tail[0], tail[1..]);
        assert chunks == [first, tail[0]] + tail[1..];
        assert FlagsCleared(chunks) == [first, FlagsCleared(chunks)[1]] + tail[1..];
      }
    }
  }

  lemma {:induction false} StartsWithName(first: Riff, tail: seq<Riff>)
    requires ValidRiff(first) && ValidRiffs(tail)
    ensures HasFourCC(WebpBody([first] + tail), EXTENDED) <==> first.name == EXTENDED
    ensures tail == [] && first.payload == [] ==> |WebpBody([first] + tail)| == 8
  {
    WebpOfFirst(first, tail);
    var body := RiffBytes(first) + WebpBody(tail);
    assert RiffBytes(first)[..4] == first.name && body[..4] == first.name;
  }

  lemma {:induction false} FlagsInFirst(first: Riff, tail: seq<Riff>)
    requires ValidRiff(first) && ValidRiffs(tail) && first.payload != []
    ensures var c := first.(payload := first.payload[0 := Cleared(first.payload[0])]);
      var body := RiffBytes(first) + WebpBody(tail);
      ValidRiff(c) && |body| >= 9 && RiffBytes(c) + WebpBody(tail) == body[8 := ClearFlags(body[8])]
  {
    ClearedAlike(first.payload[0]);
  }

  lemma {:induction false} FlagsInSecond(first: Riff, second: Riff, tail: seq<Riff>)
    requires ValidRiff(first) && ValidRiff(second) && ValidRiffs(tail) && first.payload == []
    ensures var c := second.(name := second.name[0 := Cleared(second.name[0])]);
      var body := WebpBody([first, second] + tail);
      && ValidRiff(c) && ValidRiffs([first, c] + tail)
      && |body| >= 9 && WebpBody([first, c] + tail) == body[8 := ClearFlags(body[8])]
  {
    var c := second.(name := second.name[0 := Cleared(second.name[0])]);
    WebpOfTwo(first, second, tail);
    WebpOfTwo(first, c, tail);
    ClearedAlike(second.name[0]);
    assert RiffBytes(c) == RiffBytes(second)[0 := ClearFlags(second.name[0])];
    ClearBehind(RiffBytes(first), RiffBytes(second), WebpBody(tail));
  }

  lemma {:induction false} WebpOfTwo(first: Riff, second: Riff, tail: seq<Riff>)
    requires ValidRiff(first) && ValidRiff(second) && ValidRiffs(tail)
    ensures ValidRiffs([first, second] + tail)
    ensures WebpBody([first, second] + tail) == RiffBytes(first) + (RiffBytes(second) + WebpBody(tail))
  {
    assert [first, second] + tail == [first] + ([second] + tail);
    WebpOfFirst(second, tail);
    WebpOfFirst(first, [second] + tail);
  }

  lemma {:induction false} ClearBehind(a: Bytes, b: Bytes, x: Bytes)
    requires |a| == 8 && b != []
    ensures var body := a + (b + x);
      |body| >= 9 && a + (b[0 := ClearFlags(b[0])] + x) == body[8 := ClearFlags(body[8])]
  {
  }

  lemma {:induction false} ClearedAlike(b: Byte)
    ensures ClearFlags(b) == Cleared(b)
  {
  }

  /** Every accepted WebP is built in this way, from at least one chunk. */
  lemma {:induction false} AcceptedWebpIsBuilt(bytes: Bytes) returns (size: Bytes, chunks: seq<Riff>)
    requires StripWebp(bytes).Some?
    ensures |size| == 4 && ValidRiffs(chunks) && chunks != [] && bytes == WebpFile(size, chunks)
  {
    WebpParts(bytes);
    chunks := RiffsOf(ParseWebp(bytes).value);
    size := bytes[4..8];
    WebpShape(bytes);
  }

  lemma {:induction false} WebpShape(bytes: Bytes)
    requires WebpHeader(bytes)
    ensures bytes == [0x52, 0x49, 0x46, 0x46] + bytes[4..8] + [0x57, 0x45, 0x42, 0x50] + bytes[12..] && bytes[12..] != []
  {
    assert bytes == bytes[..4] + bytes[4..8] + bytes[8..12] + bytes[12..];
  }

  lemma {:induction false} RiffsOf(c: Chain) returns (chunks: seq<Riff>)
    requires WellFormed(RiffMeasure, IsEmpty, c)
    ensures ValidRiffs(chunks) && Flatten(c) == WebpBody(chunks)
  {
    match c
    case End(tail) => chunks := [];
    case Frame(h, r) =>
      var rest := RiffsOf(r);
      var size := LittleEndian32(h[4..8]);
      var chunk := Riff(h[..4], h[8..8 + size], h[8 + size..]);
      LittleEndianUnique(h[4..8], size);
      assert RiffBytes(chunk) == h;
      chunks := [chunk] + rest;
      WebpOfFirst(chunk, rest);
  }

  lemma {:induction false} LittleEndianUnique(b: Bytes, n: nat)
    requires |b| == 4 && LittleEndian32(b) == n
    ensures Encode32(n) == b
  {
    var q1, q2, q3 := n / 0x100, n / 0x10000, n / 0x1000000;
    assert q1 == b[1] as int + b[2] as int * 0x100 + b[3] as int * 0x10000;
    assert q2 == b[2] as int + b[3] as int * 0x100;
    assert q3 == b[3] as int;
  }
}
