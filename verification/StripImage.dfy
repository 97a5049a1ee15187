/**
 * Metadata stripping (`strip-image-metadata.ts`): byte-level walks over JPEG, PNG and
 * WebP containers. `None` is the "Malformed image" error.
 */
module StripImage {
  import opened Wrappers
  import opened Framing

  // =================================================================
  // JPEG
  // =================================================================

  const SOI: Bytes := [0xff, 0xd8]

  predicate IsStandalone(marker: Byte) {
    marker == 0xd8 || marker == 0xd9 || marker == 0x01 || 0xd0 <= marker <= 0xd7
  }

  /** Start of Scan: the entropy-coded data runs from here to the end. */
  predicate IsScan(rest: Bytes) {
    |rest| >= 2 && rest[0] == 0xff && rest[1] == 0xda
  }

  /** The length of the marker segment at the head. */
  function JpegMeasure(rest: Bytes): Option<nat> {
    if |rest| < 2 || rest[0] != 0xff || rest[1] == 0xda then None
    else if IsStandalone(rest[1]) then Some(2)
    else if |rest| < 4 then None
    else
      var len := rest[2] as int * 256 + rest[3] as int;
      if len < 2 || 2 + len > |rest| then None else Some(2 + len)
  }

  /** APP1, APP13 and COM carry metadata. */
  predicate KeepSegment(segment: Bytes) {
    |segment| < 2 || !(segment[1] == 0xe1 || segment[1] == 0xed || segment[1] == 0xfe)
  }

  predicate JpegHeader(bytes: Bytes) {
    |bytes| >= 4 && bytes[0] == 0xff && bytes[1] == 0xd8
  }

  function ParseJpeg(bytes: Bytes): Option<Chain> {
    if !JpegHeader(bytes) then None else Parse(JpegMeasure, IsScan, bytes[2..])
  }

  function StripJpeg(bytes: Bytes): Option<Bytes> {
    if !JpegHeader(bytes) then None else After(SOI, Strip(JpegMeasure, IsScan, KeepSegment, bytes[2..]))
  }

  lemma {:induction false} JpegIsFraming()
    ensures IsFraming(JpegMeasure, IsScan)
  {
    forall h: Bytes, x: Bytes | h != [] && JpegMeasure(h) == Some(|h|)
      ensures JpegMeasure(h + x) == Some(|h|) && !IsScan(h + x)
    {
    }
  }

  /** A tail that is a scan makes the file long enough to be parsed. */
  lemma {:induction false} ParseOfBuiltJpeg(c: Chain)
    requires WellFormed(JpegMeasure, IsScan, c)
    ensures ParseJpeg(SOI + Flatten(c)) == Some(c)
  {
    JpegIsFraming();
    ParseComplete(JpegMeasure, IsScan, c);
    assert (SOI + Flatten(c))[2..] == Flatten(c);
    EndsInScan(c);
  }

  lemma {:induction false} EndsInScan(c: Chain)
    requires WellFormed(JpegMeasure, IsScan, c)
    ensures |Flatten(c)| >= 2
  {
    if c.Frame? {
      EndsInScan(c.rest);
    }
  }

  /**
   * Every accepted JPEG is its segments and scan; the output reparses to exactly the
   * kept segments, in order, with the scan untouched and no dropped marker before
   * it; and stripping again changes nothing.
   */
  lemma {:induction false} StrippedJpeg(bytes: Bytes)
    requires StripJpeg(bytes).Some?
    ensures ParseJpeg(bytes).Some?
    ensures var c, out := ParseJpeg(bytes).value, StripJpeg(bytes).value;
      && bytes == SOI + Flatten(c)
      && ParseJpeg(out) == Some(Keep(c, KeepSegment))
      && Frames(Keep(c, KeepSegment)) == FilterFrames(Frames(c), KeepSegment)
      && Every(Keep(c, KeepSegment), KeepSegment)
      && StripJpeg(out) == Some(out)
  {
    var c := ParseJpeg(bytes).value;
    assert bytes == SOI + bytes[2..];
    assert WellFormed(JpegMeasure, IsScan, c) && Flatten(c) == bytes[2..] by {
      JpegIsFraming();
      ParseSound(JpegMeasure, IsScan, bytes[2..]);
    }
    KeepFrames(c, KeepSegment);
    KeptJpegReparses(c);
  }

  lemma {:induction false} KeptJpegReparses(c: Chain)
    requires WellFormed(JpegMeasure, IsScan, c)
    ensures var kept := Keep(c, KeepSegment); var out := SOI + Flatten(kept);
      ParseJpeg(out) == Some(kept) && Every(kept, KeepSegment) && StripJpeg(out) == Some(out)
  {
    KeepFilters(JpegMeasure, IsScan, c, KeepSegment);
    ParseOfBuiltJpeg(Keep(c, KeepSegment));
  }

  /** Measure the segment at index `i`: the branches of the loop body. */
  method MeasureSegment(bytes: Bytes, i: nat) returns (n: Option<nat>)
    requires i + 1 < |bytes|
    ensures n == JpegMeasure(bytes[i..])
  {
    if bytes[i] != 0xff {
      return None;
    }
    var marker := bytes[i + 1];
    if marker == 0xda {
      return None;
    }
    if IsStandalone(marker) {
      return Some(2);
    }
    if i + 3 >= |bytes| {
      return None;
    }
    var len := bytes[i + 2] as int * 256 + bytes[i + 3] as int;
    if len < 2 || i + 2 + len > |bytes| {
      return None;
    }
    n := Some(2 + len);
  }

  /** The walk as the code does it. */
  method StripJpegBytes(bytes: Bytes) returns (r: Option<Bytes>)
    ensures r == StripJpeg(bytes)
  {
    if !JpegHeader(bytes) {
      return None;
    }
    var out := SOI;
    var i := 2;
    while i + 1 < |bytes|
      invariant 2 <= i <= |bytes|
      invariant StripJpeg(bytes) == After(out, Strip(JpegMeasure, IsScan, KeepSegment, bytes[i..]))
      decreases |bytes| - i
    {
      if IsScan(bytes[i..]) {
        return Some(out + bytes[i..]);
      }
      var n := MeasureSegment(bytes, i);
      if n.None? {
        return None;
      }
      StripStep(JpegMeasure, IsScan, KeepSegment, bytes, i, n.value, out);
      var segment := bytes[i..i + n.value];
      if KeepSegment(segment) {
        out := out + segment;
      }
      i := i + n.value;
    }
    r := None;
  }

  // =================================================================
  // PNG
  // =================================================================

  const PNG_SIGNATURE: Bytes := [0x89, 0x50, 0x4e, 0x47, 0x0d, 0x0a, 0x1a, 0x0a]
  const IEND: Bytes := [0x49, 0x45, 0x4e, 0x44]
  const TEXT: Bytes := [0x74, 0x45, 0x58, 0x74]
  const ZTXT: Bytes := [0x7a, 0x54, 0x58, 0x74]
  const ITXT: Bytes := [0x69, 0x54, 0x58, 0x74]
  const EXIF_CHUNK: Bytes := [0x65, 0x58, 0x49, 0x66]
  const TIME: Bytes := [0x74, 0x49, 0x4d, 0x45]

  predicate IsEmpty(rest: Bytes) {
    rest == []
  }

  function BigEndian32(b: Bytes): nat
    requires |b| >= 4
  {
    b[0] as int * 0x1000000 + b[1] as int * 0x10000 + b[2] as int * 0x100 + b[3] as int
  }

  /** Length, type, data and checksum; a length with the sign bit set is refused. */
  function PngMeasure(rest: Bytes): Option<nat> {
    if |rest| < 8 then None
    else
      var len := BigEndian32(rest);
      if len >= 0x8000_0000 || 12 + len > |rest| then None else Some(12 + len)
  }

  predicate IsType(chunk: Bytes, t: Bytes) {
    |chunk| >= 8 && chunk[4..8] == t
  }

  predicate KeepChunk(chunk: Bytes) {
    !(IsType(chunk, TEXT) || IsType(chunk, ZTXT) || IsType(chunk, ITXT) || IsType(chunk, EXIF_CHUNK) || IsType(chunk, TIME))
  }

  /** The walk stops at IEND, so nothing may follow it. */
  predicate IendLast(c: Chain) {
    match c
    case End(_) => true
    case Frame(h, r) => (IsType(h, IEND) ==> r.End?) && IendLast(r)
  }

  predicate HasSignature(bytes: Bytes) {
    |bytes| >= 8 && bytes[..8] == PNG_SIGNATURE
  }

  function ParseChunks(rest: Bytes): Option<Chain> {
    var c := Parse(PngMeasure, IsEmpty, rest);
    if c.None? || !IendLast(c.value) then None else c
  }

  function StripChunks(rest: Bytes): Option<Bytes> {
    var c := ParseChunks(rest);
    if c.None? then None else Some(Flatten(Keep(c.value, KeepChunk)))
  }

  /** The final check looks for the letters anywhere after the signature, not for a chunk. */
  predicate ContainsLetters(bytes: Bytes, letters: Bytes) {
    exists k | 8 <= k <= |bytes| :: LettersAt(bytes, k, letters)
  }

  predicate LettersAt(bytes: Bytes, k: nat, letters: Bytes) {
    k + |letters| <= |bytes| && bytes[k..k + |letters|] == letters
  }

  function ParsePng(bytes: Bytes): Option<Chain> {
    if !HasSignature(bytes) then None else ParseChunks(bytes[8..])
  }

  function StripPng(bytes: Bytes): Option<Bytes> {
    if !HasSignature(bytes) then None
    else
      var out := After(PNG_SIGNATURE, StripChunks(bytes[8..]));
      if out.None? || !ContainsLetters(out.value, IEND) then None else out
  }

  lemma {:induction false} PngIsFraming()
    ensures IsFraming(PngMeasure, IsEmpty)
  {
    forall h: Bytes, x: Bytes | h != [] && PngMeasure(h) == Some(|h|)
      ensures PngMeasure(h + x) == Some(|h|) && !IsEmpty(h + x)
    {
      assert BigEndian32(h + x) == BigEndian32(h);
    }
    forall rest: Bytes | PngMeasure(rest).Some?
      ensures 0 < PngMeasure(rest).value <= |rest| && PngMeasure(rest[..PngMeasure(rest).value]) == PngMeasure(rest)
    {
      assert BigEndian32(rest[..PngMeasure(rest).value]) == BigEndian32(rest);
    }
  }

  lemma {:induction false} KeepLeavesIendLast(c: Chain)
    requires IendLast(c)
    ensures IendLast(Keep(c, KeepChunk)) && (c.End? ==> Keep(c, KeepChunk).End?)
  {
    if c.Frame? {
      KeepLeavesIendLast(c.rest);
    }
  }

  lemma {:induction false} ParseOfBuiltPng(c: Chain)
    requires WellFormed(PngMeasure, IsEmpty, c) && IendLast(c)
    ensures ParsePng(PNG_SIGNATURE + Flatten(c)) == Some(c)
  {
    PngIsFraming();
    ParseComplete(PngMeasure, IsEmpty, c);
    assert (PNG_SIGNATURE + Flatten(c))[8..] == Flatten(c);
    assert (PNG_SIGNATURE + Flatten(c))[..8] == PNG_SIGNATURE;
  }

  /** Every accepted PNG: the output reparses to exactly the kept chunks, in order; stripping again changes nothing. */
  lemma {:induction false} StrippedPng(bytes: Bytes)
    requires StripPng(bytes).Some?
    ensures ParsePng(bytes).Some?
    ensures var c, out := ParsePng(bytes).value, StripPng(bytes).value;
      && bytes == PNG_SIGNATURE + Flatten(c)
      && ParsePng(out) == Some(Keep(c, KeepChunk))
      && Frames(Keep(c, KeepChunk)) == FilterFrames(Frames(c), KeepChunk)
      && Every(Keep(c, KeepChunk), KeepChunk)
      && StripPng(out) == Some(out)
  {
    var c := ParsePng(bytes).value;
    assert bytes == PNG_SIGNATURE + bytes[8..];
    assert WellFormed(PngMeasure, IsEmpty, c) && Flatten(c) == bytes[8..] by {
      PngIsFraming();
      ParseSound(PngMeasure, IsEmpty, bytes[8..]);
    }
    KeepFrames(c, KeepChunk);
    KeptPngReparses(c);
  }

  lemma {:induction false} KeptPngReparses(c: Chain)
    requires WellFormed(PngMeasure, IsEmpty, c) && IendLast(c)
    ensures var kept := Keep(c, KeepChunk); var out := PNG_SIGNATURE + Flatten(kept);
      ParsePng(out) == Some(kept) && Every(kept, KeepChunk) && (ContainsLetters(out, IEND) ==> StripPng(out) == Some(out))
  {
    KeepFilters(PngMeasure, IsEmpty, c, KeepChunk);
    KeepLeavesIendLast(c);
    ParseOfBuiltPng(Keep(c, KeepChunk));
  }

  predicate EndsWithIend(c: Chain) {
    c.Frame? && if c.rest.End? then IsType(c.head, IEND) else EndsWithIend(c.rest)
  }

  /** A real IEND chunk at the end always satisfies the letter search. */
  lemma {:induction false} IendIsFound(c: Chain, before: Bytes)
    requires EndsWithIend(c) && |before| >= 4
    ensures ContainsLetters(before + Flatten(Keep(c, KeepChunk)), IEND)
  {
    var h := c.head;
    var whole := before + Flatten(Keep(c, KeepChunk));
    if c.rest.End? {
      assert KeepChunk(h);
      var k := |before| + 4;
      assert whole == before + h + c.rest.tail;
      assert whole[k..k + 4] == h[4..8];
      assert LettersAt(whole, k, IEND);
    } else {
      var next := if KeepChunk(h) then before + h else before;
      IendIsFound(c.rest, next);
      assert whole == next + Flatten(Keep(c.rest, KeepChunk));
    }
  }

  /** Whether position `k` is the type field of a chunk, with the chain laid out from `at`. */
  predicate TypeField(c: Chain, at: nat, k: nat) {
    c.Frame? && (k == at + 4 || TypeField(c.rest, at + |c.head|, k))
  }

  /** The letters at a place that is no chunk's type: in data, a length or a checksum. */
  predicate StrayLetters(c: Chain, k: nat) {
    k >= 8 && LettersAt(PNG_SIGNATURE + Flatten(c), k, IEND) && !TypeField(c, 8, k)
  }

  /** The letters as a chunk's type are an IEND chunk, which can only be the last. */
  lemma {:induction false} TypedLettersEnd(c: Chain, before: Bytes, k: nat)
    requires WellFormed(PngMeasure, IsEmpty, c) && IendLast(c)
    requires TypeField(c, |before|, k) && LettersAt(before + Flatten(c), k, IEND)
    ensures EndsWithIend(c)
  {
    var h, whole := c.head, before + Flatten(c);
    assert whole == (before + h) + Flatten(c.rest);
    if k == |before| + 4 {
      assert whole[k..k + 4] == h[4..8];
    } else {
      TypedLettersEnd(c.rest, before + h, k);
    }
  }

  lemma {:induction false} IendIsTyped(c: Chain, before: Bytes) returns (k: nat)
    requires WellFormed(PngMeasure, IsEmpty, c) && EndsWithIend(c)
    ensures k >= |before| && TypeField(c, |before|, k) && LettersAt(before + Flatten(c), k, IEND)
  {
    var h, whole := c.head, before + Flatten(c);
    assert whole == (before + h) + Flatten(c.rest);
    if c.rest.End? {
      k := |before| + 4;
      assert whole[k..k + 4] == h[4..8];
    } else {
      k := IendIsTyped(c.rest, before + h);
    }
  }

  lemma {:induction false} KeepEndsWithIend(c: Chain)
    requires IendLast(c)
    ensures EndsWithIend(Keep(c, KeepChunk)) <==> EndsWithIend(c)
  {
    if c.Frame? {
      KeepEndsWithIend(c.rest);
      if IsType(c.head, IEND) {
        assert KeepChunk(c.head);
      }
    }
  }

  /**
   * Exactly which parsed files are accepted: those that end with an IEND chunk, and
   * those whose kept bytes hold the four letters anywhere that is no type field.
   */
  lemma {:induction false} PngAcceptedIff(bytes: Bytes)
    requires ParsePng(bytes).Some?
    ensures var c := ParsePng(bytes).value;
      StripPng(bytes).Some? <==> EndsWithIend(c) || exists k :: StrayLetters(Keep(c, KeepChunk), k)
  {
    var c := ParsePng(bytes).value;
    var kept := Keep(c, KeepChunk);
    var out := PNG_SIGNATURE + Flatten(kept);
    PngChain(bytes);
    if EndsWithIend(c) {
      IendIsFound(c, PNG_SIGNATURE);
    } else if StripPng(bytes).Some? {
      var k :| 8 <= k <= |out| && LettersAt(out, k, IEND);
      if TypeField(kept, 8, k) {
        TypedLettersEnd(kept, PNG_SIGNATURE, k);
      }
      assert StrayLetters(kept, k);
    } else {
      assert forall k: nat | StrayLetters(kept, k) :: 8 <= k <= |out| && LettersAt(out, k, IEND);
    }
  }

  /** An accepted file has an IEND chunk exactly when the letters stand in the type field of a kept chunk. */
  lemma {:induction false} AcceptedHasIendIff(bytes: Bytes)
    requires StripPng(bytes).Some?
    ensures ParsePng(bytes).Some?
    ensures var c, out := ParsePng(bytes).value, StripPng(bytes).value;
      EndsWithIend(c) <==> exists k :: LettersAt(out, k, IEND) && TypeField(Keep(c, KeepChunk), 8, k)
  {
    var c := ParsePng(bytes).value;
    var kept := Keep(c, KeepChunk);
    PngChain(bytes);
    if EndsWithIend(c) {
      var k := IendIsTyped(kept, PNG_SIGNATURE);
    }
    forall k | LettersAt(PNG_SIGNATURE + Flatten(kept), k, IEND) && TypeField(kept, 8, k) ensures EndsWithIend(c) {
      TypedLettersEnd(kept, PNG_SIGNATURE, k);
    }
  }

  /** The kept chain is well framed, ends where the whole does, and may have IEND last only. */
  lemma {:induction false} PngChain(bytes: Bytes)
    requires ParsePng(bytes).Some?
    ensures var kept := Keep(ParsePng(bytes).value, KeepChunk);
      && WellFormed(PngMeasure, IsEmpty, kept) && IendLast(kept)
      && (EndsWithIend(kept) <==> EndsWithIend(ParsePng(bytes).value))
  {
    var c := ParsePng(bytes).value;
    PngIsFraming();
    ParseSound(PngMeasure, IsEmpty, bytes[8..]);
    KeepFilters(PngMeasure, IsEmpty, c, KeepChunk);
    KeepLeavesIendLast(c);
    KeepEndsWithIend(c);
  }

  /** One chunk `abcd` whose data are the letters IEND. */
  const LETTERS_ONLY: Bytes := [0, 0, 0, 4, 0x61, 0x62, 0x63, 0x64, 0x49, 0x45, 0x4e, 0x44, 0, 0, 0, 0]

  /** A concrete file that is accepted as it is, without an IEND chunk. */
  lemma {:induction false} AcceptedWithoutIend()
    ensures var file := PNG_SIGNATURE + LETTERS_ONLY;
      && StripPng(file) == Some(file)
      && ParsePng(file).Some? && !EndsWithIend(ParsePng(file).value)
  {
    var c := Frame(LETTERS_ONLY, End([]));
    var file := PNG_SIGNATURE + LETTERS_ONLY;
    assert LETTERS_ONLY[4..8] == [0x61, 0x62, 0x63, 0x64];
    assert PngMeasure(LETTERS_ONLY) == Some(16);
    assert Flatten(c) == LETTERS_ONLY + [] == LETTERS_ONLY;
    ParseOfBuiltPng(c);
    assert Keep(c, KeepChunk) == c;
    assert file[16..20] == IEND;
    assert LettersAt(file, 16, IEND);
    assert file[8..] == LETTERS_ONLY;
  }

  lemma {:induction false} LastChunk(chunk: Bytes)
    requires KeepChunk(chunk)
    ensures var c := Frame(chunk, End([])); IendLast(c) && Keep(c, KeepChunk) == c && Flatten(c) == chunk
  {
    var end: Chain := End([]);
    assert Keep(end, KeepChunk) == end && IendLast(end) && Flatten(end) == [];
    assert chunk + [] == chunk;
  }

  /** The chunk at index `i` is one round of the walk, unless it is IEND. */
  lemma {:induction false} PngStep(bytes: Bytes, i: nat, n: nat, out: Bytes)
    requires i <= |bytes| && PngMeasure(bytes[i..]) == Some(n)
    ensures i + n <= |bytes| && n >= 12
    ensures var chunk := bytes[i..i + n];
      var next := if KeepChunk(chunk) then out + chunk else out;
      if IsType(chunk, IEND) then After(out, StripChunks(bytes[i..])) == (if i + n == |bytes| then Some(next) else None)
      else After(out, StripChunks(bytes[i..])) == After(next, StripChunks(bytes[i + n..]))
  {
    var rest, chunk := bytes[i..], bytes[i..i + n];
    assert rest[..n] == chunk && rest[n..] == bytes[i + n..];
    var more := Parse(PngMeasure, IsEmpty, rest[n..]);
    if IsType(chunk, IEND) {
      assert KeepChunk(chunk);
      if rest[n..] == [] {
        var c := Frame(chunk, End([]));
        assert Parse(PngMeasure, IsEmpty, rest) == Some(c);
        LastChunk(chunk);
      }
    } else if more.Some? && IendLast(more.value) {
      var x := Flatten(Keep(more.value, KeepChunk));
      assert out + (chunk + x) == (out + chunk) + x;
    }
  }

  method MeasureChunk(bytes: Bytes, i: nat) returns (n: Option<nat>)
    requires i + 8 <= |bytes|
    ensures n == PngMeasure(bytes[i..])
  {
    var len := bytes[i] as int * 0x1000000 + bytes[i + 1] as int * 0x10000 + bytes[i + 2] as int * 0x100 + bytes[i + 3] as int;
    if len >= 0x8000_0000 {
      return None;
    }
    if i + 12 + len > |bytes| {
      return None;
    }
    n := Some(12 + len);
  }

  method ContainsPngChunk(bytes: Bytes, letters: Bytes) returns (found: bool)
    ensures found == ContainsLetters(bytes, letters)
  {
    var i := 8;
    while i + |letters| <= |bytes|
      invariant 8 <= i
      invariant forall k | 8 <= k < i :: !LettersAt(bytes, k, letters)
    {
      if LettersAt(bytes, i, letters) {
        return true;
      }
      i := i + 1;
    }
    found := false;
  }

  /** The walk as the code does it, with its early stop at IEND. */
  method StripPngBytes(bytes: Bytes) returns (r: Option<Bytes>)
    ensures r == StripPng(bytes)
  {
    if !HasSignature(bytes) {
      return None;
    }
    var out := PNG_SIGNATURE;
    var i := 8;
    var ended := false;
    while i + 8 <= |bytes| && !ended
      invariant 8 <= i <= |bytes|
      invariant After(PNG_SIGNATURE, StripChunks(bytes[8..])) ==
        if ended then (if i == |bytes| then Some(out) else None) else After(out, StripChunks(bytes[i..]))
      decreases |bytes| - i
    {
      var n := MeasureChunk(bytes, i);
      if n.None? {
        return None;
      }
      PngStep(bytes, i, n.value, out);
      var chunk := bytes[i..i + n.value];
      if KeepChunk(chunk) {
        out := out + chunk;
      }
      i := i + n.value;
      ended := IsType(chunk, IEND);
    }
    if i != |bytes| {
      return None;
    }
    assert !ended ==> StripChunks(bytes[i..]) == Some([]);
    assert out + [] == out;
    var found := ContainsPngChunk(out, IEND);
    r := if found then Some(out) else None;
  }

  // =================================================================
  // WebP
  // =================================================================

  const RIFF: Bytes := [0x52, 0x49, 0x46, 0x46]
  const WEBP: Bytes := [0x57, 0x45, 0x42, 0x50]
  const EXIF: Bytes := [0x45, 0x58, 0x49, 0x46]
  const XMP: Bytes := [0x58, 0x4d, 0x50, 0x20]
  const VP8X: Bytes := [0x56, 0x50, 0x38, 0x58]

  function LittleEndian32(b: Bytes): nat
    requires |b| >= 4
  {
    b[0] as int + b[1] as int * 0x100 + b[2] as int * 0x10000 + b[3] as int * 0x1000000
  }

  /** FourCC, size and payload padded to an even length; a size with the sign bit set is refused. */
  function RiffMeasure(rest: Bytes): Option<nat> {
    if |rest| < 8 then None
    else
      var size := LittleEndian32(rest[4..8]);
      if size >= 0x8000_0000 || 8 + size + size % 2 > |rest| then None else Some(8 + size + size % 2)
  }

  predicate HasFourCC(chunk: Bytes, cc: Bytes) {
    |chunk| >= 4 && chunk[..4] == cc
  }

  predicate KeepRiff(chunk: Bytes) {
    !HasFourCC(chunk, EXIF) && !HasFourCC(chunk, XMP)
  }

  predicate WebpHeader(bytes: Bytes) {
    |bytes| >= 16 && bytes[..4] == RIFF && bytes[8..12] == WEBP
  }

  function ParseWebp(bytes: Bytes): Option<Chain> {
    if !WebpHeader(bytes) then None else Parse(RiffMeasure, IsEmpty, bytes[12..])
  }

  /** Clear bits 2 and 3. */
  function ClearFlags(b: Byte): Byte {
    b / 16 * 16 + b % 4
  }

  /** The feature flags of a leading VP8X header sit at body offset 8. */
  function PatchBody(body: Bytes): Bytes {
    if |body| >= 9 && HasFourCC(body, VP8X) then body[8 := ClearFlags(body[8])] else body
  }

  /** The low 32 bits of a number, least significant byte first. */
  function Encode32(n: nat): Bytes {
    [(n % 0x100) as Byte, (n / 0x100 % 0x100) as Byte, (n / 0x10000 % 0x100) as Byte, (n / 0x1000000 % 0x100) as Byte]
  }

  function BuildWebp(head: Bytes, body: Bytes): Bytes
    requires |head| == 12
  {
    head[..4] + Encode32(4 + |body|) + head[8..12] + body
  }

  function StripWebp(bytes: Bytes): Option<Bytes> {
    var c := ParseWebp(bytes);
    if c.None? then None
    else if Every(c.value, KeepRiff) then Some(bytes)
    else Some(BuildWebp(bytes[..12], PatchBody(Flatten(Keep(c.value, KeepRiff)))))
  }

  lemma {:induction false} RiffIsFraming()
    ensures IsFraming(RiffMeasure, IsEmpty)
  {
    forall h: Bytes, x: Bytes | h != [] && RiffMeasure(h) == Some(|h|)
      ensures RiffMeasure(h + x) == Some(|h|) && !IsEmpty(h + x)
    {
      assert (h + x)[4..8] == h[4..8];
    }
    forall rest: Bytes | RiffMeasure(rest).Some?
      ensures 0 < RiffMeasure(rest).value <= |rest| && RiffMeasure(rest[..RiffMeasure(rest).value]) == RiffMeasure(rest)
    {
      assert rest[..RiffMeasure(rest).value][4..8] == rest[4..8];
    }
  }

  lemma {:induction false} Encode32Decodes(n: nat)
    ensures LittleEndian32(Encode32(n)) == n % 0x1_0000_0000
  {
    var q1, q2, q3 := n / 0x100, n / 0x10000, n / 0x1000000;
    assert q2 == q1 / 0x100 && q3 == q2 / 0x100;
    assert n == n % 0x100 + 0x100 * q1 && q1 == q1 % 0x100 + 0x100 * q2 && q2 == q2 % 0x100 + 0x100 * q3;
    assert q3 == q3 % 0x100 + 0x100 * (q3 / 0x100);
    assert n == LittleEndian32(Encode32(n)) + 0x1_0000_0000 * (q3 / 0x100);
  }

  /** A cleared byte is never the first letter of a dropped chunk. */
  lemma {:induction false} ClearedIsNotMetadata(b: Byte)
    ensures ClearFlags(b) != 0x45 && ClearFlags(b) != 0x58
  {
  }

  /** The patch as a change of one frame: the first one's payload, or the second one's first letter. */
  function PatchChain(c: Chain): Chain {
    match c
    case End(_) => c
    case Frame(h, r) =>
      if !HasFourCC(h, VP8X) then c
      else if |h| > 8 then Frame(h[8 := ClearFlags(h[8])], r)
      else
        match r
        case End(_) => c
        case Frame(h2, r2) => if h2 == [] then c else Frame(h, Frame(h2[0 := ClearFlags(h2[0])], r2))
  }

  lemma {:induction false} PatchedFrame(h: Bytes)
    requires RiffMeasure(h) == Some(|h|) && KeepRiff(h)
    ensures |h| > 8 && HasFourCC(h, VP8X) ==> var p := h[8 := ClearFlags(h[8])]; RiffMeasure(p) == Some(|p|) && KeepRiff(p)
    ensures var p := h[0 := ClearFlags(h[0])]; RiffMeasure(p) == Some(|p|) && KeepRiff(p)
  {
    if |h| > 8 && HasFourCC(h, VP8X) {
      var p := h[8 := ClearFlags(h[8])];
      assert p[4..8] == h[4..8] && p[..4] == h[..4];
    }
    var p := h[0 := ClearFlags(h[0])];
    assert p[4..8] == h[4..8] && p[..4][0] == ClearFlags(h[0]);
    ClearedIsNotMetadata(h[0]);
  }

  /** Patching keeps the framing and never turns a kept chunk into a dropped one. */
  lemma {:induction false} PatchKeepsChain(c: Chain)
    requires WellFormed(RiffMeasure, IsEmpty, c) && Every(c, KeepRiff)
    ensures WellFormed(RiffMeasure, IsEmpty, PatchChain(c)) && Every(PatchChain(c), KeepRiff)
    ensures Flatten(PatchChain(c)) == PatchBody(Flatten(c))
  {
    if c.Frame? {
      PatchedFrame(c.head);
      if c.rest.Frame? {
        PatchedFrame(c.rest.head);
      }
      PatchFlattens(c);
    }
  }

  lemma {:induction false} PatchFlattens(c: Chain)
    requires c.Frame? && WellFormed(RiffMeasure, IsEmpty, c)
    ensures Flatten(PatchChain(c)) == PatchBody(Flatten(c))
  {
    var h, r := c.head, c.rest;
    var body := Flatten(c);
    assert body[..4] == h[..4];
    if HasFourCC(h, VP8X) {
      if |h| > 8 {
        assert h[8 := ClearFlags(h[8])] + Flatten(r) == body[8 := ClearFlags(body[8])];
      } else if r.Frame? {
        assert Flatten(r) == r.head + Flatten(r.rest) && r.head != [];
        assert body == h + (r.head + Flatten(r.rest));
        assert h + (r.head[0 := ClearFlags(r.head[0])] + Flatten(r.rest)) == body[8 := ClearFlags(body[8])];
      }
    }
  }

  lemma {:induction false} WebpParts(bytes: Bytes)
    requires ParseWebp(bytes).Some?
    ensures var c := ParseWebp(bytes).value;
      && Flatten(c) == bytes[12..] && WellFormed(RiffMeasure, IsEmpty, c)
      && WellFormed(RiffMeasure, IsEmpty, Keep(c, KeepRiff)) && Every(Keep(c, KeepRiff), KeepRiff)
      && (Keep(c, KeepRiff).End? <==> Flatten(Keep(c, KeepRiff)) == [])
  {
    RiffIsFraming();
    ParseSound(RiffMeasure, IsEmpty, bytes[12..]);
    KeepFilters(RiffMeasure, IsEmpty, ParseWebp(bytes).value, KeepRiff);
  }

  /**
   * Every accepted WebP from which something was removed: the stored size is the
   * number of bytes after it, modulo 2^32; the identifiers are unchanged; and the
   * kept chunks follow byte for byte but for output offset 20.
   */
  lemma {:induction false} StrippedWebp(bytes: Bytes)
    requires StripWebp(bytes).Some? && !Every(ParseWebp(bytes).value, KeepRiff)
    ensures var kept, out := Flatten(Keep(ParseWebp(bytes).value, KeepRiff)), StripWebp(bytes).value;
      && |out| == 12 + |kept|
      && LittleEndian32(out[4..8]) == (|out| - 8) % 0x1_0000_0000
      && out[..4] == RIFF && out[8..12] == WEBP
      && (forall k | 0 <= k < |kept| && k != 8 :: out[12 + k] == kept[k])
      && (|kept| > 8 ==> out[20] == if HasFourCC(kept, VP8X) then ClearFlags(kept[8]) else kept[8])
  {
    var kept, out := Flatten(Keep(ParseWebp(bytes).value, KeepRiff)), StripWebp(bytes).value;
    var body := PatchBody(kept);
    Encode32Decodes(4 + |body|);
    assert out[4..8] == Encode32(4 + |body|);
    assert out[..4] == bytes[..4] && out[8..12] == bytes[8..12];
    assert out[12..] == body;
  }

  /** A second pass returns the same bytes exactly when a chunk survived; with none left the output is too short. */
  lemma {:induction false} StripWebpAgain(bytes: Bytes)
    requires StripWebp(bytes).Some?
    ensures var c, out := ParseWebp(bytes).value, StripWebp(bytes).value;
      StripWebp(out) == Some(out) <==> Every(c, KeepRiff) || Keep(c, KeepRiff).Frame?
  {
    var c, out := ParseWebp(bytes).value, StripWebp(bytes).value;
    if !Every(c, KeepRiff) {
      var kept := Keep(c, KeepRiff);
      var body := PatchBody(Flatten(kept));
      WebpParts(bytes);
      PatchKeepsChain(kept);
      assert out[..4] == bytes[..4] && out[8..12] == bytes[8..12] && out[12..] == body && |out| == 12 + |body|;
      if kept.Frame? {
        RiffIsFraming();
        ParseComplete(RiffMeasure, IsEmpty, PatchChain(kept));
        assert |kept.head| >= 8;
        assert ParseWebp(out) == Some(PatchChain(kept));
      }
    }
  }

  /** A file whose only chunk is an empty EXIF chunk. */
  const ONLY_METADATA: Bytes := RIFF + [12, 0, 0, 0] + WEBP + EXIF + [0, 0, 0, 0]

  /** A concrete file that is stripped once and then refused. */
  lemma {:induction false} StrippedThenRefused()
    ensures StripWebp(ONLY_METADATA).Some? && StripWebp(StripWebp(ONLY_METADATA).value) == None
  {
    var bytes := ONLY_METADATA;
    var chunk := EXIF + [0, 0, 0, 0];
    assert bytes[..4] == RIFF && bytes[8..12] == WEBP && bytes[12..] == chunk;
    assert chunk[4..8] == [0, 0, 0, 0] && chunk[..4] == EXIF;
    assert RiffMeasure(chunk) == Some(8);
    var c := Frame(chunk, End([]));
    assert Flatten(c) == chunk + [] == chunk;
    RiffIsFraming();
    ParseComplete(RiffMeasure, IsEmpty, c);
    assert ParseWebp(bytes) == Some(c);
    assert !KeepRiff(chunk);
    assert Keep(c, KeepRiff) == End([]);
  }

  method MeasureRiff(bytes: Bytes, i: nat) returns (n: Option<nat>)
    requires i + 8 <= |bytes|
    ensures n == RiffMeasure(bytes[i..])
  {
    var size := bytes[i + 4] as int + bytes[i + 5] as int * 0x100 + bytes[i + 6] as int * 0x10000 + bytes[i + 7] as int * 0x1000000;
    assert LittleEndian32(bytes[i..][4..8]) == size;
    if size >= 0x8000_0000 {
      return None;
    }
    var padded := size + size % 2;
    if i + 8 + padded > |bytes| {
      return None;
    }
    n := Some(8 + padded);
  }

  /** Whether every chunk of `rest` is kept, when it parses. */
  ghost predicate AllKept(rest: Bytes) {
    Parse(RiffMeasure, IsEmpty, rest).Some? ==> Every(Parse(RiffMeasure, IsEmpty, rest).value, KeepRiff)
  }

  lemma {:induction false} AllKeptStep(bytes: Bytes, i: nat, n: nat)
    requires i <= |bytes| && bytes[i..] != [] && RiffMeasure(bytes[i..]) == Some(n)
    ensures i + n <= |bytes| && n >= 8
    ensures Parse(RiffMeasure, IsEmpty, bytes[i..]).Some? <==> Parse(RiffMeasure, IsEmpty, bytes[i + n..]).Some?
    ensures Parse(RiffMeasure, IsEmpty, bytes[i..]).Some? ==> (AllKept(bytes[i..]) <==> KeepRiff(bytes[i..i + n]) && AllKept(bytes[i + n..]))
  {
    var rest := bytes[i..];
    assert rest[..n] == bytes[i..i + n] && rest[n..] == bytes[i + n..];
  }

  /** What the walk has established once it has read up to `i`. */
  ghost predicate WebpWalked(bytes: Bytes, i: nat, body: Bytes, removed: bool)
    requires 12 <= i <= |bytes|
  {
    && Strip(RiffMeasure, IsEmpty, KeepRiff, bytes[12..]) == After(body, Strip(RiffMeasure, IsEmpty, KeepRiff, bytes[i..]))
    && (Parse(RiffMeasure, IsEmpty, bytes[12..]).Some? <==> Parse(RiffMeasure, IsEmpty, bytes[i..]).Some?)
    && (Parse(RiffMeasure, IsEmpty, bytes[12..]).Some? ==> (AllKept(bytes[12..]) <==> !removed && AllKept(bytes[i..])))
  }

  lemma {:induction false} WebpStart(bytes: Bytes)
    requires |bytes| >= 12
    ensures WebpWalked(bytes, 12, [], false)
  {
    AfterNothing(Strip(RiffMeasure, IsEmpty, KeepRiff, bytes[12..]));
  }

  lemma {:induction false} WebpStep(bytes: Bytes, i: nat, n: nat, body: Bytes, removed: bool)
    requires 12 <= i <= |bytes| && bytes[i..] != [] && RiffMeasure(bytes[i..]) == Some(n)
    requires WebpWalked(bytes, i, body, removed)
    ensures 12 <= i + n <= |bytes| && n >= 8
    ensures var chunk := bytes[i..i + n];
      if KeepRiff(chunk) then WebpWalked(bytes, i + n, body + chunk, removed) else WebpWalked(bytes, i + n, body, true)
  {
    StripStep(RiffMeasure, IsEmpty, KeepRiff, bytes, i, n, body);
    AllKeptStep(bytes, i, n);
  }

  lemma {:induction false} WebpStuck(bytes: Bytes, i: nat, body: Bytes, removed: bool)
    requires WebpHeader(bytes) && i <= |bytes| && bytes[i..] != [] && RiffMeasure(bytes[i..]).None?
    requires 12 <= i && WebpWalked(bytes, i, body, removed)
    ensures StripWebp(bytes) == None
  {
  }

  lemma {:induction false} WebpDone(bytes: Bytes, body: Bytes, removed: bool)
    requires WebpHeader(bytes) && WebpWalked(bytes, |bytes|, body, removed)
    ensures StripWebp(bytes) == if removed then Some(BuildWebp(bytes[..12], PatchBody(body))) else Some(bytes)
  {
    assert bytes[|bytes|..] == [];
    assert body + [] == body;
  }

  /** One round of the loop: the chunk at `i` goes to the body or marks that something was removed. */
  method TakeRiff(bytes: Bytes, i: nat, body: Bytes, removed: bool) returns (next: nat, body': Bytes, removed': bool)
    requires 12 <= i && i + 8 <= |bytes| && WebpWalked(bytes, i, body, removed)
    ensures if RiffMeasure(bytes[i..]).None? then next == i && body' == body && removed' == removed
      else i < next <= |bytes| && WebpWalked(bytes, next, body', removed')
  {
    next, body', removed' := i, body, removed;
    var n := MeasureRiff(bytes, i);
    if n.Some? {
      WebpStep(bytes, i, n.value, body, removed);
      next := i + n.value;
      var chunk := bytes[i..next];
      if KeepRiff(chunk) {
        body' := body + chunk;
      } else {
        removed' := true;
      }
    }
  }

  /** The walk as the code does it. */
  method StripWebpBytes(bytes: Bytes) returns (r: Option<Bytes>)
    ensures r == StripWebp(bytes)
  {
    if !WebpHeader(bytes) {
      return None;
    }
    var body: Bytes := [];
    var removed := false;
    var i := 12;
    WebpStart(bytes);
    while i + 8 <= |bytes|
      invariant 12 <= i <= |bytes|
      invariant WebpWalked(bytes, i, body, removed)
      decreases |bytes| - i
    {
      var next, grown, dropped := TakeRiff(bytes, i, body, removed);
      if next == i {
        WebpStuck(bytes, i, body, removed);
        return None;
      }
      i, body, removed := next, grown, dropped;
    }
    if i != |bytes| {
      WebpStuck(bytes, i, body, removed);
      return None;
    }
    WebpDone(bytes, body, removed);
    if !removed {
      return Some(bytes);
    }
    var file := FinishWebp(bytes[..12], body);
    r := Some(file);
  }

  /** Clear the feature flags, then write the size behind the identifiers. */
  method FinishWebp(head: Bytes, kept: Bytes) returns (file: Bytes)
    requires |head| == 12
    ensures file == BuildWebp(head, PatchBody(kept))
  {
    var body := kept;
    if |body| >= 9 && HasFourCC(body, VP8X) {
      body := body[8 := ClearFlags(body[8])];
    }
    file := BuildWebp(head, body);
  }
}
