/**
 * Length-framed containers in general: bytes cut into frames by a `measure` of the
 * frame at the head, up to a tail that `isEnd` recognises.
 */
module Framing {
  import opened Wrappers

  newtype Byte = b: int | 0 <= b < 256

  type Bytes = seq<Byte>

  datatype Chain = End(tail: Bytes) | Frame(head: Bytes, rest: Chain)

  function Flatten(c: Chain): Bytes {
    match c
    case End(t) => t
    case Frame(h, r) => h + Flatten(r)
  }

  function Keep(c: Chain, keep: Bytes -> bool): Chain {
    match c
    case End(_) => c
    case Frame(h, r) => if keep(h) then Frame(h, Keep(r, keep)) else Keep(r, keep)
  }

  /** A property of every frame. */
  predicate Every(c: Chain, p: Bytes -> bool) {
    match c
    case End(_) => true
    case Frame(h, r) => p(h) && Every(r, p)
  }

  function Frames(c: Chain): seq<Bytes> {
    match c
    case End(_) => []
    case Frame(h, r) => [h] + Frames(r)
  }

  type Measure = Bytes -> Option<nat>

  function Parse(measure: Measure, isEnd: Bytes -> bool, rest: Bytes): Option<Chain>
    decreases |rest|
  {
    if isEnd(rest) then Some(End(rest))
    else
      var n := measure(rest);
      if n.None? || n.value == 0 || n.value > |rest| then None
      else
        var more := Parse(measure, isEnd, rest[n.value..]);
        if more.None? then None else Some(Frame(rest[..n.value], more.value))
  }

  /** Frames measure themselves and the tail is an end. */
  ghost predicate WellFormed(measure: Measure, isEnd: Bytes -> bool, c: Chain) {
    match c
    case End(t) => isEnd(t)
    case Frame(h, r) => h != [] && measure(h) == Some(|h|) && WellFormed(measure, isEnd, r)
  }

  /** The measure looks at the frame only, and no frame looks like an end. */
  ghost predicate IsFraming(measure: Measure, isEnd: Bytes -> bool) {
    && (forall h: Bytes, x: Bytes :: h != [] && measure(h) == Some(|h|) ==> measure(h + x) == Some(|h|) && !isEnd(h + x))
    && (forall rest: Bytes :: measure(rest).Some? ==> 0 < measure(rest).value <= |rest| && measure(rest[..measure(rest).value]) == measure(rest))
  }

  /** Parsing loses nothing. */
  lemma {:induction false} ParseSound(measure: Measure, isEnd: Bytes -> bool, rest: Bytes)
    requires IsFraming(measure, isEnd) && Parse(measure, isEnd, rest).Some?
    ensures var c := Parse(measure, isEnd, rest).value; Flatten(c) == rest && WellFormed(measure, isEnd, c)
    decreases |rest|
  {
    if !isEnd(rest) {
      var n := measure(rest).value;
      ParseSound(measure, isEnd, rest[n..]);
      assert rest == rest[..n] + rest[n..];
    }
  }

  /** Well-formed frames parse back to themselves. */
  lemma {:induction false} ParseComplete(measure: Measure, isEnd: Bytes -> bool, c: Chain)
    requires IsFraming(measure, isEnd) && WellFormed(measure, isEnd, c)
    ensures Parse(measure, isEnd, Flatten(c)) == Some(c)
  {
    if c.Frame? {
      var x := Flatten(c.rest);
      ParseComplete(measure, isEnd, c.rest);
      assert measure(c.head + x) == Some(|c.head|) && !isEnd(c.head + x);
      assert (c.head + x)[..|c.head|] == c.head && (c.head + x)[|c.head|..] == x;
    }
  }

  /** Filtering keeps well-formedness, keeps only what passes, and is idempotent. */
  lemma {:induction false} KeepFilters(measure: Measure, isEnd: Bytes -> bool, c: Chain, keep: Bytes -> bool)
    requires WellFormed(measure, isEnd, c)
    ensures WellFormed(measure, isEnd, Keep(c, keep))
    ensures Every(Keep(c, keep), keep) && Keep(Keep(c, keep), keep) == Keep(c, keep)
  {
    if c.Frame? {
      KeepFilters(measure, isEnd, c.rest, keep);
    }
  }

  /** The frames of a filtered chain are the passing frames, in order. */
  function FilterFrames(frames: seq<Bytes>, keep: Bytes -> bool): seq<Bytes> {
    if frames == [] then []
    else (if keep(frames[0]) then [frames[0]] else []) + FilterFrames(frames[1..], keep)
  }

  lemma {:induction false} KeepFrames(c: Chain, keep: Bytes -> bool)
    ensures Frames(Keep(c, keep)) == FilterFrames(Frames(c), keep)
  {
    if c.Frame? {
      KeepFrames(c.rest, keep);
      assert Frames(c)[1..] == Frames(c.rest);
      if !keep(c.head) {
        assert [] + FilterFrames(Frames(c.rest), keep) == FilterFrames(Frames(c.rest), keep);
      }
    }
  }

  /** What is left of `rest` after dropping the frames that do not pass. */
  function Strip(measure: Measure, isEnd: Bytes -> bool, keep: Bytes -> bool, rest: Bytes): Option<Bytes> {
    var c := Parse(measure, isEnd, rest);
    if c.None? then None else Some(Flatten(Keep(c.value, keep)))
  }

  function After(out: Bytes, rest: Option<Bytes>): Option<Bytes> {
    if rest.None? then None else Some(out + rest.value)
  }

  lemma {:induction false} AfterNothing(rest: Option<Bytes>)
    ensures After([], rest) == rest
  {
    if rest.Some? {
      assert [] + rest.value == rest.value;
    }
  }

  /** One round of a stripping loop: the frame at `i` goes to the output or is skipped. */
  lemma {:induction false} StripStep(measure: Measure, isEnd: Bytes -> bool, keep: Bytes -> bool, bytes: Bytes, i: nat, n: nat, out: Bytes)
    requires i <= |bytes| && !isEnd(bytes[i..]) && measure(bytes[i..]) == Some(n) && 0 < n && i + n <= |bytes|
    ensures var frame := bytes[i..i + n];
      After(out, Strip(measure, isEnd, keep, bytes[i..]))
      == After(if keep(frame) then out + frame else out, Strip(measure, isEnd, keep, bytes[i + n..]))
  {
    var rest := bytes[i..];
    assert rest[..n] == bytes[i..i + n] && rest[n..] == bytes[i + n..];
    var more := Parse(measure, isEnd, rest[n..]);
    if more.Some? {
      var x := Flatten(Keep(more.value, keep));
      assert out + (rest[..n] + x) == (out + rest[..n]) + x;
    }
  }
}
