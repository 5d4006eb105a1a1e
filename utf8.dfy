/**
 * UTF-8 as the encoding stage uses it: `TextEncoder.encode` (RFC 3629, section 3)
 * and the default `TextDecoder` (WHATWG Encoding Standard: the UTF-8 decoder of
 * section 8.1.1 in replacement mode, driven by `decode()` with and without the
 * `stream` option of section 7.2).
 *
 * Strings are sequences of Unicode scalar values (Dafny's `char`).
 *
 * The decoder's state between two `decode(chunk, {stream: true})` calls is the
 * WHATWG tuple (bytes needed, bytes seen, code point, lower and upper boundary).
 * That tuple is determined by the bytes of the unfinished sequence read so far, so
 * the model keeps those bytes ("pending") and, on the next call, rescans them in
 * front of the new chunk.
 */
module Utf8 {

  type byte = b: int | 0 <= b < 256

  /** U+FFFD, emitted for every malformed or truncated sequence. */
  const ReplacementCharacter: char := '\U{FFFD}'

  // ---------------------------------------------------------------------------
  // Encoder (RFC 3629, section 3)
  // ---------------------------------------------------------------------------

  function EncodeChar(c: char): (bs: seq<byte>)
    ensures 1 <= |bs| <= 4
  {
    var v := c as int;
    if v < 0x80 then [v]
    else if v < 0x800 then [0xC0 + v / 64, 0x80 + v % 64]
    else if v < 0x10000 then
      var q := v / 64;
      [0xE0 + q / 64, 0x80 + q % 64, 0x80 + v % 64]
    else
      var q := v / 64;
      var q2 := q / 64;
      [0xF0 + q2 / 64, 0x80 + q2 % 64, 0x80 + q % 64, 0x80 + v % 64]
  }

  /** `TextEncoder.prototype.encode`: the concatenated encodings of the characters. */
  function Encode(s: string): (bs: seq<byte>)
    ensures |s| <= |bs| <= 4 * |s|
  {
    if s == [] then [] else EncodeChar(s[0]) + Encode(s[1..])
  }

  // ---------------------------------------------------------------------------
  // Decoder (WHATWG Encoding Standard, section 8.1.1)
  // ---------------------------------------------------------------------------

  predicate IsAscii(b: byte) { b < 0x80 }

  /** A byte that starts a multi-byte sequence: 0xC2 to 0xF4. */
  predicate IsLead(b: byte) { 0xC2 <= b <= 0xF4 }

  /** "bytes needed" after a lead byte. */
  function Needed(lead: byte): (n: nat)
    requires IsLead(lead)
    ensures 1 <= n <= 3
  {
    if lead <= 0xDF then 1 else if lead <= 0xEF then 2 else 3
  }

  /** The range the i-th continuation byte must fall in ("lower/upper UTF-8 boundary"). */
  predicate Fits(lead: byte, i: nat, b: byte)
  {
    var lower := if i == 1 && lead == 0xE0 then 0xA0 else if i == 1 && lead == 0xF0 then 0x90 else 0x80;
    var upper := if i == 1 && lead == 0xED then 0x9F else if i == 1 && lead == 0xF4 then 0x8F else 0xBF;
    lower <= b <= upper
  }

  /**
   * How many continuation bytes after the lead byte `bs[0]` the decoder accepts
   * before the sequence is complete, a byte falls outside its range, or the
   * input runs out.
   */
  function Accepted(bs: seq<byte>): (k: nat)
    requires |bs| > 0 && IsLead(bs[0])
    ensures k <= Needed(bs[0]) && k < |bs|
    ensures forall i :: 1 <= i <= k ==> Fits(bs[0], i, bs[i])
    ensures k < Needed(bs[0]) && k + 1 < |bs| ==> !Fits(bs[0], k + 1, bs[k + 1])
  {
    var n := Needed(bs[0]);
    if |bs| < 2 || !Fits(bs[0], 1, bs[1]) then 0
    else if n < 2 || |bs| < 3 || !Fits(bs[0], 2, bs[2]) then 1
    else if n < 3 || |bs| < 4 || !Fits(bs[0], 3, bs[3]) then 2
    else 3
  }

  /** A complete sequence `bs[..Needed + 1]` read as its scalar value. */
  function ScalarOf(bs: seq<byte>): (c: char)
    requires |bs| > 0 && IsLead(bs[0]) && Accepted(bs) == Needed(bs[0])
    ensures 0x80 <= c as int
  {
    var n := Needed(bs[0]);
    assert Fits(bs[0], 1, bs[1]);
    if n == 1 then
      ((bs[0] as int - 0xC0) * 64 + (bs[1] as int - 0x80)) as char
    else if n == 2 then
      assert Fits(bs[0], 2, bs[2]);
      ((bs[0] as int - 0xE0) * 4096 + (bs[1] as int - 0x80) * 64 + (bs[2] as int - 0x80)) as char
    else
      assert Fits(bs[0], 2, bs[2]) && Fits(bs[0], 3, bs[3]);
      ((bs[0] as int - 0xF0) * 262144 + (bs[1] as int - 0x80) * 4096 + (bs[2] as int - 0x80) * 64
       + (bs[3] as int - 0x80)) as char
  }

  /** What the decoder does with the bytes at the front of its input. */
  datatype Step =
    | Emit(c: char, size: nat)  // emit `c` for the first `size` bytes
    | Incomplete                // the input ends inside a sequence

  /**
   * One turn of the decoder from its initial state. A byte outside the range a
   * continuation must fall in ends the sequence with U+FFFD and is not consumed:
   * it is read again as the start of the next sequence.
   */
  function NextStep(bs: seq<byte>): (s: Step)
    requires |bs| > 0
    ensures s.Emit? ==> 1 <= s.size <= |bs|
  {
    if IsAscii(bs[0]) then Emit(bs[0] as char, 1)
    else if !IsLead(bs[0]) then Emit(ReplacementCharacter, 1)
    else
      var n := Needed(bs[0]);
      var k := Accepted(bs);
      if k == n then Emit(ScalarOf(bs), n + 1)
      else if k + 1 < |bs| then Emit(ReplacementCharacter, k + 1)
      else Incomplete
  }

  /** Text decoded so far and the bytes of an unfinished trailing sequence. */
  datatype Decoded = Decoded(text: string, pending: seq<byte>)

  function Prepend(c: char, d: Decoded): Decoded
  {
    Decoded([c] + d.text, d.pending)
  }

  /**
   * `decode(bytes, {stream: true})` from a fresh decoder: every complete or
   * malformed sequence is emitted; a trailing sequence that is only cut short by
   * the end of the input is kept back as `pending`.
   */
  function DecodeStream(bs: seq<byte>): (d: Decoded)
    ensures |d.text| + |d.pending| <= |bs|
    decreases |bs|
  {
    if bs == [] then Decoded("", [])
    else match NextStep(bs)
      case Emit(c, size) => Prepend(c, DecodeStream(bs[size..]))
      case Incomplete => Decoded("", bs)
  }

  /**
   * One-shot `decode(bytes)` from a fresh decoder: like `DecodeStream`, but at the
   * end of the input a truncated sequence is an error and becomes U+FFFD.
   */
  function Decode(bs: seq<byte>): (s: string)
    ensures s == [] <==> bs == []
    decreases |bs|
  {
    if bs == [] then ""
    else match NextStep(bs)
      case Emit(c, size) => [c] + Decode(bs[size..])
      case Incomplete => [ReplacementCharacter]
  }

  /** What `decode()` without input returns: one U+FFFD for an unfinished sequence. */
  function FlushText(pending: seq<byte>): (s: string)
    ensures |s| <= 1
    ensures s == [] <==> pending == []
    ensures forall k :: 0 <= k < |s| ==> s[k] == ReplacementCharacter
  {
    if pending == [] then "" else [ReplacementCharacter]
  }

  /** The bytes an unfinished sequence can consist of: a lead byte and fewer continuations than it needs. */
  predicate Unfinished(p: seq<byte>)
  {
    p == [] || (IsLead(p[0]) && |p| <= Needed(p[0]) && Accepted(p) + 1 == |p|)
  }

  /** Feeding `b` to a decoder that was left holding `d.pending` after emitting `d.text`. */
  function Continue(d: Decoded, b: seq<byte>): Decoded
  {
    var e := DecodeStream(d.pending + b);
    Decoded(d.text + e.text, e.pending)
  }

  // ---------------------------------------------------------------------------
  // Properties
  // ---------------------------------------------------------------------------

  /** A streaming decode followed by a flush is the one-shot decode. */
  lemma {:induction false} DecodeIsStreamThenFlush(bs: seq<byte>)
    ensures Decode(bs) == DecodeStream(bs).text + FlushText(DecodeStream(bs).pending)
    decreases |bs|
  {
    if bs != [] && NextStep(bs).Emit? {
      DecodeIsStreamThenFlush(bs[NextStep(bs).size..]);
    }
  }

  /** What a streaming decode keeps back is always the start of one unfinished sequence. */
  lemma {:induction false} PendingIsUnfinished(bs: seq<byte>)
    ensures Unfinished(DecodeStream(bs).pending)
    ensures |DecodeStream(bs).pending| <= 3
    decreases |bs|
  {
    if bs != [] && NextStep(bs).Emit? {
      PendingIsUnfinished(bs[NextStep(bs).size..]);
    }
  }

  /** What a streaming decode keeps back is the tail of its input. */
  lemma {:induction false} PendingIsSuffix(bs: seq<byte>)
    ensures DecodeStream(bs).pending == bs[|bs| - |DecodeStream(bs).pending|..]
    decreases |bs|
  {
    if bs != [] && NextStep(bs).Emit? {
      var size := NextStep(bs).size;
      PendingIsSuffix(bs[size..]);
      var n := |DecodeStream(bs[size..]).pending|;
      assert bs[size..][|bs| - size - n..] == bs[|bs| - n..];
    }
  }

  /** An unfinished sequence on its own decodes to nothing and is kept back whole. */
  lemma UnfinishedIsKept(p: seq<byte>)
    requires Unfinished(p)
    ensures DecodeStream(p) == Decoded("", p)
  {
  }

  /** Once the decoder has decided what the front of its input is, more input behind it changes nothing. */
  lemma NextStepPrefix(a: seq<byte>, b: seq<byte>)
    requires |a| > 0 && NextStep(a).Emit?
    ensures NextStep(a + b) == NextStep(a)
  {
    var ab := a + b;
    assert ab[0] == a[0];
    if IsLead(a[0]) {
      assert forall i :: 0 <= i < |a| ==> ab[i] == a[i];
      assert Accepted(ab) == Accepted(a);
      if Accepted(a) == Needed(a[0]) {
        assert ScalarOf(ab) == ScalarOf(a);
      }
    }
  }

  lemma ContinuePrepend(c: char, d: Decoded, b: seq<byte>)
    ensures Continue(Prepend(c, d), b) == Prepend(c, Continue(d, b))
  {
    var e := DecodeStream(d.pending + b);
    assert ([c] + d.text) + e.text == [c] + (d.text + e.text);
  }

  /**
   * The chunk-boundary property: decoding `a + b` in one streaming call is the same
   * as decoding `a`, keeping its pending bytes, and decoding them followed by `b`.
   */
  lemma {:induction false} StreamSplit(a: seq<byte>, b: seq<byte>)
    ensures DecodeStream(a + b) == Continue(DecodeStream(a), b)
    decreases |a|
  {
    var ab := a + b;
    if a == [] {
      assert ab == b;
    } else if NextStep(a).Emit? {
      var c, size := NextStep(a).c, NextStep(a).size;
      NextStepPrefix(a, b);
      assert ab[size..] == a[size..] + b;
      StreamSplit(a[size..], b);
      var d := DecodeStream(a[size..]);
      ContinuePrepend(c, d, b);
    } else {
      assert DecodeStream(a) == Decoded("", a);
      assert "" + DecodeStream(ab).text == DecodeStream(ab).text;
    }
  }

  /** A decoder state after a sequence of streaming calls, one per chunk. */
  function DecodeChunks(d: Decoded, chunks: seq<seq<byte>>): (r: Decoded)
    decreases |chunks|
  {
    if chunks == [] then d else DecodeChunks(Continue(d, chunks[0]), chunks[1..])
  }

  function Flatten(chunks: seq<seq<byte>>): (bs: seq<byte>)
  {
    if chunks == [] then [] else chunks[0] + Flatten(chunks[1..])
  }

  /** Two streaming calls in a row are one streaming call on the concatenated input. */
  lemma ContinueTwice(d: Decoded, a: seq<byte>, b: seq<byte>)
    ensures Continue(Continue(d, a), b) == Continue(d, a + b)
  {
    var e1 := DecodeStream(d.pending + a);
    var e2 := DecodeStream(e1.pending + b);
    assert d.pending + (a + b) == (d.pending + a) + b;
    StreamSplit(d.pending + a, b);
    assert d.text + (e1.text + e2.text) == (d.text + e1.text) + e2.text;
  }

  lemma {:induction false} DecodeChunksIsOneStream(d: Decoded, chunks: seq<seq<byte>>)
    requires Unfinished(d.pending)
    ensures DecodeChunks(d, chunks) == Continue(d, Flatten(chunks))
    decreases |chunks|
  {
    if chunks == [] {
      assert d.pending + [] == d.pending;
      UnfinishedIsKept(d.pending);
      assert d.text + "" == d.text;
    } else {
      var d1 := Continue(d, chunks[0]);
      PendingIsUnfinished(d.pending + chunks[0]);
      DecodeChunksIsOneStream(d1, chunks[1..]);
      ContinueTwice(d, chunks[0], Flatten(chunks[1..]));
    }
  }

  /**
   * Decoding chunk by chunk with `{stream: true}` and then flushing gives the
   * one-shot decode of the concatenated bytes, however the chunks split a
   * multi-byte character.
   */
  lemma ChunkedDecodeIsOneShot(chunks: seq<seq<byte>>)
    ensures DecodeChunks(Decoded("", []), chunks).text + FlushText(DecodeChunks(Decoded("", []), chunks).pending)
         == Decode(Flatten(chunks))
  {
    var bytes := Flatten(chunks);
    DecodeChunksIsOneStream(Decoded("", []), chunks);
    assert [] + bytes == bytes;
    assert "" + DecodeStream(bytes).text == DecodeStream(bytes).text;
    DecodeIsStreamThenFlush(bytes);
  }

  /** A byte that is neither ASCII nor a lead byte decodes to one U+FFFD; decoding goes on after it. */
  lemma InvalidByteIsReplaced(b: byte, rest: seq<byte>)
    requires !IsAscii(b) && !IsLead(b)
    ensures Decode([b] + rest) == [ReplacementCharacter] + Decode(rest)
  {
    assert ([b] + rest)[1..] == rest;
  }

  /**
   * Malformed input in the small: a lead byte cut short by an ASCII byte gives
   * U+FFFD and the ASCII character; a surrogate's encoding gives one U+FFFD per
   * byte; a truncated sequence at the very end gives a single U+FFFD.
   */
  lemma MalformedExamples()
    ensures Decode([0xE2, 0x41]) == [ReplacementCharacter, 'A']
    ensures Decode([0xED, 0xA0, 0x80]) == [ReplacementCharacter, ReplacementCharacter, ReplacementCharacter]
    ensures Decode([0xF0, 0x9F, 0x98]) == [ReplacementCharacter]
    ensures DecodeStream([0xF0, 0x9F, 0x98]) == Decoded("", [0xF0, 0x9F, 0x98])
  {
    assert [0xE2, 0x41][1..] == [0x41];
    assert [0xED, 0xA0, 0x80][1..] == [0xA0, 0x80];
    assert [0xA0, 0x80][1..] == [0x80];
  }

  /** The shape of one encoded character, as the decoder checks it. */
  lemma EncodeCharShape(c: char)
    ensures NextStep(EncodeChar(c)) == Emit(c, |EncodeChar(c)|)
  {
    var v := c as int;
    var e := EncodeChar(c);
    if v < 0x80 {
    } else if v < 0x800 {
      assert Fits(e[0], 1, e[1]);
    } else if v < 0x10000 {
      var q := v / 64;
      assert v == q * 64 + v % 64;
      assert q == (q / 64) * 64 + q % 64;
      assert Fits(e[0], 1, e[1]);
      assert Fits(e[0], 2, e[2]);
    } else {
      var q := v / 64;
      var q2 := q / 64;
      assert v == q * 64 + v % 64;
      assert q == q2 * 64 + q % 64;
      assert q2 == (q2 / 64) * 64 + q2 % 64;
      assert Fits(e[0], 1, e[1]);
      assert Fits(e[0], 2, e[2]);
      assert Fits(e[0], 3, e[3]);
    }
  }

  lemma EncodeCharThenRest(c: char, rest: seq<byte>)
    ensures DecodeStream(EncodeChar(c) + rest) == Prepend(c, DecodeStream(rest))
  {
    var e := EncodeChar(c);
    EncodeCharShape(c);
    NextStepPrefix(e, rest);
    assert (e + rest)[|e|..] == rest;
  }

  /** Encoding then decoding (streaming) gives back the text, with nothing pending. */
  lemma {:induction false} DecodeStreamEncode(s: string)
    ensures DecodeStream(Encode(s)) == Decoded(s, [])
  {
    if s != [] {
      DecodeStreamEncode(s[1..]);
      EncodeCharThenRest(s[0], Encode(s[1..]));
      assert s == [s[0]] + s[1..];
    }
  }

  /** `new TextDecoder().decode(new TextEncoder().encode(s)) === s`. */
  lemma DecodeEncode(s: string)
    ensures Decode(Encode(s)) == s
  {
    DecodeStreamEncode(s);
    DecodeIsStreamThenFlush(Encode(s));
  }

  /** Decoding never produces more characters than it reads bytes: each U+FFFD stands for at least one byte. */
  lemma {:induction false} DecodeLength(bs: seq<byte>)
    ensures |Decode(bs)| <= |bs|
    decreases |bs|
  {
    if bs != [] && NextStep(bs).Emit? {
      DecodeLength(bs[NextStep(bs).size..]);
    }
  }

  // ---------------------------------------------------------------------------
  // The decoder object
  // ---------------------------------------------------------------------------

  /**
   * `new TextDecoder()` with its default options: UTF-8, errors replaced by
   * U+FFFD rather than thrown. Between streaming calls it holds the bytes of an
   * unfinished sequence.
   */
  class TextDecoder {
    var pending: seq<byte>

    ghost predicate Valid()
      reads this
    {
      Unfinished(pending)
    }

    constructor ()
      ensures Valid() && pending == []
    {
      pending := [];
    }

    /**
     * `decode(input, {stream})`. With `stream` the bytes of a trailing unfinished
     * sequence are kept for the next call; without it they are flushed as U+FFFD
     * and the decoder starts afresh.
     */
    method DecodeChunk(input: seq<byte>, stream: bool) returns (text: string)
      requires Valid()
      modifies this
      ensures Valid()
      ensures stream ==> Decoded(text, pending) == DecodeStream(old(pending) + input)
      ensures !stream ==> text == Decode(old(pending) + input) && pending == []
    {
      var d := DecodeStream(pending + input);
      PendingIsUnfinished(pending + input);
      if stream {
        text, pending := d.text, d.pending;
      } else {
        DecodeIsStreamThenFlush(pending + input);
        text, pending := d.text + FlushText(d.pending), [];
      }
    }
  }
}
