/**
 * `lib/stdio/encoding-transform.js`: the internal stage put in front of user
 * transforms. With `encoding: 'buffer'` it turns Buffers and strings into plain
 * Uint8Arrays (strings are UTF-8 encoded) and passes every other chunk through;
 * with any other encoding it turns byte chunks into text with one streaming UTF-8
 * `TextDecoder`, passes every other chunk through, and flushes that decoder at
 * the end.
 */
module EncodingTransform {
  import Utf8
  import Utils

  /** The `encoding` option: one of the names accepted by the type definitions, or undefined. */
  datatype Encoding = EncodingName(name: string) | UndefinedEncoding

  /** The option values listed by the type definitions. */
  predicate IsEncodingOption(e: Encoding)
  {
    e.UndefinedEncoding? ||
    e.name in {"utf8", "utf-8", "utf16le", "utf-16le", "ucs2", "ucs-2", "latin1", "binary",
               "ascii", "hex", "base64", "base64url", "buffer"}
  }

  const BufferEncoding: Encoding := EncodingName("buffer")

  // ---------------------------------------------------------------------------
  // The 'buffer' stage
  // ---------------------------------------------------------------------------

  /**
   * `encodingBufferGenerator`: a Buffer is copied into a new Uint8Array, a string
   * is UTF-8 encoded by a `TextEncoder`, anything else is yielded as it is.
   */
  function BufferModeChunk(chunk: Utils.Value): (r: Utils.Value)
    ensures chunk.BufferValue? ==>
      r.Uint8ArrayValue? && Utils.BinaryBytes(r) == Utils.BinaryBytes(chunk) && r.view.byteOffset == 0
    ensures chunk.StringValue? ==> r.Uint8ArrayValue? && Utils.BinaryToString(r) == chunk.s
    ensures !chunk.BufferValue? && !chunk.StringValue? ==> r == chunk
    ensures !r.BufferValue?
  {
    match chunk
    case BufferValue(v) => Utils.Uint8ArrayValue(Utils.FreshView(Utils.ViewBytes(v)))
    case StringValue(s) =>
      Utils.BinaryToStringOfEncoded(s);
      Utils.Uint8ArrayValue(Utils.FreshView(Utf8.Encode(s)))
    case _ => chunk
  }

  /** In 'buffer' mode the stage's output never holds a string or a Buffer. */
  lemma BufferModeOutputIsNotText(chunk: Utils.Value)
    ensures !BufferModeChunk(chunk).StringValue?
    ensures Utils.IsBinary(chunk) ==> Utils.IsUint8Array(BufferModeChunk(chunk))
  {
  }

  // ---------------------------------------------------------------------------
  // The text stage
  // ---------------------------------------------------------------------------

  /**
   * `encodingStringGenerator`, stated on the decoder's pending bytes: the chunk
   * yielded and the bytes kept. A byte chunk always comes out as a string, and
   * the decoder only ever holds the start of one unfinished sequence.
   */
  function StringModeStep(pending: seq<Utf8.byte>, chunk: Utils.Value): (r: (Utils.Value, seq<Utf8.byte>))
    ensures Utils.IsBinary(chunk) ==> r.0.StringValue? && |r.1| <= 3
    ensures Utf8.Unfinished(pending) ==> Utf8.Unfinished(r.1)
  {
    if Utils.IsBinary(chunk) then
      var bs := pending + Utils.BinaryBytes(chunk);
      Utf8.PendingIsUnfinished(bs);
      var d := Utf8.DecodeStream(bs);
      (Utils.StringValue(d.text), d.pending)
    else
      (chunk, pending)
  }

  /** `encodingStringFinal`, stated on the decoder's pending bytes. */
  function StringModeFinal(pending: seq<Utf8.byte>): (out: seq<Utils.Value>)
    ensures |out| <= 1
    ensures out == [] <==> pending == []
    ensures out != [] ==> out == [Utils.StringValue([Utf8.ReplacementCharacter])]
  {
    var lastChunk := Utf8.FlushText(pending);
    if lastChunk != "" then [Utils.StringValue(lastChunk)] else []
  }

  /**
   * The stage built by `getEncodingTransformGenerator`. In 'buffer' mode it has no
   * decoder and no final step; otherwise its transform and final step share one
   * decoder.
   */
  class EncodingGenerator {
    const binaryMode: bool
    const decoder: Utf8.TextDecoder?

    ghost predicate Valid()
      reads this, decoder
    {
      (binaryMode <==> decoder == null) && (decoder != null ==> decoder.Valid())
    }

    /** Whether the stage has a `final` step. */
    predicate HasFinal()
      reads this
    {
      !binaryMode
    }

    /** `getEncodingTransformGenerator(encoding)`: only 'buffer' is told apart; the other names all decode UTF-8. */
    constructor (encoding: Encoding)
      ensures Valid()
      ensures binaryMode <==> encoding == BufferEncoding
      ensures HasFinal() <==> encoding != BufferEncoding
      ensures decoder != null ==> fresh(decoder) && decoder.pending == []
    {
      binaryMode := encoding == BufferEncoding;
      if encoding == BufferEncoding {
        decoder := null;
      } else {
        decoder := new Utf8.TextDecoder();
      }
    }

    /** The `transform` step: exactly one chunk out for every chunk in. */
    method Transform(chunk: Utils.Value) returns (out: seq<Utils.Value>)
      requires Valid()
      modifies decoder
      ensures Valid()
      ensures |out| == 1
      ensures binaryMode ==> out == [BufferModeChunk(chunk)]
      ensures !binaryMode ==> (out[0], decoder.pending) == StringModeStep(old(decoder.pending), chunk)
    {
      if binaryMode {
        out := [BufferModeChunk(chunk)];
      } else if Utils.IsBinary(chunk) {
        var text := decoder.DecodeChunk(Utils.BinaryBytes(chunk), true);
        out := [Utils.StringValue(text)];
      } else {
        out := [chunk];
      }
    }

    /** The `final` step: `decode()` flushes the decoder; an empty result is not yielded. */
    method Final() returns (out: seq<Utils.Value>)
      requires Valid() && HasFinal()
      modifies decoder
      ensures Valid() && decoder.pending == []
      ensures out == StringModeFinal(old(decoder.pending))
    {
      var lastChunk := decoder.DecodeChunk([], false);
      assert old(decoder.pending) + [] == old(decoder.pending);
      Utf8.UnfinishedIsKept(old(decoder.pending));
      Utf8.DecodeIsStreamThenFlush(old(decoder.pending));
      if lastChunk != "" {
        out := [Utils.StringValue(lastChunk)];
      } else {
        out := [];
      }
    }
  }

  // ---------------------------------------------------------------------------
  // A whole run of the text stage
  // ---------------------------------------------------------------------------

  /** The chunks the text stage yields for `chunks`, and the bytes its decoder keeps afterwards. */
  function StringModeRun(pending: seq<Utf8.byte>, chunks: seq<Utils.Value>): (r: (seq<Utils.Value>, seq<Utf8.byte>))
    ensures |r.0| == |chunks|
    ensures Utf8.Unfinished(pending) ==> Utf8.Unfinished(r.1)
    decreases |chunks|
  {
    if chunks == [] then ([], pending)
    else
      var (out, next) := StringModeStep(pending, chunks[0]);
      var (rest, last) := StringModeRun(next, chunks[1..]);
      ([out] + rest, last)
  }

  /** The text carried by a list of chunks; other values carry none. */
  function Texts(chunks: seq<Utils.Value>): string
  {
    if chunks == [] then ""
    else (if chunks[0].StringValue? then chunks[0].s else "") + Texts(chunks[1..])
  }

  /** The bytes of a list of binary chunks. */
  function ByteChunks(chunks: seq<Utils.Value>): (r: seq<seq<Utf8.byte>>)
    requires forall i :: 0 <= i < |chunks| ==> Utils.IsBinary(chunks[i])
    ensures |r| == |chunks|
  {
    if chunks == [] then [] else [Utils.BinaryBytes(chunks[0])] + ByteChunks(chunks[1..])
  }

  /** A non-binary chunk goes through the text stage untouched, and leaves the decoder as it was. */
  lemma StringModePassesOtherValues(pending: seq<Utf8.byte>, chunk: Utils.Value)
    requires !Utils.IsBinary(chunk)
    ensures StringModeStep(pending, chunk) == (chunk, pending)
  {
  }

  /** Running the text stage over byte chunks is `decode(chunk, {stream: true})` chunk by chunk. */
  lemma {:induction false} StringModeRunIsChunkedDecode(d: Utf8.Decoded, chunks: seq<Utils.Value>)
    requires forall i :: 0 <= i < |chunks| ==> Utils.IsBinary(chunks[i])
    ensures var r := StringModeRun(d.pending, chunks);
      Utf8.DecodeChunks(d, ByteChunks(chunks)) == Utf8.Decoded(d.text + Texts(r.0), r.1)
    decreases |chunks|
  {
    if chunks == [] {
      assert d.text + "" == d.text;
    } else {
      var step := StringModeStep(d.pending, chunks[0]);
      var d1 := Utf8.Decoded(d.text + step.0.s, step.1);
      ChunkedDecodeStep(d, chunks, d1);
      StringModeRunIsChunkedDecode(d1, chunks[1..]);
      RunStepTexts(d.pending, chunks, d.text);
    }
  }

  /** The first chunk moves the decoder exactly as the text stage's first step does. */
  lemma ChunkedDecodeStep(d: Utf8.Decoded, chunks: seq<Utils.Value>, d1: Utf8.Decoded)
    requires chunks != [] && forall i :: 0 <= i < |chunks| ==> Utils.IsBinary(chunks[i])
    requires d1 == Utf8.Decoded(d.text + StringModeStep(d.pending, chunks[0]).0.s, StringModeStep(d.pending, chunks[0]).1)
    ensures Utf8.DecodeChunks(d, ByteChunks(chunks)) == Utf8.DecodeChunks(d1, ByteChunks(chunks[1..]))
  {
    ByteChunksTail(chunks);
    assert Utf8.Continue(d, Utils.BinaryBytes(chunks[0])) == d1;
  }

  /** The text of a run is the text of its first step followed by the text of the rest. */
  lemma RunStepTexts(pending: seq<Utf8.byte>, chunks: seq<Utils.Value>, text: string)
    requires chunks != [] && Utils.IsBinary(chunks[0])
    ensures var step := StringModeStep(pending, chunks[0]);
      var rest := StringModeRun(step.1, chunks[1..]);
      step.0.StringValue?
      && text + Texts(StringModeRun(pending, chunks).0) == (text + step.0.s) + Texts(rest.0)
      && StringModeRun(pending, chunks).1 == rest.1
  {
    var step := StringModeStep(pending, chunks[0]);
    var rest := StringModeRun(step.1, chunks[1..]);
    TextsCons(step.0, rest.0);
    assert text + (step.0.s + Texts(rest.0)) == (text + step.0.s) + Texts(rest.0);
  }

  lemma ByteChunksTail(chunks: seq<Utils.Value>)
    requires chunks != [] && forall i :: 0 <= i < |chunks| ==> Utils.IsBinary(chunks[i])
    ensures ByteChunks(chunks)[0] == Utils.BinaryBytes(chunks[0])
    ensures ByteChunks(chunks)[1..] == ByteChunks(chunks[1..])
  {
  }

  lemma TextsCons(v: Utils.Value, vs: seq<Utils.Value>)
    requires v.StringValue?
    ensures Texts([v] + vs) == v.s + Texts(vs)
  {
    assert ([v] + vs)[1..] == vs;
  }

  /**
   * The chunk-boundary property of the whole stage: the text of the chunks it
   * yields, followed by the text of its final step, is the one-shot UTF-8 decode
   * of all the bytes, however they were split into chunks. A character split
   * between chunks comes out whole; malformed bytes become U+FFFD.
   */
  lemma StringModeIsOneShotDecode(chunks: seq<Utils.Value>)
    requires forall i :: 0 <= i < |chunks| ==> Utils.IsBinary(chunks[i])
    ensures var r := StringModeRun([], chunks);
      Texts(r.0) + Texts(StringModeFinal(r.1)) == Utf8.Decode(Utf8.Flatten(ByteChunks(chunks)))
  {
    var r := StringModeRun([], chunks);
    StringModeRunIsChunkedDecode(Utf8.Decoded("", []), chunks);
    Utf8.ChunkedDecodeIsOneShot(ByteChunks(chunks));
    assert "" + Texts(r.0) == Texts(r.0);
    FinalText(r.1);
  }

  /** The text of the final step is what flushing the decoder returns. */
  lemma FinalText(pending: seq<Utf8.byte>)
    ensures Texts(StringModeFinal(pending)) == Utf8.FlushText(pending)
  {
    var f := StringModeFinal(pending);
    if f != [] {
      assert Texts(f) == f[0].s + Texts([]);
    }
  }

}
