# execa core, modelled in Dafny

A model of seven small pieces of execa, the Node.js process-launching library.

- **`execaCommand` tokeniser** (`lib/command.js`): trims the command string and splits it on runs of spaces. A piece that follows a token ending in a backslash is glued onto that token with one space.
- **Encoding transform stage** (`lib/stdio/encoding-transform.js`):
  - With `encoding: 'buffer'`, a Buffer is copied into a plain `Uint8Array` and a string is encoded as UTF-8 (RFC 3629, section 3). Every other chunk passes through unchanged.
  - With any other encoding, byte chunks are decoded by one streaming `TextDecoder` that is flushed at the end. The decoder is UTF-8 with replacement (WHATWG Encoding Standard, section 8.1.1) used with the `stream` option (section 7.2).
- **Exit classifier** (`lib/exit/code.js`): decides from the `[exitCode, signal]` pair whether an exit is a failure.
- **Pipe argument errors** (`lib/pipe/throw.js`): chooses between the source error and the destination error, and cleans up the stream that is still usable.
- **Pipe fan-in registry** (`lib/pipe/streaming.js`): one merged stream per destination. It is created by the first pipe, grown by later pipes and dropped when the destination finishes. Each pipe also raises the listener limits of both streams.
- **Helpers** (`lib/utils.js`):
  - listener-limit bookkeeping, undone when an abort signal fires;
  - the binary-value predicates and converters;
  - the standard-stream test.
- **Result types** (`index.d.ts`): the conditional types that decide whether `result.stdout`, `result.stderr`, `result.all` and `result.stdio[n]` are absent, an array of values, an array of lines, or a single string or byte array.

Files:

| file | module | models |
|---|---|---|
| `wrappers.dfy` | `Wrappers` | `Option` and `Result` |
| `utf8.dfy` | `Utf8` | UTF-8 encoding and the streaming decoder (`TextEncoder`, `TextDecoder`) |
| `utils.dfy` | `Utils` | `lib/utils.js` |
| `command.dfy` | `Command` | `lib/command.js` |
| `encoding_transform.dfy` | `EncodingTransform` | `lib/stdio/encoding-transform.js` |
| `exit_code.dfy` | `ExitCode` | `lib/exit/code.js` |
| `pipe_throw.dfy` | `PipeThrow` | `lib/pipe/throw.js` |
| `pipe_streaming.dfy` | `PipeStreaming` | `lib/pipe/streaming.js` |
| `result_types.dfy` | `ResultTypes` | the result-shape conditional types of `index.d.ts` |

The option kinds are predicates over the values of `ResultTypes.SingleOption`: `IsBase`, `IsCommon`, `IsStdinSingle`, `IsOutputSingle`, `IsStdinOption`, `IsStdoutStderrOption`, `IsStdioOptionsArray` and `IsStdioOptions` encode the union types of `index.d.ts:16-84`, and `WellTyped` says which option values the declared option types accept.

State is modelled where the JavaScript changes it in place:

- the decoder's pending bytes (`Utf8.TextDecoder`);
- a stream's listener limit and its aborted and ended flags (`Utils.Stream`);
- an abort signal's listener list (`Utils.AbortSignal`);
- the merged stream's sources (`PipeStreaming.MergedStream`);
- the `MERGED_STREAMS` map (`PipeStreaming.Registry`).

The operations that change that state are methods with `modifies` clauses:

- `Utf8.TextDecoder.DecodeChunk` updates the pending bytes;
- `EncodingTransform.EncodingGenerator.Transform` and `Final` drive that decoder;
- `Utils.IncrementMaxListeners` updates a limit and a listener list;
- `Utils.AbortSignal.Abort` runs the listeners in a `while` loop;
- `PipeThrow.GetPipeArgumentsError` and `PipeThrow.HandlePipeArgumentsError` set a stream's aborted or ended flag;
- `PipeStreaming.MergedStream.Add` and the `PipeStreaming.Registry` methods update the merged streams and the map.

`parseCommand`'s loop is a method, `Command.ParseCommand`, whose loop invariant ties the tokens built so far to a left fold, `Command.Tokenize`; one turn of it is the method `Command.AddToken`, and `execaCommand` and `execaCommandSync` are methods calling it. The remaining code computes values and is modelled by functions and lemmas; `waitForSuccessfulExit`, for instance, is a function returning a `Result`.

Two behaviours of the code are easy to overlook:

- **Listener limits of 0 or infinity.** `incrementMaxListeners` leaves such an emitter alone and registers no abort listener for it (`lib/utils.js:19-22`). A pipe therefore raises the limits of its two streams only where a finite, non-zero limit is set.
- **Spawn failure.** When the process never spawned, both the exit code and the signal are undefined, and `waitForSuccessfulExit` resolves (`lib/exit/code.js:6`). That failure is reported by other code.

## Model

| member | source | states |
|---|---|---|
| Utf8.Encode | lib/stdio/encoding-transform.js:32 | a string's UTF-8 encoding takes between one and four bytes per character |
| Utf8.DecodeEncode | lib/stdio/encoding-transform.js:32 | decoding the UTF-8 encoding of any string gives the string back |
| Utf8.EncodeChar | lib/stdio/encoding-transform.js:32 | one character takes between one and four bytes |
| Utf8.EncodeCharShape | lib/stdio/encoding-transform.js:32 | the decoder reads the encoding of a character back as that character, consuming all its bytes |
| Utf8.DecodeStream | lib/stdio/encoding-transform.js:40 | a streaming decode emits no more characters than the bytes it has consumed, the rest being held pending |
| Utf8.PendingIsSuffix | lib/stdio/encoding-transform.js:40 | the pending bytes of a streaming decode are the tail of its input |
| Utf8.Decode | lib/utils.js:12 | a one-shot decode is empty exactly when the input is |
| Utf8.FlushText | lib/stdio/encoding-transform.js:45 | flushing yields nothing when no bytes are pending, and otherwise exactly one U+FFFD |
| Utf8.DecodeIsStreamThenFlush | lib/stdio/encoding-transform.js:44-49 | a one-shot decode is the streaming decode followed by the flush of the bytes it kept pending |
| Utf8.PendingIsUnfinished | lib/stdio/encoding-transform.js:21 | what the streaming decoder keeps pending is at most three bytes: a lead byte followed by valid continuations |
| Utf8.StreamSplit | lib/stdio/encoding-transform.js:38-42 | streaming-decoding `a + b` equals streaming-decoding `a` and continuing with `b` from its pending bytes, whatever the split point |
| Utf8.ChunkedDecodeIsOneShot | lib/stdio/encoding-transform.js:38-49 | decoding chunk by chunk with `stream: true`, then flushing, gives the one-shot decode of the concatenated bytes |
| Utf8.InvalidByteIsReplaced | lib/stdio/encoding-transform.js:21 | a byte that neither is ASCII nor can start a sequence becomes U+FFFD and decoding carries on after it |
| Utf8.MalformedExamples | lib/stdio/encoding-transform.js:21 | a truncated sequence, an encoded surrogate and an incomplete four-byte sequence give U+FFFD (one per maximal bad subpart); a stream keeps the incomplete tail pending |
| Utf8.DecodeLength | lib/utils.js:11-12 | decoding never yields more characters than there are bytes |
| Utf8.TextDecoder.constructor | lib/stdio/encoding-transform.js:21 | a fresh decoder has no pending bytes |
| Utf8.TextDecoder.DecodeChunk | lib/stdio/encoding-transform.js:40 | with `stream` the text and the new pending bytes are the streaming decode of old pending bytes plus input; without it the text is their full decode and nothing stays pending |
| Utils.ToStringTag | lib/utils.js:8 | the tag is `[object Uint8Array]` exactly for a Buffer or a Uint8Array |
| Utils.IsBuffer | lib/utils.js:8-9 | only a Buffer is a Buffer, and it carries the Uint8Array tag as well |
| Utils.IsUint8Array | lib/utils.js:8 | true exactly for a plain Uint8Array: a Buffer carries the same tag but is excluded |
| Utils.IsBinary | lib/utils.js:9 | true exactly for a Uint8Array or a Buffer, that is, for the Uint8Array tag |
| Utils.BufferToUint8Array | lib/utils.js:6 | gives a plain Uint8Array over the same ArrayBuffer, byte offset and byte length, so the same bytes |
| Utils.BinaryToString | lib/utils.js:11-12 | the string decoded from a binary value has at most as many characters as it has bytes |
| Utils.BinaryToStringOfEncoded | lib/utils.js:11-12 | decoding bytes that encode a string gives that string |
| Utils.AbortSignal.Abort | lib/utils.js:25-27 | each registered listener lowers its emitter's limit by its own increment, once, and nothing else changes |
| Utils.IncrementMaxListeners | lib/utils.js:18-28 | a limit of 0 or infinity is left alone with no listener registered; otherwise the limit rises by the increment and one restoring listener is registered, or on an aborted signal it runs at once |
| Utils.AbortUndoesIncrement | lib/utils.js:24-27 | one increment followed by the abort listener it registered leaves the limit where it was |
| Utils.SumOfPermutation | lib/utils.js:25-27 | the total owed back by abort listeners does not depend on the order they run in |
| Utils.IncrementAllStep | lib/utils.js:18-28 | successive increments are successive `incrementMaxListeners` calls on a signal that has not fired: each leaves the limit that one call leaves and records the increment of the listener that call registers |
| Utils.OwedIsSumOfIncrements | lib/utils.js:25-27 | what the listeners registered for one emitter owe it back is the sum of their increments |
| Utils.IncrementAllRaisesBySum | lib/utils.js:19-24 | successive increments raise the limit by the sum of those that registered a listener, and a limit of 0 or infinity registers none |
| Utils.LowerAllLowersBySum | lib/utils.js:26 | running abort listeners lowers the limit by the sum of their increments |
| Utils.IncrementsAndAbortsCancel | lib/utils.js:18-28 | increments followed by their aborts, in any order, leave the limit where it started |
| Utils.IsStandardStream | lib/utils.js:14-15 | true exactly when the stream is the process's stdin, stdout or stderr, compared by identity |
| Command.Trim | lib/command.js:20 | the result is the slice of the input between its leading and trailing white space: everything before and after it is white space and it neither starts nor ends with white space, so only white space is removed |
| Command.TrimmedSlice | lib/command.js:20 | the trimmed string is a slice of the input with only JavaScript white space before and after it; it is empty exactly when all characters are white space, and otherwise starts and ends with non-white space |
| Command.Split | lib/command.js:20 | splitting on runs of spaces always gives at least one piece |
| Command.SplitPiecesHaveNoSpace | lib/command.js:20 | no piece contains U+0020 |
| Command.SplitKeepsEveryOtherCharacter | lib/command.js:20 | the pieces, concatenated, are the input with its spaces removed: only spaces are consumed, and in order |
| Command.GapsAreSpaceRuns | lib/command.js:34 | every delimiter the split consumes is a non-empty run of spaces |
| Command.SplitRebuildsInput | lib/command.js:20 | there is one delimiter between each two pieces, and the pieces with those delimiters put back between them are the input; with the two rows above, the pieces are exactly the maximal space-free stretches |
| Command.SplitKeepsCharactersOut | lib/command.js:20 | a character absent from the input is absent from every piece |
| Command.SplitTrimmedHasNoEmptyPiece | lib/command.js:20 | a non-empty string that neither starts nor ends with a space splits into non-empty pieces |
| Command.SplitJoin | lib/command.js:20 | splitting non-empty space-free words joined by single spaces gives the words back |
| Command.SplitWithoutSpace | lib/command.js:20 | a string without spaces is one piece |
| Command.SplitTwoWords | lib/command.js:34 | any run of spaces between two words separates them as one delimiter |
| Command.MergeStep | lib/command.js:22-28 | one loop turn keeps the token count after a token ending in a backslash and adds one otherwise; the new last token ends in a backslash exactly when the piece does |
| Command.MergeStepKeepsEarlierTokens | lib/command.js:22-28 | one loop turn leaves every token before the last unchanged, and a piece that is not merged is pushed as it is |
| Command.Tokenize | lib/command.js:19-29 | the loop builds no more tokens than there are pieces, and none only when there are no pieces |
| Command.LastTokenEndsLikeLastPiece | lib/command.js:22-27 | the last token ends like the last piece: with a backslash exactly when the last piece does |
| Command.TokenCount | lib/command.js:19-29 | the token count is the piece count minus the merges, one per escaping piece before the last, so between 1 and the number of pieces |
| Command.OnlyLastTokenEscapes | lib/command.js:19-29 | no token except the last ends with a backslash |
| Command.TokensWithoutBackslash | lib/command.js:19-31 | a command without any backslash gives exactly the space-split pieces of the trimmed string |
| Command.NoEscapeKeepsPieces | lib/command.js:22-27 | with no escaping piece before the last, the tokens are the pieces |
| Command.TokensJoinAsUnescapedPieces | lib/command.js:22-25 | the tokens joined by spaces equal the pieces joined by spaces after removing each escaping backslash before the last piece |
| Command.EscapedRunBecomesOneSpace | lib/command.js:22-25 | `a\` followed by any run of spaces and `b` becomes the single token `a b`: backslash dropped, exactly one space inserted |
| Command.Tokens | lib/command.js:19-31 | a command string always gives at least one token |
| Command.AddToken | lib/command.js:22-28 | one turn of the loop: a token after one ending in a backslash is merged into it, otherwise pushed |
| Command.ParseCommand | lib/command.js:14-32 | a non-string is rejected with the TypeError message before tokenising; for a string, the loop yields exactly `Tokens` of it, at least one token |
| Command.ExecaCommand | lib/command.js:4-7 | the first token is the file and the others, in order, the arguments of an `execa` call with the same options; a non-string gives the TypeError |
| Command.ExecaCommandSync | lib/command.js:9-12 | the same split, handed to `execaSync` |
| EncodingTransform.BufferModeChunk | lib/stdio/encoding-transform.js:28-36 | a Buffer becomes a fresh Uint8Array with the same bytes; a string becomes a Uint8Array whose decode is the string; anything else is unchanged; a Buffer never comes out |
| EncodingTransform.BufferModeOutputIsNotText | lib/stdio/encoding-transform.js:28-36 | in 'buffer' mode no string comes out, and a binary chunk always comes out as a plain Uint8Array |
| EncodingTransform.StringModeFinal | lib/stdio/encoding-transform.js:44-49 | the final step yields at most one chunk, exactly when bytes were pending, and that chunk is a single U+FFFD |
| EncodingTransform.EncodingGenerator.constructor | lib/stdio/encoding-transform.js:16-26 | 'buffer' gives a stage with no decoder and no final step; every other value gives a fresh decoder and a final step, without the name being looked at |
| EncodingTransform.EncodingGenerator.Transform | lib/stdio/encoding-transform.js:28-42 | exactly one chunk out per chunk in: in 'buffer' mode the normalised chunk; otherwise a binary chunk is stream-decoded, possibly to `''`, and other values pass through |
| EncodingTransform.EncodingGenerator.Final | lib/stdio/encoding-transform.js:44-49 | flushes the decoder, yields its remainder only when non-empty, and leaves nothing pending |
| EncodingTransform.StringModeStep | lib/stdio/encoding-transform.js:38-42 | a byte chunk always comes out as a string, leaving at most three bytes pending; the decoder holds at most the start of one unfinished sequence before and after |
| EncodingTransform.StringModeRun | lib/stdio/encoding-transform.js:38-42 | one chunk out for every chunk in, and the decoder still holds at most the start of one unfinished sequence at the end |
| EncodingTransform.StringModePassesOtherValues | lib/stdio/encoding-transform.js:39-41 | a non-binary chunk passes through and leaves the decoder's pending bytes alone |
| EncodingTransform.StringModeRunIsChunkedDecode | lib/stdio/encoding-transform.js:38-42 | running the text stage over byte chunks is a chunk-by-chunk streaming decode |
| EncodingTransform.StringModeIsOneShotDecode | lib/stdio/encoding-transform.js:21-49 | the text of all transform outputs plus the final output is the one-shot decode of all bytes, however they were chunked |
| ExitCode.IsProcessErrorExit | lib/exit/code.js:13 | true exactly when both the exit code and the signal are undefined |
| ExitCode.IsFailedExit | lib/exit/code.js:14 | false exactly for exit code 0 with a null signal; an undefined signal always counts as a failure |
| ExitCode.WaitForSuccessfulExit | lib/exit/code.js:3-11 | rejects with DiscardedError exactly when the exit failed and the process did spawn; otherwise resolves with the pair unchanged |
| ExitCode.WaitResolvesOnlyOnSuccessOrSpawnFailure | lib/exit/code.js:3-14 | against an independent classification of exits, the promise resolves exactly for a clean exit and for a spawn failure |
| ExitCode.DecisionTable | lib/exit/code.js:6-14 | (0, null) and (undefined, undefined) resolve; (1, null), (undefined, 'SIGTERM'), (null, 'SIGTERM') and (0, undefined) reject |
| PipeThrow.PipeArgumentsDecision | lib/pipe/throw.js:18-32 | the destination error wins over the source error; the source is aborted exactly when only the destination failed, the destination ended exactly when only the source failed, and nothing happens otherwise |
| PipeThrow.GetPipeArgumentsError | lib/pipe/throw.js:18-32 | returns that decision's error and sets exactly the aborted or ended flag it names, leaving every other flag and limit alone |
| PipeThrow.CreateNonCommandError | lib/pipe/throw.js:34-42 | the early error carries `source.pipe(destination)` as both command and escaped command, with the source options |
| PipeThrow.HandlePipeArgumentsError | lib/pipe/throw.js:4-16 | throws exactly when either error is set, and then the non-command error built from the chosen error; the source is aborted exactly when only the destination failed and the destination ended exactly when only the source failed; every other flag and every limit is unchanged |
| PipeStreaming.MergedStream.constructor | lib/pipe/streaming.js:24-25 | a new merged stream reads only from its first source and is piped into the destination |
| PipeStreaming.MergedStream.Add | lib/pipe/streaming.js:32 | adding a source keeps the sources already attached |
| PipeStreaming.Registry.constructor | lib/pipe/streaming.js:44 | the registry starts empty |
| PipeStreaming.Registry.PipeFirstProcessStream | lib/pipe/streaming.js:23-28 | a fresh merged stream holding only the source is registered under the destination |
| PipeStreaming.Registry.PipeMoreProcessStream | lib/pipe/streaming.js:30-34 | the registered merged stream is returned with the source added |
| PipeStreaming.Registry.PipeProcessStream | lib/pipe/streaming.js:12-20 | the destination's entry is reused (same stream, source added, map unchanged) or created fresh; other entries keep their sources; the source limit rises by 2 and the destination limit by 1 under the signal; every entry stays the merged stream of its own key |
| PipeStreaming.Registry.DestinationFinished | lib/pipe/streaming.js:36-42 | once the destination finishes, its entry is gone and the rest of the map is unchanged |
| PipeStreaming.TwoPipesThenFinish | lib/pipe/streaming.js:12-42 | two pipes into one destination share one merged stream holding both sources; after the destination finishes, the next pipe gets a new stream holding only its own source |
| ResultTypes.StdioArrayOption | index.d.ts:256-264 | a valid stdio tuple is used as it is; a value valid for both directions becomes three copies; anything else, including a `stdio` known only by its declared type, gives `['pipe', 'pipe', 'pipe']`; a well-typed `stdio` always expands to a valid tuple |
| ResultTypes.IsNoStream | index.d.ts:6-14 | among the base values only 'pipe' and 'overlapped' create a stream; undefined, files, transforms, input values and web streams always create one |
| ResultTypes.StreamOption | index.d.ts:174-182 | stdin, stdout and stderr have the options of their declared types, and every other descriptor has no option |
| ResultTypes.StdioProperty | index.d.ts:184-199 | with well-typed options the `stdio` entries for 0, 1 and 2 are valid for stdin and for stdout/stderr; a descriptor past 2 has an entry only when `stdio` is a tuple |
| ResultTypes.IsInputStdioDescriptor | index.d.ts:159-165 | descriptor 0 is always an input; another descriptor is one only when its `stdio` entry exists and is not valid for output |
| ResultTypes.IsInputStdio | index.d.ts:168-172 | true exactly for the input-only kinds: Uint8Array, Readable, iterables and ReadableStream |
| ResultTypes.IgnoresStreamResult | index.d.ts:130-145 | `'pipe'` in both the descriptor's own option and its `stdio` entry creates a result; past descriptor 2 only the `stdio` entry decides |
| ResultTypes.IgnoresStreamOutput | index.d.ts:147-157 | the output is ignored whenever `buffer` is false, for descriptor 0, and whenever the descriptor's own option creates no stream |
| ResultTypes.IsObjectOutputOptions | index.d.ts:119-128 | object mode comes only from a transform object whose `objectMode` is `true` |
| ResultTypes.IsObjectStream | index.d.ts:105-117 | past descriptor 2 object mode comes only from an object-mode transform in the `stdio` entry; object mode always comes from an option that itself creates a stream |
| ResultTypes.StreamEncoding | index.d.ts:215-222 | object mode gives an array of values; otherwise `lines` gives an array and its absence a single value, holding bytes exactly when the encoding is 'buffer' |
| ResultTypes.StdioOutput | index.d.ts:202-213 | the output is undefined exactly when `buffer` is false, the descriptor is an input or its option creates no stream |
| ResultTypes.StdinHasNoOutput | index.d.ts:160-165 | `result.stdio[0]` is always undefined |
| ResultTypes.OutputDescriptorsAreNotInputs | index.d.ts:160-172 | with well-typed options stdout and stderr are never input descriptors |
| ResultTypes.ExtraDescriptorInput | index.d.ts:160-172 | descriptor 3 and above is an input exactly when its `stdio` entry is valid for stdin but not for stdout/stderr |
| ResultTypes.NoBufferNoOutput | index.d.ts:148-157 | `buffer: false` makes every output undefined |
| ResultTypes.NoStreamNoOutput | index.d.ts:7-14 | an option that creates no stream ('ignore', 'inherit', 'ipc', a number, a Node stream) makes the output undefined |
| ResultTypes.CapturedOutputShape | index.d.ts:202-222 | an output that is not ignored is an array of values exactly in object mode, an array exactly in object mode or with `lines`, and bytes exactly without object mode and with 'buffer' |
| ResultTypes.AllUsesStdout | index.d.ts:234-240 | `all` never follows an ignored stdout; it follows stdout when only stderr is ignored, and stderr when both are captured and stderr is in object mode |
| ResultTypes.AllOutput | index.d.ts:224-232 | `result.all` is undefined without `all: true`, and otherwise has the type of stdout or of stderr |
| ResultTypes.AllOutputUndefined | index.d.ts:225-232 | `result.all` is undefined exactly when `all` is not true or both stdout and stderr are ignored |
| ResultTypes.AllFollowsCapturedStream | index.d.ts:234-240 | `result.all` follows stderr when stdout is ignored and stdout when stderr is ignored |
| ResultTypes.AllObjectMode | index.d.ts:234-240 | with both streams captured and either in object mode, `result.all` is an array of values |
| ResultTypes.StdioValueSpreads | index.d.ts:256-262 | a `stdio` value valid for both directions applies to descriptors 0, 1 and 2 alike |
| ResultTypes.WrappingIsTransparent | index.d.ts:119-122 | wrapping an option in a one-element array changes no result type |

## Left out

- **Byte-order marks and UTF-16:** the default `TextDecoder` strips a leading byte-order mark; the model does not. JavaScript strings are UTF-16, so they can hold lone surrogates, which `TextEncoder` turns into U+FFFD; the model's strings are sequences of Unicode scalar values.
- **`Symbol.toStringTag`:** a value that fakes the Uint8Array tag is not modelled. A chunk is a Buffer, a Uint8Array, a string or another object.
- **Number limits:** listener limits are integers or infinity. A limit that would fall below 0 is kept as a negative number, where Node.js would throw a `RangeError`.
- **Already-aborted signals:** when the signal has already fired, `addAbortListener` schedules the listener on a microtask. The model runs it at once, so the net effect on the limit is the same but the intermediate raised limit is not observable.
- **Asynchrony:** generators, promises and `await` are modelled by their results. A transform is a method returning the list of chunks it yields. `waitForSuccessfulExit` is a function of the pair the exit promise resolves with.
- **Pipe internals:** `@sindresorhus/merge-streams`, `pipeStreams`, `finished()`, backpressure and chunk interleaving are not modelled. A merged stream is its set of sources, and the destination finishing is the call `DestinationFinished`.
- **WeakMap lifetime:** `MERGED_STREAMS` is an ordinary map, and its garbage collection is not modelled.
- **Calls into other files:** `makeEarlyError`, `abortSourceStream`, `endDestinationStream` and `DiscardedError` are not part of this model. The first is represented by the record of its arguments, the next two by a stream's `aborted` and `ended` flags, and the last by a unit datatype.
- **Spawning:** `execa` and `execaSync` are not part of this model. `execaCommand` returns the call it would make, as an `Invocation` value.
- **Non-string commands:** `String(command)` of a non-string is given as the text of the argument; a symbol, whose conversion itself throws, is not modelled.
- **Other parts of `lib/utils.js`:** `isChildProcess` and `STANDARD_STREAMS_ALIASES` are not modelled; nothing in the modelled code uses them.
- **Overloads and sync variants of `index.d.ts`:** the overload signatures, the `IfAsync` sync variants (options the sync functions reject are accepted here), the doc comments and the stream type imports are left out.
- **Union types:** TypeScript's distribution of conditional types over unions of option kinds is not modelled. So are arrays of more than one option, nested arrays, and a descriptor number only known to be some `string`. An option is one value or a one-element array of one value, and a flag is `true`, `false` or left out, never the wide `boolean`.
- **Ill-typed `stdio`:** the declared type of the `stdio` option (`index.d.ts:400`) admits only a base value or a `StdioOptionsArray`. A tuple outside that type gives the default `['pipe', 'pipe', 'pipe']` in the model. The conditional type can differ there: a mutable tuple shorter than three whose entries are all valid for both directions, such as `['ignore', 'ignore']`, passes the tests at `index.d.ts:258-259` and gives three copies of the tuple instead. A `stdio` option known only by its declared type, `StdioWide`, is taken to give the default.
- PipeStreaming.Registry.PipeProcessStream: the signal's listener list is stated only when source and destination are different streams; when they are the same stream only its limit is stated.
- PipeStreaming.Registry.PipeProcessStream: the listener attached by `cleanupMergedStreamsMap` is not modelled as a pending callback; the entry is removed by a separate call to `DestinationFinished`.
