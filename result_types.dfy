/**
 * The result-shape rules of `index.d.ts`: from the `stdin`, `stdout`, `stderr`,
 * `stdio`, `lines`, `encoding`, `buffer` and `all` options, the conditional types
 * decide what `result.stdout`, `result.stderr`, `result.all` and `result.stdio[n]`
 * hold: nothing, an array of values, an array of lines, or one string or byte
 * array. Each conditional type becomes a function over the option values.
 */
module ResultTypes {
  import EncodingTransform

  /** A boolean option: `true`, `false`, or left out. */
  datatype Flag = SetTrue | SetFalse | Unset

  /** One value of a stdio option, by the kind of value it is. */
  datatype SingleOption =
    // CommonStdioOption
    | Pipe | Overlapped | Ignore | Inherit | Ipc | FdNumber(n: int) | Undefined
    | FileUrl | FilePath | TransformFunction | TransformObject(objectMode: Flag)
    // InputStdioOption
    | Uint8ArrayInput | NodeReadable | IterableInput | AsyncIterableInput | WebReadableStream
    // OutputStdioOption
    | NodeWritable | WebWritableStream

  /** `BaseStdioOption`. */
  predicate IsBase(o: SingleOption)
  {
    o.Pipe? || o.Overlapped? || o.Ignore? || o.Inherit?
  }

  /** `CommonStdioOption`: valid for every descriptor. */
  predicate IsCommon(o: SingleOption)
  {
    IsBase(o) || o.Ipc? || o.FdNumber? || o.Undefined? || o.FileUrl? || o.FilePath?
    || o.TransformFunction? || o.TransformObject?
  }

  /** `StdinSingleOption`. */
  predicate IsStdinSingle(o: SingleOption)
  {
    IsCommon(o) || o.Uint8ArrayInput? || o.NodeReadable? || o.IterableInput? || o.AsyncIterableInput?
    || o.WebReadableStream?
  }

  /** `StdoutStderrSingleOption`. */
  predicate IsOutputSingle(o: SingleOption)
  {
    IsCommon(o) || o.NodeWritable? || o.WebWritableStream?
  }

  /** A stdio option: a single value, or an array holding one value. */
  datatype StdioOption = Single(o: SingleOption) | Wrapped(o: SingleOption)

  /** `StdinOption`. */
  predicate IsStdinOption(opt: StdioOption)
  {
    IsStdinSingle(opt.o)
  }

  /** `StdoutStderrOption`. */
  predicate IsStdoutStderrOption(opt: StdioOption)
  {
    IsOutputSingle(opt.o)
  }

  /**
   * `NoStreamStdioOption`: values for which no stream, and so no result, is
   * created. Of the base values only 'pipe' and 'overlapped' create one; files,
   * transforms, input values and web streams always do.
   */
  function IsNoStream(opt: StdioOption): (r: bool)
    ensures IsBase(opt.o) ==> (r <==> !opt.o.Pipe? && !opt.o.Overlapped?)
    ensures (opt.o.Undefined? || opt.o.FileUrl? || opt.o.FilePath? || opt.o.TransformFunction? || opt.o.TransformObject?
             || opt.o.Uint8ArrayInput? || opt.o.IterableInput? || opt.o.AsyncIterableInput? || opt.o.WebReadableStream?
             || opt.o.WebWritableStream?) ==> !r
  {
    var o := opt.o;
    o.Ignore? || o.Inherit? || o.Ipc? || o.FdNumber? || o.NodeReadable? || o.NodeWritable?
  }

  /** The `stdio` option: a value, a tuple of per-descriptor options, or only known by its declared type. */
  datatype StdioSetting = StdioValue(o: SingleOption) | StdioTuple(items: seq<StdioOption>) | StdioWide

  /** `StdioOptionsArray`: stdin, stdout and stderr options first, then any options. */
  predicate IsStdioOptionsArray(items: seq<StdioOption>)
  {
    |items| >= 3 && IsStdinOption(items[0]) && IsStdoutStderrOption(items[1]) && IsStdoutStderrOption(items[2])
  }

  /** `StdioOptions`, or undefined. */
  predicate IsStdioOptions(s: StdioSetting)
  {
    match s
    case StdioValue(o) => IsBase(o) || o.Undefined?
    case StdioTuple(items) => IsStdioOptionsArray(items)
    case StdioWide => true
  }

  /** The options the result types look at. An option that is left out is `Single(Undefined)` or `Unset`. */
  datatype Options = Options(
    stdin: StdioOption, stdout: StdioOption, stderr: StdioOption, stdio: StdioSetting,
    lines: Flag, encoding: EncodingTransform.Encoding, buffer: Flag, all: Flag)

  /** What the declared option types accept. */
  predicate WellTyped(options: Options)
  {
    IsStdinOption(options.stdin) && IsStdoutStderrOption(options.stdout) && IsStdoutStderrOption(options.stderr)
    && IsStdioOptions(options.stdio) && EncodingTransform.IsEncodingOption(options.encoding)
  }

  // ---------------------------------------------------------------------------
  // Which option applies to a descriptor
  // ---------------------------------------------------------------------------

  /** `DefaultStdio`. */
  const DefaultStdio: seq<StdioOption> := [Single(Pipe), Single(Pipe), Single(Pipe)]

  /**
   * `StdioArrayOption`: a stdio tuple is used as it is; a value valid for both
   * directions is repeated for the three standard descriptors; anything else
   * gives the default `['pipe', 'pipe', 'pipe']`.
   */
  function StdioArrayOption(stdio: StdioSetting): (r: seq<StdioOption>)
    ensures stdio.StdioTuple? && IsStdioOptionsArray(stdio.items) ==> r == stdio.items
    ensures stdio.StdioValue? && IsStdinSingle(stdio.o) && IsOutputSingle(stdio.o) ==> r == [Single(stdio.o), Single(stdio.o), Single(stdio.o)]
    ensures stdio.StdioWide? ==> r == DefaultStdio
    ensures (!(stdio.StdioTuple? && IsStdioOptionsArray(stdio.items))
             && !(stdio.StdioValue? && IsStdinSingle(stdio.o) && IsOutputSingle(stdio.o))) ==> r == DefaultStdio
    ensures IsStdioOptions(stdio) ==> IsStdioOptionsArray(r)
  {
    if stdio.StdioTuple? && IsStdioOptionsArray(stdio.items) then stdio.items
    else if stdio.StdioValue? && IsStdinOption(Single(stdio.o)) && IsStdoutStderrOption(Single(stdio.o)) then
      [Single(stdio.o), Single(stdio.o), Single(stdio.o)]
    else DefaultStdio
  }

  /**
   * `StdioProperty`: `options.stdio[fd]` once expanded, or undefined past its end.
   * With well-typed options, the entries for stdin, stdout and stderr have the
   * types of those options, and only a tuple reaches past them.
   */
  function StdioProperty(fd: nat, options: Options): (r: StdioOption)
    ensures WellTyped(options) && fd == 0 ==> IsStdinOption(r)
    ensures WellTyped(options) && (fd == 1 || fd == 2) ==> IsStdoutStderrOption(r)
    ensures fd >= 3 && !options.stdio.StdioTuple? ==> r == Single(Undefined)
  {
    var items := StdioArrayOption(options.stdio);
    if fd < |items| then items[fd] else Single(Undefined)
  }

  /** `StreamOption`: `options.stdin`, `options.stdout` or `options.stderr`, and undefined for other descriptors. */
  function StreamOption(fd: nat, options: Options): (r: StdioOption)
    ensures WellTyped(options) && fd == 0 ==> IsStdinOption(r)
    ensures WellTyped(options) && (fd == 1 || fd == 2) ==> IsStdoutStderrOption(r)
    ensures fd >= 3 ==> r == Single(Undefined)
  {
    if fd == 0 then options.stdin
    else if fd == 1 then options.stdout
    else if fd == 2 then options.stderr
    else Single(Undefined)
  }

  // ---------------------------------------------------------------------------
  // Whether a result is undefined
  // ---------------------------------------------------------------------------

  /** `IsInputStdio`: valid for stdin but not for stdout/stderr. */
  function IsInputStdio(opt: StdioOption): (r: bool)
    ensures r <==> opt.o.Uint8ArrayInput? || opt.o.NodeReadable? || opt.o.IterableInput?
                   || opt.o.AsyncIterableInput? || opt.o.WebReadableStream?
  {
    IsStdinOption(opt) && !IsStdoutStderrOption(opt)
  }

  /** `IsInputStdioDescriptor`: descriptor 0, or a descriptor whose `stdio` entry is an input. */
  function IsInputStdioDescriptor(fd: nat, options: Options): (r: bool)
    ensures fd == 0 ==> r
    ensures r && fd != 0 ==> fd < |StdioArrayOption(options.stdio)| && !IsOutputSingle(StdioProperty(fd, options).o)
  {
    fd == 0 || IsInputStdio(StdioProperty(fd, options))
  }

  /** `IgnoresStreamResult`: the descriptor's own option or its `stdio` entry creates no stream. */
  function IgnoresStreamResult(fd: nat, options: Options): (r: bool)
    ensures StreamOption(fd, options).o.Pipe? && StdioProperty(fd, options).o.Pipe? ==> !r
    ensures fd >= 3 ==> (r <==> IsNoStream(StdioProperty(fd, options)))
  {
    IsNoStream(StreamOption(fd, options)) || IsNoStream(StdioProperty(fd, options))
  }

  /** `IgnoresStreamOutput`: `buffer: false`, an input descriptor, or no stream. */
  function IgnoresStreamOutput(fd: nat, options: Options): (r: bool)
    ensures options.buffer == SetFalse || fd == 0 ==> r
    ensures IsNoStream(StreamOption(fd, options)) ==> r
  {
    options.buffer == SetFalse || IsInputStdioDescriptor(fd, options) || IgnoresStreamResult(fd, options)
  }

  // ---------------------------------------------------------------------------
  // The shape of a result
  // ---------------------------------------------------------------------------

  /** `IsObjectOutputOption`: a transform object whose `objectMode` is `true`. */
  function IsObjectOutputOptions(opt: StdioOption): (r: bool)
    ensures r <==> opt.o == TransformObject(SetTrue)
  {
    opt.o.TransformObject? && opt.o.objectMode == SetTrue
  }

  /** `IsObjectStream`: the descriptor's own option or its `stdio` entry is an object-mode transform. */
  function IsObjectStream(fd: nat, options: Options): (r: bool)
    ensures fd >= 3 ==> (r <==> StdioProperty(fd, options).o == TransformObject(SetTrue))
    ensures r ==> !IsNoStream(StreamOption(fd, options)) || !IsNoStream(StdioProperty(fd, options))
  {
    IsObjectOutputOptions(StreamOption(fd, options)) || IsObjectOutputOptions(StdioProperty(fd, options))
  }

  /** The type of a captured output. */
  datatype OutputShape =
    | NoOutput      // undefined
    | ValuesArray   // unknown[]
    | BytesLines    // Uint8Array[]
    | StringLines   // string[]
    | BytesValue    // Uint8Array
    | TextValue     // string

  predicate IsArray(s: OutputShape)
  {
    s.ValuesArray? || s.BytesLines? || s.StringLines?
  }

  predicate HoldsBytes(s: OutputShape)
  {
    s.BytesLines? || s.BytesValue?
  }

  /**
   * `StreamEncoding`: object mode gives an array of values; otherwise `lines`
   * gives an array of lines and its absence one value, of bytes exactly when
   * the encoding is 'buffer'.
   */
  function StreamEncoding(isObject: bool, lines: Flag, encoding: EncodingTransform.Encoding): (r: OutputShape)
    ensures r != NoOutput
    ensures r == ValuesArray <==> isObject
    ensures IsArray(r) <==> isObject || lines == SetTrue
    ensures HoldsBytes(r) <==> !isObject && encoding == EncodingTransform.BufferEncoding
  {
    if isObject then ValuesArray
    else if lines == SetTrue then
      (if encoding == EncodingTransform.BufferEncoding then BytesLines else StringLines)
    else
      (if encoding == EncodingTransform.BufferEncoding then BytesValue else TextValue)
  }

  /** `StdioOutput`: the type of `result.stdio[fd]`, and of `result.stdout` and `result.stderr` for 1 and 2. */
  function StdioOutput(fd: nat, options: Options): (r: OutputShape)
    ensures r == NoOutput <==> IgnoresStreamOutput(fd, options)
  {
    if IgnoresStreamOutput(fd, options) then NoOutput
    else StreamEncoding(IsObjectStream(fd, options), options.lines, options.encoding)
  }

  /**
   * `AllUsesStdout`: `all` follows stderr when stdout is ignored, stdout when
   * stderr is ignored, and otherwise stderr if stderr is in object mode, else
   * stdout exactly when stdout is.
   */
  function AllUsesStdout(options: Options): (r: bool)
    ensures r ==> !IgnoresStreamOutput(1, options)
    ensures !IgnoresStreamOutput(1, options) && IgnoresStreamOutput(2, options) ==> r
    ensures !IgnoresStreamOutput(1, options) && !IgnoresStreamOutput(2, options) && IsObjectStream(2, options) ==> !r
  {
    if IgnoresStreamOutput(1, options) then false
    else if IgnoresStreamOutput(2, options) then true
    else if IsObjectStream(2, options) then false
    else IsObjectStream(1, options)
  }

  /** `AllOutput`: the type of `result.all`: undefined without `all: true`, otherwise the type of stdout or of stderr. */
  function AllOutput(options: Options): (r: OutputShape)
    ensures options.all != SetTrue ==> r == NoOutput
    ensures options.all == SetTrue ==> r == StdioOutput(1, options) || r == StdioOutput(2, options)
  {
    if options.all == SetTrue then StdioOutput(if AllUsesStdout(options) then 1 else 2, options)
    else NoOutput
  }

  // ---------------------------------------------------------------------------
  // Properties
  // ---------------------------------------------------------------------------

  /** `result.stdio[0]` is always undefined: descriptor 0 is an input. */
  lemma StdinHasNoOutput(options: Options)
    ensures StdioOutput(0, options) == NoOutput
  {
  }

  /** With well-typed options, stdout and stderr are never input descriptors. */
  lemma OutputDescriptorsAreNotInputs(options: Options, fd: nat)
    requires WellTyped(options) && (fd == 1 || fd == 2)
    ensures !IsInputStdioDescriptor(fd, options)
  {
    var items := StdioArrayOption(options.stdio);
    assert IsStdioOptionsArray(items);
    assert IsStdoutStderrOption(items[fd]);
  }

  /** A descriptor past the standard three is an input exactly when its `stdio` entry is input-only. */
  lemma ExtraDescriptorInput(options: Options, fd: nat)
    requires fd >= 3
    ensures IsInputStdioDescriptor(fd, options) <==>
      var items := StdioArrayOption(options.stdio);
      fd < |items| && IsStdinSingle(items[fd].o) && !IsOutputSingle(items[fd].o)
  {
  }

  /** `buffer: false` leaves every output undefined. */
  lemma NoBufferNoOutput(options: Options, fd: nat)
    requires options.buffer == SetFalse
    ensures StdioOutput(fd, options) == NoOutput
  {
  }

  /** An option that creates no stream leaves the output undefined, for any descriptor. */
  lemma NoStreamNoOutput(options: Options, fd: nat)
    requires IsNoStream(StreamOption(fd, options)) || IsNoStream(StdioProperty(fd, options))
    ensures StdioOutput(fd, options) == NoOutput
  {
  }

  /** An output that is not ignored has the shape `StreamEncoding` gives it. */
  lemma CapturedOutputShape(options: Options, fd: nat)
    requires !IgnoresStreamOutput(fd, options)
    ensures StdioOutput(fd, options) == ValuesArray <==> IsObjectStream(fd, options)
    ensures IsArray(StdioOutput(fd, options)) <==> IsObjectStream(fd, options) || options.lines == SetTrue
    ensures HoldsBytes(StdioOutput(fd, options)) <==>
      !IsObjectStream(fd, options) && options.encoding == EncodingTransform.BufferEncoding
  {
  }

  /** `result.all` is undefined exactly when `all` is not `true` or both stdout and stderr are ignored. */
  lemma AllOutputUndefined(options: Options)
    ensures AllOutput(options) == NoOutput <==>
      options.all != SetTrue || (IgnoresStreamOutput(1, options) && IgnoresStreamOutput(2, options))
  {
    if options.all == SetTrue {
      if AllUsesStdout(options) {
        assert !IgnoresStreamOutput(1, options);
      } else if !IgnoresStreamOutput(1, options) {
        assert !IgnoresStreamOutput(2, options);
      }
    }
  }

  /** `result.all` follows a stream that is not ignored whenever there is one. */
  lemma AllFollowsCapturedStream(options: Options)
    requires options.all == SetTrue
    ensures IgnoresStreamOutput(1, options) && !IgnoresStreamOutput(2, options) ==> AllOutput(options) == StdioOutput(2, options)
    ensures !IgnoresStreamOutput(1, options) && IgnoresStreamOutput(2, options) ==> AllOutput(options) == StdioOutput(1, options)
  {
  }

  /** When both streams are captured and either is in object mode, `result.all` is an array of values. */
  lemma AllObjectMode(options: Options)
    requires options.all == SetTrue
    requires !IgnoresStreamOutput(1, options) && !IgnoresStreamOutput(2, options)
    requires IsObjectStream(1, options) || IsObjectStream(2, options)
    ensures AllOutput(options) == ValuesArray
  {
  }

  /** A single `stdio` value valid for both directions applies to stdin, stdout and stderr alike. */
  lemma StdioValueSpreads(options: Options, fd: nat)
    requires options.stdio.StdioValue? && IsStdinSingle(options.stdio.o) && IsOutputSingle(options.stdio.o)
    ensures StdioProperty(fd, options) == if fd < 3 then Single(options.stdio.o) else Single(Undefined)
  {
  }

  /** Wrapping an option in a one-element array changes no result type. */
  lemma WrappingIsTransparent(options: Options, fd: nat)
    requires fd <= 2
    requires StreamOption(fd, options).Single?
    ensures var o := StreamOption(fd, options).o;
      var wrapped := if fd == 0 then options.(stdin := Wrapped(o))
                     else if fd == 1 then options.(stdout := Wrapped(o))
                     else options.(stderr := Wrapped(o));
      StdioOutput(fd, wrapped) == StdioOutput(fd, options)
  {
  }
}
