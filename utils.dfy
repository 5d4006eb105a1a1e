/**
 * Helpers of `lib/utils.js`: recognising binary chunks, viewing a Buffer as a
 * plain Uint8Array, decoding bytes to a string, recognising the current process's
 * standard streams, and raising an event emitter's listener limit for as long as
 * an abort signal has not fired.
 */
module Utils {
  import Utf8

  // ---------------------------------------------------------------------------
  // Values passed around as chunks
  // ---------------------------------------------------------------------------

  /** A typed array's window on an ArrayBuffer: `buffer`, `byteOffset`, `byteLength`. */
  datatype View = View(buffer: seq<Utf8.byte>, byteOffset: nat, byteLength: nat)

  type ByteView = v: View | v.byteOffset + v.byteLength <= |v.buffer| witness View([], 0, 0)

  /** The bytes a view shows. */
  function ViewBytes(v: ByteView): seq<Utf8.byte>
  {
    v.buffer[v.byteOffset..v.byteOffset + v.byteLength]
  }

  /** A view of its own fresh ArrayBuffer holding exactly `bs`. */
  function FreshView(bs: seq<Utf8.byte>): (v: ByteView)
    ensures ViewBytes(v) == bs
  {
    assert bs[0..|bs|] == bs;
    View(bs, 0, |bs|)
  }

  /** The JavaScript values the stdio stages see. */
  datatype Value =
    | BufferValue(view: ByteView)      // a Node.js `Buffer`, a subclass of `Uint8Array`
    | Uint8ArrayValue(view: ByteView)  // a `Uint8Array` that is not a `Buffer`
    | StringValue(s: string)
    | ObjectValue(id: nat)             // any other value, passed through untouched

  /** `Object.prototype.toString.call(value)`: a Buffer carries the Uint8Array tag too. */
  function ToStringTag(v: Value): (r: string)
    ensures r == "[object Uint8Array]" <==> v.BufferValue? || v.Uint8ArrayValue?
  {
    match v
    case BufferValue(_) => "[object Uint8Array]"
    case Uint8ArrayValue(_) => "[object Uint8Array]"
    case StringValue(_) => "[object String]"
    case ObjectValue(_) => "[object Object]"
  }

  /** `Buffer.isBuffer(value)`: a Buffer, which carries the Uint8Array tag as well. */
  function IsBuffer(v: Value): (r: bool)
    ensures r ==> ToStringTag(v) == "[object Uint8Array]"
    ensures v.Uint8ArrayValue? || v.StringValue? || v.ObjectValue? ==> !r
  {
    v.BufferValue?
  }

  /** `isUint8Array`: the Uint8Array tag, but not a Buffer. */
  function IsUint8Array(v: Value): (r: bool)
    ensures r <==> v.Uint8ArrayValue?
  {
    ToStringTag(v) == "[object Uint8Array]" && !IsBuffer(v)
  }

  /** `isBinary`: a Uint8Array or a Buffer. */
  function IsBinary(v: Value): (r: bool)
    ensures r <==> v.Uint8ArrayValue? || v.BufferValue?
    ensures r <==> ToStringTag(v) == "[object Uint8Array]"
  {
    IsUint8Array(v) || IsBuffer(v)
  }

  /** The bytes of a binary value. */
  function BinaryBytes(v: Value): seq<Utf8.byte>
    requires IsBinary(v)
  {
    ViewBytes(v.view)
  }

  /**
   * `bufferToUint8Array`: a plain Uint8Array over the same memory as the given
   * Buffer: the same underlying ArrayBuffer, offset and length.
   */
  function BufferToUint8Array(b: Value): (r: Value)
    requires IsBinary(b)
    ensures IsUint8Array(r) && !IsBuffer(r)
    ensures r.view.buffer == b.view.buffer
    ensures r.view.byteOffset == b.view.byteOffset && r.view.byteLength == b.view.byteLength
    ensures BinaryBytes(r) == BinaryBytes(b)
  {
    Uint8ArrayValue(View(b.view.buffer, b.view.byteOffset, b.view.byteLength))
  }

  /**
   * `binaryToString`: decodes with a module-wide `TextDecoder`. Every call is a
   * non-streaming `decode`, which flushes, so no state carries from one call to
   * the next and the result is the one-shot decode of the bytes.
   */
  function BinaryToString(v: Value): (s: string)
    requires IsBinary(v)
    ensures |s| <= |BinaryBytes(v)|
  {
    Utf8.DecodeLength(BinaryBytes(v));
    Utf8.Decode(BinaryBytes(v))
  }

  /** The string of a Uint8Array holding the UTF-8 encoding of `s` is `s`. */
  lemma BinaryToStringOfEncoded(s: string)
    ensures BinaryToString(Uint8ArrayValue(FreshView(Utf8.Encode(s)))) == s
  {
    Utf8.DecodeEncode(s);
  }

  // ---------------------------------------------------------------------------
  // Streams and their listener limits
  // ---------------------------------------------------------------------------

  /** `emitter.getMaxListeners()`: a number, possibly `Number.POSITIVE_INFINITY`. */
  datatype Limit = Infinite | Finite(n: int)

  /** Limits `incrementMaxListeners` leaves alone: 0 and infinity both mean "no limit". */
  predicate NoLimit(l: Limit)
  {
    l == Finite(0) || l == Infinite
  }

  function Raise(l: Limit, k: nat): Limit
  {
    match l
    case Infinite => Infinite
    case Finite(n) => Finite(n + k)
  }

  function Lower(l: Limit, k: nat): Limit
  {
    match l
    case Infinite => Infinite
    case Finite(n) => Finite(n - k)
  }

  /**
   * A Node.js stream, an event emitter. Besides its listener limit the model
   * records whether the pipeline helpers `abortSourceStream` and
   * `endDestinationStream` were applied to it.
   */
  class Stream {
    var maxListeners: Limit
    var aborted: bool
    var ended: bool

    constructor (maxListeners: Limit)
      ensures this.maxListeners == maxListeners && !aborted && !ended
    {
      this.maxListeners := maxListeners;
      aborted, ended := false, false;
    }
  }

  /** The callback `incrementMaxListeners` registers: lower `emitter`'s limit by `increment`. */
  datatype AbortListener = RestoreLimit(emitter: Stream, increment: nat)

  /** The total still owed back to `e` by the listeners `ls`. */
  function Owed(ls: seq<AbortListener>, e: Stream): nat
  {
    if ls == [] then 0
    else Owed(ls[..|ls| - 1], e) + (if ls[|ls| - 1].emitter == e then ls[|ls| - 1].increment else 0)
  }

  /** An `AbortSignal` with the one-shot listeners registered through `addAbortListener`. */
  class AbortSignal {
    var aborted: bool
    var listeners: seq<AbortListener>

    ghost predicate Valid()
      reads this
    {
      aborted ==> listeners == []
    }

    ghost function Targets(): set<Stream>
      reads this
    {
      set l | l in listeners :: l.emitter
    }

    constructor ()
      ensures Valid() && !aborted && listeners == []
    {
      aborted, listeners := false, [];
    }

    /** `controller.abort()`: runs each listener once, in registration order. */
    method Abort()
      requires Valid()
      modifies this, Targets()
      ensures Valid() && aborted
      ensures forall e :: e in old(Targets()) ==> e.maxListeners == Lower(old(e.maxListeners), Owed(old(listeners), e))
      ensures forall e :: e in old(Targets()) ==> e.aborted == old(e.aborted) && e.ended == old(e.ended)
    {
      if !aborted {
        var ls := listeners;
        ghost var targets := Targets();
        aborted, listeners := true, [];
        var i := 0;
        while i < |ls|
          invariant 0 <= i <= |ls|
          invariant aborted && listeners == []
          invariant forall e :: e in targets ==> e.maxListeners == Lower(old(e.maxListeners), Owed(ls[..i], e))
          invariant forall e :: e in targets ==> e.aborted == old(e.aborted) && e.ended == old(e.ended)
        {
          var l := ls[i];
          assert l in old(listeners);
          l.emitter.maxListeners := Lower(l.emitter.maxListeners, l.increment);
          assert ls[..i + 1][..i] == ls[..i];
          i := i + 1;
        }
        assert ls[..|ls|] == ls;
      }
    }
  }

  /**
   * `incrementMaxListeners(eventEmitter, maxListenersIncrement, signal)`: unless
   * the limit is 0 or infinite, raise it by the increment and register an abort
   * listener that lowers the then-current limit by the same amount. On a signal
   * that already fired the listener runs straight away.
   */
  method IncrementMaxListeners(emitter: Stream, increment: nat, signal: AbortSignal)
    requires signal.Valid()
    modifies emitter`maxListeners, signal`listeners
    ensures signal.Valid()
    ensures NoLimit(old(emitter.maxListeners)) ==>
      emitter.maxListeners == old(emitter.maxListeners) && signal.listeners == old(signal.listeners)
    ensures !NoLimit(old(emitter.maxListeners)) && !signal.aborted ==>
      emitter.maxListeners == Raise(old(emitter.maxListeners), increment)
      && signal.listeners == old(signal.listeners) + [RestoreLimit(emitter, increment)]
    ensures !NoLimit(old(emitter.maxListeners)) && signal.aborted ==>
      emitter.maxListeners == old(emitter.maxListeners) && signal.listeners == old(signal.listeners)
    ensures emitter.maxListeners == Incremented(old(emitter.maxListeners), increment, signal.aborted)
    ensures signal.listeners == old(signal.listeners) + Registered(old(emitter.maxListeners), emitter, increment, signal.aborted)
  {
    var maxListeners := emitter.maxListeners;
    if maxListeners == Finite(0) || maxListeners == Infinite {
      return;
    }
    emitter.maxListeners := Raise(maxListeners, increment);
    if signal.aborted {
      emitter.maxListeners := Lower(emitter.maxListeners, increment);
    } else {
      signal.listeners := signal.listeners + [RestoreLimit(emitter, increment)];
    }
  }

  /** The limit `incrementMaxListeners` leaves behind, given whether the signal had fired. */
  function Incremented(l: Limit, increment: nat, aborted: bool): Limit
  {
    if NoLimit(l) || aborted then l else Raise(l, increment)
  }

  /** The abort listeners `incrementMaxListeners` registers, given whether the signal had fired. */
  function Registered(l: Limit, emitter: Stream, increment: nat, aborted: bool): seq<AbortListener>
  {
    if NoLimit(l) || aborted then [] else [RestoreLimit(emitter, increment)]
  }

  /** One increment, then the abort listener it registered: the limit is back where it was. */
  lemma AbortUndoesIncrement(l: Limit, emitter: Stream, increment: nat, aborted: bool)
    ensures Lower(Incremented(l, increment, aborted), Owed(Registered(l, emitter, increment, aborted), emitter)) == l
  {
    var ls := Registered(l, emitter, increment, aborted);
    if ls != [] {
      assert ls[..0] == [];
    }
  }

  // ---------------------------------------------------------------------------
  // Listener-limit arithmetic
  // ---------------------------------------------------------------------------

  /** A limit after some increments, and the increments that registered an abort listener. */
  datatype Bookkeeping = Bookkeeping(limit: Limit, owed: seq<nat>)

  /** The effect of successive `incrementMaxListeners` calls on one emitter. */
  function IncrementAll(l: Limit, ks: seq<nat>): (b: Bookkeeping)
  {
    if ks == [] then Bookkeeping(l, [])
    else
      var b := IncrementAll(l, ks[..|ks| - 1]);
      if NoLimit(b.limit) then b
      else Bookkeeping(Raise(b.limit, ks[|ks| - 1]), b.owed + [ks[|ks| - 1]])
  }

  /** The effect of abort listeners, run in the order `ds`, on one emitter. */
  /** The amounts the abort listeners `ls` will lower their emitters' limits by, in order. */
  function Increments(ls: seq<AbortListener>): (ks: seq<nat>)
    ensures |ks| == |ls|
  {
    if ls == [] then [] else Increments(ls[..|ls| - 1]) + [ls[|ls| - 1].increment]
  }

  /**
   * `IncrementAll` is successive `incrementMaxListeners` calls on a signal that has
   * not fired: each step leaves the limit `Incremented` leaves, and records the
   * increment of exactly the listener `Registered` says that call adds.
   */
  lemma IncrementAllStep(l: Limit, ks: seq<nat>, k: nat, emitter: Stream)
    ensures var b := IncrementAll(l, ks);
      IncrementAll(l, ks + [k]).limit == Incremented(b.limit, k, false)
      && IncrementAll(l, ks + [k]).owed == b.owed + Increments(Registered(b.limit, emitter, k, false))
  {
    assert (ks + [k])[..|ks|] == ks;
  }

  /** The listeners registered for one emitter owe it back the sum of their increments. */
  lemma {:induction false} OwedIsSumOfIncrements(ls: seq<AbortListener>, e: Stream)
    requires forall i :: 0 <= i < |ls| ==> ls[i].emitter == e
    ensures Owed(ls, e) == Sum(Increments(ls))
  {
    if ls != [] {
      var init := ls[..|ls| - 1];
      OwedIsSumOfIncrements(init, e);
      SumAppend(Increments(init), [ls[|ls| - 1].increment]);
    }
  }

  function LowerAll(l: Limit, ds: seq<nat>): Limit
    decreases |ds|
  {
    if ds == [] then l else LowerAll(Lower(l, ds[0]), ds[1..])
  }

  function Sum(ks: seq<nat>): nat
  {
    if ks == [] then 0 else ks[0] + Sum(ks[1..])
  }

  lemma {:induction false} SumAppend(a: seq<nat>, b: seq<nat>)
    ensures Sum(a + b) == Sum(a) + Sum(b)
  {
    if a != [] {
      assert (a + b)[1..] == a[1..] + b;
      SumAppend(a[1..], b);
    } else {
      assert a + b == b;
    }
  }

  /** The sum of a sequence depends only on its elements, not on their order. */
  lemma {:induction false} SumOfPermutation(a: seq<nat>, b: seq<nat>)
    requires multiset(a) == multiset(b)
    ensures Sum(a) == Sum(b)
    decreases |a|
  {
    if a != [] {
      assert a[0] in multiset(b);
      var j :| 0 <= j < |b| && b[j] == a[0];
      var rest := b[..j] + b[j + 1..];
      assert b == b[..j] + ([b[j]] + b[j + 1..]);
      assert ([b[j]] + b[j + 1..])[1..] == b[j + 1..];
      assert a == [a[0]] + a[1..];
      assert multiset(b) == multiset(b[..j]) + multiset([b[j]]) + multiset(b[j + 1..]);
      assert multiset(a) == multiset([a[0]]) + multiset(a[1..]);
      assert multiset(rest) == multiset(b[..j]) + multiset(b[j + 1..]);
      assert multiset(rest) == multiset(b) - multiset{a[0]};
      assert multiset(a[1..]) == multiset(a) - multiset{a[0]};
      SumOfPermutation(a[1..], rest);
      SumAppend(b[..j], [b[j]] + b[j + 1..]);
      SumAppend(b[..j], b[j + 1..]);
    } else {
      assert b == [];
    }
  }

  lemma {:induction false} IncrementAllRaisesBySum(l: Limit, ks: seq<nat>)
    ensures IncrementAll(l, ks).limit == Raise(l, Sum(IncrementAll(l, ks).owed))
    ensures NoLimit(l) ==> IncrementAll(l, ks).owed == []
  {
    if ks != [] {
      var b := IncrementAll(l, ks[..|ks| - 1]);
      IncrementAllRaisesBySum(l, ks[..|ks| - 1]);
      SumAppend(b.owed, [ks[|ks| - 1]]);
    }
  }

  lemma {:induction false} LowerAllLowersBySum(l: Limit, ds: seq<nat>)
    ensures LowerAll(l, ds) == Lower(l, Sum(ds))
    decreases |ds|
  {
    if ds != [] {
      LowerAllLowersBySum(Lower(l, ds[0]), ds[1..]);
    }
  }

  /**
   * Increments followed by the aborts they registered, run in any order, leave
   * the listener limit where it started.
   */
  lemma IncrementsAndAbortsCancel(l: Limit, ks: seq<nat>, ds: seq<nat>)
    requires multiset(ds) == multiset(IncrementAll(l, ks).owed)
    ensures LowerAll(IncrementAll(l, ks).limit, ds) == l
  {
    var b := IncrementAll(l, ks);
    IncrementAllRaisesBySum(l, ks);
    LowerAllLowersBySum(b.limit, ds);
    SumOfPermutation(ds, b.owed);
  }

  // ---------------------------------------------------------------------------
  // Standard streams
  // ---------------------------------------------------------------------------

  /** `process.stdin`, `process.stdout` and `process.stderr` of the current process. */
  datatype StandardStreams = StandardStreams(stdin: Stream, stdout: Stream, stderr: Stream)

  /** `STANDARD_STREAMS`, in descriptor order. */
  function StandardStreamList(p: StandardStreams): (ss: seq<Stream>)
    ensures |ss| == 3
  {
    [p.stdin, p.stdout, p.stderr]
  }

  /** `isStandardStream`: `STANDARD_STREAMS.includes(stream)`, an identity test. */
  function IsStandardStream(stream: Stream, p: StandardStreams): (r: bool)
    ensures r <==> stream == p.stdin || stream == p.stdout || stream == p.stderr
  {
    stream in StandardStreamList(p)
  }
}
