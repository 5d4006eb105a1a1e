/**
 * `lib/pipe/throw.js`: when `source.pipe(destination)` is called with arguments
 * that do not yield both streams, one error is chosen and thrown, and the
 * stream that is still usable is cleaned up so that it does not hang.
 */
module PipeThrow {
  import opened Wrappers
  import Utils

  /** `PIPE_COMMAND_MESSAGE`: the command shown in errors about the pipe call itself. */
  const PipeCommandMessage: string := "source.pipe(destination)"

  /** The one stream side effect a call may have. */
  datatype Cleanup = NoCleanup | AbortSource | EndDestination

  /** The error `getPipeArgumentsError` returns and the side effect it performs. */
  datatype Decision<E> = Decision(error: Option<E>, cleanup: Cleanup)

  /**
   * The decision of `getPipeArgumentsError`: the destination error wins; the
   * stream whose own error is absent is cleaned up, unless both failed.
   */
  function PipeArgumentsDecision<E>(sourceError: Option<E>, destinationError: Option<E>): (d: Decision<E>)
    ensures destinationError.Some? ==> d.error == destinationError
    ensures destinationError.None? ==> d.error == sourceError
    ensures d.error.None? <==> sourceError.None? && destinationError.None?
    ensures d.cleanup == AbortSource <==> destinationError.Some? && sourceError.None?
    ensures d.cleanup == EndDestination <==> sourceError.Some? && destinationError.None?
    ensures d.cleanup == NoCleanup <==> sourceError.Some? == destinationError.Some?
  {
    if sourceError.Some? && destinationError.Some? then Decision(destinationError, NoCleanup)
    else if destinationError.Some? then Decision(destinationError, AbortSource)
    else if sourceError.Some? then Decision(sourceError, EndDestination)
    else Decision(None, NoCleanup)
  }

  /**
   * `getPipeArgumentsError`. A stream is missing (null) only when its own error is
   * set, which is what the callers guarantee. `abortSourceStream` and
   * `endDestinationStream` are recorded in the streams' `aborted` and `ended` flags.
   */
  method GetPipeArgumentsError<E>(
    sourceStream: Utils.Stream?, sourceError: Option<E>,
    destinationStream: Utils.Stream?, destinationError: Option<E>)
    returns (error: Option<E>)
    requires sourceError.None? ==> sourceStream != null
    requires destinationError.None? ==> destinationStream != null
    modifies sourceStream, destinationStream
    ensures error == PipeArgumentsDecision(sourceError, destinationError).error
    ensures sourceStream != null ==>
      sourceStream.aborted == (old(sourceStream.aborted) || (destinationError.Some? && sourceError.None?))
    ensures destinationStream != null ==>
      destinationStream.ended == (old(destinationStream.ended) || (sourceError.Some? && destinationError.None?))
    ensures sourceStream != null && sourceStream != destinationStream ==>
      sourceStream.ended == old(sourceStream.ended)
    ensures destinationStream != null && destinationStream != sourceStream ==>
      destinationStream.aborted == old(destinationStream.aborted)
    ensures sourceStream != null ==> sourceStream.maxListeners == old(sourceStream.maxListeners)
    ensures destinationStream != null ==> destinationStream.maxListeners == old(destinationStream.maxListeners)
  {
    if sourceError.Some? && destinationError.Some? {
      return destinationError;
    }
    if destinationError.Some? {
      sourceStream.aborted := true;
      return destinationError;
    }
    if sourceError.Some? {
      destinationStream.ended := true;
      return sourceError;
    }
    return None;
  }

  /** The arguments handed to `makeEarlyError`, which is not part of this model. */
  datatype EarlyError<E, G, O> = EarlyError(
    error: E, command: string, escapedCommand: string, stdioStreamsGroups: G, options: O)

  /** `createNonCommandError`: an early error about the pipe call, using the source's options. */
  function CreateNonCommandError<E, G, O>(error: E, stdioStreamsGroups: G, sourceOptions: O): (r: EarlyError<E, G, O>)
    ensures r.command == PipeCommandMessage && r.escapedCommand == PipeCommandMessage
    ensures r.error == error && r.stdioStreamsGroups == stdioStreamsGroups && r.options == sourceOptions
  {
    EarlyError(error, PipeCommandMessage, PipeCommandMessage, stdioStreamsGroups, sourceOptions)
  }

  /** `handlePipeArgumentsError`: returns the error it throws, if any. */
  method HandlePipeArgumentsError<E, G, O>(
    sourceStream: Utils.Stream?, sourceError: Option<E>,
    destinationStream: Utils.Stream?, destinationError: Option<E>,
    stdioStreamsGroups: G, sourceOptions: O)
    returns (thrown: Option<EarlyError<E, G, O>>)
    requires sourceError.None? ==> sourceStream != null
    requires destinationError.None? ==> destinationStream != null
    modifies sourceStream, destinationStream
    ensures thrown.None? <==> sourceError.None? && destinationError.None?
    ensures thrown.Some? ==>
      thrown.value == CreateNonCommandError(PipeArgumentsDecision(sourceError, destinationError).error.value,
                                            stdioStreamsGroups, sourceOptions)
    ensures sourceError.None? && destinationError.None? ==>
      sourceStream.aborted == old(sourceStream.aborted) && sourceStream.ended == old(sourceStream.ended)
      && destinationStream.aborted == old(destinationStream.aborted) && destinationStream.ended == old(destinationStream.ended)
    ensures sourceError.Some? && destinationError.Some? ==>
      (sourceStream != null ==> sourceStream.aborted == old(sourceStream.aborted) && sourceStream.ended == old(sourceStream.ended))
      && (destinationStream != null ==>
            destinationStream.aborted == old(destinationStream.aborted) && destinationStream.ended == old(destinationStream.ended))
    ensures destinationError.Some? && sourceError.None? ==> sourceStream.aborted
    ensures sourceError.Some? && destinationError.None? ==> destinationStream.ended
    ensures sourceStream != null ==>
      sourceStream.aborted == (old(sourceStream.aborted) || (destinationError.Some? && sourceError.None?))
    ensures destinationStream != null ==>
      destinationStream.ended == (old(destinationStream.ended) || (sourceError.Some? && destinationError.None?))
    ensures sourceStream != null && sourceStream != destinationStream ==>
      sourceStream.ended == old(sourceStream.ended)
    ensures destinationStream != null && destinationStream != sourceStream ==>
      destinationStream.aborted == old(destinationStream.aborted)
    ensures sourceStream != null ==> sourceStream.maxListeners == old(sourceStream.maxListeners)
    ensures destinationStream != null ==> destinationStream.maxListeners == old(destinationStream.maxListeners)
  {
    var error := GetPipeArgumentsError(sourceStream, sourceError, destinationStream, destinationError);
    if error.Some? {
      return Some(CreateNonCommandError(error.value, stdioStreamsGroups, sourceOptions));
    }
    return None;
  }
}
