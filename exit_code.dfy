/**
 * `lib/exit/code.js`: after a subprocess exits, `waitForSuccessfulExit` decides
 * from its exit code and signal whether the exit counts as a failure. A failed
 * exit rejects with a `DiscardedError` (the caller reports the failure by other
 * means); a successful one, or one where the process never spawned, resolves
 * with the pair unchanged.
 */
module ExitCode {
  import opened Wrappers

  /** `exitCode`: undefined when the process did not spawn, null when a signal killed it, otherwise a number. */
  datatype Code = UndefinedCode | NullCode | Number(n: int)

  /** `signal`: undefined when the process did not spawn, null when it exited by itself, otherwise its name. */
  datatype Signal = UndefinedSignal | NullSignal | Named(name: string)

  /** The `[exitCode, signal]` pair the exit promise resolves with. */
  datatype Exit = Exit(exitCode: Code, signal: Signal)

  /** `isProcessErrorExit`: both values undefined, meaning the process failed to spawn. */
  function IsProcessErrorExit(exitCode: Code, signal: Signal): (r: bool)
    ensures r <==> exitCode.UndefinedCode? && signal.UndefinedSignal?
  {
    exitCode == UndefinedCode && signal == UndefinedSignal
  }

  /**
   * `isFailedExit`: failed unless the exit code is exactly the number 0 and the
   * signal exactly null; the comparison is strict, so an undefined code or signal
   * is a failure.
   */
  function IsFailedExit(exitCode: Code, signal: Signal): (r: bool)
    ensures !r <==> exitCode == Number(0) && signal == NullSignal
    ensures signal.UndefinedSignal? ==> r
  {
    exitCode != Number(0) || signal != NullSignal
  }

  /** Stands for the `DiscardedError` class, whose definition is not part of this model. */
  datatype DiscardedError = DiscardedError

  /** `waitForSuccessfulExit`, once the exit promise has resolved with `exit`. */
  function WaitForSuccessfulExit(exit: Exit): (r: Result<Exit, DiscardedError>)
    ensures r.Err? <==> IsFailedExit(exit.exitCode, exit.signal) && !IsProcessErrorExit(exit.exitCode, exit.signal)
    ensures r.Ok? ==> r.value == exit
  {
    if !IsProcessErrorExit(exit.exitCode, exit.signal) && IsFailedExit(exit.exitCode, exit.signal) then
      Err(DiscardedError)
    else
      Ok(exit)
  }

  /** How an exit turned out, judged independently of the two predicates. */
  datatype Outcome = Succeeded | NotSpawned | ExitedWithError | KilledBySignal | Inconsistent

  /**
   * Node.js reports a finished process either with a numeric code and a null
   * signal, or with a null code and a signal name; a process that never spawned
   * has neither. Any other pair does not come from Node.js.
   */
  function Classify(exit: Exit): Outcome
  {
    match (exit.exitCode, exit.signal)
    case (Number(0), NullSignal) => Succeeded
    case (Number(_), NullSignal) => ExitedWithError
    case (NullCode, Named(_)) => KilledBySignal
    case (UndefinedCode, UndefinedSignal) => NotSpawned
    case _ => Inconsistent
  }

  /**
   * The promise resolves exactly for a clean exit and for a spawn failure, which
   * is reported elsewhere; every other pair, including the ones Node.js never
   * produces, rejects.
   */
  lemma WaitResolvesOnlyOnSuccessOrSpawnFailure(exit: Exit)
    ensures WaitForSuccessfulExit(exit).Ok? <==> Classify(exit) in {Succeeded, NotSpawned}
  {
  }

  /** Concrete cases of the decision table. */
  lemma DecisionTable()
    ensures WaitForSuccessfulExit(Exit(Number(0), NullSignal)) == Ok(Exit(Number(0), NullSignal))
    ensures WaitForSuccessfulExit(Exit(Number(1), NullSignal)) == Err(DiscardedError)
    ensures WaitForSuccessfulExit(Exit(UndefinedCode, Named("SIGTERM"))) == Err(DiscardedError)
    ensures WaitForSuccessfulExit(Exit(NullCode, Named("SIGTERM"))) == Err(DiscardedError)
    ensures WaitForSuccessfulExit(Exit(UndefinedCode, UndefinedSignal)) == Ok(Exit(UndefinedCode, UndefinedSignal))
    ensures WaitForSuccessfulExit(Exit(Number(0), UndefinedSignal)) == Err(DiscardedError)
  {
  }
}
