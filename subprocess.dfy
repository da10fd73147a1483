/**
 * The controller that runs each command in a shell child process. Starting
 * the process, waiting for it and killing it happen outside the model: their
 * outcome is an input, with the child's output already decoded to text.
 */
module Subprocess {

  import opened Wrappers
  import Text
  import opened Results

  const TerminalType := "subprocess"

  /** What `process.kill()` does after the wait timed out. */
  datatype Kill =
    | Killed
    | AlreadyExited              // raises ProcessLookupError, which is ignored
    | KillRaised(message: string) // raises any other exception

  /** How waiting for the child ends. */
  datatype Completion =
    | Exited(returnCode: int, stdout: string, stderr: string)
    | TimedOut(kill: Kill)
    | WaitRaised(message: string) // `communicate()` raises something other than a timeout

  /** Starting the shell: it raises, or a child runs and eventually completes. */
  datatype Spawn = SpawnRaised(message: string) | Spawned(run: Completion)

  function TimedOutMessage(timeout: int): string {
    "Command timed out after " + Text.IntToString(timeout) + " seconds"
  }

  /** What `execute_command` returns for the outcome `spawn`. */
  function Execute(waitForOutput: bool, timeout: int, spawn: Spawn): ExecResult {
    match spawn
    case SpawnRaised(msg) => Raised(msg)
    case Spawned(run) =>
      if !waitForOutput then Succeeded(NotCaptured)
      else match run
        case Exited(code, out, err) => ExecResult(code == 0, Some(out), Some(err), Some(code), None)
        case WaitRaised(msg) => Raised(msg)
        case TimedOut(kill) =>
          match kill
          case KillRaised(msg) => Raised(msg)
          case _ => Failed(TimedOutMessage(timeout))
  }

  /** Without waiting, a started command reports success with the placeholder and no exit status. */
  lemma NoWaitIsPlaceholder(timeout: int, run: Completion)
    ensures var r := Execute(false, timeout, Spawned(run));
      r.success && r.output == Some(NotCaptured) && r.returnCode.None? && r.error.None?
  {
  }

  /**
   * After a normal exit the command succeeded exactly when its status is 0;
   * the status, the output and the error output are all reported.
   */
  lemma ExitedShape(timeout: int, code: int, out: string, err: string)
    ensures var r := Execute(true, timeout, Spawned(Exited(code, out, err)));
      && (r.success <==> code == 0)
      && r.returnCode == Some(code) && r.output == Some(out) && r.error == Some(err)
  {
  }

  /**
   * A timeout is a failure that names the timeout and reports neither output
   * nor status; a child that already exited when killed changes nothing.
   */
  lemma TimedOutShape(timeout: int)
    ensures Execute(true, timeout, Spawned(TimedOut(Killed))) == Execute(true, timeout, Spawned(TimedOut(AlreadyExited)))
    ensures var r := Execute(true, timeout, Spawned(TimedOut(Killed)));
      && !r.success && r.output.None? && r.returnCode.None?
      && r.error == Some("Command timed out after " + Text.IntToString(timeout) + " seconds")
  {
  }

  /**
   * Every exception inside `execute_command` (from starting the shell, from
   * waiting for it, or from killing it) is reported with the "Error
   * executing command: " prefix.
   */
  lemma ExceptionsArePrefixed(waitForOutput: bool, timeout: int, spawn: Spawn, msg: string)
    requires || spawn == SpawnRaised(msg)
             || (waitForOutput && spawn == Spawned(TimedOut(KillRaised(msg))))
             || (waitForOutput && spawn == Spawned(WaitRaised(msg)))
    ensures Execute(waitForOutput, timeout, spawn) == Failed(ErrorPrefix + msg)
  {
  }

  /**
   * The status is reported exactly when the command was waited for and
   * exited; a failure always carries an error, a warning never appears.
   */
  lemma ResultShape(waitForOutput: bool, timeout: int, spawn: Spawn)
    ensures var r := Execute(waitForOutput, timeout, spawn);
      && (r.returnCode.Some? <==> waitForOutput && spawn.Spawned? && spawn.run.Exited?)
      && (!r.success ==> r.error.Some?)
      && r.warning.None?
  {
  }
}
