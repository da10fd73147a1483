/**
 * The result record every controller's `execute_command` returns (a Python
 * dict with the keys "success", "output", "error", "return_code" and
 * "warning"; an absent key is None here), and the texts the controllers share.
 */
module Results {

  import opened Wrappers

  /** Placeholder output when the caller does not wait for output. */
  const NotCaptured := "Command sent (output not captured)"

  /** Prefix of the error text when a controller catches an exception. */
  const ErrorPrefix := "Error executing command: "

  datatype ExecResult = ExecResult(
    success: bool,
    output: Option<string>,
    error: Option<string>,
    returnCode: Option<int>,
    warning: Option<string>)

  /** `{"success": True, "output": output}` */
  function Succeeded(output: string): ExecResult {
    ExecResult(true, Some(output), None, None, None)
  }

  /** `{"success": False, "error": error}` */
  function Failed(error: string): ExecResult {
    ExecResult(false, None, Some(error), None, None)
  }

  /** The result of `except Exception as e` in a controller: the prefixed message. */
  function Raised(message: string): ExecResult {
    Failed(ErrorPrefix + message)
  }
}
