/**
 * The "terminal" tool: it owns a controller, created when the tool is and
 * again lazily if it is missing, and turns the controller's result into the
 * response of the `execute_command` and `get_terminal_info` tools.
 */
module TerminalTool {

  import opened Wrappers
  import opened Results
  import Controllers
  import Subprocess
  import AppleScript
  import ITerm

  /** `ExecuteCommandResponse`: the fields of the response model. */
  datatype Response = Response(
    success: bool,
    output: Option<string>,
    error: Option<string>,
    returnCode: Option<int>,
    warning: Option<string>)

  /** `TerminalInfoResponse` */
  datatype Info = Info(terminalType: string, platform: string)

  const UnknownInfo := Info("unknown", "unknown")

  /** The response built from a controller's result: every field is copied. */
  function ToResponse(r: ExecResult): (resp: Response) {
    Response(r.success, r.output, r.error, r.returnCode, r.warning)
  }

  /** The response to an exception raised inside the tool. */
  function ErrorResponse(message: string): (resp: Response)
    ensures !resp.success && resp.error == Some(ErrorPrefix + message)
    ensures resp.output.None? && resp.returnCode.None? && resp.warning.None?
  {
    ToResponse(Raised(message))
  }

  /** Distinct results give distinct responses: the mapping loses nothing. */
  lemma ResponseInjective(a: ExecResult, b: ExecResult)
    requires ToResponse(a) == ToResponse(b)
    ensures a == b
  {
  }

  class TerminalTool {
    const name: string
    const controllerType: Option<string>
    var controller: Option<Controllers.Controller>

    /** Objects the tool's calls may change: the iTerm2 controller's fields, if that is the controller. */
    function Footprint(): set<object>
      reads this
    {
      if controller.Some? then Controllers.Footprint(controller.value) else {}
    }

    /** The fields before `_init_controller` runs. */
    constructor (controllerType: Option<string>)
      ensures name == "terminal" && this.controllerType == controllerType && controller.None?
    {
      name := "terminal";
      this.controllerType := controllerType;
      controller := None;
    }

    /**
     * `TerminalTool(controller_type)`: the constructor chooses the controller
     * and lets the selection's exception escape.
     */
    static method New(controllerType: Option<string>, h: Controllers.Host)
      returns (r: Result<TerminalTool, Controllers.SelectError>)
      ensures r.Failure? <==> Controllers.Select(controllerType, h).Failure?
      ensures r.Failure? ==> r.error == Controllers.Select(controllerType, h).error
      ensures r.Success? ==> fresh(r.value) && r.value.controllerType == controllerType
      ensures r.Success? ==>
        r.value.controller.Some? && Controllers.KindOf(r.value.controller.value) == Controllers.Select(controllerType, h).value
      ensures r.Success? ==> fresh(r.value.Footprint())
    {
      var tool := new TerminalTool(controllerType);
      var failure := tool.InitController(h);
      if failure.Some? {
        return Failure(failure.value);
      }
      return Success(tool);
    }

    /** `_init_controller`: stores the chosen controller, or leaves the field as it was and reports the exception. */
    method InitController(h: Controllers.Host) returns (failure: Option<Controllers.SelectError>)
      modifies this
      ensures failure.Some? <==> Controllers.Select(controllerType, h).Failure?
      ensures failure.Some? ==> failure.value == Controllers.Select(controllerType, h).error && controller == old(controller)
      ensures failure.None? ==>
        controller.Some? && Controllers.KindOf(controller.value) == Controllers.Select(controllerType, h).value
      ensures failure.None? ==> fresh(Footprint())
      ensures failure.None? && controller.value.ITermBackend? ==> controller.value.obj.Snapshot() == ITerm.Disconnected
    {
      var c := Controllers.GetController(controllerType, h);
      if c.Failure? {
        return Some(c.error);
      }
      controller := Some(c.value);
      return None;
    }

    /**
     * The `execute_command` tool: creates the controller if there is none,
     * forwards the arguments unchanged and copies the result; a failure to
     * create the controller is reported with the "Error executing command: "
     * prefix. No command filter is consulted.
     */
    method ExecuteCommand(command: string, waitForOutput: bool, timeout: int, h: Controllers.Host, w: Controllers.World)
      returns (resp: Response)
      requires Controllers.Fits(w, waitForOutput, timeout)
      modifies this, Footprint()
      ensures old(controller).Some? ==> controller == old(controller)
      ensures old(controller).None? && Controllers.Select(controllerType, h).Failure? ==>
        resp == ErrorResponse(Controllers.Select(controllerType, h).error.message) && controller.None?
      ensures old(controller).None? && Controllers.Select(controllerType, h).Success? ==>
        controller.Some? && Controllers.KindOf(controller.value) == Controllers.Select(controllerType, h).value
      ensures controller.Some? && controller.value.SubprocessBackend? ==>
        resp == ToResponse(Subprocess.Execute(waitForOutput, timeout, w.spawn))
      ensures controller.Some? && controller.value.AppleScriptBackend? ==>
        resp == ToResponse(AppleScript.Execute(command, waitForOutput, timeout, w.script))
      ensures controller.Some? && controller.value.ITermBackend? ==>
        var before := if old(controller).Some? then old(controller.value.obj.Snapshot()) else ITerm.Disconnected;
        var o := ITerm.Execute(before, command, waitForOutput, timeout, w.iterm);
        resp == ToResponse(o.result) && controller.value.obj.Snapshot() == o.state
    {
      if controller.None? {
        var failure := InitController(h);
        if failure.Some? {
          return ErrorResponse(failure.value.message);
        }
      }
      var result := Controllers.ExecuteCommand(controller.value, command, waitForOutput, timeout, w);
      resp := ToResponse(result);
    }

    /**
     * The `get_terminal_info` tool: creates the controller if there is none,
     * then answers the terminal type and the system, or "unknown" twice when
     * no controller can be created.
     */
    method GetTerminalInfo(h: Controllers.Host) returns (info: Info)
      modifies this
      ensures old(controller).Some? ==> controller == old(controller)
      ensures old(controller).None? ==> (controller.None? <==> Controllers.Select(controllerType, h).Failure?)
      ensures old(controller).None? && Controllers.Select(controllerType, h).Success? ==>
        controller.Some? && Controllers.KindOf(controller.value) == Controllers.Select(controllerType, h).value
      ensures old(controller).None? && controller.Some? ==>
        fresh(Footprint()) && (controller.value.ITermBackend? ==> controller.value.obj.Snapshot() == ITerm.Disconnected)
      ensures controller.Some? ==> info == Info(Controllers.TerminalType(controller.value), h.system)
      ensures controller.None? ==> info == UnknownInfo && Controllers.Select(controllerType, h).Failure?
    {
      if controller.None? {
        var failure := InitController(h);
        if failure.Some? {
          return UnknownInfo;
        }
      }
      info := Info(Controllers.TerminalType(controller.value), h.system);
    }
  }

  /** Creating the controller fails only when one is named explicitly; detection always succeeds. */
  lemma InitFailsOnlyForExplicitNames(controllerType: Option<string>, h: Controllers.Host)
    requires Controllers.Select(controllerType, h).Failure?
    ensures controllerType.Some? && controllerType.value != ""
  {
  }
}
