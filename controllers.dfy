/**
 * Choosing a terminal controller (`get_controller`) and the common interface
 * of the three controllers: execute a command, name the terminal type, clean
 * up. The host's facts (operating system name, whether the iterm2 package
 * imports, what the "is iTerm2 running" probe prints) are inputs.
 */
module Controllers {

  import opened Wrappers
  import Text
  import opened Results
  import Subprocess
  import AppleScript
  import ITerm

  // ---------------------------------------------------------------------------
  // Selection

  datatype Kind = ITermKind | AppleScriptKind | SubprocessKind

  /** The name a caller uses to ask for each kind. */
  function Name(k: Kind): string {
    match k
    case ITermKind => "iterm"
    case AppleScriptKind => "applescript"
    case SubprocessKind => "subprocess"
  }

  /** The two exceptions `get_controller` raises. */
  datatype SelectError = ImportError(message: string) | ValueError(message: string)

  const ItermMissing := "iTerm2 API not available. Install with 'pip install iterm2'"

  function NotSupported(controllerType: string, system: string): string {
    "Controller type '" + controllerType + "' not supported on " + system
  }

  /** The `osascript` probe for a running iTerm2: what it printed, or an exception. */
  datatype Probe = ProbeOutput(stdout: string) | ProbeRaised

  /** `platform.system()`, whether `import iterm2` succeeds, and the probe's outcome. */
  datatype Host = Host(system: string, iterm2Importable: bool, probe: Probe)

  /** `ITERM_AVAILABLE`, set once at import: only on macOS, and only when iterm2 imports. */
  predicate ItermAvailable(h: Host) {
    h.system == "Darwin" && h.iterm2Importable
  }

  /** The probe says iTerm2 is running: "true" occurs in its lower-cased output. */
  predicate ProbeSaysRunning(p: Probe) {
    p.ProbeOutput? && Text.Contains(Text.AsciiLower(p.stdout), "true")
  }

  /** `get_controller(controller_type)`: the kind it constructs, or the exception it raises. */
  function Select(controllerType: Option<string>, h: Host): Result<Kind, SelectError> {
    if controllerType.Some? && controllerType.value != "" then
      var t := controllerType.value;
      if t == "iterm" && h.system == "Darwin" then
        if ItermAvailable(h) then Success(ITermKind) else Failure(ImportError(ItermMissing))
      else if t == "applescript" && h.system == "Darwin" then Success(AppleScriptKind)
      else if t == "subprocess" then Success(SubprocessKind)
      else Failure(ValueError(NotSupported(t, h.system)))
    else if h.system == "Darwin" then
      if ItermAvailable(h) && ProbeSaysRunning(h.probe) then Success(ITermKind) else Success(AppleScriptKind)
    else Success(SubprocessKind)
  }

  /** An explicit "subprocess" gives the subprocess controller on every system. */
  lemma ExplicitSubprocessAnywhere(h: Host)
    ensures Select(Some("subprocess"), h) == Success(SubprocessKind)
  {
  }

  /** An explicit "iterm" on macOS gives iTerm2 when the API is available and raises ImportError otherwise. */
  lemma ExplicitItermOnDarwin(h: Host)
    requires h.system == "Darwin"
    ensures h.iterm2Importable ==> Select(Some("iterm"), h) == Success(ITermKind)
    ensures !h.iterm2Importable ==>
      Select(Some("iterm"), h) == Failure(ImportError("iTerm2 API not available. Install with 'pip install iterm2'"))
  {
  }

  /** An explicit "applescript" on macOS gives the Terminal.app controller. */
  lemma ExplicitAppleScriptOnDarwin(h: Host)
    requires h.system == "Darwin"
    ensures Select(Some("applescript"), h) == Success(AppleScriptKind)
  {
  }

  /**
   * Any other explicit name, and "iterm" or "applescript" off macOS, raises
   * ValueError naming the type and the system.
   */
  lemma ExplicitOthersRaise(t: string, h: Host)
    requires t != "" && t != "subprocess"
    requires !((t == "iterm" || t == "applescript") && h.system == "Darwin")
    ensures Select(Some(t), h) == Failure(ValueError("Controller type '" + t + "' not supported on " + h.system))
  {
  }

  /** An explicit request is never swapped for another controller: what comes back is what was named. */
  lemma ExplicitNeverSwapped(t: string, h: Host)
    requires t != "" && Select(Some(t), h).Success?
    ensures Name(Select(Some(t), h).value) == t
  {
  }

  /** An empty name counts as no name: both detect automatically, and detection never raises. */
  lemma FalsyIsAuto(h: Host)
    ensures Select(Some(""), h) == Select(None, h)
    ensures Select(None, h).Success?
  {
  }

  /**
   * Detection on macOS gives iTerm2 exactly when the API is available and the
   * probe reports it running, and the Terminal.app controller otherwise (also
   * when the probe raises).
   */
  lemma AutoOnDarwin(h: Host)
    requires h.system == "Darwin"
    ensures Select(None, h) == Success(ITermKind) <==>
      h.iterm2Importable && h.probe.ProbeOutput? && Text.Contains(Text.AsciiLower(h.probe.stdout), "true")
    ensures Select(None, h) != Success(ITermKind) ==> Select(None, h) == Success(AppleScriptKind)
  {
  }

  /** Off macOS the iTerm2 API never counts as available and detection gives the subprocess controller. */
  lemma AutoElsewhere(h: Host)
    requires h.system != "Darwin"
    ensures !ItermAvailable(h)
    ensures Select(None, h) == Success(SubprocessKind)
  {
  }

  /** The window-driving controllers are only ever chosen on macOS. */
  lemma WindowControllersOnlyOnDarwin(controllerType: Option<string>, h: Host)
    requires Select(controllerType, h).Success? && Select(controllerType, h).value != SubprocessKind
    ensures h.system == "Darwin"
  {
  }

  // ---------------------------------------------------------------------------
  // The controller interface

  /** A constructed controller; only the iTerm2 one has fields. */
  datatype Controller =
    | SubprocessBackend
    | AppleScriptBackend
    | ITermBackend(obj: ITerm.ITermController)

  function KindOf(c: Controller): Kind {
    match c
    case SubprocessBackend => SubprocessKind
    case AppleScriptBackend => AppleScriptKind
    case ITermBackend(_) => ITermKind
  }

  /** Constructs a controller of the kind `get_controller` chose. */
  method NewController(k: Kind) returns (c: Controller)
    ensures KindOf(c) == k
    ensures c.ITermBackend? ==> fresh(c.obj) && c.obj.Snapshot() == ITerm.Disconnected
  {
    match k {
      case SubprocessKind => c := SubprocessBackend;
      case AppleScriptKind => c := AppleScriptBackend;
      case ITermKind =>
        var obj := new ITerm.ITermController();
        c := ITermBackend(obj);
    }
  }

  /** `get_controller`: the chosen controller, freshly constructed, or the exception. */
  method GetController(controllerType: Option<string>, h: Host) returns (r: Result<Controller, SelectError>)
    ensures r.Failure? <==> Select(controllerType, h).Failure?
    ensures r.Failure? ==> r.error == Select(controllerType, h).error
    ensures r.Success? ==> KindOf(r.value) == Select(controllerType, h).value
    ensures r.Success? && r.value.ITermBackend? ==> fresh(r.value.obj) && r.value.obj.Snapshot() == ITerm.Disconnected
  {
    var k := Select(controllerType, h);
    if k.Failure? {
      return Failure(k.error);
    }
    var c := NewController(k.value);
    return Success(c);
  }

  /** Everything the outside world answers during one `execute_command`, for whichever controller runs it. */
  datatype World = World(spawn: Subprocess.Spawn, script: AppleScript.ScriptWorld, iterm: ITerm.ITermWorld)

  predicate Fits(w: World, waitForOutput: bool, timeout: int) {
    && (waitForOutput && w.script.launch.Launched? ==> AppleScript.ReachesDeadline(w.script.polls, timeout))
    && ITerm.WorldFits(w.iterm, waitForOutput, timeout)
  }

  function TerminalType(c: Controller): string {
    match c
    case SubprocessBackend => Subprocess.TerminalType
    case AppleScriptBackend => AppleScript.TerminalType
    case ITermBackend(_) => ITerm.TerminalType
  }

  /** The objects a call on `c` may change. */
  function Footprint(c: Controller): set<object> {
    if c.ITermBackend? then {c.obj} else {}
  }

  /** `controller.execute_command(command, wait_for_output, timeout)`, dispatched on the controller. */
  method ExecuteCommand(c: Controller, command: string, waitForOutput: bool, timeout: int, w: World)
    returns (r: ExecResult)
    requires Fits(w, waitForOutput, timeout)
    modifies Footprint(c)
    ensures c.SubprocessBackend? ==> r == Subprocess.Execute(waitForOutput, timeout, w.spawn)
    ensures c.AppleScriptBackend? ==> r == AppleScript.Execute(command, waitForOutput, timeout, w.script)
    ensures c.ITermBackend? ==>
      var o := ITerm.Execute(old(c.obj.Snapshot()), command, waitForOutput, timeout, w.iterm);
      r == o.result && c.obj.Snapshot() == o.state
  {
    match c {
      case SubprocessBackend =>
        r := Subprocess.Execute(waitForOutput, timeout, w.spawn);
      case AppleScriptBackend =>
        var script;
        r, script := AppleScript.ExecuteCommand(command, waitForOutput, timeout, w.script);
      case ITermBackend(obj) =>
        var sent;
        r, sent := obj.ExecuteCommand(command, waitForOutput, timeout, w.iterm);
    }
  }

  /** `controller.cleanup()`: only the iTerm2 controller has anything to release. */
  method Cleanup(c: Controller, close: ITerm.CloseOutcome)
    modifies Footprint(c)
    ensures c.ITermBackend? ==> c.obj.Snapshot() == ITerm.AfterCleanup(old(c.obj.Snapshot()))
  {
    if c.ITermBackend? {
      c.obj.Cleanup(close);
    }
  }

  /**
   * Each controller names its terminal ("subprocess", "macOS Terminal",
   * "iTerm2"), and the name tells the kinds apart.
   */
  lemma TerminalTypes(c: Controller, d: Controller)
    ensures c.SubprocessBackend? ==> TerminalType(c) == "subprocess"
    ensures c.AppleScriptBackend? ==> TerminalType(c) == "macOS Terminal"
    ensures c.ITermBackend? ==> TerminalType(c) == "iTerm2"
    ensures TerminalType(c) == TerminalType(d) <==> KindOf(c) == KindOf(d)
  {
  }
}
