/**
 * The server around the two tools: how the `--controller` choice becomes the
 * controller type, registering the tools once, cleaning up every tool's
 * controller, and letting only the first shutdown signal shut down.
 */
module Server {

  import opened Wrappers
  import Controllers
  import TerminalTool
  import ITerm

  /** The values `--controller` accepts. */
  predicate IsChoice(choice: string) {
    choice == "auto" || choice == "iterm" || choice == "applescript" || choice == "subprocess"
  }

  /**
   * The controller type `main` passes on: none for "auto" (detect), and
   * "subprocess" instead of a window-driving controller off macOS.
   */
  function ResolveControllerType(choice: string, system: string): Option<string> {
    var t := if choice == "auto" then None else Some(choice);
    if (t == Some("iterm") || t == Some("applescript")) && system != "Darwin" then Some("subprocess") else t
  }

  /** Off macOS `get_controller` never receives "iterm" or "applescript" from `main`. */
  lemma ResolvedOffDarwin(choice: string, system: string)
    requires system != "Darwin"
    ensures ResolveControllerType(choice, system) != Some("iterm")
    ensures ResolveControllerType(choice, system) != Some("applescript")
    ensures choice == "auto" ==> ResolveControllerType(choice, system).None?
  {
  }

  /**
   * For every accepted choice the selection never raises ValueError; off macOS
   * it always gives the subprocess controller, and on macOS it raises only
   * ImportError, only for "iterm" without the iTerm2 API.
   */
  lemma ChoiceSelects(choice: string, h: Controllers.Host)
    requires IsChoice(choice)
    ensures var r := Controllers.Select(ResolveControllerType(choice, h.system), h);
      && (h.system != "Darwin" ==> r == Success(Controllers.SubprocessKind))
      && (r.Failure? <==> h.system == "Darwin" && choice == "iterm" && !h.iterm2Importable)
      && (r.Failure? ==> r.error.ImportError?)
  {
  }

  /** An entry of the server's tool table. */
  datatype Tool = TerminalEntry(terminal: TerminalTool.TerminalTool) | FileEntry

  /** The controller objects the server's cleanup may change. */
  function CleanupTargets(tools: map<string, Tool>, controllers: map<string, Option<Controllers.Controller>>): set<object> {
    set k | k in tools && k in controllers && controllers[k].Some? && controllers[k].value.ITermBackend?
      :: controllers[k].value.obj
  }

  class MCPTerminalServer {
    const controllerType: Option<string>
    var tools: map<string, Tool>
    var toolsRegistered: bool

    constructor (controllerType: Option<string>)
      ensures this.controllerType == controllerType && tools == map[] && !toolsRegistered
    {
      this.controllerType := controllerType;
      tools := map[];
      toolsRegistered := false;
    }

    /**
     * `register_tools`: does nothing once registered; otherwise creates the
     * terminal tool with the controller `get_controller` chooses (its
     * exception escapes and nothing changes) and the file tool, enters both
     * and marks the tools registered.
     */
    method RegisterTools(h: Controllers.Host) returns (failure: Option<Controllers.SelectError>)
      modifies this
      ensures old(toolsRegistered) ==> failure.None? && tools == old(tools) && toolsRegistered
      ensures !old(toolsRegistered) ==>
        (failure.Some? <==> Controllers.Select(controllerType, h).Failure?)
      ensures !old(toolsRegistered) && failure.Some? ==>
        failure.value == Controllers.Select(controllerType, h).error && tools == old(tools) && !toolsRegistered
      ensures !old(toolsRegistered) && failure.None? ==>
        && toolsRegistered
        && tools.Keys == old(tools).Keys + {"terminal", "file"}
        && tools["file"] == FileEntry && tools["terminal"].TerminalEntry?
        && fresh(tools["terminal"].terminal)
        && tools["terminal"].terminal.controllerType == controllerType
        && tools["terminal"].terminal.controller.Some?
        && Controllers.KindOf(tools["terminal"].terminal.controller.value) == Controllers.Select(controllerType, h).value
        && (forall k :: k in old(tools) && k != "terminal" && k != "file" ==> tools[k] == old(tools)[k])
    {
      if toolsRegistered {
        return None;
      }
      var made := TerminalTool.TerminalTool.New(controllerType, h);
      if made.Failure? {
        return Some(made.error);
      }
      tools := tools["terminal" := TerminalEntry(made.value)]["file" := FileEntry];
      toolsRegistered := true;
      return None;
    }

    /** The controllers of the terminal tools, by key. */
    function OwnedControllers(): map<string, Option<Controllers.Controller>>
      reads this, set k | k in tools && tools[k].TerminalEntry? :: tools[k].terminal
    {
      map k | k in tools && tools[k].TerminalEntry? :: tools[k].terminal.controller
    }

    /**
     * `cleanup`: calls `cleanup` on the controller of every tool that has one,
     * in an order the model leaves open; afterwards every iTerm2 controller is
     * cleaned up, however often it is shared.
     */
    method Cleanup(close: ITerm.CloseOutcome)
      modifies CleanupTargets(tools, OwnedControllers())
      ensures forall k :: (&& k in tools && tools[k].TerminalEntry? && tools[k].terminal.controller.Some?
                           && tools[k].terminal.controller.value.ITermBackend?) ==>
        tools[k].terminal.controller.value.obj.Snapshot()
          == ITerm.AfterCleanup(old(tools[k].terminal.controller.value.obj.Snapshot()))
    {
      var targets := CleanupTargets(tools, OwnedControllers());
      var keys := tools.Keys;
      while keys != {}
        invariant keys <= tools.Keys
        invariant forall k :: (&& k in tools && k !in keys && tools[k].TerminalEntry? && tools[k].terminal.controller.Some?
                               && tools[k].terminal.controller.value.ITermBackend?) ==>
          tools[k].terminal.controller.value.obj.Snapshot()
            == ITerm.AfterCleanup(old(tools[k].terminal.controller.value.obj.Snapshot()))
        invariant forall k :: (&& k in keys && tools[k].TerminalEntry? && tools[k].terminal.controller.Some?
                               && tools[k].terminal.controller.value.ITermBackend?) ==>
          var o := tools[k].terminal.controller.value.obj;
          o.Snapshot() == old(o.Snapshot()) || o.Snapshot() == ITerm.AfterCleanup(old(o.Snapshot()))
        decreases keys
      {
        var k :| k in keys;
        var entry := tools[k];
        if entry.TerminalEntry? && entry.terminal.controller.Some? {
          var c := entry.terminal.controller.value;
          assert k in OwnedControllers();
          Controllers.Cleanup(c, close);
        }
        keys := keys - {k};
      }
    }
  }

  /** The `shutdown_in_progress` flag of `main`, with a count of the shutdowns it let through. */
  class ShutdownGuard {
    var inProgress: bool
    var shutdowns: nat

    predicate Valid()
      reads this
    {
      shutdowns == if inProgress then 1 else 0
    }

    constructor ()
      ensures Valid() && !inProgress && shutdowns == 0
    {
      inProgress := false;
      shutdowns := 0;
    }

    /** `handle_shutdown`: the first call sets the flag and shuts the server down; later calls do nothing. */
    method HandleShutdown() returns (ran: bool)
      requires Valid()
      modifies this
      ensures Valid() && inProgress
      ensures ran <==> !old(inProgress)
      ensures shutdowns <= 1
    {
      if inProgress {
        return false;
      }
      inProgress := true;
      shutdowns := shutdowns + 1;
      return true;
    }
  }
}
