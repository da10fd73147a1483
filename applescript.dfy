/**
 * The controller that drives the macOS Terminal app through `osascript`.
 * It has no channel back from the terminal, so with `wait_for_output` it polls
 * the window's text until the text shows the command followed by more, or
 * until the (soft) timeout; the windows' texts and the clock are inputs here.
 */
module AppleScript {

  import opened Wrappers
  import Text
  import Screen
  import opened Results

  const TerminalType := "macOS Terminal"

  // ---------------------------------------------------------------------------
  // Quote escaping for the AppleScript string literal

  function CountQuotes(s: string): nat {
    if s == [] then 0 else (if s[0] == '"' then 1 else 0) + CountQuotes(s[1..])
  }

  /**
   * `command.replace('"', '\\"')`: every double quote is preceded by a
   * backslash and nothing else changes. A backslash is not escaped, although
   * AppleScript reads `\\` inside a literal as one backslash; so a command
   * holding `\"` ends the `do script` literal early. `Unescape` is the
   * reading that matches this escape, not AppleScript's.
   */
  function Escape(s: string): (r: string)
    ensures |r| == |s| + CountQuotes(s)
    ensures r == [] || r[0] != '"'
    ensures forall i :: 0 <= i < |r| && r[i] == '"' ==> i > 0 && r[i - 1] == '\\'
  {
    if s == [] then []
    else if s[0] == '"' then ['\\', '"'] + Escape(s[1..])
    else [s[0]] + Escape(s[1..])
  }

  /** Reads an escaped text back the way `Escape` wrote it: each `\"` becomes `"`. */
  function Unescape(s: string): string {
    if |s| >= 2 && s[0] == '\\' && s[1] == '"' then ['"'] + Unescape(s[2..])
    else if s == [] then []
    else [s[0]] + Unescape(s[1..])
  }

  /** Escaping loses nothing: reading the escaped text back gives the command. */
  lemma {:induction false} UnescapeEscape(s: string)
    ensures Unescape(Escape(s)) == s
  {
    if s != [] {
      UnescapeEscape(s[1..]);
      var e := Escape(s[1..]);
      if s[0] == '"' {
        assert Escape(s) == ['\\', '"'] + e;
        assert (['\\', '"'] + e)[2..] == e;
        assert Unescape(Escape(s)) == ['"'] + Unescape(e);
      } else {
        assert Escape(s) == [s[0]] + e;
        assert e == [] || e[0] != '"';
        assert ([s[0]] + e)[1..] == e;
        assert Unescape(Escape(s)) == [s[0]] + Unescape(e);
      }
      assert [s[0]] + s[1..] == s;
    }
  }

  /** Characters other than the double quote pass through escaping unchanged. */
  lemma {:induction false} EscapeWithoutQuotes(s: string)
    requires '"' !in s
    ensures Escape(s) == s
  {
    if s != [] {
      EscapeWithoutQuotes(s[1..]);
      assert [s[0]] + s[1..] == s;
    }
  }

  // ---------------------------------------------------------------------------
  // The outside world of one call

  /** Starting `osascript` for the command script: it runs, or starting it raises. */
  datatype Launch = Launched | LaunchRaised(message: string)

  /** One read of the window's contents: its text (before `strip()`), or an exception. */
  datatype Capture = Captured(text: string) | CaptureRaised(message: string)

  /** A loop-guard clock reading (milliseconds since the start) and the capture that follows it. */
  datatype Poll = Poll(elapsedMs: int, capture: Capture)

  datatype ScriptWorld = ScriptWorld(launch: Launch, polls: seq<Poll>)

  /**
   * The clock readings eventually reach the deadline: the last reading is at
   * or past it (each round sleeps half a second, so so does real time).
   */
  predicate ReachesDeadline(polls: seq<Poll>, timeout: int) {
    |polls| > 0 && polls[|polls| - 1].elapsedMs >= timeout * 1000
  }

  // ---------------------------------------------------------------------------
  // The polling loop of `_get_terminal_output`

  function StillRunning(timeout: int): string {
    "Command may still be running after " + Text.IntToString(timeout) + " seconds"
  }

  /** The result when the deadline passes without completion: a warning, not an error. */
  function SoftTimeout(output: string, timeout: int): ExecResult {
    ExecResult(true, Some(output), None, None, Some(StillRunning(timeout)))
  }

  /** The retained output after a snapshot: replaced only by a non-empty, strictly longer one. */
  function Retain(output: string, current: string): (kept: string)
    ensures kept == output || kept == current
    ensures |kept| >= |output| && |kept| >= |current|
    ensures kept != output ==> current != "" && |current| > |output|
  {
    if current != "" && |current| > |output| then current else output
  }

  /** The completion heuristic: the snapshot contains the command and is longer than it. */
  predicate Completed(command: string, current: string) {
    Text.Contains(current, command) && |current| > |command|
  }

  /** What the loop returns on completion: the lines after the command's line, or all of `output`. */
  function ExtractOutput(output: string, command: string): string {
    var lines := Text.Split(output);
    var i := Screen.FirstIndex(lines, command);
    if 0 <= i < |lines| - 1 then Text.Join(lines[i + 1..]) else output
  }

  /** The extraction is the same heuristic the iTerm2 controller applies to its lines. */
  lemma ExtractOutputIsAfterCommand(output: string, command: string)
    ensures ExtractOutput(output, command) == Screen.AfterCommand(Text.Split(output), command)
  {
    var lines := Text.Split(output);
    var i := Screen.FirstIndex(lines, command);
    if !(0 <= i < |lines| - 1) {
      Text.JoinSplit(output);
      assert Screen.AfterCommand(lines, command) == Text.Join(lines);
    }
  }

  /** The stripped text of a capture (an exception leaves nothing to keep). */
  function Current(p: Poll): string {
    match p.capture
    case Captured(t) => Text.Strip(t)
    case CaptureRaised(_) => ""
  }

  /**
   * The loop from round `i` on, with `output` retained so far; Failure(msg)
   * is an exception that leaves the loop.
   */
  function Watch(command: string, timeout: int, polls: seq<Poll>, i: nat, output: string): Result<ExecResult, string>
    requires i < |polls| && ReachesDeadline(polls, timeout)
    decreases |polls| - i
  {
    if polls[i].elapsedMs >= timeout * 1000 then Success(SoftTimeout(output, timeout))
    else match polls[i].capture
      case CaptureRaised(msg) => Failure(msg)
      case Captured(_) =>
        var current := Current(polls[i]);
        var kept := Retain(output, current);
        if Completed(command, current) then Success(Succeeded(ExtractOutput(kept, command)))
        else Watch(command, timeout, polls, i + 1, kept)
  }

  /** The `try` block on completion: the lines after the command's line, or all of `output`. */
  method ExtractAfterCommand(output: string, command: string) returns (result: string)
    ensures result == ExtractOutput(output, command)
  {
    var lines := Text.Split(output);
    var index := Screen.FindCommandIndex(lines, command);
    if index >= 0 && index < |lines| - 1 {
      return Text.Join(lines[index + 1..]);
    }
    return output;
  }

  /** One round of the loop before the deadline that captured text: keep the longer text, then stop or go on. */
  lemma WatchStep(command: string, timeout: int, polls: seq<Poll>, i: nat, output: string)
    requires i < |polls| && ReachesDeadline(polls, timeout)
    requires polls[i].elapsedMs < timeout * 1000 && polls[i].capture.Captured?
    ensures var kept := Retain(output, Current(polls[i]));
      Watch(command, timeout, polls, i, output)
        == if Completed(command, Current(polls[i])) then Success(Succeeded(ExtractOutput(kept, command)))
           else Watch(command, timeout, polls, i + 1, kept)
  {
  }

  /** One round's bookkeeping: keep the longer stripped text, and say whether it shows the command completed. */
  method Round(command: string, text: string, output: string) returns (kept: string, done: bool)
    ensures kept == Retain(output, Text.Strip(text))
    ensures done == Completed(command, Text.Strip(text))
  {
    var current := Text.Strip(text);
    kept := output;
    if current != "" && |current| > |output| {
      kept := current;
    }
    done := Text.Contains(current, command) && |current| > |command|;
  }

  /** `_get_terminal_output`: polls until completion is detected or the deadline passes. */
  method GetTerminalOutput(command: string, timeout: int, polls: seq<Poll>) returns (r: Result<ExecResult, string>)
    requires ReachesDeadline(polls, timeout)
    ensures r == Watch(command, timeout, polls, 0, "")
  {
    var output := "";
    var i := 0;
    while polls[i].elapsedMs < timeout * 1000
      invariant 0 <= i < |polls|
      invariant Watch(command, timeout, polls, i, output) == Watch(command, timeout, polls, 0, "")
      decreases |polls| - i
    {
      match polls[i].capture {
        case CaptureRaised(msg) =>
          return Failure(msg);
        case Captured(text) =>
          WatchStep(command, timeout, polls, i, output);
          var done;
          output, done := Round(command, text, output);
          if done {
            var result := ExtractAfterCommand(output, command);
            return Success(Succeeded(result));
          }
      }
      i := i + 1;
    }
    return Success(SoftTimeout(output, timeout));
  }

  // ---------------------------------------------------------------------------
  // What the polling loop guarantees

  /** The output retained after rounds `i` to `k - 1`, starting from `output`. */
  function Kept(output: string, polls: seq<Poll>, i: nat, k: nat): string
    requires i <= k <= |polls|
    decreases k - i
  {
    if i == k then output else Kept(Retain(output, Current(polls[i])), polls, i + 1, k)
  }

  /**
   * The retained output is the longest snapshot seen (or the starting one):
   * it is at least as long as every snapshot, and it is one of them unless
   * no snapshot was longer than the start.
   */
  lemma {:induction false} KeptIsLongest(output: string, polls: seq<Poll>, i: nat, k: nat)
    requires i <= k <= |polls|
    ensures |Kept(output, polls, i, k)| >= |output|
    ensures forall j :: i <= j < k ==> |Current(polls[j])| <= |Kept(output, polls, i, k)|
    ensures Kept(output, polls, i, k) == output
         || exists j :: i <= j < k && Kept(output, polls, i, k) == Current(polls[j])
    decreases k - i
  {
    if i < k {
      var next := Retain(output, Current(polls[i]));
      KeptIsLongest(next, polls, i + 1, k);
    }
  }

  /** Across rounds the retained output never gets shorter. */
  lemma {:induction false} KeptNeverShrinks(output: string, polls: seq<Poll>, i: nat, j: nat, k: nat)
    requires i <= j <= k <= |polls|
    ensures |Kept(output, polls, i, j)| <= |Kept(output, polls, i, k)|
    decreases j - i
  {
    if i < j {
      KeptNeverShrinks(Retain(output, Current(polls[i])), polls, i + 1, j, k);
    } else {
      KeptIsLongest(output, polls, i, k);
    }
  }

  /** Round `j` ran before the deadline, captured text and did not detect completion. */
  predicate QuietRound(command: string, timeout: int, p: Poll) {
    p.elapsedMs < timeout * 1000 && p.capture.Captured? && !Completed(command, Current(p))
  }

  /**
   * Completion is detected at the first round whose snapshot completes, and
   * the result is extracted from the output retained up to and including it.
   */
  lemma {:induction false} WatchDetects(command: string, timeout: int, polls: seq<Poll>, i: nat, output: string, k: nat)
    requires i <= k < |polls| && ReachesDeadline(polls, timeout)
    requires forall j :: i <= j < k ==> QuietRound(command, timeout, polls[j])
    requires polls[k].elapsedMs < timeout * 1000 && polls[k].capture.Captured?
    requires Completed(command, Current(polls[k]))
    ensures Watch(command, timeout, polls, i, output)
         == Success(Succeeded(ExtractOutput(Kept(output, polls, i, k + 1), command)))
    decreases k - i
  {
    var kept := Retain(output, Current(polls[i]));
    WatchStep(command, timeout, polls, i, output);
    if i < k {
      assert QuietRound(command, timeout, polls[i]);
      WatchDetects(command, timeout, polls, i + 1, kept, k);
      assert Kept(output, polls, i, k + 1) == Kept(kept, polls, i + 1, k + 1);
    } else {
      assert Kept(output, polls, i, k + 1) == Kept(kept, polls, i + 1, k + 1) == kept;
    }
  }

  /**
   * Without detection before the deadline the loop ends with success, the
   * longest output seen and the "may still be running" warning.
   */
  lemma {:induction false} WatchTimesOut(command: string, timeout: int, polls: seq<Poll>, i: nat, output: string, k: nat)
    requires i <= k < |polls| && ReachesDeadline(polls, timeout)
    requires forall j :: i <= j < k ==> QuietRound(command, timeout, polls[j])
    requires polls[k].elapsedMs >= timeout * 1000
    ensures Watch(command, timeout, polls, i, output) == Success(SoftTimeout(Kept(output, polls, i, k), timeout))
    decreases k - i
  {
    if i < k {
      WatchTimesOut(command, timeout, polls, i + 1, Retain(output, Current(polls[i])), k);
    }
  }

  /** With a timeout of zero or less the loop body never runs. */
  lemma WatchNonPositiveTimeout(command: string, timeout: int, polls: seq<Poll>)
    requires timeout <= 0 && ReachesDeadline(polls, timeout) && polls[0].elapsedMs >= 0
    ensures Watch(command, timeout, polls, 0, "") == Success(SoftTimeout("", timeout))
  {
  }

  /** Whatever happens, the loop never reports failure itself: only an exception leaves it unsuccessfully. */
  lemma {:induction false} WatchNeverFails(command: string, timeout: int, polls: seq<Poll>, i: nat, output: string)
    requires i < |polls| && ReachesDeadline(polls, timeout)
    ensures match Watch(command, timeout, polls, i, output)
      case Success(r) => r.success && r.error.None? && r.returnCode.None? && r.output.Some?
      case Failure(_) => exists j :: i <= j < |polls| && polls[j].capture.CaptureRaised?
    decreases |polls| - i
  {
    if polls[i].elapsedMs < timeout * 1000 && polls[i].capture.Captured?
       && !Completed(command, Current(polls[i])) {
      WatchStep(command, timeout, polls, i, output);
      WatchNeverFails(command, timeout, polls, i + 1, Retain(output, Current(polls[i])));
    }
  }

  // ---------------------------------------------------------------------------
  // execute_command

  /** What `execute_command` returns in `world`. */
  function Execute(command: string, waitForOutput: bool, timeout: int, world: ScriptWorld): ExecResult
    requires waitForOutput && world.launch.Launched? ==> ReachesDeadline(world.polls, timeout)
  {
    match world.launch
    case LaunchRaised(msg) => Raised(msg)
    case Launched =>
      if !waitForOutput then Succeeded(NotCaptured)
      else match Watch(command, timeout, world.polls, 0, "")
        case Success(r) => r
        case Failure(msg) => Raised(msg)
  }

  /** `execute_command`: sends the escaped command to window 1, then polls when asked to. */
  method ExecuteCommand(command: string, waitForOutput: bool, timeout: int, world: ScriptWorld)
    returns (r: ExecResult, script: string)
    requires waitForOutput && world.launch.Launched? ==> ReachesDeadline(world.polls, timeout)
    ensures r == Execute(command, waitForOutput, timeout, world)
    ensures script == "do script \"" + Escape(command) + "\" in window 1"
  {
    script := "do script \"" + Escape(command) + "\" in window 1";
    match world.launch {
      case LaunchRaised(msg) =>
        return Raised(msg), script;
      case Launched =>
        if waitForOutput {
          var watched := GetTerminalOutput(command, timeout, world.polls);
          match watched {
            case Success(result) => r := result;
            case Failure(msg) => r := Raised(msg);
          }
        } else {
          r := Succeeded(NotCaptured);
        }
    }
  }

  /** Without waiting the command is only sent: success with the placeholder text. */
  lemma NoWaitIsPlaceholder(command: string, timeout: int, world: ScriptWorld)
    requires world.launch.Launched?
    ensures Execute(command, false, timeout, world) == Succeeded(NotCaptured)
  {
  }

  /**
   * Failures are only exceptions, reported with the "Error executing
   * command: " prefix; a warning only comes with success.
   */
  lemma ExecuteShape(command: string, waitForOutput: bool, timeout: int, world: ScriptWorld)
    requires waitForOutput && world.launch.Launched? ==> ReachesDeadline(world.polls, timeout)
    ensures var r := Execute(command, waitForOutput, timeout, world);
      && r.returnCode.None?
      && (!r.success ==> r.error.Some? && ErrorPrefix <= r.error.value && r.warning.None?)
      && (r.warning.Some? ==> r.success && r.error.None?)
  {
    if waitForOutput && world.launch.Launched? {
      WatchNeverFails(command, timeout, world.polls, 0, "");
    }
  }
}
