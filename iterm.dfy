/**
 * The controller that drives iTerm2 through its Python API. It keeps a
 * connection, the app object and the current session between calls; the
 * API's answers (connection attempts, the windows and tabs, the screen
 * contents, the clock) are inputs here.
 */
module ITerm {

  import opened Wrappers
  import Text
  import Screen
  import opened Results

  const TerminalType := "iTerm2"

  /** `max_attempts` in `_ensure_session`. */
  const MaxAttempts := 5

  /** The quiet period, in milliseconds, after which the output counts as finished. */
  const QuietMs := 1000

  const NoSessionError := "Failed to get iTerm2 session"

  datatype Connection = Connection(id: nat)
  datatype App = App(id: nat)
  datatype Session = Session(id: nat)

  /** An answer of the API: a value, or an exception with its message. */
  datatype Fetch<T> = Got(value: T) | Threw(message: string)

  /** One try of `_ensure_connection` from a disconnected state. */
  datatype Attempt =
    | CreateRaised                           // `Connection.async_create` raises
    | AppRaised(conn: Connection)            // it succeeds, then `async_get_app` raises
    | Connected(conn: Connection, app: Option<App>)

  datatype Tab = Tab(active: Fetch<Option<Session>>)
  datatype Window = Window(tabs: Fetch<seq<Tab>>)

  /** One round of the waiting loop: the clock reading and the screen's line count. */
  datatype Tick = Tick(nowMs: int, lineCount: Fetch<nat>)

  /** How `async_close` ends inside `cleanup`. */
  datatype CloseOutcome = Closed | CloseTimedOut | CloseRaised(message: string)

  /** What the API answers during one `execute_command` call. */
  datatype ITermWorld = ITermWorld(
    attempts: seq<Attempt>,
    windows: Fetch<seq<Window>>,
    sendRaises: Option<string>,
    startMs: int,
    initial: Fetch<nat>,
    updateMs: int,
    ticks: seq<Tick>,
    screen: Fetch<seq<string>>)

  /** The three fields of the controller, as a value. */
  datatype ITermState = ITermState(connection: Option<Connection>, app: Option<App>, session: Option<Session>)

  const Disconnected := ITermState(None, None, None)

  /** What every operation keeps: without a connection there is neither an app nor a session. */
  predicate Inv(s: ITermState) {
    s.connection.None? ==> s.app.None? && s.session.None?
  }

  // ---------------------------------------------------------------------------
  // Connection and session

  /** `_ensure_connection`: whether it reports a connection, and the fields afterwards. */
  function ConnectStep(s: ITermState, a: Attempt): (bool, ITermState) {
    if s.connection.Some? then (true, s)
    else match a
      case CreateRaised => (false, s)
      case AppRaised(c) => (false, s.(connection := Some(c)))
      case Connected(c, app) => (true, s.(connection := Some(c), app := app))
  }

  /** The retry loop of `_ensure_session` from attempt `i` on. */
  function Retry(s: ITermState, attempts: seq<Attempt>, i: nat): (bool, ITermState)
    requires i <= MaxAttempts <= |attempts|
    decreases MaxAttempts - i
  {
    if i == MaxAttempts then (false, s)
    else
      var (ok, next) := ConnectStep(s, attempts[i]);
      if ok then (true, next) else Retry(next, attempts, i + 1)
  }

  /** `_ensure_session`: the session it returns, and the fields afterwards. */
  function Acquire(s: ITermState, attempts: seq<Attempt>, windows: Fetch<seq<Window>>): (Option<Session>, ITermState)
    requires MaxAttempts <= |attempts|
  {
    var (ok, t) := Retry(s, attempts, 0);
    if !ok || t.app.None? then (None, t)   // without an app, `async_get_windows` raises
    else match windows
      case Threw(_) => (None, t)
      case Got(ws) =>
        if ws == [] then (None, t)
        else match ws[0].tabs
          case Threw(_) => (None, t)
          case Got(ts) =>
            if ts == [] then (None, t)
            else match ts[0].active
              case Threw(_) => (None, t)
              case Got(active) => (active, t.(session := active))
  }

  // ---------------------------------------------------------------------------
  // Waiting for the output to settle

  /** The clock eventually passes the deadline: the last reading is more than `timeout` seconds after the start. */
  predicate PassesDeadline(ticks: seq<Tick>, startMs: int, timeout: int) {
    |ticks| > 0 && ticks[|ticks| - 1].nowMs - startMs > timeout * 1000
  }

  predicate PastDeadline(t: Tick, startMs: int, timeout: int) {
    t.nowMs - startMs > timeout * 1000
  }

  /**
   * The waiting loop from round `i` on, with the last line count seen and the
   * time of its last change: Success(k) when it stops at round `k`,
   * Failure(msg) when reading the screen raises.
   */
  function Quiet(ticks: seq<Tick>, i: nat, startMs: int, timeout: int, lastCount: nat, lastUpdate: int): Result<nat, string>
    requires i < |ticks| && PassesDeadline(ticks, startMs, timeout)
    decreases |ticks| - i
  {
    var now := ticks[i].nowMs;
    if PastDeadline(ticks[i], startMs, timeout) then Success(i)
    else match ticks[i].lineCount
      case Threw(msg) => Failure(msg)
      case Got(_) =>
        var (count, update) := Track(lastCount, lastUpdate, ticks[i]);
        if now - update > QuietMs then Success(i)
        else Quiet(ticks, i + 1, startMs, timeout, count, update)
  }

  /** The last line count and the time of its last change after a round that read the screen. */
  function Track(lastCount: nat, lastUpdate: int, t: Tick): (nat, int)
    requires t.lineCount.Got?
  {
    if t.lineCount.value != lastCount then (t.lineCount.value, t.nowMs) else (lastCount, lastUpdate)
  }

  /** The last line count and the time of its last change before round `k`, tracked from round `i`. */
  function Seen(ticks: seq<Tick>, i: nat, k: nat, lastCount: nat, lastUpdate: int): (nat, int)
    requires i <= k <= |ticks|
    requires forall j :: i <= j < k ==> ticks[j].lineCount.Got?
    decreases k - i
  {
    if i == k then (lastCount, lastUpdate)
    else
      var (count, update) := Track(lastCount, lastUpdate, ticks[i]);
      Seen(ticks, i + 1, k, count, update)
  }

  /** The loop over the ticks: stops on the deadline or after a quiet second, raises when a read raises. */
  method WaitQuiet(ticks: seq<Tick>, startMs: int, timeout: int, initialCount: nat, updateMs: int)
    returns (r: Result<nat, string>)
    requires PassesDeadline(ticks, startMs, timeout)
    ensures r == Quiet(ticks, 0, startMs, timeout, initialCount, updateMs)
  {
    var i := 0;
    var lastCount := initialCount;
    var lastUpdate := updateMs;
    while true
      invariant 0 <= i < |ticks|
      invariant Quiet(ticks, i, startMs, timeout, lastCount, lastUpdate) == Quiet(ticks, 0, startMs, timeout, initialCount, updateMs)
      decreases |ticks| - i
    {
      var now := ticks[i].nowMs;
      if now - startMs > timeout * 1000 {
        return Success(i);
      }
      match ticks[i].lineCount {
        case Threw(msg) =>
          return Failure(msg);
        case Got(n) =>
          if n != lastCount {
            lastCount := n;
            lastUpdate := now;
          }
      }
      if now - lastUpdate > QuietMs {
        return Success(i);
      }
      i := i + 1;
    }
  }

  // ---------------------------------------------------------------------------
  // execute_command and cleanup

  /** The result of one call, the fields afterwards and the text the session accepted, if any. */
  datatype Outcome = Outcome(result: ExecResult, state: ITermState, sent: Option<string>)

  predicate WorldFits(w: ITermWorld, waitForOutput: bool, timeout: int) {
    && MaxAttempts <= |w.attempts|
    && (waitForOutput ==> PassesDeadline(w.ticks, w.startMs, timeout))
  }

  /** What `execute_command` does once it holds a session: send the command, then wait and read the screen. */
  function Deliver(command: string, waitForOutput: bool, timeout: int, w: ITermWorld): ExecResult
    requires waitForOutput ==> PassesDeadline(w.ticks, w.startMs, timeout)
  {
    if w.sendRaises.Some? then Raised(w.sendRaises.value)
    else if !waitForOutput then Succeeded(NotCaptured)
    else match w.initial
      case Threw(msg) => Raised(msg)
      case Got(n) =>
        match Quiet(w.ticks, 0, w.startMs, timeout, n, w.updateMs)
        case Failure(msg) => Raised(msg)
        case Success(_) =>
          match w.screen
          case Threw(msg) => Raised(msg)
          case Got(lines) => Succeeded(Screen.AfterCommand(lines, command))
  }

  /** What `execute_command` does from the fields `s` in `w`. */
  function Execute(s: ITermState, command: string, waitForOutput: bool, timeout: int, w: ITermWorld): Outcome
    requires WorldFits(w, waitForOutput, timeout)
  {
    var (session, t) := Acquire(s, w.attempts, w.windows);
    if session.None? then Outcome(Failed(NoSessionError), t, None)
    else Outcome(Deliver(command, waitForOutput, timeout, w), t, if w.sendRaises.Some? then None else Some(command + "\n"))
  }

  /** Sending the command and, when asked, waiting for the screen to settle and reading the output after the command. */
  method SendAndRead(command: string, waitForOutput: bool, timeout: int, w: ITermWorld) returns (r: ExecResult)
    requires waitForOutput ==> PassesDeadline(w.ticks, w.startMs, timeout)
    ensures r == Deliver(command, waitForOutput, timeout, w)
  {
    if w.sendRaises.Some? {
      return Raised(w.sendRaises.value);
    }
    if !waitForOutput {
      return Succeeded(NotCaptured);
    }
    match w.initial {
      case Threw(msg) =>
        return Raised(msg);
      case Got(n) =>
        var waited := WaitQuiet(w.ticks, w.startMs, timeout, n, w.updateMs);
        if waited.Failure? {
          return Raised(waited.error);
        }
    }
    match w.screen {
      case Threw(msg) =>
        return Raised(msg);
      case Got(lines) =>
        var index := Screen.FindCommandIndex(lines, command);
        if index >= 0 && index < |lines| - 1 {
          return Succeeded(Text.Join(lines[index + 1..]));
        }
        return Succeeded(Text.Join(lines));
    }
  }

  /** `cleanup`: a connection is closed and all three fields are cleared, however the close ends. */
  function AfterCleanup(s: ITermState): ITermState {
    if s.connection.Some? then Disconnected else s
  }

  class ITermController {
    var connection: Option<Connection>
    var app: Option<App>
    var currentSession: Option<Session>

    function Snapshot(): ITermState
      reads this
    {
      ITermState(connection, app, currentSession)
    }

    constructor ()
      ensures Snapshot() == Disconnected
    {
      connection := None;
      app := None;
      currentSession := None;
    }

    method EnsureConnection(attempt: Attempt) returns (ok: bool)
      modifies this
      ensures (ok, Snapshot()) == ConnectStep(old(Snapshot()), attempt)
    {
      if connection.Some? {
        return true;
      }
      match attempt {
        case CreateRaised =>
          return false;
        case AppRaised(c) =>
          connection := Some(c);
          return false;
        case Connected(c, a) =>
          connection := Some(c);
          app := a;
          return true;
      }
    }

    method EnsureSession(attempts: seq<Attempt>, windows: Fetch<seq<Window>>) returns (session: Option<Session>)
      requires MaxAttempts <= |attempts|
      modifies this
      ensures (session, Snapshot()) == Acquire(old(Snapshot()), attempts, windows)
    {
      var attempt := 0;
      var connected := false;
      while attempt < MaxAttempts
        invariant 0 <= attempt <= MaxAttempts
        invariant Retry(Snapshot(), attempts, attempt) == Retry(old(Snapshot()), attempts, 0)
        decreases MaxAttempts - attempt
      {
        connected := EnsureConnection(attempts[attempt]);
        if connected {
          break;
        }
        attempt := attempt + 1;
      }
      if !connected {
        return None;
      }
      if app.None? {
        return None;
      }
      match windows {
        case Threw(_) =>
          return None;
        case Got(ws) =>
          if ws == [] {
            return None;
          }
          match ws[0].tabs {
            case Threw(_) =>
              return None;
            case Got(ts) =>
              if ts == [] {
                return None;
              }
              match ts[0].active {
                case Threw(_) =>
                  return None;
                case Got(active) =>
                  currentSession := active;
                  return active;
              }
          }
      }
    }

    method ExecuteCommand(command: string, waitForOutput: bool, timeout: int, w: ITermWorld)
      returns (r: ExecResult, sent: Option<string>)
      requires WorldFits(w, waitForOutput, timeout)
      modifies this
      ensures Outcome(r, Snapshot(), sent) == Execute(old(Snapshot()), command, waitForOutput, timeout, w)
    {
      var session := EnsureSession(w.attempts, w.windows);
      if session.None? {
        return Failed(NoSessionError), None;
      }
      sent := if w.sendRaises.Some? then None else Some(command + "\n");
      r := SendAndRead(command, waitForOutput, timeout, w);
    }

    method Cleanup(close: CloseOutcome)
      modifies this
      ensures Snapshot() == AfterCleanup(old(Snapshot()))
    {
      if connection.Some? {
        connection := None;
        app := None;
        currentSession := None;
      }
    }
  }

  // ---------------------------------------------------------------------------
  // What the controller guarantees

  /** With a connection, `_ensure_connection` reports success and changes nothing. */
  lemma ConnectIdempotent(s: ITermState, a: Attempt)
    requires s.connection.Some?
    ensures ConnectStep(s, a) == (true, s)
  {
  }

  /**
   * A failed connection attempt reports failure; when only the app lookup
   * raised, the new connection is nevertheless kept.
   */
  lemma ConnectFailureKeepsConnection(s: ITermState, c: Connection)
    requires s.connection.None?
    ensures ConnectStep(s, CreateRaised) == (false, s)
    ensures ConnectStep(s, AppRaised(c)) == (false, s.(connection := Some(c)))
  {
  }

  /**
   * The retry loop fails exactly when there is no connection, every attempt
   * before the last fails to create one, and the last does not connect.
   */
  lemma {:induction false} RetryFailsIff(s: ITermState, attempts: seq<Attempt>, i: nat)
    requires i < MaxAttempts <= |attempts|
    ensures !Retry(s, attempts, i).0 <==>
      && s.connection.None?
      && (forall j :: i <= j < MaxAttempts - 1 ==> attempts[j].CreateRaised?)
      && !attempts[MaxAttempts - 1].Connected?
    decreases MaxAttempts - i
  {
    if s.connection.None? && i < MaxAttempts - 1 {
      var (ok, next) := ConnectStep(s, attempts[i]);
      RetryFailsIff(next, attempts, i + 1);
    } else if s.connection.Some? {
      ConnectIdempotent(s, attempts[i]);
    }
  }

  /** Only the first five attempts are ever consulted. */
  lemma {:induction false} RetryUsesFiveAttempts(s: ITermState, a: seq<Attempt>, b: seq<Attempt>, i: nat)
    requires i <= MaxAttempts <= |a| && MaxAttempts <= |b|
    requires a[..MaxAttempts] == b[..MaxAttempts]
    ensures Retry(s, a, i) == Retry(s, b, i)
    decreases MaxAttempts - i
  {
    if i < MaxAttempts {
      assert a[i] == a[..MaxAttempts][i] == b[i];
      var (ok, next) := ConnectStep(s, a[i]);
      RetryUsesFiveAttempts(next, a, b, i + 1);
    }
  }

  /** Connecting keeps the invariant. */
  lemma {:induction false} RetryKeepsInv(s: ITermState, attempts: seq<Attempt>, i: nat)
    requires Inv(s) && i <= MaxAttempts <= |attempts|
    ensures Inv(Retry(s, attempts, i).1)
    ensures Retry(s, attempts, i).0 ==> Retry(s, attempts, i).1.connection.Some?
    decreases MaxAttempts - i
  {
    if i < MaxAttempts {
      var (ok, next) := ConnectStep(s, attempts[i]);
      RetryKeepsInv(next, attempts, i + 1);
    }
  }

  /**
   * A session is returned only from the first tab of the first window, and
   * then it is stored as the current session; no windows, no tabs, no active
   * session, no app or any exception yields None.
   */
  lemma AcquireShape(s: ITermState, attempts: seq<Attempt>, windows: Fetch<seq<Window>>)
    requires Inv(s) && MaxAttempts <= |attempts|
    ensures var (session, t) := Acquire(s, attempts, windows);
      && Inv(t)
      && (session.Some? <==>
           && Retry(s, attempts, 0).0 && t.app.Some?
           && windows.Got? && windows.value != []
           && windows.value[0].tabs.Got? && windows.value[0].tabs.value != []
           && windows.value[0].tabs.value[0].active.Got?
           && windows.value[0].tabs.value[0].active.value.Some?)
      && (session.Some? ==> windows.value[0].tabs.value[0].active == Got(session))
      && (session.Some? ==> t.session == session)
  {
    RetryKeepsInv(s, attempts, 0);
  }

  /**
   * When the app lookup raises while a connection is created, the connection
   * is kept without an app: that acquisition and every later one fails,
   * whatever iTerm2 answers, until `cleanup` clears the fields.
   */
  lemma AppFailureSticks(attempts: seq<Attempt>, c: Connection, windows: Fetch<seq<Window>>,
                         later: seq<Attempt>, laterWindows: Fetch<seq<Window>>)
    requires MaxAttempts <= |attempts| && attempts[0] == AppRaised(c)
    requires MaxAttempts <= |later|
    ensures var (session, t) := Acquire(Disconnected, attempts, windows);
      && session.None? && t == ITermState(Some(c), None, None)
      && Acquire(t, later, laterWindows) == (None, t)
  {
    var t := ITermState(Some(c), None, None);
    assert Retry(t, attempts, 1) == (true, t);
    assert Retry(t, later, 0) == (true, t);
  }

  /** Without a session nothing is sent and the call fails with "Failed to get iTerm2 session". */
  lemma NoSessionSendsNothing(s: ITermState, command: string, waitForOutput: bool, timeout: int, w: ITermWorld)
    requires WorldFits(w, waitForOutput, timeout)
    requires Acquire(s, w.attempts, w.windows).0.None?
    ensures var o := Execute(s, command, waitForOutput, timeout, w);
      o.result == Failed("Failed to get iTerm2 session") && o.sent.None?
  {
  }

  /** Text reaches the session exactly when a session is held and sending does not raise, and it is the command and a newline. */
  lemma SentIffDelivered(s: ITermState, command: string, waitForOutput: bool, timeout: int, w: ITermWorld)
    requires WorldFits(w, waitForOutput, timeout)
    ensures var o := Execute(s, command, waitForOutput, timeout, w);
      && (o.sent.Some? <==> Acquire(s, w.attempts, w.windows).0.Some? && w.sendRaises.None?)
      && (o.sent.Some? ==> o.sent.value == command + "\n")
      && (w.sendRaises.Some? && o.sent.None? && Acquire(s, w.attempts, w.windows).0.Some? ==>
            o.result == Failed("Error executing command: " + w.sendRaises.value))
  {
  }

  /** With a session the command goes out with a newline; not waiting then succeeds with the placeholder. */
  lemma SessionSendsCommand(s: ITermState, command: string, timeout: int, w: ITermWorld)
    requires WorldFits(w, false, timeout) && w.sendRaises.None?
    requires Acquire(s, w.attempts, w.windows).0.Some?
    ensures var o := Execute(s, command, false, timeout, w);
      o.sent == Some(command + "\n") && o.result == Succeeded(NotCaptured)
  {
  }

  /**
   * When the wait ends and the final screen is read, the result is success
   * with the lines after the first line containing the command (or all of
   * them); every failure otherwise is an exception with the prefix.
   */
  lemma ExecuteShape(s: ITermState, command: string, waitForOutput: bool, timeout: int, w: ITermWorld)
    requires WorldFits(w, waitForOutput, timeout)
    ensures var o := Execute(s, command, waitForOutput, timeout, w);
      && o.result.returnCode.None? && o.result.warning.None?
      && (o.result.success ==> o.result.output.Some? && o.result.error.None?)
      && (!o.result.success ==>
           o.result.error.Some? && (o.result.error.value == NoSessionError || ErrorPrefix <= o.result.error.value))
      && (o.result.success && waitForOutput && w.screen.Got? ==>
           o.result.output == Some(Screen.AfterCommand(w.screen.value, command)))
  {
  }

  /** Every call keeps the invariant of the fields. */
  lemma ExecuteKeepsInv(s: ITermState, command: string, waitForOutput: bool, timeout: int, w: ITermWorld)
    requires Inv(s) && WorldFits(w, waitForOutput, timeout)
    ensures Inv(Execute(s, command, waitForOutput, timeout, w).state)
  {
    AcquireShape(s, w.attempts, w.windows);
  }

  /**
   * The wait stops at a round before which no round was past the deadline or
   * raised, and at which the deadline has passed, or the line count read is
   * the one seen last and more than a second has gone by since it last changed.
   */
  lemma {:induction false} QuietStops(ticks: seq<Tick>, i: nat, startMs: int, timeout: int, lastCount: nat, lastUpdate: int)
    requires i < |ticks| && PassesDeadline(ticks, startMs, timeout)
    ensures var q := Quiet(ticks, i, startMs, timeout, lastCount, lastUpdate);
      q.Success? ==>
        && i <= q.value < |ticks|
        && (forall j :: i <= j < q.value ==> !PastDeadline(ticks[j], startMs, timeout) && ticks[j].lineCount.Got?)
        && (|| PastDeadline(ticks[q.value], startMs, timeout)
            || var (count, update) := Seen(ticks, i, q.value, lastCount, lastUpdate);
               ticks[q.value].lineCount == Got(count) && ticks[q.value].nowMs - update > QuietMs)
    decreases |ticks| - i
  {
    var t := ticks[i];
    if !PastDeadline(t, startMs, timeout) && t.lineCount.Got? {
      var (count, update) := Track(lastCount, lastUpdate, t);
      if t.nowMs - update <= QuietMs {
        QuietStops(ticks, i + 1, startMs, timeout, count, update);
      }
    }
  }

  /** A round before the deadline that sees the line count change never ends the wait. */
  lemma ChangeKeepsWaiting(ticks: seq<Tick>, i: nat, startMs: int, timeout: int, lastCount: nat, lastUpdate: int)
    requires i < |ticks| && PassesDeadline(ticks, startMs, timeout)
    requires !PastDeadline(ticks[i], startMs, timeout)
    requires ticks[i].lineCount.Got? && ticks[i].lineCount.value != lastCount
    ensures i + 1 < |ticks|
    ensures Quiet(ticks, i, startMs, timeout, lastCount, lastUpdate)
         == Quiet(ticks, i + 1, startMs, timeout, ticks[i].lineCount.value, ticks[i].nowMs)
  {
  }

  /** A round before the deadline with an unchanged count more than a second after the last change ends the wait. */
  lemma QuietSecondEndsWait(ticks: seq<Tick>, i: nat, startMs: int, timeout: int, lastCount: nat, lastUpdate: int)
    requires i < |ticks| && PassesDeadline(ticks, startMs, timeout)
    requires !PastDeadline(ticks[i], startMs, timeout)
    requires ticks[i].lineCount == Got(lastCount) && ticks[i].nowMs - lastUpdate > QuietMs
    ensures Quiet(ticks, i, startMs, timeout, lastCount, lastUpdate) == Success(i)
  {
  }

  /** The wait raises only with the message of a screen read before the deadline. */
  lemma {:induction false} QuietRaisesFromRead(ticks: seq<Tick>, i: nat, startMs: int, timeout: int, lastCount: nat, lastUpdate: int)
    requires i < |ticks| && PassesDeadline(ticks, startMs, timeout)
    ensures var q := Quiet(ticks, i, startMs, timeout, lastCount, lastUpdate);
      q.Failure? ==> exists j :: i <= j < |ticks| && ticks[j].lineCount == Threw(q.error)
    decreases |ticks| - i
  {
    var t := ticks[i];
    if !PastDeadline(t, startMs, timeout) && t.lineCount.Got? {
      var (count, update) := Track(lastCount, lastUpdate, t);
      if t.nowMs - update <= QuietMs {
        QuietRaisesFromRead(ticks, i + 1, startMs, timeout, count, update);
      }
    }
  }

  /** After `cleanup` all three fields are cleared, and a second `cleanup` changes nothing. */
  lemma CleanupClears(s: ITermState)
    requires Inv(s)
    ensures AfterCleanup(s) == Disconnected
    ensures AfterCleanup(AfterCleanup(s)) == AfterCleanup(s)
  {
  }
}
