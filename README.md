# mcp-terminal, modelled in Dafny

mcp-terminal is an MCP server with two tools. The "terminal" tool runs a shell command. It uses one of three controllers:
- a child process (`subprocess`);
- the macOS Terminal app, driven through `osascript` (AppleScript);
- iTerm2, driven through its Python API.

The "file" tool writes to a file by overwriting, appending or inserting. The package also holds a command filter, which admits or refuses a command using a whitelist or a blacklist read from policy files.

This project models those parts and proves what they promise:
- how a controller is chosen (`get_controller`) and how the server resolves `--controller`;
- the command filter's policy-file parser and its admission decision;
- each controller's `execute_command`:
  - the quote escaping and the polling loop of the AppleScript controller;
  - the connection/session state machine, the quiet-period wait and the cleanup of the iTerm2 controller;
  - the shaping of the subprocess controller's result;
- the terminal tool's lazy controller creation and its response mapping;
- `file_modify` over a map of files;
- the server's once-only tool registration, its cleanup loop and its once-only shutdown.

The outside world is an input to each operation:
- the shell, `osascript`, the iTerm2 API, the clock, the policy files and the file system's failures;
- the operating-system name, whether `iterm2` imports, and what the "is iTerm2 running" probe prints;
- the answers of Python's `re.match`.

The clock is an integer count of milliseconds. A loop driven by the clock gets a trace of readings that eventually passes its deadline.

Files:
- `wrappers.dfy`: `Option` and `Result`.
- `text.dfy`: Python's `str.strip`, `str.split()`, `str.split("\n")`/`"\n".join`, `in` on strings, integer formatting and ASCII lower-casing.
- `results.dfy`: the result record every controller returns.
- `screen.dfy`: the "lines after the command" heuristic shared by the two window-driving controllers.
- `security.dfy`: the command filter.
- `controllers.dfy`: controller selection, plus the common interface of the three controllers (the base class becomes a datatype tagging the three controllers).
- `subprocess.dfy`, `applescript.dfy`, `iterm.dfy`: the three controllers.
- `terminal_tool.dfy`, `file_tool.dfy`: the two tools.
- `server.dfy`: the server.

Code that updates state in place is modelled as classes, and the loops are methods with loop invariants:
- `CommandFilter`, `ITermController`, `TerminalTool`, `FileSystem`, `MCPTerminalServer` and `ShutdownGuard` are classes;
- each method is tied in its `ensures` to a pure function of the old state (`Decide`, `Acquire`, `Execute`, `Modify`, …);
- the properties are lemmas about those functions.

## Model

| member | source | states |
|---|---|---|
| Text.TrimLeftSpec | src/mcp_terminal/security/command_filter.py:63 | removing leading whitespace leaves a suffix whose first character is not whitespace, and everything removed is whitespace |
| Text.TrimRightSpec | src/mcp_terminal/security/command_filter.py:63 | removing trailing whitespace leaves a prefix whose last character is not whitespace, and everything removed is whitespace |
| Text.StripIsTrimmedInfix | src/mcp_terminal/security/command_filter.py:63 | `strip()` gives the infix between the leading and the trailing whitespace; the result is empty or starts and ends with a non-space |
| Text.StripIdempotent | src/mcp_terminal/security/command_filter.py:63 | stripping twice is stripping once |
| Text.TokenPrefixSpec | src/mcp_terminal/security/command_filter.py:81 | the token read from a string is its longest whitespace-free prefix |
| Text.FirstToken | src/mcp_terminal/security/command_filter.py:81 | `split()[0]` exists exactly when the string is not all whitespace; it is non-empty, whitespace-free, starts after the leading whitespace and ends at whitespace or at the end |
| Text.ContainsIff | src/mcp_terminal/controllers/applescript.py:119 | `sub in s` holds exactly when `sub` occurs in `s` at some index |
| Text.JoinSplit | src/mcp_terminal/controllers/applescript.py:122-130 | joining the pieces of `split("\n")` with "\n" gives back the text |
| Text.SplitJoin | src/mcp_terminal/controllers/applescript.py:122-125 | splitting the join of lines without "\n" gives back the lines |
| Text.SplitPiecesHaveNoNewline | src/mcp_terminal/controllers/applescript.py:122 | no piece of `split("\n")` contains "\n" |
| Text.NatToStringRoundTrip | src/mcp_terminal/controllers/applescript.py:139 | the decimal digits of a number read back as that number |
| Text.SignOfIntToString | src/mcp_terminal/controllers/subprocess.py:59 | a formatted integer is non-empty and starts with "-" exactly when it is negative |
| Text.NatToStringInjective | src/mcp_terminal/controllers/subprocess.py:59 | distinct natural numbers have distinct decimal digits |
| Text.IntToStringInjective | src/mcp_terminal/controllers/subprocess.py:59 | distinct integers format differently, so the messages that embed the timeout name it exactly |
| Text.AsciiLower | src/mcp_terminal/controllers/__init__.py:60 | lowering keeps the length and lowers each letter |
| Security.EntriesIff | src/mcp_terminal/security/command_filter.py:61-65 | a string is an entry of the lines exactly when some line, stripped, is that non-empty, non-comment string |
| Security.LoadedIff | src/mcp_terminal/security/command_filter.py:55-65 | loading a path adds exactly the stripped non-empty non-"#" lines of the file; an empty or missing path adds nothing |
| Security.LoadedEntriesAreStripped | src/mcp_terminal/security/command_filter.py:63-65 | every loaded entry is non-empty, not a comment and has no surrounding whitespace |
| Security.CommandFilter.LoadList | src/mcp_terminal/security/command_filter.py:47-65 | the set afterwards is the set before plus the entries of the file's lines |
| Security.CommandFilter.constructor | src/mcp_terminal/security/command_filter.py:20-45 | the fields are the arguments, and each list holds the entries of its file, empty when no file is named |
| Security.CommandFilter.IsCommandAllowed | src/mcp_terminal/security/command_filter.py:70-107 | the search over the sets returns the decision `Decide` specifies, in whatever order the set is searched |
| Security.BaseCommandIsFirstToken | src/mcp_terminal/security/command_filter.py:81 | the base command is "" for "", an IndexError for an all-whitespace command, and otherwise the first whitespace-delimited token |
| Security.DecideRaisesOnlyOnBlank | src/mcp_terminal/security/command_filter.py:81 | the filter raises exactly when the command is non-empty and all whitespace, in either mode |
| Security.EmptyWhitelistDeniesAll | src/mcp_terminal/security/command_filter.py:84-87 | whitelist mode with an empty whitelist refuses every command with "Whitelist mode enabled but whitelist is empty" |
| Security.WhitelistModeIff | src/mcp_terminal/security/command_filter.py:89-96 | in whitelist mode a command is admitted exactly when some entry equals its base command or matches as a pattern, is refused with "Command not in whitelist: <base>" otherwise, and the blacklist never matters |
| Security.BlacklistModeIff | src/mcp_terminal/security/command_filter.py:99-107 | in blacklist mode a command is refused with "Command blacklisted: <base>" exactly when some entry equals its base command or matches as a pattern, and the whitelist never matters |
| Security.ReasonIffDenied | src/mcp_terminal/security/command_filter.py:87-107 | an admitted command carries no reason and a refused one always carries one |
| Security.LiteralEntryMatchesOnlyBase | src/mcp_terminal/security/command_filter.py:121-128 | an entry not starting with "^" matches exactly a base command equal to it |
| Security.InvalidPatternNeverMatches | src/mcp_terminal/security/command_filter.py:122-126 | a "^" pattern that does not compile matches nothing |
| Security.DecideDependsOnlyOnPatternAnswers | src/mcp_terminal/security/command_filter.py:89-107 | two regex engines that agree on the "^" entries give the same decision |
| Security.TestWhitelistFileLoads | tests/test_command_filter.py:30-34 | the whitelist file of the tests loads as {"ls", "cat", "pwd", "^git.*"} |
| Security.TestBlacklistFileLoads | tests/test_command_filter.py:38-41 | the blacklist file of the tests loads as {"rm", "sudo", "^.*eval.*"} |
| Security.TestWhitelistLiteral | tests/test_command_filter.py:84-85 | "ls -la" is admitted by the literal entry "ls" |
| Security.TestWhitelistPattern | tests/test_command_filter.py:90-91 | "git status" is admitted by the pattern "^git.*" |
| Security.TestWhitelistRefuses | tests/test_command_filter.py:97-99 | "rm file.txt" is refused as not in the whitelist |
| Security.TestBlacklistLiteral | tests/test_command_filter.py:122-124 | "rm file.txt" is refused as blacklisted |
| Security.TestBlacklistPattern | tests/test_command_filter.py:130-134 | the eval command is refused by the pattern although its first token is not listed |
| Security.TestBlacklistAdmits | tests/test_command_filter.py:112-113 | "ls -la" is admitted in blacklist mode |
| Security.TestInvalidPattern | tests/test_command_filter.py:172-180 | the uncompilable "^*invalid" refuses "invalid regex" without raising |
| Controllers.ExplicitSubprocessAnywhere | src/mcp_terminal/controllers/__init__.py:45-46 | an explicit "subprocess" gives the subprocess controller on every system |
| Controllers.ExplicitItermOnDarwin | src/mcp_terminal/controllers/__init__.py:38-42 | an explicit "iterm" on macOS gives iTerm2 when iterm2 imports and raises the ImportError otherwise |
| Controllers.ExplicitAppleScriptOnDarwin | src/mcp_terminal/controllers/__init__.py:43-44 | an explicit "applescript" on macOS gives the Terminal.app controller |
| Controllers.ExplicitOthersRaise | src/mcp_terminal/controllers/__init__.py:47-48 | every other explicit name, including "iterm"/"applescript" off macOS, raises ValueError "Controller type '<t>' not supported on <system>" |
| Controllers.ExplicitNeverSwapped | src/mcp_terminal/controllers/__init__.py:37-48 | a successful explicit request gives the controller that was named |
| Controllers.FalsyIsAuto | src/mcp_terminal/controllers/__init__.py:37-69 | "" is treated as None, and detection never raises |
| Controllers.AutoOnDarwin | src/mcp_terminal/controllers/__init__.py:51-66 | detection on macOS gives iTerm2 exactly when iterm2 imports and the lower-cased probe output contains "true", and the Terminal.app controller otherwise (also when the probe raises) |
| Controllers.AutoElsewhere | src/mcp_terminal/controllers/__init__.py:9-69 | off macOS the iTerm2 API never counts as available and detection gives the subprocess controller |
| Controllers.WindowControllersOnlyOnDarwin | src/mcp_terminal/controllers/__init__.py:23-69 | the iTerm2 and Terminal.app controllers are only ever chosen on macOS |
| Controllers.NewController | src/mcp_terminal/controllers/__init__.py:40-69 | the constructed controller has the chosen kind; an iTerm2 controller is fresh with its three fields unset |
| Controllers.GetController | src/mcp_terminal/controllers/__init__.py:23-69 | returns a controller of the kind `Select` specifies, or raises exactly the exception it specifies |
| Controllers.ExecuteCommand | src/mcp_terminal/controllers/base.py:14-29 | dispatches to the chosen controller, whose result and new fields are the ones its own specification gives |
| Controllers.Cleanup | src/mcp_terminal/controllers/base.py:41-45 | only the iTerm2 controller changes (as its `cleanup` specifies); the others change nothing |
| Controllers.TerminalTypes | src/mcp_terminal/controllers/subprocess.py:81 | the terminal types are "subprocess", "macOS Terminal" and "iTerm2", and the type tells the controller kinds apart |
| Subprocess.NoWaitIsPlaceholder | src/mcp_terminal/controllers/subprocess.py:61-66 | without waiting the result is success with the placeholder text and no return code |
| Subprocess.ExitedShape | src/mcp_terminal/controllers/subprocess.py:45-50 | after a normal exit, success holds exactly when the status is 0, and output, error and return code are all reported |
| Subprocess.TimedOutShape | src/mcp_terminal/controllers/subprocess.py:51-60 | a timeout fails with "Command timed out after <timeout> seconds" and no output or code; a ProcessLookupError from kill changes nothing |
| Subprocess.ExceptionsArePrefixed | src/mcp_terminal/controllers/subprocess.py:30-72 | an exception from spawning, from waiting (other than the timeout), or from killing after a timeout, is reported with "Error executing command: " |
| Subprocess.ResultShape | src/mcp_terminal/controllers/subprocess.py:30-72 | a return code is reported exactly when the command was waited for and exited; a failure carries an error and no warning ever appears |
| AppleScript.Escape | src/mcp_terminal/controllers/applescript.py:38 | the escaped command is as long as the command plus its double quotes, and every double quote in it follows a backslash |
| AppleScript.UnescapeEscape | src/mcp_terminal/controllers/applescript.py:38 | escaping loses nothing for the matching reading, which takes `\"` back to `"`; AppleScript's own reading also turns `\\` into `\`, which this escape does not account for |
| AppleScript.EscapeWithoutQuotes | src/mcp_terminal/controllers/applescript.py:38 | a command without double quotes is not changed |
| AppleScript.Retain | src/mcp_terminal/controllers/applescript.py:114-116 | the retained output is replaced only by a non-empty, strictly longer snapshot |
| AppleScript.Round | src/mcp_terminal/controllers/applescript.py:112-119 | one round keeps the stripped snapshot exactly when it is non-empty and longer than the output so far, and reports completion exactly when the snapshot contains the command and is longer than it |
| AppleScript.ExtractAfterCommand | src/mcp_terminal/controllers/applescript.py:121-130 | the extraction the loop returns on completion is the one `ExtractOutput` specifies |
| AppleScript.GetTerminalOutput | src/mcp_terminal/controllers/applescript.py:80-140 | the polling loop returns what `Watch` specifies over the clock-and-capture trace |
| AppleScript.KeptIsLongest | src/mcp_terminal/controllers/applescript.py:112-116 | the retained output is at least as long as every snapshot so far, and is one of them unless none was longer than the start |
| AppleScript.KeptNeverShrinks | src/mcp_terminal/controllers/applescript.py:114-116 | the retained output never gets shorter from round to round |
| AppleScript.WatchDetects | src/mcp_terminal/controllers/applescript.py:118-130 | at the first round whose snapshot contains the command and is longer than it, the result is success with the extraction of the output retained so far |
| AppleScript.ExtractOutputIsAfterCommand | src/mcp_terminal/controllers/applescript.py:121-130 | the extraction is the lines after the first line containing the command, or the whole output |
| AppleScript.WatchTimesOut | src/mcp_terminal/controllers/applescript.py:102-140 | without detection before the deadline the result is success with the longest output and "Command may still be running after <timeout> seconds" |
| AppleScript.WatchNonPositiveTimeout | src/mcp_terminal/controllers/applescript.py:102 | with a timeout of 0 or less no round runs and the output is empty |
| AppleScript.WatchNeverFails | src/mcp_terminal/controllers/applescript.py:98-140 | the loop itself only succeeds; it leaves unsuccessfully only through an exception of some capture |
| AppleScript.ExecuteCommand | src/mcp_terminal/controllers/applescript.py:22-78 | returns the result `Execute` specifies and sends the escaped command inside the `do script` line |
| AppleScript.NoWaitIsPlaceholder | src/mcp_terminal/controllers/applescript.py:65-72 | without waiting the result is success with the placeholder text |
| AppleScript.ExecuteShape | src/mcp_terminal/controllers/applescript.py:74-140 | there is never a return code; every failure is an exception with "Error executing command: "; a warning only comes with success |
| ITerm.ITermController.constructor | src/mcp_terminal/controllers/iterm.py:34-36 | connection, app and session start unset |
| ITerm.ITermController.EnsureConnection | src/mcp_terminal/controllers/iterm.py:38-54 | the answer and the new fields are the ones `ConnectStep` gives the old fields |
| ITerm.ITermController.EnsureSession | src/mcp_terminal/controllers/iterm.py:107-148 | the retry loop and the enumeration return the session and new fields `Acquire` gives the old fields |
| ITerm.ITermController.ExecuteCommand | src/mcp_terminal/controllers/iterm.py:150-239 | the result, the new fields and the text sent are the ones `Execute` gives the old fields |
| ITerm.SendAndRead | src/mcp_terminal/controllers/iterm.py:172-236 | sending the command and, when waiting, the quiet-period wait and the final screen read give the result `Deliver` specifies |
| ITerm.ITermController.Cleanup | src/mcp_terminal/controllers/iterm.py:250-271 | the new fields are `AfterCleanup` of the old ones, however the close ends |
| ITerm.WaitQuiet | src/mcp_terminal/controllers/iterm.py:180-206 | the waiting loop stops where `Quiet` says, or raises with the failing read's message |
| ITerm.ConnectIdempotent | src/mcp_terminal/controllers/iterm.py:45-46 | with a connection, `_ensure_connection` reports success and changes nothing |
| ITerm.ConnectFailureKeepsConnection | src/mcp_terminal/controllers/iterm.py:48-54 | a failed create changes nothing; when only the app lookup raises, the new connection is kept and False is returned |
| ITerm.RetryFailsIff | src/mcp_terminal/controllers/iterm.py:108-117 | the retry fails exactly when there is no connection, the first four attempts fail to create one and the fifth does not connect |
| ITerm.RetryUsesFiveAttempts | src/mcp_terminal/controllers/iterm.py:108-109 | only the first five attempts are ever consulted |
| ITerm.RetryKeepsInv | src/mcp_terminal/controllers/iterm.py:45-54 | connecting keeps "no connection ⇒ no app and no session", and success leaves a connection |
| ITerm.AcquireShape | src/mcp_terminal/controllers/iterm.py:119-148 | a session comes back exactly when connecting succeeded, there is an app, a first window with a first tab, and that tab's active session; it is then the stored session |
| ITerm.AppFailureSticks | src/mcp_terminal/controllers/iterm.py:48-148 | after the app lookup raises, the connection is kept without an app, and every later acquisition fails until cleanup |
| ITerm.NoSessionSendsNothing | src/mcp_terminal/controllers/iterm.py:165-170 | without a session nothing is sent and the result is "Failed to get iTerm2 session" |
| ITerm.SentIffDelivered | src/mcp_terminal/controllers/iterm.py:165-236 | text reaches the session exactly when a session is held and `async_send_text` does not raise, and it is the command plus "\n"; a raising send fails with the prefixed message |
| ITerm.SessionSendsCommand | src/mcp_terminal/controllers/iterm.py:173-236 | with a session the command is sent with a newline, and not waiting gives the placeholder |
| ITerm.ExecuteShape | src/mcp_terminal/controllers/iterm.py:208-239 | there is never a return code or warning; a failure is "Failed to get iTerm2 session" or a prefixed exception; after waiting, the output is the lines after the command line on the final screen |
| ITerm.ExecuteKeepsInv | src/mcp_terminal/controllers/iterm.py:34-148 | every call keeps "no connection ⇒ no app and no session" |
| ITerm.QuietStops | src/mcp_terminal/controllers/iterm.py:186-203 | the wait stops at a round reached without raising or passing the deadline, where the deadline has passed or more than 1000 ms have gone by since the count last changed |
| ITerm.ChangeKeepsWaiting | src/mcp_terminal/controllers/iterm.py:196-199 | a change of line count before the deadline moves the last-update time to that round and the wait goes on |
| ITerm.QuietSecondEndsWait | src/mcp_terminal/controllers/iterm.py:201-203 | an unchanged count more than a second after the last change ends the wait |
| ITerm.QuietRaisesFromRead | src/mcp_terminal/controllers/iterm.py:193 | the wait raises only with the message of some screen read |
| ITerm.CleanupClears | src/mcp_terminal/controllers/iterm.py:254-269 | after cleanup all three fields are unset, and a second cleanup changes nothing |
| Screen.FirstIndexSpec | src/mcp_terminal/controllers/applescript.py:142-156 | the least index of a line containing the command, or -1 when no line does |
| Screen.FindCommandIndex | src/mcp_terminal/controllers/applescript.py:153-156 | the loop returns that least index, or -1 |
| Screen.FirstIndexIsLeast | src/mcp_terminal/controllers/iterm.py:215-219 | any index with the least-index property is the one found |
| Screen.AfterCommandIsTail | src/mcp_terminal/controllers/iterm.py:221-225 | when the command's line is found and is not last, the screen text is the lines up to it, "\n", and the result; otherwise the result is all lines joined |
| TerminalTool.ErrorResponse | src/mcp_terminal/tools/terminal.py:116-120 | an exception in the tool gives success=false, "Error executing command: <msg>" and no other field |
| TerminalTool.ResponseInjective | src/mcp_terminal/tools/terminal.py:109-115 | distinct results give distinct responses |
| TerminalTool.TerminalTool.constructor | src/mcp_terminal/tools/terminal.py:73-75 | name "terminal", the controller type, and no controller yet |
| TerminalTool.TerminalTool.New | src/mcp_terminal/tools/terminal.py:65-76 | creating the tool raises exactly the selection's exception, and otherwise holds a controller of the chosen kind |
| TerminalTool.TerminalTool.InitController | src/mcp_terminal/tools/terminal.py:78-87 | stores a fresh controller of the chosen kind, or reports the selection's exception and keeps the field |
| TerminalTool.TerminalTool.ExecuteCommand | src/mcp_terminal/tools/terminal.py:92-120 | a missing controller is created first; the arguments reach the controller unchanged and its result is copied; a failed creation gives the prefixed error |
| TerminalTool.TerminalTool.GetTerminalInfo | src/mcp_terminal/tools/terminal.py:122-146 | a missing controller is created first: afterwards there is one exactly when the selection succeeds, fresh, of the selected kind and (for iTerm2) disconnected; the answer is its terminal type and the system, and "unknown" twice exactly when the selection fails |
| TerminalTool.InitFailsOnlyForExplicitNames | src/mcp_terminal/tools/terminal.py:80-87 | creating the controller fails only when a non-empty type was named |
| FileTool.DirnameIsPrefix | src/mcp_terminal/tools/file.py:85 | the directory of a path is a prefix of it, and a path without "/" has none |
| FileTool.SpliceKeepsText | src/mcp_terminal/tools/file.py:105-110 | the insert keeps the text before and after the insertion point, puts the content in between, and grows by the content's length |
| FileTool.SpliceEnds | src/mcp_terminal/tools/file.py:105-110 | a position at or past the end appends; 0, or a position reaching back past the start, prepends |
| FileTool.SpliceNegative | src/mcp_terminal/tools/file.py:105-110 | a negative position counts back from the end, as a Python slice does, and is recorded unchanged |
| FileTool.FileSystem.constructor | src/mcp_terminal/tools/file.py:61-69 | the file system holds the given files and directories |
| FileTool.ReadTextHasNoCarriageReturn | src/mcp_terminal/tools/file.py:101-102 | text read in universal-newline mode holds no "\r" and is no longer than what is stored |
| FileTool.ReadTextKeepsPlainText | src/mcp_terminal/tools/file.py:101-102 | text without "\r" reads back exactly as stored |
| FileTool.ReadTextIdempotent | src/mcp_terminal/tools/file.py:101-102 | reading what was read changes nothing |
| FileTool.ReadTextCrLfInsert | src/mcp_terminal/tools/file.py:100-110 | a stored "a\r\nb" reads as "a\nb", so an insert of "X" at 3 records 3 and writes "a\nbX" |
| FileTool.FileSystem.FileModify | src/mcp_terminal/tools/file.py:75-137 | the response and the new file system are the ones `Modify` gives the old one |
| FileTool.InsertNeedsPosition | src/mcp_terminal/tools/file.py:92-137 | an insert without a position fails with "Error writing to file: Position must be specified when using INSERT mode" and writes no file |
| FileTool.ModifyWrites | src/mcp_terminal/tools/file.py:89-129 | without faults the file holds exactly what the mode asks (content, stored text + content, or the splice of the text read with universal newlines at min(position, its length)), no other file changes, and the details carry the mode and, for an insert, the recorded position |
| FileTool.FailuresChangeNoFile | src/mcp_terminal/tools/file.py:131-137 | every failure names the file, carries "Error writing to file: " and no details, and leaves every file as it was |
| FileTool.ParentExistsAfterwards | src/mcp_terminal/tools/file.py:84-87 | with `create_dirs`, the parent directory exists afterwards unless creating it raised |
| Server.ResolvedOffDarwin | src/mcp_terminal/server.py:195-203 | off macOS `main` never passes "iterm" or "applescript" on, and "auto" becomes None |
| Server.ChoiceSelects | src/mcp_terminal/server.py:153-203 | for every accepted `--controller` value, selection never raises ValueError; off macOS it gives subprocess, on macOS it fails only for "iterm" without the API |
| Server.MCPTerminalServer.constructor | src/mcp_terminal/server.py:60-72 | no tools and not registered |
| Server.MCPTerminalServer.RegisterTools | src/mcp_terminal/server.py:74-96 | a second call changes nothing; otherwise both tools are entered and the flag set, the terminal tool fresh and holding a controller of the selected kind, or the selection's exception escapes with nothing changed |
| Server.MCPTerminalServer.Cleanup | src/mcp_terminal/server.py:132-139 | every tool's iTerm2 controller ends up cleaned up as its `cleanup` specifies, in any order, even when shared |
| Server.ShutdownGuard.constructor | src/mcp_terminal/server.py:216 | no shutdown yet |
| Server.ShutdownGuard.HandleShutdown | src/mcp_terminal/server.py:219-226 | only the first call shuts down, and the server is shut down at most once |

## Left out

- Real I/O is not modelled. This covers process spawning, `osascript`, the iTerm2 API, `asyncio` sleeps and `wait_for`, and the file system. Each becomes an input: an outcome datatype, or a trace of clock readings with what each read returns. The loop traces are required to pass their deadlines, because the real clock does.
- Time is an integer count of milliseconds, not a floating-point number of seconds.
- Concurrency is not modelled: every call is sequential on one instance.
- Python's `re` engine is a function input that answers `re.match(pattern, command)` with a boolean, or with "does not compile".
- Security.CommandFilter.IsCommandAllowed: the engine is taken to raise nothing but `re.error`, which `_match_pattern` catches. CPython's parser raises OverflowError for a repetition count that is too large (such as `^a{4294967296}`), and `_match_pattern` does not catch it. With such an entry the source raises out of `is_command_allowed` once the search reaches it, so whether it raises or answers depends on the hash-randomised order of the set. The model, which always answers and never depends on that order, does not cover that case.
- Security.DecideRaisesOnlyOnBlank: holds only under the same assumption. An entry whose `re.match` raises OverflowError makes the source raise for non-blank commands too.
- Security.WhitelistModeIff: holds only under the same assumption. An entry whose `re.match` raises OverflowError makes the source raise when the search reaches it before a match.
- Security.BlacklistModeIff: holds only under the same assumption. An entry whose `re.match` raises OverflowError makes the source raise for every command that no entry searched before it refuses.
- Decoding child output and window text (`errors="replace"`) happens outside the model: texts come in already decoded.
- Logging and `print` are not modelled.
- The AppleScript launch step at the start of `_ensure_session` (iterm.py:63-105) is not modelled as a step of its own. It activates iTerm2, creates a window and a tab when there are none, writes an empty line into the current session and sleeps 3 seconds. These effects act on the windows, tabs and screen that the model takes as inputs of the iTerm2 controller. Its result is only printed, and it swallows every exception, so it decides no branch of the model.
- The `parse_error` branch of the iTerm2 controller (iterm.py:228-234) cannot be reached: nothing in its `try` raises.
- The `ITermController` constructor's RuntimeError and ImportError (iterm.py:26-32) cannot be reached through `get_controller`, which creates the controller only on macOS with iterm2 importable. The same holds for the AppleScript controller's RuntimeError (applescript.py:19-20).
- The default in `result.get("success", False)` (terminal.py:110) cannot be reached: every controller result sets "success".
- `register_mcp` on both tools (terminal.py:89, file.py:71) is FastMCP plumbing and is taken not to raise.
- The FastMCP stdio/SSE start, argparse, signal handlers and event-loop task cancellation in server.py are not modelled. What is modelled is the controller-type rule, the two flags and the cleanup loop.
- Exceptions raised by a controller's `cleanup` and swallowed by the server (server.py:138-139) are not modelled: no controller's `cleanup` lets one escape.
- `tests/test_terminal_security.py` expects a command filter inside the terminal tool. `TerminalTool` has none, so the tool here never consults the filter.
- FileTool.FileSystem.FileModify: `os.makedirs` is modelled as creating the named directory only, not its missing ancestors.
- FileTool.FileSystem.FileModify: writing is modelled as on POSIX, where text mode writes "\n" unchanged; the translation to "\r\n" on Windows is not modelled.
- FileTool.FileSystem.FileModify: the faults are inputs and are not tied to the store. Writing to a path that is a directory, or into a parent that does not exist when `create_dirs` is false, raises in Python. The model raises there only when the write fault is given, and otherwise enters the path as a file.
- FileTool.FileSystem.FileModify: a write that raises is modelled as leaving the file unchanged. A real overwrite may already have truncated the file.
- Text.AsciiLower lowers ASCII letters only. No other character lowers to a letter of "true", so the probe test is unaffected.
- `mcp_terminal.py` and `tools/__init__.py` are import shims and are not part of this model.
