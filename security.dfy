/**
 * The command filter: policy files are read into a whitelist and a
 * blacklist, and a command is admitted or refused by its first token (a
 * literal entry) or by the whole command (an entry starting with "^", a
 * regular expression).
 */
module Security {

  import opened Wrappers
  import Text

  // ---------------------------------------------------------------------------
  // Policy files

  /**
   * The policy files the filter can see: a path that exists maps to the lines
   * that reading it yields (with their line ends), up to the end of the file or
   * up to a read error, whichever comes first.
   */
  type Files = map<string, seq<string>>

  /** The entry a policy line contributes: its stripped text, unless that is empty or a comment. */
  function Entry(line: string): Option<string> {
    var t := Text.Strip(line);
    if t != "" && t[0] != '#' then Some(t) else None
  }

  function EntrySet(line: string): set<string> {
    match Entry(line)
    case Some(t) => {t}
    case None => {}
  }

  /** The entries of a run of policy lines. */
  function Entries(lines: seq<string>): set<string>
    decreases |lines|
  {
    if lines == [] then {} else Entries(lines[..|lines| - 1]) + EntrySet(lines[|lines| - 1])
  }

  /** The entries `_load_list` adds for `path`: none when the path is empty or does not exist. */
  function Loaded(files: Files, path: string): set<string> {
    if path != "" && path in files then Entries(files[path]) else {}
  }

  /** The list the constructor builds for an optional policy file (None or "" loads nothing). */
  function Policy(files: Files, path: Option<string>): set<string> {
    match path
    case Some(p) => Loaded(files, p)
    case None => {}
  }

  /** An entry is exactly what some line contributes. */
  lemma EntriesIff(lines: seq<string>, x: string)
    ensures x in Entries(lines) <==> exists i :: 0 <= i < |lines| && Entry(lines[i]) == Some(x)
  {
    if x in Entries(lines) {
      var i := EntryWitness(lines, x);
    }
    if exists i :: 0 <= i < |lines| && Entry(lines[i]) == Some(x) {
      var i :| 0 <= i < |lines| && Entry(lines[i]) == Some(x);
      LineEntryLoaded(lines, x, i);
    }
  }

  /** The line an entry comes from. */
  lemma {:induction false} EntryWitness(lines: seq<string>, x: string) returns (i: nat)
    requires x in Entries(lines)
    ensures i < |lines| && Entry(lines[i]) == Some(x)
    decreases |lines|
  {
    var init := lines[..|lines| - 1];
    if x in Entries(init) {
      i := EntryWitness(init, x);
      assert lines[i] == init[i];
    } else {
      i := |lines| - 1;
    }
  }

  /** What any line contributes is an entry. */
  lemma {:induction false} LineEntryLoaded(lines: seq<string>, x: string, i: nat)
    requires i < |lines| && Entry(lines[i]) == Some(x)
    ensures x in Entries(lines)
    decreases |lines|
  {
    var init := lines[..|lines| - 1];
    if i < |lines| - 1 {
      assert init[i] == lines[i];
      LineEntryLoaded(init, x, i);
    }
  }

  /**
   * Every loaded entry is a line of the file with its surrounding whitespace
   * removed, is not empty and does not start with "#"; and every such line is
   * loaded.
   */
  lemma LoadedIff(files: Files, path: string, x: string)
    ensures x in Loaded(files, path) <==>
      && path != "" && path in files
      && exists i :: 0 <= i < |files[path]| && Text.Strip(files[path][i]) == x && x != "" && x[0] != '#'
  {
    if path != "" && path in files {
      EntriesIff(files[path], x);
    }
  }

  /** A loaded entry has no surrounding whitespace and is not a comment. */
  lemma LoadedEntriesAreStripped(files: Files, path: string, x: string)
    requires x in Loaded(files, path)
    ensures x != "" && x[0] != '#' && Text.Strip(x) == x
  {
    LoadedIff(files, path, x);
    var i :| 0 <= i < |files[path]| && Text.Strip(files[path][i]) == x && x != "" && x[0] != '#';
    Text.StripIdempotent(files[path][i]);
  }

  // ---------------------------------------------------------------------------
  // The decision

  /** The error `command.split()[0]` raises when the command is only whitespace. */
  const IndexErrorMessage := "list index out of range"

  const EmptyWhitelistReason := "Whitelist mode enabled but whitelist is empty"
  const NotInWhitelistPrefix := "Command not in whitelist: "
  const BlacklistedPrefix := "Command blacklisted: "

  /**
   * `re.match(pattern, command)`, which this model does not implement:
   * Some(b) says whether the pattern matches at the start of the command,
   * None that the pattern does not compile.
   */
  type Regex = (string, string) -> Option<bool>

  /** `command.split()[0] if command else ""`. */
  function BaseCommand(command: string): Result<string, string> {
    if command == "" then Success("")
    else match Text.FirstToken(command)
      case Some(t) => Success(t)
      case None => Failure(IndexErrorMessage)
  }

  /** `_match_pattern`: only an entry starting with "^" is a pattern; one that does not compile matches nothing. */
  predicate MatchPattern(regex: Regex, command: string, pattern: string) {
    if |pattern| > 0 && pattern[0] == '^' then regex(pattern, command) == Some(true) else false
  }

  /** The test applied to each entry: the base command equals it, or the command matches it as a pattern. */
  predicate Matches(regex: Regex, command: string, base: string, entry: string) {
    base == entry || MatchPattern(regex, command, entry)
  }

  predicate AnyMatches(regex: Regex, command: string, base: string, entries: set<string>) {
    exists e :: e in entries && Matches(regex, command, base, e)
  }

  /** `(is_allowed, reason_if_not_allowed)` */
  datatype Decision = Decision(allowed: bool, reason: Option<string>)

  /** What `is_command_allowed` returns for a policy, or the error it raises. */
  function Decide(regex: Regex, whitelistMode: bool, whitelist: set<string>, blacklist: set<string>, command: string)
    : Result<Decision, string>
  {
    var base :- BaseCommand(command);
    if whitelistMode then
      if whitelist == {} then Success(Decision(false, Some(EmptyWhitelistReason)))
      else if AnyMatches(regex, command, base, whitelist) then Success(Decision(true, None))
      else Success(Decision(false, Some(NotInWhitelistPrefix + base)))
    else if AnyMatches(regex, command, base, blacklist) then Success(Decision(false, Some(BlacklistedPrefix + base)))
    else Success(Decision(true, None))
  }

  class CommandFilter {
    var whitelistFile: Option<string>
    var blacklistFile: Option<string>
    var whitelistMode: bool
    var whitelist: set<string>
    var blacklist: set<string>

    /** Reads the whitelist and the blacklist from the policy files that are named. */
    constructor (whitelistFile: Option<string>, blacklistFile: Option<string>, whitelistMode: bool, files: Files)
      ensures this.whitelistFile == whitelistFile && this.blacklistFile == blacklistFile
      ensures this.whitelistMode == whitelistMode
      ensures whitelist == Policy(files, whitelistFile)
      ensures blacklist == Policy(files, blacklistFile)
    {
      this.whitelistFile := whitelistFile;
      this.blacklistFile := blacklistFile;
      this.whitelistMode := whitelistMode;
      var white: set<string> := {};
      var black: set<string> := {};
      if whitelistFile.Some? && whitelistFile.value != "" {
        white := LoadList(whitelistFile.value, white, files);
      }
      if blacklistFile.Some? && blacklistFile.value != "" {
        black := LoadList(blacklistFile.value, black, files);
      }
      this.whitelist := white;
      this.blacklist := black;
    }

    /** `_load_list`: adds the entry of every line of the file to `commandSet`; a missing file adds nothing. */
    static method LoadList(path: string, commandSet: set<string>, files: Files) returns (loaded: set<string>)
      ensures loaded == commandSet + Loaded(files, path)
    {
      if path == "" || path !in files {
        return commandSet;
      }
      var lines := files[path];
      loaded := commandSet;
      for i := 0 to |lines|
        invariant loaded == commandSet + Entries(lines[..i])
      {
        assert lines[..i + 1][..i] == lines[..i];
        var line := Text.Strip(lines[i]);
        if line != "" && line[0] != '#' {
          loaded := loaded + {line};
        }
      }
      assert lines[..|lines|] == lines;
    }

    /**
     * `is_command_allowed`: in whitelist mode searches the whitelist for an
     * entry that admits the command, otherwise searches the blacklist for one
     * that refuses it; the sets are searched in an order the model leaves open.
     */
    method IsCommandAllowed(command: string, regex: Regex) returns (r: Result<Decision, string>)
      ensures r == Decide(regex, whitelistMode, whitelist, blacklist, command)
    {
      var base := "";
      if command != "" {
        var token := Text.FirstToken(command);
        if token.None? {
          return Failure(IndexErrorMessage);
        }
        base := token.value;
      }
      if whitelistMode {
        if whitelist == {} {
          return Success(Decision(false, Some(EmptyWhitelistReason)));
        }
        var rest := whitelist;
        while rest != {}
          invariant rest <= whitelist
          invariant forall e :: e in whitelist && e !in rest ==> !Matches(regex, command, base, e)
          decreases |rest|
        {
          var allowed :| allowed in rest;
          if base == allowed || MatchPattern(regex, command, allowed) {
            return Success(Decision(true, None));
          }
          rest := rest - {allowed};
        }
        return Success(Decision(false, Some(NotInWhitelistPrefix + base)));
      } else {
        var rest := blacklist;
        while rest != {}
          invariant rest <= blacklist
          invariant forall e :: e in blacklist && e !in rest ==> !Matches(regex, command, base, e)
          decreases |rest|
        {
          var blocked :| blocked in rest;
          if base == blocked || MatchPattern(regex, command, blocked) {
            return Success(Decision(false, Some(BlacklistedPrefix + base)));
          }
          rest := rest - {blocked};
        }
        return Success(Decision(true, None));
      }
    }
  }

  // ---------------------------------------------------------------------------
  // What the decision guarantees

  /**
   * The base command is "" for the empty command and the first token
   * otherwise; a command of whitespace only has none and raises.
   */
  lemma BaseCommandIsFirstToken(command: string)
    ensures command == "" ==> BaseCommand(command) == Success("")
    ensures command != "" && Text.AllSpace(command) ==> BaseCommand(command) == Failure(IndexErrorMessage)
    ensures command != "" && !Text.AllSpace(command) ==>
      && BaseCommand(command).Success?
      && var t, k := BaseCommand(command).value, Text.LeadingSpaces(command);
      && t != "" && Text.NoSpace(t) && Text.AllSpace(command[..k])
      && k + |t| <= |command| && command[k..k + |t|] == t
      && (k + |t| == |command| || Text.IsSpace(command[k + |t|]))
  {
  }

  /** Only a command of whitespace only makes the filter raise, in either mode. */
  lemma DecideRaisesOnlyOnBlank(regex: Regex, whitelistMode: bool, whitelist: set<string>, blacklist: set<string>, command: string)
    ensures Decide(regex, whitelistMode, whitelist, blacklist, command).Failure? <==> command != "" && Text.AllSpace(command)
  {
    BaseCommandIsFirstToken(command);
  }

  /** In whitelist mode with an empty whitelist every command is refused, whatever the blacklist. */
  lemma EmptyWhitelistDeniesAll(regex: Regex, blacklist: set<string>, command: string)
    requires BaseCommand(command).Success?
    ensures Decide(regex, true, {}, blacklist, command) == Success(Decision(false, Some(EmptyWhitelistReason)))
  {
  }

  /**
   * In whitelist mode a command is admitted exactly when some entry equals its
   * base command or matches it as a pattern, and is otherwise refused as not
   * in the whitelist; the blacklist plays no part.
   */
  lemma WhitelistModeIff(regex: Regex, whitelist: set<string>, blacklist: set<string>, command: string, base: string)
    requires whitelist != {} && BaseCommand(command) == Success(base)
    ensures var d := Decide(regex, true, whitelist, blacklist, command);
      && d.Success?
      && (d.value.allowed <==> exists e :: e in whitelist && (base == e || MatchPattern(regex, command, e)))
      && (!d.value.allowed ==> d.value.reason == Some(NotInWhitelistPrefix + base))
    ensures forall other: set<string> ::
      Decide(regex, true, whitelist, other, command) == Decide(regex, true, whitelist, blacklist, command)
  {
  }

  /**
   * In blacklist mode a command is refused as blacklisted exactly when some
   * entry equals its base command or matches it as a pattern; the whitelist
   * plays no part.
   */
  lemma BlacklistModeIff(regex: Regex, whitelist: set<string>, blacklist: set<string>, command: string, base: string)
    requires BaseCommand(command) == Success(base)
    ensures var d := Decide(regex, false, whitelist, blacklist, command);
      && d.Success?
      && (!d.value.allowed <==> exists e :: e in blacklist && (base == e || MatchPattern(regex, command, e)))
      && (!d.value.allowed ==> d.value.reason == Some(BlacklistedPrefix + base))
    ensures forall other: set<string> ::
      Decide(regex, false, other, blacklist, command) == Decide(regex, false, whitelist, blacklist, command)
  {
  }

  /** An admitted command carries no reason, and a refused one always carries one. */
  lemma ReasonIffDenied(regex: Regex, whitelistMode: bool, whitelist: set<string>, blacklist: set<string>, command: string)
    requires Decide(regex, whitelistMode, whitelist, blacklist, command).Success?
    ensures var d := Decide(regex, whitelistMode, whitelist, blacklist, command).value;
      d.allowed <==> d.reason.None?
  {
  }

  /** An entry not starting with "^" matches only a base command equal to it. */
  lemma LiteralEntryMatchesOnlyBase(regex: Regex, command: string, base: string, entry: string)
    requires entry == "" || entry[0] != '^'
    ensures Matches(regex, command, base, entry) <==> base == entry
  {
  }

  /** A pattern that does not compile matches no command (and nothing is raised). */
  lemma InvalidPatternNeverMatches(regex: Regex, command: string, pattern: string)
    requires regex(pattern, command).None?
    ensures !MatchPattern(regex, command, pattern)
  {
  }

  /** Only the answers of the regular-expression engine for "^" entries can change a decision. */
  lemma DecideDependsOnlyOnPatternAnswers(r1: Regex, r2: Regex, whitelistMode: bool, whitelist: set<string>, blacklist: set<string>, command: string)
    requires forall e :: e in whitelist + blacklist && |e| > 0 && e[0] == '^' ==> r1(e, command) == r2(e, command)
    ensures Decide(r1, whitelistMode, whitelist, blacklist, command) == Decide(r2, whitelistMode, whitelist, blacklist, command)
  {
    var b := BaseCommand(command);
    if b.Success? {
      assert forall e :: e in whitelist ==> (Matches(r1, command, b.value, e) <==> Matches(r2, command, b.value, e));
      assert forall e :: e in blacklist ==> (Matches(r1, command, b.value, e) <==> Matches(r2, command, b.value, e));
    }
  }

  // ---------------------------------------------------------------------------
  // The scenarios of tests/test_command_filter.py

  const WhitelistLines := ["# Whitelist test file\n", "ls\n", "cat\n", "pwd\n", "^git.*\n"]
  const BlacklistLines := ["# Blacklist test file\n", "rm\n", "sudo\n", "^.*eval.*\n"]
  const TestWhitelist: set<string> := {"ls", "cat", "pwd", "^git.*"}
  const TestBlacklist: set<string> := {"rm", "sudo", "^.*eval.*"}

  /** The comment line is skipped and the line ends are stripped from the other lines. */
  lemma TestWhitelistFileLoads(w: seq<string>)
    requires w == WhitelistLines
    ensures Entries(w) == TestWhitelist
  {
    EntriesOfFive(w[0], w[1], w[2], w[3], w[4]);
    assert w == [w[0], w[1], w[2], w[3], w[4]];
    WhitelistLineEntries();
  }

  /** What each line of the whitelist file of the tests contributes. */
  lemma WhitelistLineEntries()
    ensures EntrySet("# Whitelist test file\n") == {}
    ensures EntrySet("ls\n") == {"ls"} && EntrySet("cat\n") == {"cat"}
    ensures EntrySet("pwd\n") == {"pwd"} && EntrySet("^git.*\n") == {"^git.*"}
  {
    assert Text.Strip("# Whitelist test file\n") == "# Whitelist test file";
    assert Text.Strip("ls\n") == "ls";
    assert Text.Strip("cat\n") == "cat";
    assert Text.Strip("pwd\n") == "pwd";
    assert Text.Strip("^git.*\n") == "^git.*";
  }

  /** The same for the blacklist file of the tests. */
  lemma TestBlacklistFileLoads(b: seq<string>)
    requires b == BlacklistLines
    ensures Entries(b) == TestBlacklist
  {
    EntriesOfFour(b[0], b[1], b[2], b[3]);
    assert b == [b[0], b[1], b[2], b[3]];
    BlacklistLineEntries();
  }

  /** What each line of the blacklist file of the tests contributes. */
  lemma BlacklistLineEntries()
    ensures EntrySet("# Blacklist test file\n") == {}
    ensures EntrySet("rm\n") == {"rm"} && EntrySet("sudo\n") == {"sudo"} && EntrySet("^.*eval.*\n") == {"^.*eval.*"}
  {
    assert Text.Strip("# Blacklist test file\n") == "# Blacklist test file";
    assert Text.Strip("rm\n") == "rm";
    assert Text.Strip("sudo\n") == "sudo";
    assert Text.Strip("^.*eval.*\n") == "^.*eval.*";
  }

  /** The entries of a few lines, line by line. */
  lemma EntriesOfThree(l0: string, l1: string, l2: string)
    ensures Entries([l0, l1, l2]) == EntrySet(l0) + EntrySet(l1) + EntrySet(l2)
  {
    assert [l0][..0] == [];
    assert Entries([l0]) == EntrySet(l0);
    assert [l0, l1][..1] == [l0];
    assert Entries([l0, l1]) == EntrySet(l0) + EntrySet(l1);
    assert [l0, l1, l2][..2] == [l0, l1];
  }

  lemma EntriesOfFour(l0: string, l1: string, l2: string, l3: string)
    ensures Entries([l0, l1, l2, l3]) == EntrySet(l0) + EntrySet(l1) + EntrySet(l2) + EntrySet(l3)
  {
    EntriesOfThree(l0, l1, l2);
    assert [l0, l1, l2, l3][..3] == [l0, l1, l2];
  }

  lemma EntriesOfFive(l0: string, l1: string, l2: string, l3: string, l4: string)
    ensures Entries([l0, l1, l2, l3, l4]) == EntrySet(l0) + EntrySet(l1) + EntrySet(l2) + EntrySet(l3) + EntrySet(l4)
  {
    EntriesOfFour(l0, l1, l2, l3);
    assert [l0, l1, l2, l3, l4][..4] == [l0, l1, l2, l3];
  }

  /** With the test whitelist a matching literal entry admits by the first token. */
  lemma TestWhitelistLiteral(regex: Regex, command: string)
    requires command == "ls -la"
    ensures Decide(regex, true, TestWhitelist, {}, command) == Success(Decision(true, None))
  {
    FirstTokenOf(command, "ls");
    assert Matches(regex, command, "ls", "ls");
  }

  /** With the test whitelist the git pattern admits by the whole command. */
  lemma TestWhitelistPattern(regex: Regex, command: string)
    requires command == "git status" && regex("^git.*", command) == Some(true)
    ensures Decide(regex, true, TestWhitelist, {}, command) == Success(Decision(true, None))
  {
    FirstTokenOf(command, "git");
    assert Matches(regex, command, "git", "^git.*");
  }

  /** With the test whitelist a command no entry admits is refused as not in the whitelist. */
  lemma TestWhitelistRefuses(regex: Regex, command: string)
    requires command == "rm file.txt" && regex("^git.*", command) == Some(false)
    ensures Decide(regex, true, TestWhitelist, {}, command) == Success(Decision(false, Some(NotInWhitelistPrefix + "rm")))
  {
    FirstTokenOf(command, "rm");
    forall e | e in TestWhitelist
      ensures !Matches(regex, command, "rm", e)
    {
    }
  }

  /** With the test blacklist a literal entry refuses by the first token. */
  lemma TestBlacklistLiteral(regex: Regex, command: string)
    requires command == "rm file.txt"
    ensures Decide(regex, false, {}, TestBlacklist, command) == Success(Decision(false, Some(BlacklistedPrefix + "rm")))
  {
    FirstTokenOf(command, "rm");
    assert Matches(regex, command, "rm", "rm");
  }

  /** With the test blacklist the eval pattern refuses a command whose first token is not listed. */
  lemma TestBlacklistPattern(regex: Regex, command: string)
    requires command == "python -c 'eval(\"print(1)\")'" && regex("^.*eval.*", command) == Some(true)
    ensures Decide(regex, false, {}, TestBlacklist, command) == Success(Decision(false, Some(BlacklistedPrefix + "python")))
  {
    FirstTokenOf(command, "python");
    assert Matches(regex, command, "python", "^.*eval.*");
  }

  /** With the test blacklist a command no entry refuses is admitted. */
  lemma TestBlacklistAdmits(regex: Regex, command: string)
    requires command == "ls -la" && regex("^.*eval.*", command) == Some(false)
    ensures Decide(regex, false, {}, TestBlacklist, command) == Success(Decision(true, None))
  {
    FirstTokenOf(command, "ls");
    forall e | e in TestBlacklist
      ensures !Matches(regex, command, "ls", e)
    {
    }
  }

  /** An entry that fails to compile refuses the command in whitelist mode instead of raising. */
  lemma TestInvalidPattern(regex: Regex, command: string)
    requires command == "invalid regex" && regex("^*invalid", command).None?
    ensures Decide(regex, true, {"^*invalid"}, {}, command) == Success(Decision(false, Some(NotInWhitelistPrefix + "invalid")))
  {
    FirstTokenOf(command, "invalid");
    assert !Matches(regex, command, "invalid", "^*invalid");
  }

  /** A command that starts with `token` followed by a space has it as its first token. */
  lemma FirstTokenOf(command: string, token: string)
    requires token != [] && Text.NoSpace(token) && |token| < |command|
    requires command[..|token|] == token && command[|token|] == ' '
    ensures Text.FirstToken(command) == Some(token)
  {
    var t := Text.FirstToken(command);
    assert !Text.IsSpace(command[0]);
    assert Text.LeadingSpaces(command) == 0;
    assert t.Some?;
  }
}
