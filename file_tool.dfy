/**
 * The "file" tool's `file_modify`: write content to a file by overwriting,
 * appending or inserting at a position, creating the parent directory first
 * when asked. The file system is a map from paths to contents plus a set of
 * directories; whether each system call raises is an input.
 */
module FileTool {

  import opened Wrappers

  datatype WriteMode = Overwrite | Append | Insert

  /** `details`: the mode, and for an insert the position recorded. */
  datatype Details = Details(mode: WriteMode, position: Option<int>)

  /** `FileOperationResponse` */
  datatype Response = Response(success: bool, error: Option<string>, filepath: string, details: Option<Details>)

  const ErrorPrefix := "Error writing to file: "
  const NoPositionError := "Position must be specified when using INSERT mode"

  /** The files (path to contents) and the directories that exist. */
  datatype Store = Store(files: map<string, string>, dirs: set<string>)

  /** Which system calls raise in one call, with their messages. */
  datatype Faults = Faults(makedirs: Option<string>, read: Option<string>, write: Option<string>)

  predicate Exists(s: Store, path: string) {
    path in s.files || path in s.dirs
  }

  // ---------------------------------------------------------------------------
  // os.path.dirname

  /** The index just after the last "/" of `p`, or 0 when there is none. */
  function AfterLastSlash(p: string): (i: nat)
    ensures i <= |p|
    ensures i > 0 ==> p[i - 1] == '/'
    ensures forall j :: i <= j < |p| ==> p[j] != '/'
  {
    if p == [] then 0
    else if p[|p| - 1] == '/' then |p|
    else AfterLastSlash(p[..|p| - 1])
  }

  predicate AllSlashes(s: string) {
    forall i :: 0 <= i < |s| ==> s[i] == '/'
  }

  function TrimTrailingSlashes(s: string): (r: string)
    ensures r <= s
    ensures AllSlashes(s[|r|..])
  {
    if s != [] && s[|s| - 1] == '/' then
      var r := TrimTrailingSlashes(s[..|s| - 1]);
      assert s[..|s| - 1][|r|..] + ['/'] == s[|r|..];
      r
    else s
  }

  /** `os.path.dirname` for POSIX paths: the part before the last "/", without trailing slashes unless it is all slashes. */
  function Dirname(p: string): string {
    var head := p[..AfterLastSlash(p)];
    if head != "" && !AllSlashes(head) then TrimTrailingSlashes(head) else head
  }

  /** The directory is a prefix of the path, and a path without "/" has none. */
  lemma DirnameIsPrefix(p: string)
    ensures Dirname(p) <= p
    ensures (forall i :: 0 <= i < |p| ==> p[i] != '/') ==> Dirname(p) == ""
  {
    var i := AfterLastSlash(p);
    var head := p[..i];
    if head != "" && !AllSlashes(head) {
      assert TrimTrailingSlashes(head) <= head;
    }
    if i > 0 {
      assert p[i - 1] == '/';
    }
  }

  // ---------------------------------------------------------------------------
  // Reading a file in text mode

  /**
   * What `open(filepath, "r").read()` gives for the stored text: universal
   * newlines turn each "\r\n" and each lone "\r" into "\n".
   */
  function ReadText(s: string): string {
    if s == [] then []
    else if s[0] == '\r' then
      if |s| >= 2 && s[1] == '\n' then ['\n'] + ReadText(s[2..]) else ['\n'] + ReadText(s[1..])
    else [s[0]] + ReadText(s[1..])
  }

  /** The text read holds no "\r" and is never longer than what is stored. */
  lemma {:induction false} ReadTextHasNoCarriageReturn(s: string)
    ensures '\r' !in ReadText(s)
    ensures |ReadText(s)| <= |s|
  {
    if s != [] {
      if s[0] == '\r' && |s| >= 2 && s[1] == '\n' {
        ReadTextHasNoCarriageReturn(s[2..]);
      } else {
        ReadTextHasNoCarriageReturn(s[1..]);
      }
    }
  }

  /** Text without "\r" reads back as stored; so reading what was read changes nothing. */
  lemma {:induction false} ReadTextKeepsPlainText(s: string)
    requires '\r' !in s
    ensures ReadText(s) == s
  {
    if s != [] {
      assert s[0] != '\r';
      ReadTextKeepsPlainText(s[1..]);
      assert [s[0]] + s[1..] == s;
    }
  }

  lemma ReadTextIdempotent(s: string)
    ensures ReadText(ReadText(s)) == ReadText(s)
  {
    ReadTextHasNoCarriageReturn(s);
    ReadTextKeepsPlainText(ReadText(s));
  }

  /** A stored "a\r\nb" reads as "a\nb": an insert of "X" at 3 records 3 and appends. */
  lemma ReadTextCrLfInsert(stored: string)
    requires stored == "a\r\nb"
    ensures ReadText(stored) == "a\nb"
    ensures Recorded(ReadText(stored), 3) == 3
    ensures Splice(ReadText(stored), "X", 3) == "a\nbX"
  {
    assert stored[1..][1..][1..] == "b";
    assert ReadText(stored[1..][1..][1..]) == "b";
    assert stored[1..][1..] == "\nb";
    assert ReadText(stored[1..]) == "\nb";
    assert ReadText(stored) == "a\nb";
  }

  // ---------------------------------------------------------------------------
  // The insert splice

  /** `min(position, len(existing))`: the position recorded in the details. */
  function Recorded(existing: string, position: int): int {
    if position < |existing| then position else |existing|
  }

  /** Where `existing[:p] + content + existing[p:]` puts the content: a negative `p` counts from the end, clamped at 0. */
  function InsertionPoint(existing: string, position: int): (q: nat)
    ensures q <= |existing|
  {
    var p := Recorded(existing, position);
    if p >= 0 then p else if |existing| + p >= 0 then |existing| + p else 0
  }

  function Splice(existing: string, content: string, position: int): string {
    var q := InsertionPoint(existing, position);
    existing[..q] + content + existing[q..]
  }

  /**
   * The insert keeps everything before the insertion point and everything
   * after it, and puts the content in between: the result is as long as both
   * together, and removing the content gives back the old text.
   */
  lemma SpliceKeepsText(existing: string, content: string, position: int)
    ensures var r, q := Splice(existing, content, position), InsertionPoint(existing, position);
      && |r| == |existing| + |content|
      && r[..q] == existing[..q]
      && r[q..q + |content|] == content
      && r[q + |content|..] == existing[q..]
      && r[..q] + r[q + |content|..] == existing
  {
    var r, q := Splice(existing, content, position), InsertionPoint(existing, position);
    assert r[..q] == existing[..q];
    assert r[q..q + |content|] == content;
    assert r[q + |content|..] == existing[q..];
    assert existing[..q] + existing[q..] == existing;
  }

  /** A position at or past the end appends; a position of 0, or one reaching back past the start, prepends. */
  lemma SpliceEnds(existing: string, content: string, position: int)
    ensures position >= |existing| ==> Splice(existing, content, position) == existing + content
    ensures position == 0 || position <= -|existing| ==> Splice(existing, content, position) == content + existing
  {
    assert existing[..|existing|] == existing && existing[|existing|..] == [];
    assert existing[..0] == [] && existing[0..] == existing;
  }

  /** A negative position counts back from the end, as a Python slice does. */
  lemma SpliceNegative(existing: string, content: string, position: int)
    requires -|existing| <= position < 0
    ensures InsertionPoint(existing, position) == |existing| + position
    ensures Recorded(existing, position) == position
  {
  }

  // ---------------------------------------------------------------------------
  // file_modify

  function Fail(filepath: string, message: string): Response {
    Response(false, Some(ErrorPrefix + message), filepath, None)
  }

  /** The contents written for each mode, given what was read of the file ("" when it did not exist). */
  function NewContents(mode: WriteMode, existing: string, content: string, position: int): string {
    match mode
    case Overwrite => content
    case Append => existing + content
    case Insert => Splice(existing, content, position)
  }

  /** The file system after the directory step of `file_modify`, or the exception it raised. */
  function MakeParent(s: Store, filepath: string, createDirs: bool, faults: Faults): Result<Store, string> {
    var directory := Dirname(filepath);
    if createDirs && directory != "" && !Exists(s, directory) then
      if faults.makedirs.Some? then Failure(faults.makedirs.value)
      else Success(s.(dirs := s.dirs + {directory}))
    else Success(s)
  }

  /** What `file_modify` returns and the file system afterwards. */
  function Modify(s: Store, filepath: string, content: string, mode: WriteMode, position: Option<int>,
                  createDirs: bool, faults: Faults): (Response, Store)
  {
    match MakeParent(s, filepath, createDirs, faults)
    case Failure(msg) => (Fail(filepath, msg), s)
    case Success(t) =>
      if mode == Insert && position.None? then (Fail(filepath, NoPositionError), t)
      else if mode == Insert && Exists(t, filepath) && faults.read.Some? then (Fail(filepath, faults.read.value), t)
      else if faults.write.Some? then (Fail(filepath, faults.write.value), t)
      else
        var stored := if filepath in t.files then t.files[filepath] else "";
        var existing := if mode == Insert then ReadText(stored) else stored;
        var p := position.GetOr(0);
        var details := Details(mode, if mode == Insert then Some(Recorded(existing, p)) else None);
        (Response(true, None, filepath, Some(details)),
         t.(files := t.files[filepath := NewContents(mode, existing, content, p)]))
  }

  class FileSystem {
    var files: map<string, string>
    var dirs: set<string>

    function State(): Store
      reads this
    {
      Store(files, dirs)
    }

    constructor (files: map<string, string>, dirs: set<string>)
      ensures State() == Store(files, dirs)
    {
      this.files := files;
      this.dirs := dirs;
    }

    /** The `file_modify` tool: the directory step, then the write the mode asks for. */
    method FileModify(filepath: string, content: string, mode: WriteMode, position: Option<int>,
                      createDirs: bool, faults: Faults) returns (resp: Response)
      modifies this
      ensures (resp, State()) == Modify(old(State()), filepath, content, mode, position, createDirs, faults)
    {
      if createDirs {
        var directory := Dirname(filepath);
        if directory != "" && !(directory in files || directory in dirs) {
          if faults.makedirs.Some? {
            return Fail(filepath, faults.makedirs.value);
          }
          dirs := dirs + {directory};
        }
      }
      var details := Details(mode, None);
      if mode == Insert {
        if position.None? {
          return Fail(filepath, NoPositionError);
        }
        var existing := "";
        if filepath in files || filepath in dirs {
          if faults.read.Some? {
            return Fail(filepath, faults.read.value);
          }
          if filepath in files {
            existing := ReadText(files[filepath]);
          }
        }
        var p := Recorded(existing, position.value);
        var q := InsertionPoint(existing, position.value);
        var newContent := existing[..q] + content + existing[q..];
        details := details.(position := Some(p));
        if faults.write.Some? {
          return Fail(filepath, faults.write.value);
        }
        files := files[filepath := newContent];
      } else if mode == Append {
        if faults.write.Some? {
          return Fail(filepath, faults.write.value);
        }
        var existing := if filepath in files then files[filepath] else "";
        files := files[filepath := existing + content];
      } else {
        if faults.write.Some? {
          return Fail(filepath, faults.write.value);
        }
        files := files[filepath := content];
      }
      return Response(true, None, filepath, Some(details));
    }
  }

  // ---------------------------------------------------------------------------
  // What file_modify guarantees

  /** An insert without a position fails with its message and writes nothing (the directory step has already run). */
  lemma InsertNeedsPosition(s: Store, filepath: string, content: string, createDirs: bool, faults: Faults)
    requires MakeParent(s, filepath, createDirs, faults).Success?
    ensures var (resp, t) := Modify(s, filepath, content, Insert, None, createDirs, faults);
      && resp == Response(false, Some(ErrorPrefix + NoPositionError), filepath, None)
      && t.files == s.files
  {
  }

  /**
   * When nothing raises, the file afterwards holds exactly what the mode asks
   * for, no other file changes, and the response is success with the mode
   * (and, for an insert, the recorded position).
   */
  lemma ModifyWrites(s: Store, filepath: string, content: string, mode: WriteMode, position: Option<int>, createDirs: bool)
    requires mode == Insert ==> position.Some?
    ensures var faults := Faults(None, None, None);
      var (resp, t) := Modify(s, filepath, content, mode, position, createDirs, faults);
      var stored := if filepath in s.files then s.files[filepath] else "";
      var existing := ReadText(stored);
      && resp.success && resp.error.None? && resp.filepath == filepath
      && resp.details.Some? && resp.details.value.mode == mode
      && (mode == Insert <==> resp.details.value.position.Some?)
      && filepath in t.files
      && (mode == Overwrite ==> t.files[filepath] == content)
      && (mode == Append ==> t.files[filepath] == stored + content)
      && (mode == Insert ==>
            t.files[filepath] == existing[..InsertionPoint(existing, position.value)] + content
                                 + existing[InsertionPoint(existing, position.value)..]
            && resp.details.value.position == Some(if position.value < |existing| then position.value else |existing|))
      && (forall f :: f in s.files && f != filepath ==> f in t.files && t.files[f] == s.files[f])
      && (forall f :: f in t.files ==> f in s.files || f == filepath)
  {
  }

  /** Every failure names the file and carries the "Error writing to file: " prefix, and leaves every file as it was. */
  lemma FailuresChangeNoFile(s: Store, filepath: string, content: string, mode: WriteMode, position: Option<int>,
                             createDirs: bool, faults: Faults)
    ensures var (resp, t) := Modify(s, filepath, content, mode, position, createDirs, faults);
      && resp.filepath == filepath
      && (!resp.success ==> resp.error.Some? && ErrorPrefix <= resp.error.value && resp.details.None? && t.files == s.files)
      && (resp.success ==> resp.error.None? && resp.details.Some?)
      && s.dirs <= t.dirs
  {
  }

  /** With `create_dirs` the parent directory exists afterwards unless creating it raised. */
  lemma ParentExistsAfterwards(s: Store, filepath: string, content: string, mode: WriteMode, position: Option<int>, faults: Faults)
    requires faults.makedirs.None? && Dirname(filepath) != ""
    ensures Exists(Modify(s, filepath, content, mode, position, true, faults).1, Dirname(filepath))
  {
  }
}
