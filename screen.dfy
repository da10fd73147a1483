/**
 * The "output after the command" heuristic that both window-driving
 * controllers apply to the terminal's text: find the first line that
 * contains the command and keep the lines after it.
 */
module Screen {

  import Text

  /** The least index whose line contains `command`, or -1 when no line does. */
  function FirstIndex(lines: seq<string>, command: string): int {
    if lines == [] then -1
    else if Text.Contains(lines[0], command) then 0
    else
      var k := FirstIndex(lines[1..], command);
      if k == -1 then -1 else k + 1
  }

  /** `FirstIndex` is an index of a line containing the command with none before it, or -1 when no line contains it. */
  lemma {:induction false} FirstIndexSpec(lines: seq<string>, command: string)
    ensures var i := FirstIndex(lines, command);
      && -1 <= i < |lines|
      && (i >= 0 ==> Text.Contains(lines[i], command))
      && (forall j :: 0 <= j < |lines| && (i == -1 || j < i) ==> !Text.Contains(lines[j], command))
  {
    if lines != [] && !Text.Contains(lines[0], command) {
      FirstIndexSpec(lines[1..], command);
      var k := FirstIndex(lines[1..], command);
      assert forall j :: 1 <= j < |lines| ==> lines[j] == lines[1..][j - 1];
    }
  }

  /** Scans the lines in order and stops at the first one that contains the command. */
  method FindCommandIndex(lines: seq<string>, command: string) returns (index: int)
    ensures -1 <= index < |lines|
    ensures index >= 0 ==> Text.Contains(lines[index], command)
    ensures forall j :: 0 <= j < |lines| && (index == -1 || j < index) ==> !Text.Contains(lines[j], command)
    ensures index == FirstIndex(lines, command)
  {
    for i := 0 to |lines|
      invariant forall j :: 0 <= j < i ==> !Text.Contains(lines[j], command)
    {
      if Text.Contains(lines[i], command) {
        FirstIndexIsLeast(lines, command, i);
        return i;
      }
    }
    FirstIndexIsLeast(lines, command, -1);
    return -1;
  }

  /** Any index with the least-index property is `FirstIndex`. */
  lemma FirstIndexIsLeast(lines: seq<string>, command: string, i: int)
    requires -1 <= i < |lines|
    requires i >= 0 ==> Text.Contains(lines[i], command)
    requires forall j :: 0 <= j < |lines| && (i == -1 || j < i) ==> !Text.Contains(lines[j], command)
    ensures i == FirstIndex(lines, command)
  {
    FirstIndexSpec(lines, command);
  }

  /**
   * The lines after the first line containing the command, joined with "\n",
   * when that line exists and is not the last; otherwise all lines joined.
   */
  function AfterCommand(lines: seq<string>, command: string): string {
    var i := FirstIndex(lines, command);
    if 0 <= i < |lines| - 1 then Text.Join(lines[i + 1..]) else Text.Join(lines)
  }

  /** Joining two non-empty runs of lines puts one "\n" between them. */
  lemma {:induction false} JoinAppend(a: seq<string>, b: seq<string>)
    requires |a| >= 1 && |b| >= 1
    ensures Text.Join(a + b) == Text.Join(a) + "\n" + Text.Join(b)
  {
    if |a| > 1 {
      JoinAppend(a[1..], b);
      assert (a + b)[1..] == a[1..] + b;
    }
  }

  /**
   * What `AfterCommand` keeps: when the command's line is found and is not
   * the last, the whole text is the lines up to and including it, a newline,
   * and the result; otherwise the result is the whole text.
   */
  lemma AfterCommandIsTail(lines: seq<string>, command: string)
    ensures var i, r := FirstIndex(lines, command), AfterCommand(lines, command);
      if 0 <= i < |lines| - 1 then
        && Text.Contains(lines[i], command)
        && Text.Join(lines) == Text.Join(lines[..i + 1]) + "\n" + r
      else r == Text.Join(lines)
  {
    var i := FirstIndex(lines, command);
    FirstIndexSpec(lines, command);
    if 0 <= i < |lines| - 1 {
      JoinAppend(lines[..i + 1], lines[i + 1..]);
      assert lines[..i + 1] + lines[i + 1..] == lines;
    }
  }
}
