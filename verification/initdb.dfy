/**
 * `InitDatabase.runSqlScript`: a MySQL script read line by line and cut into commands at lines
 * ending in ";". Reading the file and the database are abstracted: the script is its lines, a
 * read error is the index of the read that fails, and the database is its verdict on each
 * command, given how many commands it has run before and the command's text.
 */
module InitDb {
  import opened Wrappers
  import opened Strings

  /** A script line as the loop reads it, after trimming. */
  datatype Line =
    | Comment                    // starts with "--", whatever it ends with
    | Terminator(text: string)   // ends with ";": completes a command
    | Middle(text: string)       // anything else, blank lines included

  /** How the loop reads one line. */
  function Classify(line: string): Line {
    var t := Trim(line);
    if IsCommentText(t) then Comment else if EndsInSemicolon(t) then Terminator(t) else Middle(t)
  }

  /** `startsWith("--")` on a trimmed line. */
  predicate IsCommentText(t: string) {
    |t| >= 2 && t[0] == '-' && t[1] == '-'
  }

  lemma CommentTextStartsWithDashes(t: string)
    ensures IsCommentText(t) <==> StartsWith(t, "--")
  {
    if |t| >= 2 {
      assert t[..2] == [t[0], t[1]];
    }
  }

  /** `endsWith(";")` on a trimmed line. */
  predicate EndsInSemicolon(t: string) {
    |t| > 0 && t[|t| - 1] == ';'
  }

  lemma SemicolonEnding(t: string)
    ensures EndsInSemicolon(t) <==> EndsWith(t, ";")
  {
    if |t| > 0 {
      assert t[|t| - 1..] == [t[|t| - 1]];
    }
  }

  /** Every line `read` calls a terminator ends with ";". */
  ghost predicate WellFormed(read: string -> Line) {
    forall line :: read(line).Terminator? ==> EndsWith(read(line).text, ";")
  }

  lemma ClassifiedWellFormed()
    ensures WellFormed(Classify)
  {
    forall line | Classify(line).Terminator? ensures EndsWith(Classify(line).text, ";") {
      SemicolonEnding(Trim(line));
    }
  }

  /** The commands the lines complete, in order, and the text still buffered after them. */
  datatype Scanned = Scanned(commands: seq<string>, pending: string)

  /**
   * One line's effect: a comment does nothing, a terminator completes the buffered command, any
   * other line is buffered, trimmed, with a newline.
   */
  function Step(s: Scanned, l: Line): Scanned {
    match l
    case Comment => s
    case Terminator(t) => Scanned(s.commands + [s.pending + t], "")
    case Middle(t) => Scanned(s.commands, s.pending + t + "\n")
  }

  /**
   * The first `j` lines of the script, each read by `read` (`Classify` in the program) and
   * taken one step each, in order.
   */
  function ScanTo(lines: seq<string>, read: string -> Line, j: nat): Scanned
    requires j <= |lines|
  {
    if j == 0 then Scanned([], "") else Step(ScanTo(lines, read, j - 1), read(lines[j - 1]))
  }

  /** The whole script. */
  function Scan(lines: seq<string>, read: string -> Line): Scanned {
    ScanTo(lines, read, |lines|)
  }

  /** Only the lines read so far matter. */
  lemma {:induction false} ScanToPrefix(a: seq<string>, b: seq<string>, read: string -> Line, j: nat)
    requires j <= |a| && j <= |b| && a[..j] == b[..j]
    ensures ScanTo(a, read, j) == ScanTo(b, read, j)
  {
    if j > 0 {
      assert a[..j - 1] == a[..j][..j - 1] == b[..j][..j - 1] == b[..j - 1];
      assert a[j - 1] == a[..j][j - 1] == b[..j][j - 1] == b[j - 1];
      ScanToPrefix(a, b, read, j - 1);
    }
  }

  /**
   * Line `j` completes a command that the database rejects. The verdict may depend on the
   * commands run before, which the script fixes: the database is asked about the command by
   * its position among those sent, and its text.
   */
  predicate RejectedAt(lines: seq<string>, read: string -> Line, j: nat, rejects: (nat, string) -> bool) {
    j < |lines| && read(lines[j]).Terminator?
    && rejects(|ScanTo(lines, read, j).commands|, ScanTo(lines, read, j).pending + read(lines[j]).text)
  }

  /** What a run sends to the database, in order, and the `totalLines` it ends with. */
  datatype Run = Run(sent: seq<string>, totalLines: int)

  /**
   * The run from line `i` on, the first `i` lines read: the read of line `i` fails (-1), or the
   * script has ended, or line `i` completes a command the database rejects (an SQLException
   * ends the loop and is swallowed, the line counted), or the run goes on with the next line.
   */
  function RunFrom(lines: seq<string>, read: string -> Line, readFailsAt: Option<nat>,
                   rejects: (nat, string) -> bool, i: nat): Run
    requires i <= |lines|
    decreases |lines| - i
  {
    if readFailsAt == Some(i) then Run(ScanTo(lines, read, i).commands, -1)
    else if i == |lines| then Run(ScanTo(lines, read, i).commands, i)
    else if RejectedAt(lines, read, i, rejects) then Run(ScanTo(lines, read, i + 1).commands, i + 1)
    else RunFrom(lines, read, readFailsAt, rejects, i + 1)
  }

  /**
   * The specification of `runSqlScript`: commands are sent in file order until one is rejected
   * or no line is left to read. `totalLines` counts the lines read, comments included, or is -1
   * when a read failed first.
   */
  function ScriptRun(lines: seq<string>, readFailsAt: Option<nat>, rejects: (nat, string) -> bool): Run {
    RunFrom(lines, Classify, readFailsAt, rejects, 0)
  }

  /**
   * What a run sends is a prefix of the script's commands, and every one of them but the last
   * was accepted; a run with no failed read and no rejection sends every command.
   */
  lemma ScriptRunSends(lines: seq<string>, readFailsAt: Option<nat>, rejects: (nat, string) -> bool)
    ensures ScriptRun(lines, readFailsAt, rejects).sent <= Scan(lines, Classify).commands
    ensures var sent := ScriptRun(lines, readFailsAt, rejects).sent;
      forall k :: 0 <= k < |sent| - 1 ==> !rejects(k, sent[k])
    ensures readFailsAt.None? && (forall j :: 0 <= j < |lines| ==> !RejectedAt(lines, Classify, j, rejects)) ==>
      ScriptRun(lines, readFailsAt, rejects).sent == Scan(lines, Classify).commands
  {
    RunFromSends(lines, Classify, readFailsAt, rejects, 0);
  }

  lemma {:induction false} RunFromSends(lines: seq<string>, read: string -> Line, readFailsAt: Option<nat>,
                                        rejects: (nat, string) -> bool, i: nat)
    requires i <= |lines|
    requires forall j :: 0 <= j < i ==> !RejectedAt(lines, read, j, rejects)
    ensures RunFrom(lines, read, readFailsAt, rejects, i).sent <= Scan(lines, read).commands
    ensures var sent := RunFrom(lines, read, readFailsAt, rejects, i).sent;
      forall k :: 0 <= k < |sent| - 1 ==> !rejects(k, sent[k])
    ensures readFailsAt.None? && (forall j :: i <= j < |lines| ==> !RejectedAt(lines, read, j, rejects)) ==>
      RunFrom(lines, read, readFailsAt, rejects, i).sent == Scan(lines, read).commands
    decreases |lines| - i
  {
    if readFailsAt == Some(i) || i == |lines| {
      ScanPrefix(lines, read, i, |lines|);
      SentAccepted(lines, read, i, rejects);
    } else if RejectedAt(lines, read, i, rejects) {
      ScanPrefix(lines, read, i + 1, |lines|);
      SentAccepted(lines, read, i, rejects);
    } else {
      RunFromSends(lines, read, readFailsAt, rejects, i + 1);
    }
  }

  /** A server that refuses the second command it is sent, whatever its text. */
  predicate RefusesSecond(k: nat, text: string) { k == 1 }

  /**
   * A server whose answer depends on what it ran before: a script that repeats a command, the
   * second copy of which is refused (a table created twice), sends both copies and counts the
   * two lines read.
   */
  lemma SecondCopyRejected(l: string, m: string)
    requires Classify(l).Terminator?
    ensures ScriptRun([l, l, m], None, RefusesSecond) == Run([Classify(l).text, Classify(l).text], 2)
  {
    var lines, t := [l, l, m], Classify(l).text;
    assert lines[0] == l && lines[1] == l && "" + t == t;
    assert ScanTo(lines, Classify, 1) == Step(Scanned([], ""), Classify(l)) == Scanned([t], "");
    assert ScanTo(lines, Classify, 2) == Step(Scanned([t], ""), Classify(l)) == Scanned([t, t], "");
    assert !RejectedAt(lines, Classify, 0, RefusesSecond);
    assert RejectedAt(lines, Classify, 1, RefusesSecond);
    assert RunFrom(lines, Classify, None, RefusesSecond, 1) == Run([t, t], 2);
  }

  /**
   * `totalLines` is -1 exactly when a read fails before any rejection, and otherwise counts the
   * lines read: all of them when nothing fails and nothing is rejected.
   */
  lemma ScriptRunCounts(lines: seq<string>, readFailsAt: Option<nat>, rejects: (nat, string) -> bool)
    ensures var t := ScriptRun(lines, readFailsAt, rejects).totalLines; t == -1 || 0 <= t <= |lines|
    ensures ScriptRun(lines, readFailsAt, rejects).totalLines == -1 <==>
      && readFailsAt.Some? && readFailsAt.value <= |lines|
      && forall j :: 0 <= j < readFailsAt.value ==> !RejectedAt(lines, Classify, j, rejects)
    ensures readFailsAt.None? && (forall j :: 0 <= j < |lines| ==> !RejectedAt(lines, Classify, j, rejects)) ==>
      ScriptRun(lines, readFailsAt, rejects).totalLines == |lines|
  {
    RunFromCounts(lines, Classify, readFailsAt, rejects, 0);
  }

  lemma {:induction false} RunFromCounts(lines: seq<string>, read: string -> Line, readFailsAt: Option<nat>,
                                         rejects: (nat, string) -> bool, i: nat)
    requires i <= |lines| && (readFailsAt.None? || i <= readFailsAt.value)
    ensures var t := RunFrom(lines, read, readFailsAt, rejects, i).totalLines; t == -1 || i <= t <= |lines|
    ensures RunFrom(lines, read, readFailsAt, rejects, i).totalLines == -1 <==>
      && readFailsAt.Some? && readFailsAt.value <= |lines|
      && forall j :: i <= j < readFailsAt.value ==> !RejectedAt(lines, read, j, rejects)
    ensures readFailsAt.None? && (forall j :: i <= j < |lines| ==> !RejectedAt(lines, read, j, rejects)) ==>
      RunFrom(lines, read, readFailsAt, rejects, i).totalLines == |lines|
    decreases |lines| - i
  {
    if readFailsAt != Some(i) && i < |lines| && !RejectedAt(lines, read, i, rejects) {
      RunFromCounts(lines, read, readFailsAt, rejects, i + 1);
    }
  }

  /** Commands completed by the first `j` lines come first, in the same order, after more lines. */
  lemma {:induction false} ScanPrefix(lines: seq<string>, read: string -> Line, j: nat, k: nat)
    requires j <= k <= |lines|
    ensures ScanTo(lines, read, j).commands <= ScanTo(lines, read, k).commands
    decreases k - j
  {
    if j < k {
      ScanPrefix(lines, read, j, k - 1);
    }
  }

  /** Without a rejection among the first `j` lines, none of their commands is rejected. */
  lemma {:induction false} SentAccepted(lines: seq<string>, read: string -> Line, j: nat, rejects: (nat, string) -> bool)
    requires j <= |lines|
    requires forall i :: 0 <= i < j ==> !RejectedAt(lines, read, i, rejects)
    ensures forall k :: 0 <= k < |ScanTo(lines, read, j).commands| ==> !rejects(k, ScanTo(lines, read, j).commands[k])
  {
    if j > 0 {
      SentAccepted(lines, read, j - 1, rejects);
      assert !RejectedAt(lines, read, j - 1, rejects);
    }
  }

  /** Every command sent ends with the ";" of the line that completed it. */
  lemma {:induction false} CommandsEndWithSemicolon(lines: seq<string>, read: string -> Line, j: nat)
    requires j <= |lines| && WellFormed(read)
    ensures forall k :: 0 <= k < |ScanTo(lines, read, j).commands| ==> EndsWith(ScanTo(lines, read, j).commands[k], ";")
  {
    if j > 0 {
      CommandsEndWithSemicolon(lines, read, j - 1);
      var before, l := ScanTo(lines, read, j - 1), read(lines[j - 1]);
      if l.Terminator? {
        var c := before.pending + l.text;
        assert c[|c| - 1..] == l.text[|l.text| - 1..];
      }
    }
  }

  /** The number of lines among the first `j` that complete a command. */
  function CountTerminators(lines: seq<string>, read: string -> Line, j: nat): nat
    requires j <= |lines|
  {
    if j == 0 then 0 else CountTerminators(lines, read, j - 1) + if read(lines[j - 1]).Terminator? then 1 else 0
  }

  /** One command per terminator line: a comment ending in ";" completes none. */
  lemma {:induction false} OneCommandPerTerminator(lines: seq<string>, read: string -> Line, j: nat)
    requires j <= |lines|
    ensures |ScanTo(lines, read, j).commands| == CountTerminators(lines, read, j)
  {
    if j > 0 {
      OneCommandPerTerminator(lines, read, j - 1);
    }
  }

  /**
   * Text after the last terminator line is never sent: lines from `j` on that complete nothing
   * leave the commands as they were.
   */
  lemma {:induction false} TrailingTextNeverSent(lines: seq<string>, read: string -> Line, j: nat, k: nat)
    requires j <= k <= |lines|
    requires forall i :: j <= i < k ==> !read(lines[i]).Terminator?
    ensures ScanTo(lines, read, k).commands == ScanTo(lines, read, j).commands
    decreases k - j
  {
    if j < k {
      TrailingTextNeverSent(lines, read, j, k - 1);
    }
  }

  /** A comment line, wherever it stands, changes nothing. */
  lemma CommentChangesNothing(before: seq<string>, c: string, after: seq<string>, read: string -> Line)
    requires read(c) == Comment
    ensures Scan(before + [c] + after, read) == Scan(before + after, read)
  {
    CommentShifts(before, c, after, read, |after|);
  }

  /** Past the comment, line `|before| + 1 + k` of one script is line `|before| + k` of the other. */
  lemma {:induction false} CommentShifts(before: seq<string>, c: string, after: seq<string>, read: string -> Line, k: nat)
    requires read(c) == Comment && k <= |after|
    ensures ScanTo(before + [c] + after, read, |before| + 1 + k) == ScanTo(before + after, read, |before| + k)
  {
    var x, y, b := before + [c] + after, before + after, |before|;
    if k == 0 {
      assert x[..b] == before == y[..b];
      ScanToPrefix(x, y, read, b);
    } else {
      CommentShifts(before, c, after, read, k - 1);
      assert x[b + k] == after[k - 1] == y[b + k - 1];
    }
  }

  /** The text a possibly null buffer holds. */
  function Buffered(command: Option<string>): string {
    if command.Some? then command.value else ""
  }

  /**
   * The loop body for one line read: the buffer (created when null) after the line, the
   * commands sent so far, and whether the database rejected the command the line completed. A
   * completed command leaves the buffer null.
   */
  method HandleLine(command: Option<string>, sent: seq<string>, line: string, rejects: (nat, string) -> bool)
    returns (next: Option<string>, sentNext: seq<string>, rejected: bool)
    ensures var st := Step(Scanned(sent, Buffered(command)), Classify(line));
      sentNext == st.commands && (!rejected ==> Buffered(next) == st.pending)
    ensures rejected <==> Classify(line).Terminator? && rejects(|sent|, Buffered(command) + Classify(line).text)
  {
    next, sentNext, rejected := command, sent, false;
    if next.None? {
      next := Some("");
    }
    var trimmedLine := Trim(line);
    if IsCommentText(trimmedLine) {
    } else if EndsInSemicolon(trimmedLine) {
      var text := next.value + trimmedLine;
      next := Some(text);
      sentNext := sentNext + [text];
      if rejects(|sent|, text) {
        rejected := true;
        return;
      }
      next := None;
    } else {
      next := Some(next.value + trimmedLine + "\n");
    }
  }

  /**
   * `runSqlScript(con, script)`: read lines until the end of the script, buffering and sending
   * commands as they complete. A rejected command ends the loop with the lines counted so far;
   * a failed read sets the count to -1.
   */
  method RunSqlScript(lines: seq<string>, readFailsAt: Option<nat>, rejects: (nat, string) -> bool)
    returns (sent: seq<string>, totalLines: int)
    ensures Run(sent, totalLines) == ScriptRun(lines, readFailsAt, rejects)
  {
    var command: Option<string> := None;
    sent, totalLines := [], 0;
    var i := 0;
    while true
      invariant i <= |lines| && totalLines == i
      invariant RunFrom(lines, Classify, readFailsAt, rejects, i) == ScriptRun(lines, readFailsAt, rejects)
      invariant sent == ScanTo(lines, Classify, i).commands
      invariant Buffered(command) == ScanTo(lines, Classify, i).pending
      decreases |lines| - i
    {
      if readFailsAt == Some(i) {
        totalLines := -1;
        return;
      }
      if i == |lines| {
        return;
      }
      var rejected;
      command, sent, rejected := HandleLine(command, sent, lines[i], rejects);
      totalLines := totalLines + 1;
      if rejected {
        return;
      }
      i := i + 1;
    }
  }
}
