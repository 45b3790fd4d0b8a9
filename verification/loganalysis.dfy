/**
 * `build_error_set(log_file)` of the log analyser: a scan of the crawler's log, line by line,
 * that collects, for every JCrew product page whose parse logged an "is null" warning, the
 * product titles in effect at those warnings. The file is its lines as `readline()` returns
 * them; a read past the last line gives "".
 */
module LogAnalysis {
  import opened Wrappers
  import opened Strings

  const START := "jcrew.JCrewParser - Start parsing:"
  const TITLE_START := "jcrew.JCrewParser - Started parsing title for JCrew Product Item"
  const FINISHED := "jcrew.JCrewParser - Finished parsing"
  const GOT_TITLE := "Got the productTitle for JCrew Product Item"
  const IS_NULL := "is null"

  /** `f.readline()` for the line at `pos`. */
  function ReadLine(lines: seq<string>, pos: nat): string {
    if pos < |lines| then lines[pos] else ""
  }

  /** `line.find(marker) > 0`: the first occurrence is past column 0. */
  predicate Marked(line: string, marker: string) { IndexOf(line, marker, 0) > 0 }

  /** `line.find(marker) >= 0`. */
  predicate Contains(line: string, marker: string) { IndexOf(line, marker, 0) >= 0 }

  /** A marker at column 0 is not recognised, whatever follows it. */
  lemma ColumnZeroIgnored(line: string, marker: string)
    requires StartsWith(line, marker)
    ensures Contains(line, marker) && !Marked(line, marker)
  {
    assert HasAt(line, 0, marker) by {
      assert line[0..|marker|] == line[..|marker|];
    }
  }

  /** Nothing is found in the "" of the end of the file. */
  lemma EndOfFileMarksNothing(marker: string)
    requires marker != ""
    ensures !Contains("", marker) && !Marked("", marker)
  {
  }

  /**
   * `line.split(START)[1]`: the text after the first start marker, up to the next marker or,
   * when there is none, the end of the line.
   */
  function SecondPiece(line: string): (piece: string)
    requires Contains(line, START)
    ensures var from := IndexOf(line, START, 0) + |START|;
      && from + |piece| <= |line| && piece == line[from..from + |piece|]
      && (from + |piece| == |line| || HasAt(line, from + |piece|, START))
      && forall i :: from <= i < from + |piece| ==> !HasAt(line, i, START)
  {
    var from := IndexOf(line, START, 0) + |START|;
    var e := IndexOf(line, START, from);
    if e < 0 then line[from..] else line[from..e]
  }

  /**
   * `line.split(START)[1].strip()`: the text between the first and second start markers
   * without the whitespace around it.
   */
  function StartUrl(line: string): (url: string)
    requires Contains(line, START)
    ensures |url| <= |line| - IndexOf(line, START, 0) - |START|
    ensures url == [] || (!IsSpace(url[0]) && !IsSpace(url[|url| - 1]))
  {
    PyStrip(SecondPiece(line))
  }

  /**
   * The URL of a start line is the text between its first and second start markers with only
   * whitespace cut from either end.
   */
  lemma StartUrlMeans(line: string)
    requires Contains(line, START)
    ensures exists a: nat :: StrippedSlice(SecondPiece(line), IsSpace, StartUrl(line), a)
  {
    StripIsSlice(SecondPiece(line), IsSpace);
    assert StartUrl(line) == Strip(SecondPiece(line), IsSpace);
  }

  /** `line.split(":")[-1]`: the text after the last ':', or the whole line when it has none. */
  function AfterLastColon(line: string): string {
    line[LastIndexOfChar(line, ':') + 1..]
  }

  /** `line.split(":")[-1].strip()`. */
  function LastField(line: string): string {
    PyStrip(AfterLastColon(line))
  }

  /**
   * The title a title line gives is what follows the last ':' without the whitespace around
   * it: it has no ':' in it and no surrounding whitespace.
   */
  lemma LastFieldMeans(line: string)
    ensures var field := LastField(line);
      && |field| <= |line|
      && (exists a: nat :: StrippedSlice(AfterLastColon(line), IsSpace, field, a))
      && (forall i :: 0 <= i < |field| ==> field[i] != ':')
      && (field == [] || (!IsSpace(field[0]) && !IsSpace(field[|field| - 1])))
  {
    var cut := LastIndexOfChar(line, ':') + 1;
    var tail := line[cut..];
    forall c | c in tail ensures c != ':' {
      var j :| 0 <= j < |tail| && tail[j] == c;
      assert tail[j] == line[cut + j];
    }
    StripKeeps(tail, IsSpace);
    StripIsSlice(tail, IsSpace);
    var field := LastField(line);
    forall i | 0 <= i < |field| ensures field[i] != ':' {
      assert field[i] in field;
    }
  }

  // ------------------------------------------------------------------ records

  /**
   * What the scan asks of a line: the URL when it is a start line, whether it is a record's
   * title header, and whether it holds the end marker.
   */
  datatype LineKind = LineKind(start: Option<string>, header: bool, end: bool)

  /** How `build_error_set` reads a line: the start and header markers past column 0, the end marker anywhere. */
  function Kind(line: string): LineKind {
    LineKind(if Marked(line, START) then Some(StartUrl(line)) else None, Marked(line, TITLE_START), Contains(line, FINISHED))
  }

  /** A reader that finds nothing in the "" read at the end of the file. */
  predicate Sane(read: string -> LineKind) {
    read("") == LineKind(None, false, false)
  }

  lemma KindSane()
    ensures Sane(Kind)
  {
    EndOfFileMarksNothing(START);
    EndOfFileMarksNothing(TITLE_START);
    EndOfFileMarksNothing(FINISHED);
  }

  /** A product record: the URL of its start line and the lines between its header and its end. */
  datatype Rec = Rec(url: string, body: seq<string>)

  /** Where the record whose lines start at `j` ends: the next line with the end marker. */
  function FinishAfter(lines: seq<string>, read: string -> LineKind, j: nat): (k: Option<nat>)
    ensures k.Some? ==> j <= k.value < |lines|
    decreases |lines| - j
  {
    if j >= |lines| then None
    else if read(lines[j]).end then Some(j)
    else FinishAfter(lines, read, j + 1)
  }

  /** A record ends at the first line from `j` on with the end marker; none ends when no line has it. */
  lemma {:induction false} FinishAfterMeans(lines: seq<string>, read: string -> LineKind, j: nat)
    ensures var k := FinishAfter(lines, read, j);
      && (k.Some? ==> read(lines[k.value]).end)
      && (forall i :: j <= i < |lines| && (k.None? || i < k.value) ==> !read(lines[i]).end)
    decreases |lines| - j
  {
    if j < |lines| && !read(lines[j]).end {
      FinishAfterMeans(lines, read, j + 1);
    }
  }

  /** A record before the ones that follow it, when they all end. */
  function Prepend(r: Rec, rest: Option<seq<Rec>>): Option<seq<Rec>> {
    if rest.None? then None else Some([r] + rest.value)
  }

  /**
   * The records of the log from line `pos` on, in order: a start line followed at once by a
   * header opens one, and it runs to the next line with the end marker; a start line followed
   * by anything else has that next line discarded. None when an opened record never ends
   * (the scan then reads "" forever).
   */
  function Records(lines: seq<string>, read: string -> LineKind, pos: nat): Option<seq<Rec>>
    requires Sane(read) && pos <= |lines| + 1
    decreases |lines| + 1 - pos
  {
    var line := ReadLine(lines, pos);
    if read(line).start.Some? then
      if read(ReadLine(lines, pos + 1)).header then
        var k := FinishAfter(lines, read, pos + 2);
        if k.None? then None
        else Prepend(Rec(read(line).start.value, lines[pos + 2..k.value]), Records(lines, read, k.value + 1))
      else Records(lines, read, pos + 2)
    else if line == "" then Some([])
    else Records(lines, read, pos + 1)
  }

  // ------------------------------------------------------------------ the tally

  /** The dictionary from URL to titles, and `total_records`. */
  datatype Report = Report(problems: map<string, seq<string>>, totalRecords: nat)

  /** What the scan ends with: the report, or a scan that never ends. */
  datatype Outcome = Done(report: Report) | Diverges

  /** The titles listed under `url`, none when it has no entry. */
  function Listed(problems: map<string, seq<string>>, url: string): seq<string> {
    if url in problems then problems[url] else []
  }

  /** The title in effect inside a record, and the report so far. */
  datatype BodyState = BodyState(title: string, report: Report)

  /**
   * One line of a record: a title line sets the title to its last ':'-field and counts a
   * record; a null warning then lists the title in effect under the record's URL.
   */
  function BodyStep(s: BodyState, url: string, line: string): BodyState {
    var got := Marked(line, GOT_TITLE);
    var title := if got then LastField(line) else s.title;
    var total := if got then s.report.totalRecords + 1 else s.report.totalRecords;
    var problems := s.report.problems;
    BodyState(title, Report(if Marked(line, IS_NULL) then problems[url := Listed(problems, url) + [title]] else problems,
                            total))
  }

  /** A record's lines, in order, starting from the title "Unknown". */
  function RunBody(body: seq<string>, url: string, r: Report): BodyState {
    if body == [] then BodyState("Unknown", r)
    else BodyStep(RunBody(body[..|body| - 1], url, r), url, body[|body| - 1])
  }

  /** The records, in order. */
  function Tallied(rs: seq<Rec>, r: Report): Report {
    if rs == [] then r else Tallied(rs[1..], RunBody(rs[0].body, rs[0].url, r).report)
  }

  /** The end of the scan, given the records still to come and the report so far. */
  function Continue(rs: Option<seq<Rec>>, r: Report): Outcome {
    if rs.None? then Diverges else Done(Tallied(rs.value, r))
  }

  /** The specification of `build_error_set`. */
  function ErrorSet(lines: seq<string>): Outcome {
    Continue(Records(lines, Kind, 0), Report(map[], 0))
  }

  // ------------------------------------------------------------------ one step at a time

  /** Inside a record whose lines start at `bodyStart`: the rest of the scan. */
  function Resume(lines: seq<string>, read: string -> LineKind, bodyStart: nat, url: string, r: Report): Outcome
    requires Sane(read) && bodyStart <= |lines| + 1
  {
    var k := FinishAfter(lines, read, bodyStart);
    if k.None? then Diverges
    else Continue(Records(lines, read, k.value + 1), RunBody(lines[bodyStart..k.value], url, r).report)
  }

  /** A start line followed by a header opens a record. */
  lemma OpenRecord(lines: seq<string>, read: string -> LineKind, pos: nat, r: Report)
    requires Sane(read) && pos <= |lines| + 1
    requires read(ReadLine(lines, pos)).start.Some? && read(ReadLine(lines, pos + 1)).header
    ensures pos < |lines|
    ensures Continue(Records(lines, read, pos), r) == Resume(lines, read, pos + 2, read(lines[pos]).start.value, r)
  {
    var k := FinishAfter(lines, read, pos + 2);
    if k.Some? {
      var rec := Rec(read(lines[pos]).start.value, lines[pos + 2..k.value]);
      assert Records(lines, read, pos) == Prepend(rec, Records(lines, read, k.value + 1));
      ContinuePrepend(rec, Records(lines, read, k.value + 1), r);
    }
  }

  /** A record before the others: the tally runs it first. */
  lemma ContinuePrepend(rec: Rec, rest: Option<seq<Rec>>, r: Report)
    ensures Continue(Prepend(rec, rest), r) == Continue(rest, RunBody(rec.body, rec.url, r).report)
  {
    if rest.Some? {
      assert ([rec] + rest.value)[1..] == rest.value;
    }
  }

  /** A line that is neither a start line nor the end of the file is passed over. */
  lemma PassOver(lines: seq<string>, read: string -> LineKind, pos: nat, r: Report)
    requires Sane(read) && pos <= |lines| + 1
    requires read(ReadLine(lines, pos)).start.None? && ReadLine(lines, pos) != ""
    ensures pos < |lines| && Continue(Records(lines, read, pos), r) == Continue(Records(lines, read, pos + 1), r)
  {
  }

  /** The end of the file ends the scan with the report as it stands. */
  lemma EndOfLog(lines: seq<string>, read: string -> LineKind, pos: nat, r: Report)
    requires Sane(read) && pos <= |lines| + 1
    requires ReadLine(lines, pos) == ""
    ensures Continue(Records(lines, read, pos), r) == Done(r)
  {
  }

  /** A start line not followed by a header is passed over, and so is the line after it. */
  lemma DiscardNext(lines: seq<string>, read: string -> LineKind, pos: nat, r: Report)
    requires Sane(read) && pos <= |lines| + 1
    requires read(ReadLine(lines, pos)).start.Some? && !read(ReadLine(lines, pos + 1)).header
    ensures pos < |lines| && Continue(Records(lines, read, pos), r) == Continue(Records(lines, read, pos + 2), r)
  {
  }

  /** A record line without the end marker: the record goes on, one line longer. */
  lemma RecordStep(lines: seq<string>, read: string -> LineKind, a: nat, b: nat, url: string, r: Report)
    requires a <= b < |lines| && !read(lines[b]).end
    ensures FinishAfter(lines, read, b) == FinishAfter(lines, read, b + 1)
    ensures RunBody(lines[a..b + 1], url, r) == BodyStep(RunBody(lines[a..b], url, r), url, lines[b])
  {
    assert lines[a..b + 1] == lines[a..b] + [lines[b]];
    RunBodyLonger(lines[a..b], lines[b], url, r);
  }

  /** A record one line longer ends one step later. */
  lemma RunBodyLonger(body: seq<string>, line: string, url: string, r: Report)
    ensures RunBody(body + [line], url, r) == BodyStep(RunBody(body, url, r), url, line)
  {
    assert (body + [line])[..|body|] == body;
  }

  // ------------------------------------------------------------------ what the scan finds

  /** Some line of the record is a null warning. */
  predicate HasNull(body: seq<string>) {
    exists i :: 0 <= i < |body| && Marked(body[i], IS_NULL)
  }

  /** The number of title lines in a record. */
  function CountGot(body: seq<string>): nat {
    if body == [] then 0 else CountGot(body[..|body| - 1]) + if Marked(body[|body| - 1], GOT_TITLE) then 1 else 0
  }

  /** The title after a record's lines: that of its last title line, or "Unknown" when it has none. */
  function TitleAfter(body: seq<string>): string {
    if body == [] then "Unknown"
    else if Marked(body[|body| - 1], GOT_TITLE) then LastField(body[|body| - 1])
    else TitleAfter(body[..|body| - 1])
  }

  /** For each null warning of a record, in order, the title in effect at that line. */
  function NullTitles(body: seq<string>): seq<string> {
    if body == [] then []
    else NullTitles(body[..|body| - 1]) + if Marked(body[|body| - 1], IS_NULL) then [TitleAfter(body)] else []
  }

  /** A record without a title line ends with the title "Unknown". */
  lemma {:induction false} TitleAfterNone(body: seq<string>)
    requires forall i :: 0 <= i < |body| ==> !Marked(body[i], GOT_TITLE)
    ensures TitleAfter(body) == "Unknown"
  {
    if body != [] {
      var init := body[..|body| - 1];
      assert forall i :: 0 <= i < |init| ==> init[i] == body[i];
      TitleAfterNone(init);
    }
  }

  /** A record with title lines ends with the title its last one gives. */
  lemma {:induction false} TitleAfterLast(body: seq<string>, i: nat)
    requires i < |body| && Marked(body[i], GOT_TITLE)
    requires forall j :: i < j < |body| ==> !Marked(body[j], GOT_TITLE)
    ensures TitleAfter(body) == LastField(body[i])
  {
    if i < |body| - 1 {
      var init := body[..|body| - 1];
      assert forall j :: 0 <= j < |init| ==> init[j] == body[j];
      TitleAfterLast(init, i);
    }
  }

  /** A record's title, and the records it counts. */
  lemma {:induction false} RunBodyCounts(body: seq<string>, url: string, r: Report)
    ensures RunBody(body, url, r).title == TitleAfter(body)
    ensures RunBody(body, url, r).report.totalRecords == r.totalRecords + CountGot(body)
  {
    if body != [] {
      RunBodyCounts(body[..|body| - 1], url, r);
    }
  }

  /** A record lists its null warnings' titles under its URL, and nothing under any other. */
  lemma {:induction false} RunBodyLists(body: seq<string>, url: string, r: Report)
    ensures forall u :: Listed(RunBody(body, url, r).report.problems, u)
                        == Listed(r.problems, u) + if u == url then NullTitles(body) else []
    ensures forall u :: u in RunBody(body, url, r).report.problems <==> u in r.problems || (u == url && HasNull(body))
  {
    if body != [] {
      var init := body[..|body| - 1];
      RunBodyLists(init, url, r);
      RunBodyCounts(init, url, r);
      assert forall i :: 0 <= i < |init| ==> init[i] == body[i];
      if Marked(body[|body| - 1], IS_NULL) {
        assert HasNull(body);
      } else {
        assert HasNull(body) ==> HasNull(init);
      }
    }
  }

  /** The titles the records with URL `u` list, in order. */
  function TitlesFor(rs: seq<Rec>, u: string): seq<string> {
    if rs == [] then [] else (if rs[0].url == u then NullTitles(rs[0].body) else []) + TitlesFor(rs[1..], u)
  }

  /** The title lines of all records. */
  function SumGot(rs: seq<Rec>): nat {
    if rs == [] then 0 else CountGot(rs[0].body) + SumGot(rs[1..])
  }

  /** Some record with URL `u` has a null warning. */
  predicate NullUrl(rs: seq<Rec>, u: string) {
    exists i :: 0 <= i < |rs| && rs[i].url == u && HasNull(rs[i].body)
  }

  lemma {:induction false} TalliedCounts(rs: seq<Rec>, r: Report)
    ensures Tallied(rs, r).totalRecords == r.totalRecords + SumGot(rs)
  {
    if rs != [] {
      RunBodyCounts(rs[0].body, rs[0].url, r);
      TalliedCounts(rs[1..], RunBody(rs[0].body, rs[0].url, r).report);
    }
  }

  lemma {:induction false} TalliedLists(rs: seq<Rec>, r: Report)
    ensures forall u :: Listed(Tallied(rs, r).problems, u) == Listed(r.problems, u) + TitlesFor(rs, u)
  {
    if rs != [] {
      RunBodyLists(rs[0].body, rs[0].url, r);
      TalliedLists(rs[1..], RunBody(rs[0].body, rs[0].url, r).report);
    }
  }

  lemma {:induction false} TalliedKeys(rs: seq<Rec>, r: Report)
    ensures forall u :: u in Tallied(rs, r).problems <==> u in r.problems || NullUrl(rs, u)
  {
    if rs != [] {
      RunBodyLists(rs[0].body, rs[0].url, r);
      TalliedKeys(rs[1..], RunBody(rs[0].body, rs[0].url, r).report);
      forall u ensures NullUrl(rs, u) <==> (u == rs[0].url && HasNull(rs[0].body)) || NullUrl(rs[1..], u) {
        NullUrlFirst(rs, u);
      }
    }
  }

  /** A URL has a record with a null warning when the first record is one, or a later one. */
  lemma NullUrlFirst(rs: seq<Rec>, u: string)
    requires rs != []
    ensures NullUrl(rs, u) <==> (u == rs[0].url && HasNull(rs[0].body)) || NullUrl(rs[1..], u)
  {
    if NullUrl(rs, u) {
      var i :| 0 <= i < |rs| && rs[i].url == u && HasNull(rs[i].body);
      if i > 0 {
        assert rs[1..][i - 1] == rs[i];
      }
    }
    if NullUrl(rs[1..], u) {
      var i :| 0 <= i < |rs[1..]| && rs[1..][i].url == u && HasNull(rs[1..][i].body);
      assert rs[i + 1] == rs[1..][i];
    }
  }

  /**
   * What `build_error_set` returns: the scan diverges exactly when a record never ends;
   * otherwise the dictionary's keys are exactly the URLs of records with a null warning, each
   * listing, in file order, the title in effect at each of those warnings, and `total_records`
   * counts the title lines of all records.
   */
  lemma ErrorSetMeans(lines: seq<string>)
    ensures ErrorSet(lines).Diverges? <==> Records(lines, Kind, 0).None?
    ensures Records(lines, Kind, 0).Some? ==>
      var rs := Records(lines, Kind, 0).value;
      var report := ErrorSet(lines).report;
      && (forall u :: u in report.problems <==> NullUrl(rs, u))
      && (forall u :: u in report.problems ==> report.problems[u] == TitlesFor(rs, u))
      && report.totalRecords == SumGot(rs)
  {
    KindSane();
    if Records(lines, Kind, 0).Some? {
      var rs := Records(lines, Kind, 0).value;
      TalliedLists(rs, Report(map[], 0));
      TalliedKeys(rs, Report(map[], 0));
      TalliedCounts(rs, Report(map[], 0));
    }
  }

  /** Records that never end come from a start line and a header with no end marker after them. */
  lemma {:induction false} UnfinishedRecord(lines: seq<string>, read: string -> LineKind, pos: nat)
    requires Sane(read) && pos <= |lines| + 1
    ensures Records(lines, read, pos).None? ==>
      exists p :: && pos <= p && p + 1 < |lines| && read(lines[p]).start.Some? && read(lines[p + 1]).header
                  && FinishAfter(lines, read, p + 2).None?
    decreases |lines| + 1 - pos
  {
    var line := ReadLine(lines, pos);
    if read(line).start.Some? {
      if read(ReadLine(lines, pos + 1)).header {
        assert pos + 1 < |lines|;
        var k := FinishAfter(lines, read, pos + 2);
        if k.Some? {
          UnfinishedRecord(lines, read, k.value + 1);
        }
      } else {
        UnfinishedRecord(lines, read, pos + 2);
      }
    } else if line != "" {
      UnfinishedRecord(lines, read, pos + 1);
    }
  }

  /** No line from `j` on has the end marker. */
  predicate NoFinishFrom(lines: seq<string>, j: nat) {
    forall i :: j <= i < |lines| ==> !Contains(lines[i], FINISHED)
  }

  /**
   * The scan runs forever only on a log where a start line and a title header are followed by
   * no line with the end marker.
   */
  lemma DivergesOnlyOnUnfinishedRecord(lines: seq<string>)
    ensures ErrorSet(lines).Diverges? ==>
      exists p :: && 0 <= p && p + 1 < |lines| && Marked(lines[p], START) && Marked(lines[p + 1], TITLE_START)
                  && NoFinishFrom(lines, p + 2)
  {
    KindSane();
    UnfinishedRecord(lines, Kind, 0);
    if ErrorSet(lines).Diverges? {
      var p :| 0 <= p && p + 1 < |lines| && Kind(lines[p]).start.Some? && Kind(lines[p + 1]).header
               && FinishAfter(lines, Kind, p + 2).None?;
      FinishAfterMeans(lines, Kind, p + 2);
      assert NoFinishFrom(lines, p + 2);
    }
  }

  /** Without start lines from `pos` on, no record follows. */
  lemma {:induction false} NoStartNoRecords(lines: seq<string>, read: string -> LineKind, pos: nat)
    requires Sane(read) && pos <= |lines| + 1
    requires forall i :: pos <= i < |lines| ==> read(lines[i]).start.None?
    ensures Records(lines, read, pos) == Some([])
    decreases |lines| + 1 - pos
  {
    if ReadLine(lines, pos) != "" {
      NoStartNoRecords(lines, read, pos + 1);
    }
  }

  /** A log with no start line (past column 0) reports nothing: no URL, no record. */
  lemma NoStartEmptyReport(lines: seq<string>)
    requires forall i :: 0 <= i < |lines| ==> !Marked(lines[i], START)
    ensures ErrorSet(lines) == Done(Report(map[], 0))
  {
    KindSane();
    NoStartNoRecords(lines, Kind, 0);
  }

  /** Only the lines from `pos` on decide where a record ends. */
  lemma {:induction false} FinishAfterFrame(a: seq<string>, b: seq<string>, read: string -> LineKind, pos: nat)
    requires |a| == |b| && forall i :: pos <= i < |a| ==> a[i] == b[i]
    ensures FinishAfter(a, read, pos) == FinishAfter(b, read, pos)
    decreases |a| - pos
  {
    if pos < |a| {
      FinishAfterFrame(a, b, read, pos + 1);
    }
  }

  /** Only the lines from `pos` on decide the records from `pos` on. */
  lemma {:induction false} RecordsFrame(a: seq<string>, b: seq<string>, read: string -> LineKind, pos: nat)
    requires Sane(read) && pos <= |a| + 1 && |a| == |b| && forall i :: pos <= i < |a| ==> a[i] == b[i]
    ensures Records(a, read, pos) == Records(b, read, pos)
    decreases |a| + 1 - pos
  {
    var line := ReadLine(a, pos);
    assert ReadLine(b, pos) == line;
    if read(line).start.Some? {
      var next := ReadLine(a, pos + 1);
      assert ReadLine(b, pos + 1) == next;
      if read(next).header {
        FinishAfterFrame(a, b, read, pos + 2);
        var k := FinishAfter(a, read, pos + 2);
        if k.Some? {
          RecordsFrame(a, b, read, k.value + 1);
          assert a[pos + 2..k.value] == b[pos + 2..k.value];
        }
      } else {
        RecordsFrame(a, b, read, pos + 2);
      }
    } else if line != "" {
      RecordsFrame(a, b, read, pos + 1);
    }
  }

  /**
   * The line after a start line that is not a title header is read and dropped: whatever it
   * holds (another start line, a null warning), replacing it by any other line that is not a
   * header changes nothing.
   */
  lemma DiscardedLine(lines: seq<string>, p: nat, x: string)
    requires p + 1 < |lines| && Marked(lines[p], START)
    requires !Marked(lines[p + 1], TITLE_START) && !Marked(x, TITLE_START)
    ensures Records(lines[p + 1 := x], Kind, p) == Records(lines, Kind, p)
  {
    KindSane();
    var other := lines[p + 1 := x];
    assert ReadLine(other, p) == lines[p] && ReadLine(other, p + 1) == x;
    RecordsFrame(other, lines, Kind, p + 2);
  }

  // ------------------------------------------------------------------ the program

  /** Where the inner loop stands: `line` was read at `next - 1`, and `st` is the record so far. */
  predicate InRecord(lines: seq<string>, bodyStart: nat, url: string, r: Report, next: nat, line: string, st: BodyState) {
    && bodyStart + 1 <= next <= |lines| + 1
    && line == ReadLine(lines, next - 1)
    && FinishAfter(lines, Kind, bodyStart) == FinishAfter(lines, Kind, next - 1)
    && st == RunBody(lines[bodyStart..next - 1], url, r)
  }

  /** A line of a record read by `build_error_set` without the end marker: the record goes on. */
  lemma ReadStep(lines: seq<string>, bodyStart: nat, url: string, r: Report, next: nat, line: string, st: BodyState)
    requires InRecord(lines, bodyStart, url, r, next, line, st)
    requires next <= |lines| && IndexOf(line, FINISHED, 0) < 0
    ensures InRecord(lines, bodyStart, url, r, next + 1, ReadLine(lines, next), BodyStep(st, url, line))
  {
    RecordStep(lines, Kind, bodyStart, next - 1, url, r);
  }

  /** A line read by `build_error_set` with the end marker ends the record there. */
  lemma ReadEnd(lines: seq<string>, bodyStart: nat, url: string, r: Report, next: nat, line: string, st: BodyState)
    requires InRecord(lines, bodyStart, url, r, next, line, st) && IndexOf(line, FINISHED, 0) >= 0
    ensures next <= |lines| && FinishAfter(lines, Kind, bodyStart) == Some(next - 1)
    ensures st.report == RunBody(lines[bodyStart..FinishAfter(lines, Kind, bodyStart).value], url, r).report
  {
    EndOfFileMarksNothing(FINISHED);
  }

  /** Past the end of the file the record never ends. */
  lemma ReadPastEnd(lines: seq<string>, bodyStart: nat, url: string, r: Report, next: nat, line: string, st: BodyState)
    requires InRecord(lines, bodyStart, url, r, next, line, st) && next > |lines|
    ensures FinishAfter(lines, Kind, bodyStart).None?
  {
  }

  /** The inner loop's body for one line of a record. */
  method RecordLine(line: string, url: string, title: string, problems: map<string, seq<string>>, totalRecords: nat)
    returns (title': string, problems': map<string, seq<string>>, totalRecords': nat)
    ensures BodyState(title', Report(problems', totalRecords'))
         == BodyStep(BodyState(title, Report(problems, totalRecords)), url, line)
  {
    title', problems', totalRecords' := title, problems, totalRecords;
    if Marked(line, GOT_TITLE) {
      title' := LastField(line);
      totalRecords' := totalRecords' + 1;
    }
    if Marked(line, IS_NULL) {
      problems' := problems'[url := Listed(problems', url) + [title']];
    }
  }

  /**
   * The inner loop of `build_error_set`: reads a record's lines from `bodyStart` up to the end
   * marker, which it consumes; `finished` is false where the program would read "" forever.
   */
  method ReadRecord(lines: seq<string>, bodyStart: nat, url: string, r: Report)
    returns (finished: bool, next: nat, after: Report)
    requires bodyStart <= |lines|
    ensures finished <==> FinishAfter(lines, Kind, bodyStart).Some?
    ensures finished ==>
      next == FinishAfter(lines, Kind, bodyStart).value + 1
    ensures finished ==> after == RunBody(lines[bodyStart..FinishAfter(lines, Kind, bodyStart).value], url, r).report
  {
    var problems, totalRecords := r.problems, r.totalRecords;
    next := bodyStart;
    var line := ReadLine(lines, next);
    next := next + 1;
    var title := "Unknown";
    while IndexOf(line, FINISHED, 0) < 0
      invariant InRecord(lines, bodyStart, url, r, next, line, BodyState(title, Report(problems, totalRecords)))
      decreases |lines| + 1 - next
    {
      if next > |lines| {
        ReadPastEnd(lines, bodyStart, url, r, next, line, BodyState(title, Report(problems, totalRecords)));
        return false, next, Report(problems, totalRecords);
      }
      ReadStep(lines, bodyStart, url, r, next, line, BodyState(title, Report(problems, totalRecords)));
      title, problems, totalRecords := RecordLine(line, url, title, problems, totalRecords);
      line := ReadLine(lines, next);
      next := next + 1;
    }
    ReadEnd(lines, bodyStart, url, r, next, line, BodyState(title, Report(problems, totalRecords)));
    finished, after := true, Report(problems, totalRecords);
  }

  /**
   * `build_error_set(log_file)`: the outer loop looks for a start line and the header after it,
   * then reads the record. Where the program would loop forever on a record the file does not
   * finish, the method reports `Diverges`.
   */
  method BuildErrorSet(lines: seq<string>) returns (outcome: Outcome)
    ensures outcome == ErrorSet(lines)
  {
    KindSane();
    var currentURL := "";
    var report := Report(map[], 0);
    var pos := 0;
    while true
      invariant pos <= |lines| + 1
      invariant Continue(Records(lines, Kind, pos), report) == ErrorSet(lines)
      decreases |lines| + 1 - pos
    {
      ghost var recordStart := pos;
      var line := ReadLine(lines, pos);
      pos := pos + 1;
      if IndexOf(line, START, 0) > 0 {
        currentURL := StartUrl(line);
        line := ReadLine(lines, pos);
        pos := pos + 1;
        if IndexOf(line, TITLE_START, 0) > 0 {
          OpenRecord(lines, Kind, recordStart, report);
          var finished;
          finished, pos, report := ReadRecord(lines, pos, currentURL, report);
          if !finished {
            return Diverges;
          }
        } else {
          DiscardNext(lines, Kind, recordStart, report);
        }
      } else if line == "" {
        EndOfLog(lines, Kind, recordStart, report);
        return Done(report);
      } else {
        PassOver(lines, Kind, recordStart, report);
      }
    }
  }
}
