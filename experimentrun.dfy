/** The experiment runner of the experiment package: the name sanitiser, the
    summary text it writes in the older `- **Label:** value` form, and its
    run lifecycle. The lifecycle is a sequence of steps whose answers (the
    repository query, each file-system call, how the child process ends, a
    signal arriving first) are inputs; what it does is returned as a list
    of effects. */
module ExperimentRun {
  import opened Wrappers
  import opened Strings
  import opened Decimal
  import opened Clock
  import opened Durations
  import opened Repo
  import RunDir
  import ExperimentList
  import Summary

  // ---------------------------------------------------------------------
  // sanitizeName

  /** The characters sanitizeName replaces: / \ : * ? " < > | and space. */
  predicate Unsafe(c: char) {
    c == '/' || c == '\\' || c == ':' || c == '*' || c == '?' || c == '"'
    || c == '<' || c == '>' || c == '|' || c == ' '
  }

  /** sanitizeName: every unsafe character becomes '_'; all replacement
      strings are single characters, so the replacer works character by
      character. */
  function SanitizeName(name: string): (r: string)
    ensures |r| == |name|
    ensures forall i | 0 <= i < |name| :: r[i] == (if Unsafe(name[i]) then '_' else name[i])
  {
    if name == [] then []
    else [if Unsafe(name[0]) then '_' else name[0]] + SanitizeName(name[1..])
  }

  /** The result holds no unsafe character, safe names are kept, and a
      second pass changes nothing. */
  lemma SanitizeNameProperties(name: string)
    ensures forall i | 0 <= i < |SanitizeName(name)| :: !Unsafe(SanitizeName(name)[i])
    ensures (forall i | 0 <= i < |name| :: !Unsafe(name[i])) ==> SanitizeName(name) == name
    ensures SanitizeName(SanitizeName(name)) == SanitizeName(name)
  {
    var r := SanitizeName(name);
    assert forall i | 0 <= i < |r| :: !Unsafe(r[i]);
    if forall i | 0 <= i < |name| :: !Unsafe(name[i]) {
      assert forall i | 0 <= i < |name| :: r[i] == name[i];
    }
    assert forall i | 0 <= i < |r| :: SanitizeName(r)[i] == r[i];
  }

  // ---------------------------------------------------------------------
  // The summary text (writeSummary, appendSummaryResults)

  const StartLabel := "- **Execution datetime:** "
  const BranchLabel := "- **Branch:** "
  const HashLabel := "- **Commit hash:** "
  const CommandLabel := "- **Command:** "
  const HostnameLabel := "- **Hostname:** "
  const DirectoryLabel := "- **Working directory:** "
  const FinishedLabel := "- **Execution finished:** "
  const TimeLabel := "- **Execution time:** "

  /** The command line, its value in backticks. */
  function CommandLine(command: string): string {
    CommandLabel + Summary.Quote(command)
  }

  /** The header and metadata lines writeSummary writes first. */
  function MetadataLines(started: string, branch: string, hash: string, command: string,
                         hostname: string, dir: string): seq<string> {
    ["# Experiment Summary", "", "## Metadata",
     StartLabel + started, BranchLabel + Summary.Quote(branch), HashLabel + Summary.Quote(hash),
     CommandLine(command), HostnameLabel + Summary.Quote(hostname), DirectoryLabel + Summary.Quote(dir)]
  }

  /** What writeSummary is given: the start time, the repository, the
      command, the answers of the queries it makes (the host name, the
      commit details, a second repository query, the diff, and the output
      and error of `uname -a`) and the experiment directory. */
  datatype InitBlock = InitBlock(
    start: DateTime, repo: RepoStatus, command: seq<string>, hostname: Result<string>,
    details: Result<string>, status: Result<RepoStatus>, diff: Result<string>,
    uname: string, unameErr: Option<string>, dir: string)

  /** What appendSummaryResults is given. */
  datatype Results = Results(end: DateTime, duration: int, exitCode: int, interrupted: bool)

  /** The text writeSummary writes. A failed query is replaced by its fixed
      fallback; the start time is written without a zone; the four fenced
      sections are the ones the utils writer uses. */
  function SummaryText(b: InitBlock): string {
    Unlines(MetadataLines(FormatPlain(b.start), b.repo.branch, b.repo.fullHash, Join(b.command, " "),
                          Summary.OrElse(b.hostname, "unknown"), b.dir))
    + Summary.Sections(Summary.OrElse(b.details, "Error retrieving commit details"),
                       FormatGitStatus(if b.status.Ok? then b.status.value else RepoStatus(false, false, "", "", "")),
                       Summary.OrElse(b.diff, "Error retrieving uncommitted changes"),
                       b.uname + (if b.unameErr.Some? then "Error retrieving system info: " + b.unameErr.value else ""))
  }

  /** The results lines appendSummaryResults writes. */
  function ResultLines(r: Results): seq<string> {
    BlockLines(FormatPlain(r.end), FormatDuration(r.duration), r.exitCode, r.interrupted)
  }

  /** The results lines, given the finish time and the duration as text. */
  function BlockLines(finished: string, elapsed: string, code: int, interrupted: bool): seq<string> {
    ["", "## Execution Results", FinishedLabel + finished, TimeLabel + elapsed, ExperimentList.ExitLine(code)]
    + (if interrupted then [Summary.TerminatedLine] else [])
  }

  function ResultsText(r: Results): string {
    Unlines(ResultLines(r))
  }

  /** FormatPlain writes digits, '-', ':' and 'T' only. */
  lemma FormatPlainExclude(t: DateTime, c: char)
    requires !IsDigit(c) && c != '-' && c != ':' && c != 'T'
    ensures c !in FormatPlain(t)
  {
    ClockTextExclude(t, 'T', "", c);
  }

  /** The results block reads back as its lines. */
  lemma ResultsBlock(r: Results)
    ensures Lines(ResultsText(r)) == ResultLines(r)
  {
    ResultLinesPlain(r);
    LinesOfUnlines(ResultLines(r));
  }

  /** The block holds the termination line exactly when the run was interrupted. */
  lemma ResultsTerminated(r: Results)
    ensures Summary.TerminatedLine in ResultLines(r) <==> r.interrupted
  {
    TerminatedAmong(FormatPlain(r.end), FormatDuration(r.duration), r.exitCode, r.interrupted);
  }

  lemma TerminatedAmong(finished: string, elapsed: string, code: int, interrupted: bool)
    ensures Summary.TerminatedLine in BlockLines(finished, elapsed, code, interrupted) <==> interrupted
  {
    var t := Summary.TerminatedLine;
    TerminatedNotTagged(FinishedLabel, finished);
    TerminatedNotTagged(TimeLabel, elapsed);
    TerminatedNotTagged("- " + ExperimentList.ExitMark + " ", Itoa(code));
    FiveThenTail(t, "", "## Execution Results", FinishedLabel + finished, TimeLabel + elapsed,
                 ExperimentList.ExitLine(code), if interrupted then [t] else []);
  }

  /** The termination line is not a line whose tag starts `- **E`. */
  lemma TerminatedNotTagged(tag: string, x: string)
    requires |tag| > 4 && tag[4] == 'E'
    ensures Summary.TerminatedLine != tag + x
  {
    DiffersAt(Summary.TerminatedLine, tag, x, 4);
  }

  /** A line differs from a tagged one where it differs from the tag. */
  lemma DiffersAt(t: string, tag: string, x: string, k: nat)
    requires k < |t| && k < |tag| && t[k] != tag[k]
    ensures t != tag + x
  {
    assert (tag + x)[k] == tag[k];
  }

  /** A line that is none of the first five is in the block exactly when it is in the rest. */
  lemma FiveThenTail(t: string, a: string, b: string, c: string, d: string, f: string, tail: seq<string>)
    requires t != a && t != b && t != c && t != d && t != f
    ensures t in [a, b, c, d, f] + tail <==> t in tail
  {
    var ls := [a, b, c, d, f] + tail;
    if t in ls {
      var i :| 0 <= i < |ls| && ls[i] == t;
      assert i >= 5;
      assert tail[i - 5] == t;
    }
    if t in tail {
      var j :| 0 <= j < |tail| && tail[j] == t;
      assert ls[j + 5] == t;
    }
  }

  lemma ResultLinesPlain(r: Results)
    ensures forall l | l in ResultLines(r) :: PlainLine(l)
  {
    FormatPlainExclude(r.end, '\n');
    FormatPlainExclude(r.end, '\r');
    FormatDurationExclude(r.duration, '\n');
    FormatDurationExclude(r.duration, '\r');
    BlockPlain(FormatPlain(r.end), FormatDuration(r.duration), r.exitCode, r.interrupted);
  }

  /** Values free of line breaks make a block of plain lines. */
  lemma BlockPlain(finished: string, elapsed: string, code: int, interrupted: bool)
    requires '\n' !in finished && '\r' !in finished && '\n' !in elapsed && '\r' !in elapsed
    ensures forall l | l in BlockLines(finished, elapsed, code, interrupted) :: PlainLine(l)
  {
    PlainLabels();
    assert PlainLine(FinishedLabel + finished) by { LastOfLabelled(FinishedLabel, finished); }
    assert PlainLine(TimeLabel + elapsed) by { LastOfLabelled(TimeLabel, elapsed); }
    ExitLinePlain(code);
    TerminatedLinePlain();
    PlainFive("", "## Execution Results", FinishedLabel + finished, TimeLabel + elapsed,
              ExperimentList.ExitLine(code), if interrupted then [Summary.TerminatedLine] else []);
  }

  lemma TerminatedLinePlain()
    ensures PlainLine(Summary.TerminatedLine)
  {
  }

  /** The tags of the results lines are plain lines. */
  lemma PlainLabels()
    ensures PlainLine(FinishedLabel) && PlainLine(TimeLabel) && PlainLine("- " + ExperimentList.ExitMark + " ")
  {
  }

  lemma ExitLinePlain(code: int)
    ensures PlainLine(ExperimentList.ExitLine(code))
  {
    ItoaExclude(code, '\n');
    ItoaExclude(code, '\r');
    PlainLabels();
    LastOfLabelled("- " + ExperimentList.ExitMark + " ", Itoa(code));
  }

  lemma PlainFive(a: string, b: string, c: string, d: string, f: string, tail: seq<string>)
    requires PlainLine(a) && PlainLine(b) && PlainLine(c) && PlainLine(d) && PlainLine(f)
    requires forall l | l in tail :: PlainLine(l)
    ensures forall l | l in [a, b, c, d, f] + tail :: PlainLine(l)
  {
    forall l | l in [a, b, c, d, f] + tail ensures PlainLine(l) {
      if l !in tail {
        assert l in [a, b, c, d, f];
      }
    }
  }

  /** A tag, then a value free of '\n' and '\r', is a line that ends in neither. */
  lemma LastOfLabelled(tag: string, x: string)
    requires PlainLine(tag) && tag != [] && '\n' !in x && '\r' !in x
    ensures PlainLine(tag + x)
  {
    var l := tag + x;
    if x != [] {
      assert l[|l| - 1] in x;
    } else {
      assert l == tag;
    }
  }

  /** The command written is read back by the list reader's `**Command:**`
      rule when it holds no backtick. */
  lemma CommandRoundTrip(e: ExperimentList.Experiment, command: string)
    requires '`' !in command
    ensures ExperimentList.ReadCommand(e, CommandLine(command)).command == command
  {
    var line := CommandLine(command);
    var p := "- **Command:** ";
    assert line == p + ['`'] + (command + "`");
    assert OccursAt(line, ExperimentList.CommandMark, 2);
    assert line[|p|] == '`' && forall k | 0 <= k < |p| :: line[k] != '`';
    var rest := command + "`";
    assert line[|p| + 1..] == rest;
    assert rest[|command|] == '`' && forall k | 0 <= k < |command| :: rest[k] != '`';
    assert rest[..|command|] == command;
  }

  // ---------------------------------------------------------------------
  // How the list reader reads the results block

  /** A tag that misses one character of a marker, followed by a value
      without asterisks, does not hold the marker (every marker ends in '*'). */
  lemma TagMisses(tag: string, x: string, mark: string, k: nat)
    requires '*' !in x && k < |mark| && mark[|mark| - 1] == '*' && mark[k] !in tag
    ensures !Contains(tag + x, mark)
  {
    NotContainsChar(tag, mark, k);
    ContainsInPrefix(tag, x, mark);
  }

  /** A line without asterisks holds no marker. */
  lemma Starless(line: string)
    requires '*' !in line
    ensures !Contains(line, ExperimentList.CommandMark) && !Contains(line, ExperimentList.ExitMark)
    ensures !Contains(line, ExperimentList.TimeMark) && !Contains(line, Summary.TerminatedMark)
  {
    NotContainsChar(line, ExperimentList.CommandMark, 0);
    NotContainsChar(line, ExperimentList.ExitMark, 0);
    NotContainsChar(line, ExperimentList.TimeMark, 0);
    NotContainsChar(line, Summary.TerminatedMark, 0);
  }

  /** The finish-time line holds no marker. */
  lemma FinishedLineUnmarked(x: string)
    requires '*' !in x
    ensures !Contains(FinishedLabel + x, ExperimentList.CommandMark)
    ensures !Contains(FinishedLabel + x, ExperimentList.ExitMark)
    ensures !Contains(FinishedLabel + x, ExperimentList.TimeMark)
    ensures !Contains(FinishedLabel + x, Summary.TerminatedMark)
  {
    assert !Contains(FinishedLabel + x, ExperimentList.CommandMark) by {
      TagMisses(FinishedLabel, x, ExperimentList.CommandMark, 2);
    }
    assert !Contains(FinishedLabel + x, ExperimentList.ExitMark) by {
      TagMisses(FinishedLabel, x, ExperimentList.ExitMark, 9);
    }
    assert !Contains(FinishedLabel + x, ExperimentList.TimeMark) by {
      TagMisses(FinishedLabel, x, ExperimentList.TimeMark, 14);
    }
    TagMisses(FinishedLabel, x, Summary.TerminatedMark, 2);
  }

  lemma TimeLabelMarked()
    ensures OccursAt(TimeLabel, ExperimentList.TimeMark, 2)
  {
    assert TimeLabel == "- " + ExperimentList.TimeMark + " ";
    MarkBetween("- ", ExperimentList.TimeMark, " ");
  }

  lemma MarkBetween(p: string, mark: string, q: string)
    ensures OccursAt(p + mark + q, mark, |p|)
  {
    assert (p + mark + q)[|p|..|p| + |mark|] == mark;
  }

  /** A marker in a tag is still there once a value follows. */
  lemma OccursInTag(tag: string, x: string, mark: string, k: nat)
    requires OccursAt(tag, mark, k)
    ensures OccursAt(tag + x, mark, k)
  {
    assert (tag + x)[k..k + |mark|] == tag[k..k + |mark|];
  }

  /** The duration line holds the duration marker only. */
  lemma TimeLineMarks(x: string)
    requires '*' !in x
    ensures Contains(TimeLabel + x, ExperimentList.TimeMark)
    ensures !Contains(TimeLabel + x, ExperimentList.CommandMark)
    ensures !Contains(TimeLabel + x, ExperimentList.ExitMark)
    ensures !Contains(TimeLabel + x, Summary.TerminatedMark)
  {
    assert Contains(TimeLabel + x, ExperimentList.TimeMark) by {
      TimeLabelMarked();
      OccursInTag(TimeLabel, x, ExperimentList.TimeMark, 2);
    }
    assert !Contains(TimeLabel + x, ExperimentList.CommandMark) by {
      TagMisses(TimeLabel, x, ExperimentList.CommandMark, 2);
    }
    assert !Contains(TimeLabel + x, ExperimentList.ExitMark) by {
      TagMisses(TimeLabel, x, ExperimentList.ExitMark, 9);
    }
    TagMisses(TimeLabel, x, Summary.TerminatedMark, 2);
  }

  /** The exit-status line holds the exit marker only. */
  lemma ExitLineMarks(x: string)
    requires '*' !in x
    ensures !Contains("- " + ExperimentList.ExitMark + " " + x, ExperimentList.CommandMark)
    ensures !Contains("- " + ExperimentList.ExitMark + " " + x, ExperimentList.TimeMark)
    ensures !Contains("- " + ExperimentList.ExitMark + " " + x, Summary.TerminatedMark)
  {
    var tag := "- " + ExperimentList.ExitMark + " ";
    assert tag == "- **Exit status:** ";
    assert !Contains(tag + x, ExperimentList.CommandMark) by {
      TagMisses(tag, x, ExperimentList.CommandMark, 2);
    }
    assert !Contains(tag + x, ExperimentList.TimeMark) by {
      TagMisses(tag, x, ExperimentList.TimeMark, 14);
    }
    TagMisses(tag, x, Summary.TerminatedMark, 2);
  }

  /** The termination line holds the termination marker only. */
  lemma TerminatedLineMarks()
    ensures Contains(Summary.TerminatedLine, Summary.TerminatedMark)
    ensures !Contains(Summary.TerminatedLine, ExperimentList.CommandMark)
    ensures !Contains(Summary.TerminatedLine, ExperimentList.ExitMark)
    ensures !Contains(Summary.TerminatedLine, ExperimentList.TimeMark)
  {
    assert OccursAt(Summary.TerminatedLine, Summary.TerminatedMark, 2);
    TerminatedLineMisses();
  }

  lemma TerminatedLineMisses()
    ensures !Contains(Summary.TerminatedLine, ExperimentList.CommandMark)
    ensures !Contains(Summary.TerminatedLine, ExperimentList.ExitMark)
    ensures !Contains(Summary.TerminatedLine, ExperimentList.TimeMark)
  {
    var l := Summary.TerminatedLine;
    assert l + "" == l;
    assert !Contains(l, ExperimentList.CommandMark) by {
      TagMisses(l, "", ExperimentList.CommandMark, 2);
    }
    assert !Contains(l, ExperimentList.ExitMark) by {
      TagMisses(l, "", ExperimentList.ExitMark, 3);
    }
    TagMisses(l, "", ExperimentList.TimeMark, 3);
  }

  /** The list reader on the duration line: the value is the text after the
      line's first ':', so it keeps the closing `** ` of the tag. */
  lemma StepTime(e: ExperimentList.Experiment, d: int)
    ensures ExperimentList.Step(e, TimeLabel + FormatDuration(d))
         == e.(duration := "** " + FormatDuration(d),
               durationSecs := ExperimentList.DurationToSeconds("** " + FormatDuration(d)))
  {
    var x := FormatDuration(d);
    FormatDurationExclude(d, '*');
    TimeLineMarks(x);
    var p := "- **Execution time";
    assert TimeLabel + x == p + [':'] + ("** " + x);
    AfterFirstSplit(p, ':', "** " + x);
    var v := "** " + x;
    assert v[|v| - 1] == 's' by { DurationEndsInS(d); }
    TrimSpaceKeeps(v);
  }

  lemma DurationEndsInS(d: int)
    ensures FormatDuration(d) != [] && FormatDuration(d)[|FormatDuration(d)| - 1] == 's'
  {
  }

  /** The noise before the duration does not change the seconds read. */
  lemma SecondsOfTimeValue(d: int)
    requires 0 <= d <= MaxInt64
    ensures ExperimentList.DurationToSeconds("** " + FormatDuration(d)) == RoundToSecond(d) / Second
  {
    var x := FormatDuration(d);
    assert "** " + x == ['*'] + ("* " + x);
    ExperimentList.SecondsAfterNoise('*', "* " + x);
    assert "* " + x == ['*'] + (" " + x);
    ExperimentList.SecondsAfterNoise('*', " " + x);
    assert " " + x == [' '] + x;
    ExperimentList.SecondsAfterNoise(' ', x);
    ExperimentList.SecondsOfFormatDuration(d);
  }

  /** The list reader on the exit-status line: finished, with the exit
      status left as it was. */
  lemma StepExit(e: ExperimentList.Experiment, code: int)
    ensures ExperimentList.Step(e, ExperimentList.ExitLine(code)) == e.(isRunning := false)
  {
    ItoaExclude(code, '*');
    ExitLineMarks(Itoa(code));
    ExperimentList.ExitStatusLost(e.(isRunning := false), code);
  }

  /** The reader applied to a first line and then the rest. */
  lemma ScanCons(e: ExperimentList.Experiment, a: string, tail: seq<string>)
    ensures ExperimentList.Scan(e, [a] + tail) == ExperimentList.Scan(ExperimentList.Step(e, a), tail)
  {
    assert ([a] + tail)[1..] == tail;
  }

  /** The reader applied to five lines and then the rest. */
  lemma ScanFive(e: ExperimentList.Experiment, a: string, b: string, c: string, d: string, f: string,
                 tail: seq<string>)
    ensures ExperimentList.Scan(e, [a, b, c, d, f] + tail)
         == ExperimentList.Scan(ExperimentList.Step(ExperimentList.Step(ExperimentList.Step(
              ExperimentList.Step(ExperimentList.Step(e, a), b), c), d), f), tail)
  {
    assert [a, b, c, d, f] + tail == [a] + ([b] + ([c] + ([d] + ([f] + tail))));
    ScanCons(e, a, [b] + ([c] + ([d] + ([f] + tail))));
    var e1 := ExperimentList.Step(e, a);
    ScanCons(e1, b, [c] + ([d] + ([f] + tail)));
    var e2 := ExperimentList.Step(e1, b);
    ScanCons(e2, c, [d] + ([f] + tail));
    var e3 := ExperimentList.Step(e2, c);
    ScanCons(e3, d, [f] + tail);
    ScanCons(ExperimentList.Step(e3, d), f, tail);
  }

  /** Read by the list reader, the results block marks the experiment
      finished, sets the duration text (with the label's closing `** ` in
      front) and its seconds, and marks it interrupted when the run was;
      the exit status is never taken from it and the command is untouched. */
  lemma ResultsRead(e: ExperimentList.Experiment, r: Results)
    ensures ExperimentList.Scan(e, ResultLines(r))
         == e.(isRunning := false, duration := "** " + FormatDuration(r.duration),
               durationSecs := ExperimentList.DurationToSeconds("** " + FormatDuration(r.duration)),
               interrupted := e.interrupted || r.interrupted)
  {
    var tail := if r.interrupted then [Summary.TerminatedLine] else [];
    var l2 := FinishedLabel + FormatPlain(r.end);
    var l3 := TimeLabel + FormatDuration(r.duration);
    var l4 := ExperimentList.ExitLine(r.exitCode);
    assert ResultLines(r) == ["", "## Execution Results", l2, l3, l4] + tail;
    var e4 := e.(duration := "** " + FormatDuration(r.duration),
                 durationSecs := ExperimentList.DurationToSeconds("** " + FormatDuration(r.duration)));
    var e5 := e4.(isRunning := false);
    StepHeads(e);
    StepFinished(e, r.end);
    StepTime(e, r.duration);
    StepExit(e4, r.exitCode);
    ScanTail(e5, r.interrupted);
    ScanBlock(e, "", "## Execution Results", l2, l3, l4, tail, e4, e5, e5.(interrupted := e5.interrupted || r.interrupted));
  }

  /** The reader over a block whose first three lines change nothing. */
  lemma ScanBlock(e: ExperimentList.Experiment, a: string, b: string, c: string, d: string, f: string,
                  tail: seq<string>, e4: ExperimentList.Experiment, e5: ExperimentList.Experiment,
                  e6: ExperimentList.Experiment)
    requires ExperimentList.Step(e, a) == e && ExperimentList.Step(e, b) == e && ExperimentList.Step(e, c) == e
    requires ExperimentList.Step(e, d) == e4 && ExperimentList.Step(e4, f) == e5
    requires ExperimentList.Scan(e5, tail) == e6
    ensures ExperimentList.Scan(e, [a, b, c, d, f] + tail) == e6
  {
    ScanFive(e, a, b, c, d, f, tail);
  }

  /** The blank line and the heading change nothing. */
  lemma StepHeads(e: ExperimentList.Experiment)
    ensures ExperimentList.Step(e, "") == e && ExperimentList.Step(e, "## Execution Results") == e
  {
    Starless("");
    Starless("## Execution Results");
  }

  /** The finish-time line changes nothing. */
  lemma StepFinished(e: ExperimentList.Experiment, t: DateTime)
    ensures ExperimentList.Step(e, FinishedLabel + FormatPlain(t)) == e
  {
    FormatPlainExclude(t, '*');
    FinishedLineUnmarked(FormatPlain(t));
  }

  /** The termination line, when there is one, marks the experiment interrupted. */
  lemma ScanTail(e: ExperimentList.Experiment, interrupted: bool)
    ensures ExperimentList.Scan(e, if interrupted then [Summary.TerminatedLine] else [])
         == e.(interrupted := e.interrupted || interrupted)
  {
    if interrupted {
      var tail := [Summary.TerminatedLine];
      assert ExperimentList.Scan(e, tail) == ExperimentList.Step(e, Summary.TerminatedLine) by {
        assert tail[1..] == [];
      }
      TerminatedLineMarks();
    }
  }

  // ---------------------------------------------------------------------
  // Run

  /** RunOptions */
  datatype RunOptions = RunOptions(
    command: seq<string>, force: bool, baseDir: string, noPushd: bool, cleanupOnFail: bool)

  /** The configuration values Run reads. */
  datatype Config = Config(
    baseDir: string, summaryFile: string, stdoutFile: string, stderrFile: string, requireClean: bool)

  /** How the child's Wait ends: success, an exit error with its code, or any other error. */
  datatype WaitResult = Exited | ExitError(code: int) | WaitFailed(msg: string)

  /** What the select receives first: the wait result, or a signal. */
  datatype Event = Completed(wait: WaitResult) | Signalled(sig: string)

  /** The changes Run makes, and the signal it sends. The summary file gets
      SummaryText of the block it is given, and ResultsText of the results
      appended to it. */
  datatype Effect =
    | MakeBaseDir(path: string)
    | MakeDir(path: string)
    | CreateFile(path: string)
    | WriteSummary(path: string, init: InitBlock)
    | Start(argv: seq<string>, dir: Option<string>)
    | Forward(sig: string)
    | AppendResults(path: string, results: Results)
    | RemoveAll(path: string)

  /** The answers of everything outside the program: the repository query,
      the clock (read for the directory name, the start and the end), each
      file-system call (an error, or None when it succeeds), the queries the
      summary text is made of, the start of the child and what the select
      receives. */
  datatype World = World(
    repo: Result<RepoStatus>, mkdirAllErr: Option<string>, stamp: DateTime, mkdirErr: Option<string>,
    start: DateTime, hostname: Result<string>, details: Result<string>, status: Result<RepoStatus>,
    diff: Result<string>, uname: string, unameErr: Option<string>,
    createErr: Option<string>, writeErr: Option<string>,
    stdoutErr: Option<string>, stderrErr: Option<string>, startErr: Option<string>,
    event: Event, end: DateTime, appendErr: Option<string>)

  const DirtyMessage := "git repository has uncommitted changes, use --force to override"

  /** The dirty-tree check. */
  predicate Blocked(repo: RepoStatus, opts: RunOptions, cfg: Config) {
    repo.isDirty && !opts.force && cfg.requireClean
  }

  function BaseDirOf(opts: RunOptions, cfg: Config): string {
    if opts.baseDir == "" then cfg.baseDir else opts.baseDir
  }

  /** `<start to the millisecond>_<sanitised branch>_<short hash>` */
  function DirName(stamp: DateTime, repo: RepoStatus): string {
    FormatMillis(stamp) + "_" + SanitizeName(repo.branch) + "_" + repo.shortHash
  }

  function ExpDirOf(opts: RunOptions, cfg: Config, w: World): string
    requires w.repo.Ok?
  {
    BaseDirOf(opts, cfg) + "/" + DirName(w.stamp, w.repo.value)
  }

  /** The block writeSummary is given. */
  function InitOf(opts: RunOptions, w: World, repo: RepoStatus, expDir: string): InitBlock {
    InitBlock(w.start, repo, opts.command, w.hostname, w.details, w.status, w.diff, w.uname, w.unameErr, expDir)
  }

  /** The exit code of a child whose Wait returned: 0, the exit error's
      own code, or 1 for any other error. */
  function WaitCode(wait: WaitResult): int {
    match wait
    case Exited => 0
    case ExitError(code) => code
    case WaitFailed(_) => 1
  }

  /** The exit code the select settles on; 130 after a signal. */
  function ExitCodeOf(ev: Event): int {
    match ev
    case Completed(wait) => WaitCode(wait)
    case Signalled(_) => 130
  }

  /** Up to the experiment directory: the repository checks and the two
      directories; the experiment directory's path when all went well. */
  function PrepareSpec(opts: RunOptions, cfg: Config, w: World): (r: (Result<string>, seq<Effect>))
    ensures r.0.Ok? ==> w.repo.Ok? && !Blocked(w.repo.value, opts, cfg) && r.0.value == ExpDirOf(opts, cfg, w)
  {
    match w.repo
    case Err(e) => (Err("git repository error: " + e), [])
    case Ok(repo) =>
      if Blocked(repo, opts, cfg) then (Err(DirtyMessage), [])
      else if w.mkdirAllErr.Some? then (Err("failed to create base directory: " + w.mkdirAllErr.value), [])
      else
        var base := BaseDirOf(opts, cfg);
        var expDir := ExpDirOf(opts, cfg, w);
        if w.mkdirErr.Some? then (Err("failed to create experiment directory: " + w.mkdirErr.value), [MakeBaseDir(base)])
        else (Ok(expDir), [MakeBaseDir(base), MakeDir(expDir)])
  }

  /** From the summary file to the start of the child. */
  function LaunchSpec(opts: RunOptions, cfg: Config, w: World, repo: RepoStatus, expDir: string)
    : (Option<string>, seq<Effect>)
  {
    var summaryPath := expDir + "/" + cfg.summaryFile;
    if w.createErr.Some? then
      (Some("failed to write summary: failed to create summary file: " + w.createErr.value), [])
    else if w.writeErr.Some? then
      (Some("failed to write summary: failed to write summary: " + w.writeErr.value), [CreateFile(summaryPath)])
    else
      var written := [CreateFile(summaryPath), WriteSummary(summaryPath, InitOf(opts, w, repo, expDir))];
      if w.stdoutErr.Some? then (Some("failed to create stdout file: " + w.stdoutErr.value), written)
      else
        var out := written + [CreateFile(expDir + "/" + cfg.stdoutFile)];
        if w.stderrErr.Some? then (Some("failed to create stderr file: " + w.stderrErr.value), out)
        else
          var files := out + [CreateFile(expDir + "/" + cfg.stderrFile)];
          if w.startErr.Some? then (Some("failed to start command: " + w.startErr.value), files)
          else (None, files + [Start(opts.command, if opts.noPushd then None else Some(expDir))])
  }

  /** From the started child to the result: the signal is passed on, the
      results are appended (a failure to append is not checked), the
      directory is removed on failure when asked, and a non-zero exit code
      is an error. */
  function EndSpec(opts: RunOptions, w: World, expDir: string, summaryPath: string): (Option<string>, seq<Effect>) {
    var code := ExitCodeOf(w.event);
    var forwarded := if w.event.Signalled? then [Forward(w.event.sig)] else [];
    var appended := if w.appendErr.Some? then []
                    else [AppendResults(summaryPath, Results(w.end, Sub(w.end, w.start), code, w.event.Signalled?))];
    var removed := if code != 0 && opts.cleanupOnFail then [RemoveAll(expDir)] else [];
    (if code != 0 then Some("command failed with exit code " + Itoa(code)) else None, forwarded + appended + removed)
  }

  /** The outcome of Run: the error it returns, if any, and its effects. */
  function RunSpec(opts: RunOptions, cfg: Config, w: World): (Option<string>, seq<Effect>) {
    var prep := PrepareSpec(opts, cfg, w);
    if prep.0.Err? then (Some(prep.0.msg), prep.1)
    else
      var launch := LaunchSpec(opts, cfg, w, w.repo.value, prep.0.value);
      if launch.0.Some? then (launch.0, prep.1 + launch.1)
      else
        var end := EndSpec(opts, w, prep.0.value, prep.0.value + "/" + cfg.summaryFile);
        (end.0, prep.1 + launch.1 + end.1)
  }

  method Prepare(opts: RunOptions, cfg: Config, w: World) returns (r: Result<string>, effects: seq<Effect>)
    ensures (r, effects) == PrepareSpec(opts, cfg, w)
  {
    if w.repo.Err? {
      return Err("git repository error: " + w.repo.msg), [];
    }
    var repo := w.repo.value;
    if repo.isDirty && !opts.force && cfg.requireClean {
      return Err(DirtyMessage), [];
    }
    var baseDir := opts.baseDir;
    if baseDir == "" {
      baseDir := cfg.baseDir;
    }
    if w.mkdirAllErr.Some? {
      return Err("failed to create base directory: " + w.mkdirAllErr.value), [];
    }
    effects := [MakeBaseDir(baseDir)];
    var dirName := FormatMillis(w.stamp) + "_" + SanitizeName(repo.branch) + "_" + repo.shortHash;
    var expDir := baseDir + "/" + dirName;
    if w.mkdirErr.Some? {
      return Err("failed to create experiment directory: " + w.mkdirErr.value), effects;
    }
    effects := effects + [MakeDir(expDir)];
    assert effects == [MakeBaseDir(baseDir), MakeDir(expDir)];
    r := Ok(expDir);
  }

  method Launch(opts: RunOptions, cfg: Config, w: World, repo: RepoStatus, expDir: string)
    returns (err: Option<string>, effects: seq<Effect>)
    ensures (err, effects) == LaunchSpec(opts, cfg, w, repo, expDir)
  {
    var summaryPath := expDir + "/" + cfg.summaryFile;
    if w.createErr.Some? {
      return Some("failed to write summary: failed to create summary file: " + w.createErr.value), [];
    }
    effects := [CreateFile(summaryPath)];
    if w.writeErr.Some? {
      return Some("failed to write summary: failed to write summary: " + w.writeErr.value), effects;
    }
    effects := effects + [WriteSummary(summaryPath, InitOf(opts, w, repo, expDir))];
    assert effects == [CreateFile(summaryPath), WriteSummary(summaryPath, InitOf(opts, w, repo, expDir))];
    if w.stdoutErr.Some? {
      return Some("failed to create stdout file: " + w.stdoutErr.value), effects;
    }
    effects := effects + [CreateFile(expDir + "/" + cfg.stdoutFile)];
    if w.stderrErr.Some? {
      return Some("failed to create stderr file: " + w.stderrErr.value), effects;
    }
    effects := effects + [CreateFile(expDir + "/" + cfg.stderrFile)];
    if w.startErr.Some? {
      return Some("failed to start command: " + w.startErr.value), effects;
    }
    var dir := if opts.noPushd then None else Some(expDir);
    effects := effects + [Start(opts.command, dir)];
    err := None;
  }

  /** The select, the results and the cleanup. */
  method End(opts: RunOptions, w: World, expDir: string, summaryPath: string)
    returns (err: Option<string>, effects: seq<Effect>)
    ensures (err, effects) == EndSpec(opts, w, expDir, summaryPath)
  {
    var exitCode := 0;
    var interrupted := false;
    var forwarded := [];
    match w.event {
      case Completed(wait) =>
        if !wait.Exited? {
          if wait.ExitError? {
            exitCode := wait.code;
          } else {
            exitCode := 1;
          }
        }
      case Signalled(sig) =>
        interrupted := true;
        forwarded := [Forward(sig)];
        exitCode := 130;
    }
    var duration := Sub(w.end, w.start);
    var appended := [];
    if w.appendErr.None? {
      appended := [AppendResults(summaryPath, Results(w.end, duration, exitCode, interrupted))];
    }
    var removed := [];
    if exitCode != 0 && opts.cleanupOnFail {
      removed := [RemoveAll(expDir)];
    }
    effects := forwarded + appended + removed;
    if exitCode != 0 {
      err := Some("command failed with exit code " + Itoa(exitCode));
    } else {
      err := None;
    }
  }

  /** Run: executes the command with experiment tracking. The command must
      have at least one word (its first word names the program). */
  method Run(opts: RunOptions, cfg: Config, w: World) returns (err: Option<string>, effects: seq<Effect>)
    requires opts.command != []
    ensures (err, effects) == RunSpec(opts, cfg, w)
  {
    var prep, made := Prepare(opts, cfg, w);
    if prep.Err? {
      return Some(prep.msg), made;
    }
    var launched;
    err, launched := Launch(opts, cfg, w, w.repo.value, prep.value);
    if err.Some? {
      return err, made + launched;
    }
    var ended;
    err, ended := End(opts, w, prep.value, prep.value + "/" + cfg.summaryFile);
    effects := made + launched + ended;
  }

  // ---------------------------------------------------------------------
  // Properties of Run

  /** The child was started: every step before it succeeded. */
  predicate Started(opts: RunOptions, cfg: Config, w: World) {
    PrepareSpec(opts, cfg, w).0.Ok?
    && LaunchSpec(opts, cfg, w, w.repo.value, PrepareSpec(opts, cfg, w).0.value).0.None?
  }

  /** A failed repository query, a dirty tree that must be clean, and a
      base directory that cannot be made are the only ways Run ends without
      changing anything; the dirty tree is refused with its own message. */
  lemma RunChangesNothing(opts: RunOptions, cfg: Config, w: World)
    ensures RunSpec(opts, cfg, w).1 == []
        <==> w.repo.Err? || Blocked(w.repo.value, opts, cfg) || w.mkdirAllErr.Some?
    ensures w.repo.Ok? && Blocked(w.repo.value, opts, cfg) ==> RunSpec(opts, cfg, w) == (Some(DirtyMessage), [])
  {
    var prep := PrepareSpec(opts, cfg, w);
    if w.repo.Ok? && !Blocked(w.repo.value, opts, cfg) && w.mkdirAllErr.None? {
      assert prep.1[0].MakeBaseDir?;
      assert RunSpec(opts, cfg, w).1[0] == prep.1[0];
    }
  }

  /** Once the child started: the exit code is 0 on success, the exit
      error's own code, 1 for any other wait error and 130 after a signal,
      and the run is an error exactly when the code is not 0. */
  lemma RunAfterStart(opts: RunOptions, cfg: Config, w: World)
    requires Started(opts, cfg, w)
    ensures var code := ExitCodeOf(w.event);
      && (w.event == Completed(Exited) ==> code == 0)
      && (w.event.Completed? && w.event.wait.ExitError? ==> code == w.event.wait.code)
      && (w.event.Completed? && w.event.wait.WaitFailed? ==> code == 1)
      && (w.event.Signalled? ==> code == 130)
      && (RunSpec(opts, cfg, w).0.Some? <==> code != 0)
      && (code != 0 ==> RunSpec(opts, cfg, w).0 == Some("command failed with exit code " + Itoa(code)))
  {
  }

  /** The steps up to the experiment directory only make directories. */
  lemma PrepareMakesDirs(opts: RunOptions, cfg: Config, w: World)
    ensures forall e | e in PrepareSpec(opts, cfg, w).1 :: e.MakeBaseDir? || e.MakeDir?
  {
  }

  /** The steps up to the start create and write files, and start the
      child only when they all succeed. */
  lemma LaunchWritesFiles(opts: RunOptions, cfg: Config, w: World, repo: RepoStatus, expDir: string)
    ensures var launch := LaunchSpec(opts, cfg, w, repo, expDir);
      && (forall e | e in launch.1 :: e.CreateFile? || e.WriteSummary? || e.Start?)
      && (launch.0.Some? ==> forall e | e in launch.1 :: !e.Start?)
  {
  }

  /** The steps after the start pass on signals, append results and remove the directory. */
  lemma EndEffects(opts: RunOptions, w: World, expDir: string, summaryPath: string)
    ensures var effects := EndSpec(opts, w, expDir, summaryPath).1;
      var code := ExitCodeOf(w.event);
      && ((exists s :: Forward(s) in effects) <==> w.event.Signalled?)
      && (w.appendErr.None? ==> AppendResults(summaryPath,
            Results(w.end, Sub(w.end, w.start), code, w.event.Signalled?)) in effects)
      && (RemoveAll(expDir) in effects <==> code != 0 && opts.cleanupOnFail)
      && (forall i | 0 <= i < |effects| && effects[i].RemoveAll? :: i == |effects| - 1)
  {
    var effects := EndSpec(opts, w, expDir, summaryPath).1;
    if w.event.Signalled? {
      assert effects[0] == Forward(w.event.sig);
    }
  }

  /** The effects of a started run before the child ends. */
  function BeforeEnd(opts: RunOptions, cfg: Config, w: World): seq<Effect>
    requires w.repo.Ok?
  {
    PrepareSpec(opts, cfg, w).1 + LaunchSpec(opts, cfg, w, w.repo.value, ExpDirOf(opts, cfg, w)).1
  }

  /** A started run's effects: those up to the start, which pass on no
      signal and remove nothing, then those of the last stage. */
  lemma RunSpecStarted(opts: RunOptions, cfg: Config, w: World)
    requires Started(opts, cfg, w)
    ensures var expDir := ExpDirOf(opts, cfg, w);
      RunSpec(opts, cfg, w).1 == BeforeEnd(opts, cfg, w) + EndSpec(opts, w, expDir, expDir + "/" + cfg.summaryFile).1
    ensures forall e | e in BeforeEnd(opts, cfg, w) :: !e.Forward? && !e.RemoveAll?
  {
    BeforeEndQuiet(opts, cfg, w);
  }

  lemma BeforeEndQuiet(opts: RunOptions, cfg: Config, w: World)
    requires w.repo.Ok?
    ensures forall e | e in BeforeEnd(opts, cfg, w) :: !e.Forward? && !e.RemoveAll?
  {
    PrepareMakesDirs(opts, cfg, w);
    LaunchWritesFiles(opts, cfg, w, w.repo.value, ExpDirOf(opts, cfg, w));
  }

  /** Once the child started, the signal, and only a signal, is passed on. */
  lemma RunForwardsSignal(opts: RunOptions, cfg: Config, w: World)
    requires Started(opts, cfg, w)
    ensures (exists s :: Forward(s) in RunSpec(opts, cfg, w).1) <==> w.event.Signalled?
  {
    var expDir := ExpDirOf(opts, cfg, w);
    var end := EndSpec(opts, w, expDir, expDir + "/" + cfg.summaryFile).1;
    RunSpecStarted(opts, cfg, w);
    EndEffects(opts, w, expDir, expDir + "/" + cfg.summaryFile);
    AfterQuietSteps(BeforeEnd(opts, cfg, w), end);
  }

  /** Once the child started, the results are appended to the summary file
      when it opens, saying interrupted exactly after a signal. */
  lemma RunAppendsResults(opts: RunOptions, cfg: Config, w: World)
    requires Started(opts, cfg, w) && w.appendErr.None?
    ensures var expDir := ExpDirOf(opts, cfg, w);
      AppendResults(expDir + "/" + cfg.summaryFile,
                    Results(w.end, Sub(w.end, w.start), ExitCodeOf(w.event), w.event.Signalled?))
        in RunSpec(opts, cfg, w).1
  {
    var expDir := ExpDirOf(opts, cfg, w);
    var end := EndSpec(opts, w, expDir, expDir + "/" + cfg.summaryFile).1;
    RunSpecStarted(opts, cfg, w);
    EndEffects(opts, w, expDir, expDir + "/" + cfg.summaryFile);
    AfterQuietSteps(BeforeEnd(opts, cfg, w), end);
  }

  /** Once the child started, the experiment directory is removed exactly
      when the exit code is not 0 and cleanup on failure is set, and a
      removal is the last effect. */
  lemma RunRemovesOnFailure(opts: RunOptions, cfg: Config, w: World)
    requires Started(opts, cfg, w)
    ensures var effects := RunSpec(opts, cfg, w).1;
      && (RemoveAll(ExpDirOf(opts, cfg, w)) in effects <==> ExitCodeOf(w.event) != 0 && opts.cleanupOnFail)
      && (forall i | 0 <= i < |effects| && effects[i].RemoveAll? :: i == |effects| - 1)
  {
    var expDir := ExpDirOf(opts, cfg, w);
    var end := EndSpec(opts, w, expDir, expDir + "/" + cfg.summaryFile).1;
    RunSpecStarted(opts, cfg, w);
    EndEffects(opts, w, expDir, expDir + "/" + cfg.summaryFile);
    AfterQuietSteps(BeforeEnd(opts, cfg, w), end);
  }

  /** Steps that neither pass on a signal nor remove anything, followed by
      others: the signals passed on and the removals are those of the
      others, and a removal last among the others is last overall. */
  lemma AfterQuietSteps(before: seq<Effect>, after: seq<Effect>)
    requires forall e | e in before :: !e.Forward? && !e.RemoveAll?
    ensures forall e | e in before + after && (e.Forward? || e.RemoveAll?) :: e in after
    ensures forall e | e in after :: e in before + after
    ensures (forall i | 0 <= i < |after| && after[i].RemoveAll? :: i == |after| - 1)
        ==> (forall i | 0 <= i < |before + after| && (before + after)[i].RemoveAll? :: i == |before + after| - 1)
  {
    var all := before + after;
    if forall i | 0 <= i < |after| && after[i].RemoveAll? :: i == |after| - 1 {
      forall i | 0 <= i < |all| && all[i].RemoveAll? ensures i == |all| - 1 {
        assert i >= |before|;
        assert all[i] == after[i - |before|];
      }
    }
  }

  /** A run that does not get as far as starting the child returns an
      error, removes nothing, appends no results and starts nothing; the
      experiment directory it may have made stays. */
  lemma RunFailsBeforeStart(opts: RunOptions, cfg: Config, w: World)
    requires !Started(opts, cfg, w)
    ensures RunSpec(opts, cfg, w).0.Some?
    ensures forall e | e in RunSpec(opts, cfg, w).1 :: !e.RemoveAll? && !e.AppendResults? && !e.Start? && !e.Forward?
  {
    var prep := PrepareSpec(opts, cfg, w);
    PrepareMakesDirs(opts, cfg, w);
    if prep.0.Ok? {
      LaunchWritesFiles(opts, cfg, w, w.repo.value, prep.0.value);
    }
  }

  /** What is written to the summary file is the text of the repository,
      the command, the start read from the clock and the experiment
      directory. */
  lemma RunWritesSummary(opts: RunOptions, cfg: Config, w: World)
    requires Started(opts, cfg, w)
    ensures var expDir := ExpDirOf(opts, cfg, w);
      WriteSummary(expDir + "/" + cfg.summaryFile, InitOf(opts, w, w.repo.value, expDir)) in RunSpec(opts, cfg, w).1
  {
    var prep := PrepareSpec(opts, cfg, w);
    var launch := LaunchSpec(opts, cfg, w, w.repo.value, prep.0.value);
    assert launch.1[1] in launch.1;
  }

  /** The experiment directory's name is recognised as a run directory, with
      its own clock reading `stamp` (taken when the directory is named, not
      the start the summary records) cut to the millisecond, the sanitised
      branch and the short
      hash as its groups, when the branch is not empty and holds no newline
      and the short hash is seven lower-case hex digits. */
  lemma DirNameRecognised(stamp: DateTime, repo: RepoStatus)
    requires ValidCivil(stamp) && repo.branch != [] && '\n' !in repo.branch && RunDir.IsShortHash(repo.shortHash)
    ensures RunDir.MatchRunDir(DirName(stamp, repo))
         == Some(RunDir.Parts(FormatMillis(stamp), SanitizeName(repo.branch), repo.shortHash))
  {
    var b := SanitizeName(repo.branch);
    assert '\n' !in b by {
      forall i | 0 <= i < |b| ensures b[i] != '\n' {
        assert repo.branch[i] in repo.branch;
      }
    }
    RunDir.FormatMillisFits(stamp);
    RunDir.MatchRunDirIff(RunDir.Parts(FormatMillis(stamp), b, repo.shortHash));
  }
}
