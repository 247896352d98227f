/** The run record: the Markdown summary file a run writes in two appends (a
    metadata block when it starts, a results block when it ends) and the
    line scanner that reads it back. Timestamps are RFC 3339. */
module Summary {
  import opened Wrappers
  import opened Strings
  import opened Decimal
  import opened Clock
  import opened Durations
  import opened Repo

  /** RunInfo */
  datatype RunInfo = RunInfo(
    directory: string, file: string, command: string,
    startTime: DateTime, endTime: DateTime,
    exitStatus: int, isRunning: bool,
    branch: string, commitHash: string, interrupted: bool)

  const Fence := "```"
  const StartLabel := "- **Execution datetime**: "
  const BranchLabel := "- **Branch**: "
  const HashLabel := "- **Commit hash**: "
  const CommandLabel := "- **Command**: "
  const ExitLabel := "- **Exit status**: "
  const FinishedLabel := "- **Execution finished**: "
  const DurationLabel := "- **Execution time**: "
  const TerminatedMark := "**Terminated by user**"
  const TerminatedLine := "- " + TerminatedMark

  /** filepath.Split: everything up to and including the last '/', and the rest. */
  function SplitPath(path: string): (parts: (string, string))
    ensures parts.0 + parts.1 == path
    ensures '/' !in parts.1
    ensures parts.0 == [] || parts.0[|parts.0| - 1] == '/'
  {
    if path == [] then ([], [])
    else if path[|path| - 1] == '/' then (path, [])
    else
      var (d, f) := SplitPath(path[..|path| - 1]);
      (d, f + [path[|path| - 1]])
  }

  predicate Backticked(s: string) {
    |s| >= 2 && s[0] == '`' && s[|s| - 1] == '`'
  }

  function Quote(s: string): string {
    "`" + s + "`"
  }

  /** trimBackticks: the text between a leading and a trailing backtick. */
  function TrimBackticks(s: string): (r: Result<string>)
    ensures r.Ok? <==> Backticked(s)
    ensures r.Ok? ==> Quote(r.value) == s
    ensures r.Err? ==> r.msg == "string is not enclosed in backticks"
  {
    if |s| < 2 || s[0] != '`' || s[|s| - 1] != '`' then Err("string is not enclosed in backticks")
    else Ok(s[1..|s| - 1])
  }

  /** Unwrapping a quoted value gives it back, whatever backticks it holds. */
  lemma TrimBackticksQuote(x: string)
    ensures TrimBackticks(Quote(x)) == Ok(x)
  {
    assert Quote(x)[1..|Quote(x)| - 1] == x;
  }

  // ---------------------------------------------------------------------
  // Reading

  /** The record before any line is read: the path split into directory and
      file, running until an exit status is seen. */
  function Initial(path: string): RunInfo {
    var (dir, file) := SplitPath(path);
    RunInfo(dir, file, "", ZeroTime, ZeroTime, 0, true, "", "", false)
  }

  /** A line that carries none of the field labels. */
  predicate Unlabelled(line: string) {
    !HasPrefix(line, StartLabel) && !HasPrefix(line, BranchLabel) && !HasPrefix(line, HashLabel)
    && !HasPrefix(line, CommandLabel) && !HasPrefix(line, ExitLabel) && !HasPrefix(line, FinishedLabel)
  }

  /** One line read outside a fenced block: the first label that prefixes it
      decides the field it sets. */
  function Step(info: RunInfo, line: string): Result<RunInfo> {
    if HasPrefix(line, StartLabel) then
      match ParseRFC3339(line[|StartLabel|..])
      case None => Err("failed to parse start time")
      case Some(t) => Ok(info.(startTime := t))
    else if HasPrefix(line, BranchLabel) then
      match TrimBackticks(line[|BranchLabel|..])
      case Err(e) => Err("failed to parse branch: " + e)
      case Ok(b) => Ok(info.(branch := b))
    else if HasPrefix(line, HashLabel) then
      match TrimBackticks(line[|HashLabel|..])
      case Err(e) => Err("failed to parse commit hash: " + e)
      case Ok(h) => Ok(info.(commitHash := h))
    else if HasPrefix(line, CommandLabel) then
      match TrimBackticks(line[|CommandLabel|..])
      case Err(e) => Err("failed to parse command: " + e)
      case Ok(c) => Ok(info.(command := c))
    else if HasPrefix(line, ExitLabel) then
      match Atoi(line[|ExitLabel|..])
      case None => Err("failed to parse exit status")
      case Some(n) => Ok(info.(isRunning := false, exitStatus := n))
    else if HasPrefix(line, FinishedLabel) then
      match ParseRFC3339(line[|FinishedLabel|..])
      case None => Err("failed to parse end time")
      case Some(t) => Ok(info.(endTime := t))
    else if Contains(line, TerminatedMark) then Ok(info.(interrupted := true))
    else Ok(info)
  }

  /** The fence flag after `line`: a line starting with three backticks flips it. */
  function Toggle(line: string, within: bool): bool {
    if HasPrefix(line, Fence) then !within else within
  }

  /** The scanner loop from some line on, given the record and the fence flag so far. */
  function Scan(lines: seq<string>, info: RunInfo, within: bool): Result<RunInfo>
    decreases |lines|
  {
    if lines == [] then Ok(info)
    else
      var w := Toggle(lines[0], within);
      if w then Scan(lines[1..], info, w)
      else
        var next :- Step(info, lines[0]);
        Scan(lines[1..], next, w)
  }

  /** ParseRunInfo on the file at `path`, whose content is the text or the
      error opening it gave. */
  function ParseSummary(path: string, content: Result<string>): (r: Result<RunInfo>)
    ensures content.Err? ==> r.Err? && HasPrefix(r.msg, "failed to open summary file")
  {
    match content
    case Err(e) => Err("failed to open summary file: " + e)
    case Ok(text) => Scan(Scanned(text), Initial(path), false)
  }

  method ParseRunInfo(path: string, content: Result<string>) returns (r: Result<RunInfo>)
    ensures r == ParseSummary(path, content)
  {
    if content.Err? {
      return Err("failed to open summary file: " + content.msg);
    }
    var lines := Scanned(content.value);
    var info := Initial(path);
    var within := false;
    var i := 0;
    while i < |lines|
      invariant 0 <= i <= |lines|
      invariant Scan(lines[i..], info, within) == ParseSummary(path, content)
    {
      var line := lines[i];
      assert lines[i..][1..] == lines[i + 1..];
      if HasPrefix(line, Fence) {
        within := !within;
      }
      if !within {
        var step := Step(info, line);
        if step.Err? {
          return Err(step.msg);
        }
        info := step.value;
      }
      i := i + 1;
    }
    return Ok(info);
  }

  // ---------------------------------------------------------------------
  // The lines the scanner acts on

  /** The lines read outside fenced blocks: the closing fence line is one of them. */
  function Visible(lines: seq<string>, within: bool): seq<string>
    decreases |lines|
  {
    if lines == [] then []
    else
      var w := Toggle(lines[0], within);
      (if w then [] else [lines[0]]) + Visible(lines[1..], w)
  }

  /** The fence flag after all of `lines`. */
  function FenceState(lines: seq<string>, within: bool): bool
    decreases |lines|
  {
    if lines == [] then within else FenceState(lines[1..], Toggle(lines[0], within))
  }

  /** Step over a list of lines, stopping at the first error. */
  function Apply(ls: seq<string>, info: RunInfo): Result<RunInfo>
    decreases |ls|
  {
    if ls == [] then Ok(info)
    else
      var next :- Step(info, ls[0]);
      Apply(ls[1..], next)
  }

  lemma {:induction false} ScanIsApply(lines: seq<string>, info: RunInfo, within: bool)
    ensures Scan(lines, info, within) == Apply(Visible(lines, within), info)
    decreases |lines|
  {
    if lines != [] {
      var w := Toggle(lines[0], within);
      var rest := Visible(lines[1..], w);
      if w {
        assert Visible(lines, within) == rest;
        ScanIsApply(lines[1..], info, w);
      } else {
        var s := Step(info, lines[0]);
        assert Visible(lines, within) == [lines[0]] + rest;
        ApplyCons(lines[0], rest, info);
        if s.Ok? {
          ScanIsApply(lines[1..], s.value, w);
        }
      }
    }
  }

  lemma ApplyCons(line: string, rest: seq<string>, info: RunInfo)
    ensures Apply([line] + rest, info) == (var next :- Step(info, line); Apply(rest, next))
  {
    assert ([line] + rest)[0] == line && ([line] + rest)[1..] == rest;
  }

  lemma {:induction false} ApplyAppend(a: seq<string>, b: seq<string>, info: RunInfo)
    ensures Apply(a + b, info) == (var mid :- Apply(a, info); Apply(b, mid))
    decreases |a|
  {
    if a == [] {
      assert a + b == b;
    } else {
      assert (a + b)[0] == a[0] && (a + b)[1..] == a[1..] + b;
      var s := Step(info, a[0]);
      if s.Ok? {
        ApplyAppend(a[1..], b, s.value);
      }
    }
  }

  lemma {:induction false} VisibleAppend(a: seq<string>, b: seq<string>, within: bool)
    ensures Visible(a + b, within) == Visible(a, within) + Visible(b, FenceState(a, within))
    decreases |a|
  {
    if a == [] {
      assert a + b == b;
    } else {
      assert (a + b)[0] == a[0] && (a + b)[1..] == a[1..] + b;
      VisibleAppend(a[1..], b, Toggle(a[0], within));
    }
  }

  /** No line of the list opens or closes a fence. */
  predicate FenceFree(ls: seq<string>) {
    forall l | l in ls :: !HasPrefix(l, Fence)
  }

  lemma {:induction false} VisibleFenceFree(ls: seq<string>, within: bool)
    requires FenceFree(ls)
    ensures Visible(ls, within) == (if within then [] else ls)
    ensures FenceState(ls, within) == within
  {
    if ls != [] {
      VisibleFenceFree(ls[1..], within);
      if !within {
        assert ls == [ls[0]] + ls[1..];
      }
    }
  }

  /** Fence opacity: a fenced block whose body opens no other fence shows only
      its closing line to the scanner, and leaves the flag cleared. */
  lemma FencedBlock(open: string, body: seq<string>, close: string)
    requires HasPrefix(open, Fence) && HasPrefix(close, Fence) && FenceFree(body)
    ensures Visible([open] + body + [close], false) == [close]
    ensures FenceState([open] + body + [close], false) == false
  {
    var ls := [open] + body + [close];
    assert ls[0] == open && ls[1..] == body + [close];
    VisibleAppend(body, [close], true);
    VisibleFenceFree(body, true);
    FenceStateAppend(body, [close], true);
    assert Visible([close], true) == [close] + Visible([], false);
  }

  /** Labels that differ at some position cannot both prefix one line. */
  lemma PrefixExclusive(line: string, a: string, b: string, k: nat)
    requires k < |a| && k < |b| && a[k] != b[k] && HasPrefix(line, a)
    ensures !HasPrefix(line, b)
  {
    assert line[..|a|][k] == line[k];
    PrefixMismatch(line, b, k);
  }

  /** Lines with a label other than the exit status cannot carry the exit status label. */
  lemma ExitLabelExclusive(line: string)
    requires HasPrefix(line, ExitLabel)
    ensures !HasPrefix(line, StartLabel) && !HasPrefix(line, BranchLabel)
    ensures !HasPrefix(line, HashLabel) && !HasPrefix(line, CommandLabel)
  {
    PrefixExclusive(line, ExitLabel, StartLabel, 6);
    PrefixExclusive(line, ExitLabel, BranchLabel, 4);
    PrefixExclusive(line, ExitLabel, HashLabel, 4);
    PrefixExclusive(line, ExitLabel, CommandLabel, 4);
  }

  /** A line the scanner accepts: each label's value has the form its field needs. */
  predicate LineOk(line: string) {
    if HasPrefix(line, StartLabel) then ParseRFC3339(line[|StartLabel|..]).Some?
    else if HasPrefix(line, BranchLabel) then Backticked(line[|BranchLabel|..])
    else if HasPrefix(line, HashLabel) then Backticked(line[|HashLabel|..])
    else if HasPrefix(line, CommandLabel) then Backticked(line[|CommandLabel|..])
    else if HasPrefix(line, ExitLabel) then Atoi(line[|ExitLabel|..]).Some?
    else if HasPrefix(line, FinishedLabel) then ParseRFC3339(line[|FinishedLabel|..]).Some?
    else true
  }

  /** What one line does to the fields the properties below are about. */
  lemma StepEffect(info: RunInfo, line: string)
    ensures Step(info, line).Ok? <==> LineOk(line)
    ensures Step(info, line).Ok? ==>
      var n := Step(info, line).value;
      n.directory == info.directory && n.file == info.file
      && n.isRunning == (info.isRunning && !HasPrefix(line, ExitLabel))
      && n.interrupted == (info.interrupted || (Unlabelled(line) && Contains(line, TerminatedMark)))
  {
    if HasPrefix(line, ExitLabel) {
      ExitLabelExclusive(line);
    }
  }

  lemma {:induction false} ApplyEffect(ls: seq<string>, info: RunInfo)
    ensures Apply(ls, info).Ok? <==> forall l | l in ls :: LineOk(l)
    ensures Apply(ls, info).Ok? ==>
      var r := Apply(ls, info).value;
      r.directory == info.directory && r.file == info.file
      && (r.isRunning <==> info.isRunning && forall l | l in ls :: !HasPrefix(l, ExitLabel))
      && (r.interrupted <==> info.interrupted || exists l | l in ls :: Unlabelled(l) && Contains(l, TerminatedMark))
    decreases |ls|
  {
    if ls != [] {
      StepEffect(info, ls[0]);
      assert forall l | l in ls :: l == ls[0] || l in ls[1..];
      var s := Step(info, ls[0]);
      if s.Ok? {
        ApplyEffect(ls[1..], s.value);
      }
    }
  }

  /** The parse fails exactly when a line the scanner reads, outside the fenced blocks, has a
      badly formed value: a branch, hash or command without backticks, an
      exit status that is no integer, or a timestamp that is no RFC 3339. */
  lemma ParseFails(path: string, text: string)
    ensures ParseSummary(path, Ok(text)).Err? <==>
      exists l | l in Visible(Scanned(text), false) :: !LineOk(l)
  {
    ScanIsApply(Scanned(text), Initial(path), false);
    ApplyEffect(Visible(Scanned(text), false), Initial(path));
  }

  /** A record reads as running until an exit status line outside the fenced blocks is seen. */
  lemma RunningUntilExitLine(path: string, text: string)
    requires ParseSummary(path, Ok(text)).Ok?
    ensures ParseSummary(path, Ok(text)).value.isRunning <==>
      forall l | l in Visible(Scanned(text), false) :: !HasPrefix(l, ExitLabel)
  {
    ScanIsApply(Scanned(text), Initial(path), false);
    ApplyEffect(Visible(Scanned(text), false), Initial(path));
  }

  /** A record is interrupted exactly when an unlabelled line outside the fenced blocks carries the mark. */
  lemma InterruptedIffMark(path: string, text: string)
    requires ParseSummary(path, Ok(text)).Ok?
    ensures ParseSummary(path, Ok(text)).value.interrupted <==>
      exists l | l in Visible(Scanned(text), false) :: Unlabelled(l) && Contains(l, TerminatedMark)
  {
    ScanIsApply(Scanned(text), Initial(path), false);
    ApplyEffect(Visible(Scanned(text), false), Initial(path));
  }

  /** Fence opacity for whole documents: what lies inside a fenced block (with
      no fence of its own) does not change the result, whatever it says. */
  lemma FencedBodyIrrelevant(info: RunInfo, before: seq<string>, open: string, body1: seq<string>,
                             body2: seq<string>, close: string, after: seq<string>)
    requires FenceState(before, false) == false
    requires HasPrefix(open, Fence) && HasPrefix(close, Fence) && FenceFree(body1) && FenceFree(body2)
    ensures Scan(before + ([open] + body1 + [close]) + after, info, false)
         == Scan(before + ([open] + body2 + [close]) + after, info, false)
  {
    var b1 := [open] + body1 + [close];
    var b2 := [open] + body2 + [close];
    FencedBlock(open, body1, close);
    FencedBlock(open, body2, close);
    ScanIsApply(before + b1 + after, info, false);
    ScanIsApply(before + b2 + after, info, false);
    VisibleAppend(before + b1, after, false);
    VisibleAppend(before + b2, after, false);
    VisibleAppend(before, b1, false);
    VisibleAppend(before, b2, false);
    FenceStateAppend(before, b1, false);
    FenceStateAppend(before, b2, false);
  }

  lemma {:induction false} FenceStateAppend(a: seq<string>, b: seq<string>, within: bool)
    ensures FenceState(a + b, within) == FenceState(b, FenceState(a, within))
    decreases |a|
  {
    if a == [] {
      assert a + b == b;
    } else {
      assert (a + b)[0] == a[0] && (a + b)[1..] == a[1..] + b;
      FenceStateAppend(a[1..], b, Toggle(a[0], within));
    }
  }

  // ---------------------------------------------------------------------
  // Writing

  const DetailsHeading := "## Latest Commit Details"
  const StatusHeading := "## Git Status"
  const DiffHeading := "## Uncommitted Changes (Diff)"
  const EnvironmentHeading := "## Environment Info"
  const DiffFence := "```diff"
  const HostnameLabel := "- **Hostname**: "
  const DirectoryLabel := "- **Working directory**: "

  /** The header and metadata lines WriteSummaryFileInit writes first. */
  function MetadataLines(started: string, branch: string, hash: string, command: string,
                         hostname: string, dir: string): seq<string> {
    ["# Experiment Summary", "", "## Metadata",
     StartLabel + started, BranchLabel + Quote(branch), HashLabel + Quote(hash),
     CommandLabel + Quote(command), HostnameLabel + Quote(hostname), DirectoryLabel + Quote(dir)]
  }

  /** A blank line, a heading, a fence opener, the body, a newline and the closing fence. */
  function Section(heading: string, opener: string, body: string): string {
    Unlines(["", heading, opener]) + ((body + "\n") + Unlines([Fence]))
  }

  /** The text WriteSummaryFileInit writes, given the values it has gathered. */
  function InitText(start: DateTime, repo: RepoStatus, command: seq<string>, hostname: string, dir: string,
                    details: string, status: string, diff: string, sysInfo: string): string {
    Unlines(MetadataLines(FormatRFC3339(start), repo.branch, repo.fullHash, Join(command, " "), hostname, dir))
    + Sections(details, status, diff, sysInfo)
  }

  /** The four fenced sections: commit details, repository status, diff and system information. */
  function Sections(details: string, status: string, diff: string, sysInfo: string): string {
    Section(DetailsHeading, DiffFence, details) + Section(StatusHeading, Fence, status)
    + Section(DiffHeading, DiffFence, diff) + Section(EnvironmentHeading, Fence, sysInfo)
  }

  function OrElse(r: Result<string>, fallback: string): string {
    if r.Ok? then r.value else fallback
  }

  /** WriteSummaryFileInit with the answers of the queries it makes: the host
      name, `git show`, a second repository query, `git diff` and `uname -a`
      (its output and its error, if any). Each failed query is replaced by its
      fixed fallback; the working directory is the directory part of the path. */
  function InitTextFor(path: string, start: DateTime, repo: RepoStatus, command: seq<string>,
                       hostname: Result<string>, gitShow: Result<string>, status: Result<RepoStatus>,
                       gitDiff: Result<string>, uname: string, unameError: Option<string>): string {
    InitText(start, repo, command, OrElse(hostname, "unknown"), SplitPath(path).0,
      OrElse(CommitDetails(gitShow), "Error retrieving commit details"),
      FormatGitStatus(if status.Ok? then status.value else RepoStatus(false, false, "", "", "")),
      OrElse(UncommittedChanges(gitDiff), "Error retrieving uncommitted changes"),
      uname + (if unameError.Some? then "Error retrieving system info: " + unameError.value else ""))
  }

  /** The results lines, given the end time, duration and exit status as text. */
  function ResultLines(finished: string, duration: string, code: string, interrupted: bool): seq<string> {
    ["", "## Execution Results", FinishedLabel + finished, DurationLabel + duration, ExitLabel + code]
    + (if interrupted then [TerminatedLine] else [])
  }

  /** The results lines WriteSummaryFileEnd appends. */
  function EndLines(start: DateTime, end: DateTime, exitCode: int, interrupted: bool): seq<string> {
    ResultLines(FormatRFC3339(end), FormatDuration(Sub(end, start)), Itoa(exitCode), interrupted)
  }

  function EndText(start: DateTime, end: DateTime, exitCode: int, interrupted: bool): string {
    Unlines(EndLines(start, end, exitCode, interrupted))
  }

  /** The results block holds exactly one exit status line, and the
      termination line exactly when the run was interrupted. */
  lemma EndBlock(start: DateTime, end: DateTime, exitCode: int, interrupted: bool)
    ensures var ls := EndLines(start, end, exitCode, interrupted);
      Lines(EndText(start, end, exitCode, interrupted)) == ls
      && (forall i | 0 <= i < |ls| :: HasPrefix(ls[i], ExitLabel) <==> i == 4)
      && ls[4] == ExitLabel + Itoa(exitCode)
      && (TerminatedLine in ls <==> interrupted)
  {
    EndLinesPlain(start, end, exitCode, interrupted);
    LinesOfUnlines(EndLines(start, end, exitCode, interrupted));
    EndLabels(FormatRFC3339(end), FormatDuration(Sub(end, start)), Itoa(exitCode), interrupted);
  }

  /** The label facts behind EndBlock, whatever the three values are. */
  lemma EndLabels(finished: string, duration: string, code: string, interrupted: bool)
    ensures var ls := ResultLines(finished, duration, code, interrupted);
      (forall i | 0 <= i < |ls| :: HasPrefix(ls[i], ExitLabel) <==> i == 4)
      && (TerminatedLine in ls <==> interrupted)
  {
    var ls := ResultLines(finished, duration, code, interrupted);
    PrefixMismatch(ls[0], ExitLabel, 0);
    PrefixMismatch(ls[1], ExitLabel, 0);
    PrefixExclusive(ls[2], FinishedLabel, ExitLabel, 6);
    PrefixExclusive(ls[3], DurationLabel, ExitLabel, 6);
    assert HasPrefix(ls[4], ExitLabel) by { assert ls[4][..|ExitLabel|] == ExitLabel; }
    if interrupted {
      PrefixMismatch(ls[5], ExitLabel, 4);
    } else {
      assert ls[2][4] != TerminatedLine[4];
      assert ls[3][4] != TerminatedLine[4];
      assert ls[4][4] != TerminatedLine[4];
    }
  }

  lemma QuotedPlain(tag: string, x: string)
    requires '\n' !in tag && '\n' !in x
    ensures PlainLine(tag + Quote(x))
  {
    var l := tag + Quote(x);
    assert l[|l| - 1] == '`';
  }

  lemma BreakFreePlain(tag: string, x: string)
    requires '\n' !in tag && '\n' !in x && '\r' !in x && x != []
    ensures PlainLine(tag + x)
  {
    var l := tag + x;
    assert l[|l| - 1] == x[|x| - 1];
  }

  lemma EndLinesPlain(start: DateTime, end: DateTime, exitCode: int, interrupted: bool)
    ensures forall l | l in EndLines(start, end, exitCode, interrupted) :: PlainLine(l)
  {
    TimePlain(FinishedLabel, end);
    DurationPlain(DurationLabel, Sub(end, start));
    ItoaPlain(ExitLabel, exitCode);
    ResultLinesPlain(FormatRFC3339(end), FormatDuration(Sub(end, start)), Itoa(exitCode), interrupted);
  }

  lemma ResultLinesPlain(finished: string, duration: string, code: string, interrupted: bool)
    requires PlainLine(FinishedLabel + finished) && PlainLine(DurationLabel + duration)
    requires PlainLine(ExitLabel + code)
    ensures forall l | l in ResultLines(finished, duration, code, interrupted) :: PlainLine(l)
  {
    var ls := ResultLines(finished, duration, code, interrupted);
    forall i | 0 <= i < |ls|
      ensures PlainLine(ls[i])
    {
      if i == 5 {
        assert ls[5] == TerminatedLine;
      }
    }
  }

  lemma TimePlain(tag: string, t: DateTime)
    requires '\n' !in tag
    ensures PlainLine(tag + FormatRFC3339(t))
  {
    FormatRFC3339Exclude(t, '\n');
    FormatRFC3339Exclude(t, '\r');
    BreakFreePlain(tag, FormatRFC3339(t));
  }

  lemma DurationPlain(tag: string, d: int)
    requires '\n' !in tag
    ensures PlainLine(tag + FormatDuration(d))
  {
    FormatDurationExclude(d, '\n');
    FormatDurationExclude(d, '\r');
    BreakFreePlain(tag, FormatDuration(d));
  }

  lemma ItoaPlain(tag: string, n: int)
    requires '\n' !in tag
    ensures PlainLine(tag + Itoa(n))
  {
    ItoaExclude(n, '\n');
    ItoaExclude(n, '\r');
    BreakFreePlain(tag, Itoa(n));
  }

  // ---------------------------------------------------------------------
  // Reading back what was written

  /** Reading `ls` from outside any fenced block turns `info` into `out` and
      ends outside a fenced block. */
  predicate Reads(ls: seq<string>, info: RunInfo, out: RunInfo) {
    FenceState(ls, false) == false && Apply(Visible(ls, false), info) == Ok(out)
  }

  lemma ReadsAppend(x: seq<string>, y: seq<string>, info: RunInfo, mid: RunInfo, out: RunInfo)
    requires Reads(x, info, mid) && Reads(y, mid, out)
    ensures Reads(x + y, info, out)
  {
    VisibleAppend(x, y, false);
    FenceStateAppend(x, y, false);
    ApplyAppend(Visible(x, false), Visible(y, false), info);
  }

  /** A line that sets no field. */
  predicate Inert(line: string) {
    Unlabelled(line) && !Contains(line, TerminatedMark)
  }

  lemma {:induction false} ApplyInert(ls: seq<string>, info: RunInfo)
    requires forall l | l in ls :: Inert(l)
    ensures Apply(ls, info) == Ok(info)
    decreases |ls|
  {
    if ls != [] {
      assert ls[0] in ls;
      assert forall l | l in ls[1..] :: l in ls;
      ApplyInert(ls[1..], info);
    }
  }

  lemma ReadsInert(ls: seq<string>, info: RunInfo)
    requires FenceFree(ls) && forall l | l in ls :: Inert(l)
    ensures Reads(ls, info, info)
  {
    VisibleFenceFree(ls, false);
    ApplyInert(ls, info);
  }

  lemma ReadsLine(line: string, info: RunInfo, next: RunInfo)
    requires !HasPrefix(line, Fence) && Step(info, line) == Ok(next)
    ensures Reads([line], info, next)
  {
    VisibleFenceFree([line], false);
    ApplyCons(line, [], info);
    assert [line] + [] == [line];
  }

  /** A line that starts with no dash and has no capital T (headings, fences, blanks). */
  lemma InertByFirst(line: string)
    requires (line == [] || line[0] != '-') && 'T' !in line
    ensures Inert(line) && !HasPrefix(line, ExitLabel)
  {
    PrefixMismatch(line, StartLabel, 0);
    PrefixMismatch(line, BranchLabel, 0);
    PrefixMismatch(line, HashLabel, 0);
    PrefixMismatch(line, CommandLabel, 0);
    PrefixMismatch(line, ExitLabel, 0);
    PrefixMismatch(line, FinishedLabel, 0);
    NotContainsChar(line, TerminatedMark, 2);
  }

  /** The host name and working directory lines set nothing. */
  lemma InertQuoted(tag: string, x: string)
    requires |tag| > 4 && tag[4] != 'E' && tag[4] != 'B' && tag[4] != 'C'
    requires 'T' !in tag && '*' !in x
    ensures Inert(tag + Quote(x))
  {
    var line := tag + Quote(x);
    assert line[4] == tag[4];
    PrefixMismatch(line, StartLabel, 4);
    PrefixMismatch(line, BranchLabel, 4);
    PrefixMismatch(line, HashLabel, 4);
    PrefixMismatch(line, CommandLabel, 4);
    PrefixMismatch(line, ExitLabel, 4);
    PrefixMismatch(line, FinishedLabel, 4);
    NotContainsChar(tag, TerminatedMark, 2);
    ContainsInPrefix(tag, Quote(x), TerminatedMark);
  }

  lemma HostAndDirectoryInert(hostname: string, dir: string)
    requires '*' !in hostname && '*' !in dir
    ensures Inert(HostnameLabel + Quote(hostname)) && Inert(DirectoryLabel + Quote(dir))
  {
    InertQuoted(HostnameLabel, hostname);
    InertQuoted(DirectoryLabel, dir);
  }

  lemma StartsWith(tag: string, x: string)
    ensures HasPrefix(tag + x, tag) && (tag + x)[|tag|..] == x
  {
    assert (tag + x)[..|tag|] == tag;
  }

  lemma StepStart(info: RunInfo, x: string, t: DateTime)
    requires ParseRFC3339(x) == Some(t)
    ensures Step(info, StartLabel + x) == Ok(info.(startTime := t))
  {
    StartsWith(StartLabel, x);
  }

  lemma StepBranch(info: RunInfo, b: string)
    ensures Step(info, BranchLabel + Quote(b)) == Ok(info.(branch := b))
  {
    var line := BranchLabel + Quote(b);
    StartsWith(BranchLabel, Quote(b));
    PrefixExclusive(line, BranchLabel, StartLabel, 4);
    TrimBackticksQuote(b);
  }

  lemma StepHash(info: RunInfo, h: string)
    ensures Step(info, HashLabel + Quote(h)) == Ok(info.(commitHash := h))
  {
    var line := HashLabel + Quote(h);
    StartsWith(HashLabel, Quote(h));
    PrefixExclusive(line, HashLabel, StartLabel, 4);
    PrefixExclusive(line, HashLabel, BranchLabel, 4);
    TrimBackticksQuote(h);
  }

  lemma StepCommand(info: RunInfo, c: string)
    ensures Step(info, CommandLabel + Quote(c)) == Ok(info.(command := c))
  {
    var line := CommandLabel + Quote(c);
    StartsWith(CommandLabel, Quote(c));
    PrefixExclusive(line, CommandLabel, StartLabel, 4);
    PrefixExclusive(line, CommandLabel, BranchLabel, 4);
    PrefixExclusive(line, CommandLabel, HashLabel, 8);
    TrimBackticksQuote(c);
  }

  lemma StepExit(info: RunInfo, x: string, n: int)
    requires Atoi(x) == Some(n)
    ensures Step(info, ExitLabel + x) == Ok(info.(isRunning := false, exitStatus := n))
  {
    StartsWith(ExitLabel, x);
    ExitLabelExclusive(ExitLabel + x);
  }

  lemma StepFinished(info: RunInfo, x: string, t: DateTime)
    requires ParseRFC3339(x) == Some(t)
    ensures Step(info, FinishedLabel + x) == Ok(info.(endTime := t))
  {
    StartsWith(FinishedLabel, x);
    FinishedLabelExclusive(FinishedLabel + x);
  }

  lemma FinishedLabelExclusive(line: string)
    requires HasPrefix(line, FinishedLabel)
    ensures !HasPrefix(line, StartLabel) && !HasPrefix(line, BranchLabel) && !HasPrefix(line, HashLabel)
    ensures !HasPrefix(line, CommandLabel) && !HasPrefix(line, ExitLabel)
  {
    PrefixExclusive(line, FinishedLabel, StartLabel, 14);
    PrefixExclusive(line, FinishedLabel, BranchLabel, 4);
    PrefixExclusive(line, FinishedLabel, HashLabel, 4);
    PrefixExclusive(line, FinishedLabel, CommandLabel, 4);
    PrefixExclusive(line, FinishedLabel, ExitLabel, 6);
  }

  /** The duration line carries no label the parser reads, and no termination mark. */
  lemma DurationInert(x: string)
    requires 'T' !in x
    ensures Inert(DurationLabel + x) && !HasPrefix(DurationLabel + x, Fence)
  {
    var line := DurationLabel + x;
    StartsWith(DurationLabel, x);
    DurationLabelExclusive(line);
    NotContainsChar(line, TerminatedMark, 2);
  }

  lemma DurationLabelExclusive(line: string)
    requires HasPrefix(line, DurationLabel)
    ensures Unlabelled(line) && !HasPrefix(line, Fence)
  {
    PrefixExclusive(line, DurationLabel, StartLabel, 14);
    PrefixExclusive(line, DurationLabel, BranchLabel, 4);
    PrefixExclusive(line, DurationLabel, HashLabel, 4);
    PrefixExclusive(line, DurationLabel, CommandLabel, 4);
    PrefixExclusive(line, DurationLabel, ExitLabel, 6);
    PrefixExclusive(line, DurationLabel, FinishedLabel, 14);
    PrefixExclusive(line, DurationLabel, Fence, 0);
  }

  lemma StepTerminated(info: RunInfo)
    ensures Step(info, TerminatedLine) == Ok(info.(interrupted := true))
    ensures !HasPrefix(TerminatedLine, DurationLabel)
  {
    var line := TerminatedLine;
    PrefixMismatch(line, DurationLabel, 4);
    PrefixMismatch(line, StartLabel, 4);
    PrefixMismatch(line, BranchLabel, 4);
    PrefixMismatch(line, HashLabel, 4);
    PrefixMismatch(line, CommandLabel, 4);
    PrefixMismatch(line, ExitLabel, 4);
    PrefixMismatch(line, FinishedLabel, 4);
    assert line[2..2 + |TerminatedMark|] == TerminatedMark;
    assert OccursAt(line, TerminatedMark, 2);
  }

  lemma NotFence(tag: string, x: string)
    requires tag != [] && tag[0] != '`'
    ensures !HasPrefix(tag + x, Fence)
  {
    assert (tag + x)[0] == tag[0];
    PrefixMismatch(tag + x, Fence, 0);
  }

  /** The lines of a section: a blank line, the heading, the opener, the lines
      of the body followed by a newline, and the closing fence. */
  function SectionLines(heading: string, opener: string, body: string): seq<string> {
    ["", heading, opener] + Lines(body + "\n") + [Fence]
  }

  predicate NewlineEnded(s: string) {
    s != [] && s[|s| - 1] == '\n'
  }

  lemma SectionText(heading: string, opener: string, body: string)
    requires PlainLine(heading) && PlainLine(opener)
    ensures Lines(Section(heading, opener, body)) == SectionLines(heading, opener, body)
    ensures NewlineEnded(Section(heading, opener, body))
  {
    var head := Unlines(["", heading, opener]);
    var rest := (body + "\n") + Unlines([Fence]);
    SectionHead(heading, opener);
    SectionRest(body);
    Concat(head, rest);
  }

  lemma SectionHead(heading: string, opener: string)
    requires PlainLine(heading) && PlainLine(opener)
    ensures Lines(Unlines(["", heading, opener])) == ["", heading, opener]
    ensures NewlineEnded(Unlines(["", heading, opener]))
  {
    LinesOfUnlines(["", heading, opener]);
    UnlinesEnded(["", heading, opener]);
  }

  lemma SectionRest(body: string)
    ensures Lines((body + "\n") + Unlines([Fence])) == Lines(body + "\n") + [Fence]
    ensures NewlineEnded((body + "\n") + Unlines([Fence]))
  {
    var b := body + "\n";
    assert b[|b| - 1] == '\n';
    LinesOfUnlines([Fence]);
    UnlinesEnded([Fence]);
    Concat(b, Unlines([Fence]));
  }

  /** Appending newline-ended texts appends their lines. */
  lemma Concat(a: string, b: string)
    requires NewlineEnded(a) && NewlineEnded(b)
    ensures Lines(a + b) == Lines(a) + Lines(b) && NewlineEnded(a + b)
  {
    LinesAppend(a, b);
    assert (a + b)[|a + b| - 1] == b[|b| - 1];
  }

  lemma UnlinesEnded(ls: seq<string>)
    requires ls != []
    ensures NewlineEnded(Unlines(ls))
  {
    UnlinesEndsInNewline(ls);
  }

  /** A section reads as nothing: its heading sets no field and its body is fenced. */
  lemma ReadsSection(heading: string, opener: string, body: string, info: RunInfo)
    requires Inert(heading) && !HasPrefix(heading, Fence) && HasPrefix(opener, Fence)
    requires FenceFree(Lines(body + "\n"))
    ensures Reads(SectionLines(heading, opener, body), info, info)
  {
    var ls := Lines(body + "\n");
    var block := [opener] + ls + [Fence];
    assert SectionLines(heading, opener, body) == ["", heading] + block;
    InertByFirst("");
    ReadsInert(["", heading], info);
    assert HasPrefix(Fence, Fence);
    FencedBlock(opener, ls, Fence);
    InertByFirst(Fence);
    ApplyInert([Fence], info);
    ReadsAppend(["", heading], block, info, info, info);
  }

  /** The metadata block sets the start time, branch, commit hash and command. */
  lemma ReadsMetadata(started: string, t: DateTime, branch: string, hash: string, command: string,
                      hostname: string, dir: string, info: RunInfo)
    requires ParseRFC3339(started) == Some(t) && '*' !in hostname && '*' !in dir
    ensures Reads(MetadataLines(started, branch, hash, command, hostname, dir), info,
                  info.(startTime := t, branch := branch, commitHash := hash, command := command))
  {
    var h := ["# Experiment Summary", "", "## Metadata"];
    var m := [StartLabel + started, BranchLabel + Quote(branch), HashLabel + Quote(hash),
              CommandLabel + Quote(command)];
    var n := [HostnameLabel + Quote(hostname), DirectoryLabel + Quote(dir)];
    var out := info.(startTime := t, branch := branch, commitHash := hash, command := command);
    assert MetadataLines(started, branch, hash, command, hostname, dir) == h + m + n;
    ReadsHeader(info);
    ReadsFields(started, t, branch, hash, command, info);
    HostAndDirectoryInert(hostname, dir);
    NotFence(HostnameLabel, Quote(hostname));
    NotFence(DirectoryLabel, Quote(dir));
    ReadsInert(n, out);
    ReadsAppend(h, m, info, info, out);
    ReadsAppend(h + m, n, info, out, out);
  }

  lemma ReadsHeader(info: RunInfo)
    ensures Reads(["# Experiment Summary", "", "## Metadata"], info, info)
  {
    var h := ["# Experiment Summary", "", "## Metadata"];
    InertByFirst(h[0]);
    InertByFirst(h[1]);
    InertByFirst(h[2]);
    NotFence(h[0], "");
    NotFence(h[2], "");
    assert h[0] + "" == h[0] && h[2] + "" == h[2];
    ReadsInert(h, info);
  }

  lemma ReadsFields(started: string, t: DateTime, branch: string, hash: string, command: string,
                    info: RunInfo)
    requires ParseRFC3339(started) == Some(t)
    ensures Reads([StartLabel + started, BranchLabel + Quote(branch), HashLabel + Quote(hash),
                   CommandLabel + Quote(command)], info,
                  info.(startTime := t, branch := branch, commitHash := hash, command := command))
  {
    var m1 := StartLabel + started;
    var m2 := BranchLabel + Quote(branch);
    var m3 := HashLabel + Quote(hash);
    var m4 := CommandLabel + Quote(command);
    assert [m1, m2, m3, m4] == [m1] + [m2] + [m3] + [m4];
    var i1 := info.(startTime := t);
    var i2 := i1.(branch := branch);
    var i3 := i2.(commitHash := hash);
    var i4 := i3.(command := command);
    StepStart(info, started, t);
    StepBranch(i1, branch);
    StepHash(i2, hash);
    StepCommand(i3, command);
    NotFence(StartLabel, started);
    NotFence(BranchLabel, Quote(branch));
    NotFence(HashLabel, Quote(hash));
    NotFence(CommandLabel, Quote(command));
    ReadsLine(m1, info, i1);
    ReadsLine(m2, i1, i2);
    ReadsLine(m3, i2, i3);
    ReadsLine(m4, i3, i4);
    ReadsAppend([m1], [m2], info, i1, i2);
    ReadsAppend([m1] + [m2], [m3], info, i2, i3);
    ReadsAppend([m1] + [m2] + [m3], [m4], info, i3, i4);
  }

  /** The results block sets the end time and exit status, ends the run, and
      marks it interrupted when the termination line is there. */
  lemma ReadsResults(finished: string, t: DateTime, duration: string, code: string, n: int,
                     interrupted: bool, info: RunInfo)
    requires ParseRFC3339(finished) == Some(t) && 'T' !in duration && Atoi(code) == Some(n)
    ensures Reads(ResultLines(finished, duration, code, interrupted), info,
                  info.(endTime := t, isRunning := false, exitStatus := n,
                        interrupted := info.interrupted || interrupted))
  {
    var m := ["", "## Execution Results", FinishedLabel + finished, DurationLabel + duration, ExitLabel + code];
    var tail := if interrupted then [TerminatedLine] else [];
    var i2 := info.(endTime := t, isRunning := false, exitStatus := n);
    ReadsResultFields(finished, t, duration, code, n, info);
    if interrupted {
      StepTerminated(i2);
      NotFence("- ", TerminatedMark);
      ReadsLine(TerminatedLine, i2, i2.(interrupted := true));
    } else {
      ReadsInert(tail, i2);
    }
    ReadsAppend(m, tail, info, i2, i2.(interrupted := info.interrupted || interrupted));
  }

  lemma ReadsResultFields(finished: string, t: DateTime, duration: string, code: string, n: int, info: RunInfo)
    requires ParseRFC3339(finished) == Some(t) && 'T' !in duration && Atoi(code) == Some(n)
    ensures Reads(["", "## Execution Results", FinishedLabel + finished, DurationLabel + duration, ExitLabel + code],
                  info, info.(endTime := t, isRunning := false, exitStatus := n))
  {
    var h := ["", "## Execution Results"];
    var f := FinishedLabel + finished;
    var d := DurationLabel + duration;
    var x := ExitLabel + code;
    assert [h[0], h[1], f, d, x] == h + [f] + [d] + [x];
    ResultsHeader(info);
    var i1 := info.(endTime := t);
    var i2 := i1.(isRunning := false, exitStatus := n);
    StepFinished(info, finished, t);
    NotFence(FinishedLabel, finished);
    ReadsLine(f, info, i1);
    DurationInert(duration);
    ReadsInert([d], i1);
    StepExit(i1, code, n);
    NotFence(ExitLabel, code);
    ReadsLine(x, i1, i2);
    ReadsAppend(h, [f], info, info, i1);
    ReadsAppend(h + [f], [d], info, i1, i1);
    ReadsAppend(h + [f] + [d], [x], info, i1, i2);
  }

  lemma ResultsHeader(info: RunInfo)
    ensures Reads(["", "## Execution Results"], info, info)
  {
    var h := ["", "## Execution Results"];
    InertByFirst(h[0]);
    InertByFirst(h[1]);
    NotFence(h[1], "");
    assert h[1] + "" == h[1];
    ReadsInert(h, info);
  }

  lemma MetadataPlain(started: string, branch: string, hash: string, command: string,
                      hostname: string, dir: string)
    requires PlainLine(StartLabel + started)
    requires '\n' !in branch && '\n' !in hash && '\n' !in command && '\n' !in hostname && '\n' !in dir
    ensures forall l | l in MetadataLines(started, branch, hash, command, hostname, dir) :: PlainLine(l)
  {
    var ls := MetadataLines(started, branch, hash, command, hostname, dir);
    QuotedPlain(BranchLabel, branch);
    QuotedPlain(HashLabel, hash);
    QuotedPlain(CommandLabel, command);
    QuotedPlain(HostnameLabel, hostname);
    QuotedPlain(DirectoryLabel, dir);
    forall i | 0 <= i < |ls|
      ensures PlainLine(ls[i])
    {
    }
  }

  /** The section headings set nothing and open no fence; the openers open one. */
  lemma Headings()
    ensures PlainLine(DetailsHeading) && Inert(DetailsHeading) && !HasPrefix(DetailsHeading, Fence)
    ensures PlainLine(StatusHeading) && Inert(StatusHeading) && !HasPrefix(StatusHeading, Fence)
    ensures PlainLine(DiffHeading) && Inert(DiffHeading) && !HasPrefix(DiffHeading, Fence)
    ensures PlainLine(EnvironmentHeading) && Inert(EnvironmentHeading) && !HasPrefix(EnvironmentHeading, Fence)
    ensures HasPrefix(DiffFence, Fence) && PlainLine(DiffFence) && HasPrefix(Fence, Fence) && PlainLine(Fence)
  {
    DetailsAndStatusHeadings();
    DiffAndEnvironmentHeadings();
    assert DiffFence[..3] == Fence;
  }

  lemma DetailsAndStatusHeadings()
    ensures PlainLine(DetailsHeading) && Inert(DetailsHeading) && !HasPrefix(DetailsHeading, Fence)
    ensures PlainLine(StatusHeading) && Inert(StatusHeading) && !HasPrefix(StatusHeading, Fence)
  {
    HeadingFacts(DetailsHeading);
    HeadingFacts(StatusHeading);
  }

  lemma DiffAndEnvironmentHeadings()
    ensures PlainLine(DiffHeading) && Inert(DiffHeading) && !HasPrefix(DiffHeading, Fence)
    ensures PlainLine(EnvironmentHeading) && Inert(EnvironmentHeading) && !HasPrefix(EnvironmentHeading, Fence)
  {
    HeadingFacts(DiffHeading);
    HeadingFacts(EnvironmentHeading);
  }

  lemma HeadingFacts(h: string)
    requires h != [] && h[0] == '#' && 'T' !in h && PlainLine(h)
    ensures PlainLine(h) && Inert(h) && !HasPrefix(h, Fence)
  {
    InertByFirst(h);
    NotFence(h, "");
    assert h + "" == h;
  }

  function SectionsLines(details: string, status: string, diff: string, sysInfo: string): seq<string> {
    SectionLines(DetailsHeading, DiffFence, details) + SectionLines(StatusHeading, Fence, status)
    + SectionLines(DiffHeading, DiffFence, diff) + SectionLines(EnvironmentHeading, Fence, sysInfo)
  }

  lemma SectionsText(details: string, status: string, diff: string, sysInfo: string)
    ensures Lines(Sections(details, status, diff, sysInfo)) == SectionsLines(details, status, diff, sysInfo)
    ensures NewlineEnded(Sections(details, status, diff, sysInfo))
  {
    var s1 := Section(DetailsHeading, DiffFence, details);
    var s2 := Section(StatusHeading, Fence, status);
    var s3 := Section(DiffHeading, DiffFence, diff);
    var s4 := Section(EnvironmentHeading, Fence, sysInfo);
    Headings();
    SectionText(DetailsHeading, DiffFence, details);
    SectionText(StatusHeading, Fence, status);
    SectionText(DiffHeading, DiffFence, diff);
    SectionText(EnvironmentHeading, Fence, sysInfo);
    Concat(s1, s2);
    Concat(s1 + s2, s3);
    Concat(s1 + s2 + s3, s4);
  }

  /** The fenced sections read as nothing. */
  lemma ReadsSections(details: string, status: string, diff: string, sysInfo: string, info: RunInfo)
    requires FenceFree(Lines(details + "\n")) && FenceFree(Lines(status + "\n"))
    requires FenceFree(Lines(diff + "\n")) && FenceFree(Lines(sysInfo + "\n"))
    ensures Reads(SectionsLines(details, status, diff, sysInfo), info, info)
  {
    var l1 := SectionLines(DetailsHeading, DiffFence, details);
    var l2 := SectionLines(StatusHeading, Fence, status);
    var l3 := SectionLines(DiffHeading, DiffFence, diff);
    var l4 := SectionLines(EnvironmentHeading, Fence, sysInfo);
    Headings();
    ReadsSection(DetailsHeading, DiffFence, details, info);
    ReadsSection(StatusHeading, Fence, status, info);
    ReadsSection(DiffHeading, DiffFence, diff, info);
    ReadsSection(EnvironmentHeading, Fence, sysInfo, info);
    ReadsAppend(l1, l2, info, info, info);
    ReadsAppend(l1 + l2, l3, info, info, info);
    ReadsAppend(l1 + l2 + l3, l4, info, info, info);
  }

  /** The lines of the text WriteSummaryFileInit writes: the metadata lines,
      then each section's lines. */
  lemma InitLines(start: DateTime, repo: RepoStatus, command: seq<string>, hostname: string, dir: string,
                  details: string, status: string, diff: string, sysInfo: string)
    requires '\n' !in repo.branch && '\n' !in repo.fullHash && '\n' !in Join(command, " ")
    requires '\n' !in hostname && '\n' !in dir
    ensures Lines(InitText(start, repo, command, hostname, dir, details, status, diff, sysInfo))
         == MetadataLines(FormatRFC3339(start), repo.branch, repo.fullHash, Join(command, " "), hostname, dir)
            + SectionsLines(details, status, diff, sysInfo)
    ensures NewlineEnded(InitText(start, repo, command, hostname, dir, details, status, diff, sysInfo))
  {
    var ms := MetadataLines(FormatRFC3339(start), repo.branch, repo.fullHash, Join(command, " "), hostname, dir);
    TimePlain(StartLabel, start);
    MetadataPlain(FormatRFC3339(start), repo.branch, repo.fullHash, Join(command, " "), hostname, dir);
    LinesOfUnlines(ms);
    UnlinesEnded(ms);
    SectionsText(details, status, diff, sysInfo);
    Concat(Unlines(ms), Sections(details, status, diff, sysInfo));
  }

  /** The lines of a whole summary file: metadata, sections, results. */
  lemma DocumentLines(start: DateTime, end: DateTime, repo: RepoStatus, command: seq<string>,
                      hostname: string, dir: string, details: string, status: string, diff: string,
                      sysInfo: string, exitCode: int, interrupted: bool)
    requires '\n' !in repo.branch && '\n' !in repo.fullHash && '\n' !in Join(command, " ")
    requires '\n' !in hostname && '\n' !in dir
    ensures Lines(InitText(start, repo, command, hostname, dir, details, status, diff, sysInfo)
                  + EndText(start, end, exitCode, interrupted))
         == MetadataLines(FormatRFC3339(start), repo.branch, repo.fullHash, Join(command, " "), hostname, dir)
            + SectionsLines(details, status, diff, sysInfo) + EndLines(start, end, exitCode, interrupted)
  {
    InitLines(start, repo, command, hostname, dir, details, status, diff, sysInfo);
    EndBlock(start, end, exitCode, interrupted);
    UnlinesEnded(EndLines(start, end, exitCode, interrupted));
    Concat(InitText(start, repo, command, hostname, dir, details, status, diff, sysInfo),
           EndText(start, end, exitCode, interrupted));
  }

  /** Reading the lines of a whole summary file from the initial record. */
  lemma {:induction false} ReadsDocument(start: DateTime, end: DateTime, repo: RepoStatus, command: seq<string>,
                      hostname: string, dir: string, details: string, status: string, diff: string,
                      sysInfo: string, exitCode: int, interrupted: bool, info: RunInfo)
    requires Valid(start) && Valid(end) && InInt64(exitCode) && !info.interrupted
    requires '*' !in hostname && '*' !in dir
    requires FenceFree(Lines(details + "\n")) && FenceFree(Lines(status + "\n"))
    requires FenceFree(Lines(diff + "\n")) && FenceFree(Lines(sysInfo + "\n"))
    ensures Reads(MetadataLines(FormatRFC3339(start), repo.branch, repo.fullHash, Join(command, " "), hostname, dir)
                  + SectionsLines(details, status, diff, sysInfo) + EndLines(start, end, exitCode, interrupted),
                  info,
                  info.(startTime := start.(nanos := 0), branch := repo.branch, commitHash := repo.fullHash,
                        command := Join(command, " "), endTime := end.(nanos := 0), isRunning := false,
                        exitStatus := exitCode, interrupted := interrupted))
  {
    var ms := MetadataLines(FormatRFC3339(start), repo.branch, repo.fullHash, Join(command, " "), hostname, dir);
    var ss := SectionsLines(details, status, diff, sysInfo);
    var le := EndLines(start, end, exitCode, interrupted);
    var i1 := info.(startTime := start.(nanos := 0), branch := repo.branch, commitHash := repo.fullHash,
                    command := Join(command, " "));
    var i2 := i1.(endTime := end.(nanos := 0), isRunning := false, exitStatus := exitCode,
                  interrupted := i1.interrupted || interrupted);
    RFC3339RoundTrip(start);
    RFC3339RoundTrip(end);
    AtoiItoa(exitCode);
    FormatDurationExclude(Sub(end, start), 'T');
    ReadsMetadata(FormatRFC3339(start), start.(nanos := 0), repo.branch, repo.fullHash, Join(command, " "),
                  hostname, dir, info);
    ReadsSections(details, status, diff, sysInfo, i1);
    ReadsResults(FormatRFC3339(end), end.(nanos := 0), FormatDuration(Sub(end, start)), Itoa(exitCode),
                 exitCode, interrupted, i1);
    ReadsAppend(ms, ss, info, i1, i1);
    ReadsAppend(ms + ss, le, info, i1, i2);
  }

  /** Write, then read back: a summary file as WriteSummaryFileInit and
      WriteSummaryFileEnd write it parses to the values they were given. The
      fraction of a second, which RFC 3339 text here does not carry, is lost;
      the values must not break lines, the host name and the directory must
      hold no asterisk (which could spell the termination mark), and no
      section body may open a fence of its own. No line of the file may fill
      the scanner's 64 KiB buffer: LongLineHidesRest says what a longer one
      does. */
  lemma {:induction false} RoundTrip(path: string, start: DateTime, end: DateTime, repo: RepoStatus, command: seq<string>,
                  hostname: string, details: string, status: string, diff: string, sysInfo: string,
                  exitCode: int, interrupted: bool)
    requires Valid(start) && Valid(end) && InInt64(exitCode)
    requires '\n' !in repo.branch && '\n' !in repo.fullHash && '\n' !in Join(command, " ")
    requires '\n' !in hostname && '\n' !in path && '*' !in hostname && '*' !in path
    requires FenceFree(Lines(details + "\n")) && FenceFree(Lines(status + "\n"))
    requires FenceFree(Lines(diff + "\n")) && FenceFree(Lines(sysInfo + "\n"))
    requires ShortLines(InitText(start, repo, command, hostname, SplitPath(path).0, details, status, diff, sysInfo)
                        + EndText(start, end, exitCode, interrupted))
    ensures var dir := SplitPath(path).0;
      ParseSummary(path, Ok(InitText(start, repo, command, hostname, dir, details, status, diff, sysInfo)
                            + EndText(start, end, exitCode, interrupted)))
      == Ok(RunInfo(dir, SplitPath(path).1, Join(command, " "), start.(nanos := 0), end.(nanos := 0),
                    exitCode, false, repo.branch, repo.fullHash, interrupted))
  {
    var dir := SplitPath(path).0;
    assert '\n' !in dir && '*' !in dir by { assert dir + SplitPath(path).1 == path; }
    var text := InitText(start, repo, command, hostname, dir, details, status, diff, sysInfo)
                + EndText(start, end, exitCode, interrupted);
    DocumentLines(start, end, repo, command, hostname, dir, details, status, diff, sysInfo, exitCode, interrupted);
    ReadsDocument(start, end, repo, command, hostname, dir, details, status, diff, sysInfo, exitCode,
                  interrupted, Initial(path));
    ScanLinesSpec(text);
    ScanIsApply(Scanned(text), Initial(path), false);
  }

  /** A line of 64 KiB or more ends the scan there: bufio.Scanner reports
      ErrTooLong, which the parser does not check, so the summary reads as
      if the file stopped before that line (a long diff hides the
      results, and the run looks as if still running). */
  lemma {:induction false} LongLineHidesRest(path: string, before: string, long: string, rest: string)
    requires before == [] || before[|before| - 1] == '\n'
    requires '\n' !in long && |long| >= MaxTokenSize
    ensures ParseSummary(path, Ok(before + long + rest)) == ParseSummary(path, Ok(before))
  {
    assert Scanned(before + long + rest) == Scanned(before) by {
      assert before + long + rest == before + (long + rest);
      ScanLinesAppend(before, long + rest);
      ScanTooLong(long, rest);
    }
  }

  // ---------------------------------------------------------------------
  // The displayed duration

  /** Time.IsZero: the instant 0001-01-01 00:00:00 UTC. */
  predicate IsZeroTime(t: DateTime) {
    Instant(t) == 0
  }

  /** RunInfo.Duration, with the clock reading `now` as a parameter: up to now
      while the run is running or has no end time, otherwise from start to end. */
  function RunDuration(r: RunInfo, now: DateTime): string {
    if r.isRunning || IsZeroTime(r.endTime) then FormatDuration(Sub(now, r.startTime))
    else FormatDuration(Sub(r.endTime, r.startTime))
  }

  /** A finished record read back from its file shows the duration between
      its whole-second timestamps (the instants less the fractions of a
      second the text lost), clamped to the range of a Duration. */
  lemma RecordedDuration(r: RunInfo, start: DateTime, end: DateTime, now: DateTime)
    requires !r.isRunning && r.startTime == start.(nanos := 0) && r.endTime == end.(nanos := 0)
    requires !IsZeroTime(r.endTime)
    ensures RunDuration(r, now) == FormatDuration(Saturate(Instant(end) - end.nanos - (Instant(start) - start.nanos)))
  {
    assert Instant(r.endTime) == Instant(end) - end.nanos;
    assert Instant(r.startTime) == Instant(start) - start.nanos;
  }

  /** The five-second run of the repository's own sample summary file,
      started at 2025-03-24T00:34:51+01:00 and finished five seconds later. */
  lemma RunDurationExample(r: RunInfo, now: DateTime)
    requires r.startTime == DateTime(2025, 3, 24, 0, 34, 51, 0, 3600)
    requires r.endTime == DateTime(2025, 3, 24, 0, 34, 56, 0, 3600)
    requires !r.isRunning
    ensures RunDuration(r, now) == "5s"
  {
    var b := r.endTime;
    assert Sub(b, r.startTime) == 5 * Second;
    assert DaysBeforeMonth(3, 2025) == 59;
    assert DaysBeforeYear(2025) == 739251;
    assert !IsZeroTime(b);
    FiveSeconds();
  }

  lemma FiveSeconds()
    ensures FormatDuration(5 * Second) == "5s"
  {
    FiveSecondFields();
    assert Itoa(5) == "5";
  }

  lemma FiveSecondFields()
    ensures Fields(5 * Second) == (0, 0, 5)
  {
    assert RoundToSecond(5 * Second) == 5 * Second;
    assert TDiv(5 * Second, Hour) == 0 && TDiv(5 * Second, Minute) == 0 && TDiv(5 * Second, Second) == 5;
    assert TMod(0, 60) == 0 && TMod(5, 60) == 5;
  }
}
