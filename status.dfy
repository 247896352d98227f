/** The status command's statistics (internal/status/status.go): a walk of
    the base directory that counts run directories by outcome, keeps the
    first few parsed runs, and adds up the sizes of the files it passes. */
module Status {
  import opened Wrappers
  import opened Strings
  import opened Decimal
  import opened Clock
  import opened RunDir
  import ExperimentList

  const SummaryFile := "Summary.md"
  const FinishedMark := "**Execution finished:**"

  /** The most runs the statistics keep. */
  const RecentLimit := 5

  /** RunInfo of the status command. */
  datatype RunInfo = RunInfo(
    directory: string, command: string, startTime: DateTime, endTime: DateTime,
    duration: string, exitStatus: int, isRunning: bool, branch: string, commitHash: string)

  // ---------------------------------------------------------------------
  // parseRunInfo

  /** The state of the scanner loop: the record so far and whether a command line was seen. */
  datatype Scanned = Scanned(info: RunInfo, commandFound: bool)

  /** `**Command:**`: the text between the first two backticks, when there is a backtick. */
  function ReadCommand(s: Scanned, line: string): Scanned {
    if Contains(line, ExperimentList.CommandMark) && BetweenFirstTwo(line, '`').Some?
    then Scanned(s.info.(command := BetweenFirstTwo(line, '`').value), true)
    else s
  }

  /** `**Exit status:**`: finished, and the text after the first ':' as the code when it trims to an int. */
  function ReadExit(s: Scanned, line: string): Scanned {
    if !Contains(line, ExperimentList.ExitMark) then s
    else
      var after := AfterFirst(line, ':');
      var code := if after.Some? && Atoi(TrimSpace(after.value)).Some?
                  then Atoi(TrimSpace(after.value)).value else s.info.exitStatus;
      s.(info := s.info.(isRunning := false, exitStatus := code))
  }

  /** `**Execution finished:**`: the text after the first ':' as a zone-less time, when it parses. */
  function ReadFinished(s: Scanned, line: string): Scanned {
    var after := AfterFirst(line, ':');
    if Contains(line, FinishedMark) && after.Some? && ParsePlain(TrimSpace(after.value)).Some?
    then s.(info := s.info.(endTime := ParsePlain(TrimSpace(after.value)).value))
    else s
  }

  /** `**Execution time:**`: the trimmed text after the first ':'. */
  function ReadTime(s: Scanned, line: string): Scanned {
    var after := AfterFirst(line, ':');
    if Contains(line, ExperimentList.TimeMark) && after.Some?
    then s.(info := s.info.(duration := TrimSpace(after.value)))
    else s
  }

  /** What one line of the summary does: the four checks in order. */
  function Step(s: Scanned, line: string): Scanned {
    ReadTime(ReadFinished(ReadExit(ReadCommand(s, line), line), line), line)
  }

  function Scan(s: Scanned, lines: seq<string>): Scanned
    decreases |lines|
  {
    if lines == [] then s else Scan(Step(s, lines[0]), lines[1..])
  }

  /** The record before the summary is read: the directory name's groups,
      running until shown otherwise. */
  function Initial(dirName: string, parts: Parts): RunInfo {
    RunInfo(dirName, "", ZeroTime, ZeroTime, "", 0, true, parts.branch, parts.hash)
  }

  /** parseRunInfo: `summary` is the text of the summary file, None when it
      cannot be opened. */
  function ParseRunInfoSpec(summary: Option<string>, dirName: string, parts: Parts): Result<RunInfo> {
    match ParseMillis(parts.stamp)
    case None => Err("unable to parse timestamp")
    case Some(start) =>
      if summary.None? then Err("failed to open summary file")
      else
        var s := Scan(Scanned(Initial(dirName, parts).(startTime := start), false), Strings.Scanned(summary.value));
        if s.commandFound then Ok(s.info) else Err("command not found in summary")
  }

  method ParseRunInfo(summary: Option<string>, dirName: string, parts: Parts) returns (r: Result<RunInfo>)
    ensures r == ParseRunInfoSpec(summary, dirName, parts)
  {
    var start := ParseMillis(parts.stamp);
    if start.None? {
      return Err("unable to parse timestamp");
    }
    if summary.None? {
      return Err("failed to open summary file");
    }
    var s0 := Scanned(Initial(dirName, parts).(startTime := start.value), false);
    var s := s0;
    var lines := Strings.Scanned(summary.value);
    var i := 0;
    while i < |lines|
      invariant 0 <= i <= |lines|
      invariant Scan(s, lines[i..]) == Scan(s0, lines)
    {
      s := ScanLine(s, lines[i]);
      assert lines[i..][0] == lines[i] && lines[i..][1..] == lines[i + 1..];
      i := i + 1;
    }
    assert lines[i..] == [];
    if !s.commandFound {
      return Err("command not found in summary");
    }
    return Ok(s.info);
  }

  /** The body of the scanner loop for one line. */
  method ScanLine(s0: Scanned, line: string) returns (s: Scanned)
    ensures s == Step(s0, line)
  {
    s := s0;
    if Contains(line, ExperimentList.CommandMark) {
      var parts := BetweenFirstTwo(line, '`');
      if parts.Some? {
        s := Scanned(s.info.(command := parts.value), true);
      }
    }
    assert s == ReadCommand(s0, line);
    ghost var s1 := s;
    if Contains(line, ExperimentList.ExitMark) {
      s := s.(info := s.info.(isRunning := false));
      var after := AfterFirst(line, ':');
      if after.Some? {
        var status := Atoi(TrimSpace(after.value));
        if status.Some? {
          s := s.(info := s.info.(exitStatus := status.value));
        }
      }
    }
    assert s == ReadExit(s1, line);
    ghost var s2 := s;
    if Contains(line, FinishedMark) {
      var after := AfterFirst(line, ':');
      if after.Some? {
        var endTime := ParsePlain(TrimSpace(after.value));
        if endTime.Some? {
          s := s.(info := s.info.(endTime := endTime.value));
        }
      }
    }
    assert s == ReadFinished(s2, line);
    if Contains(line, ExperimentList.TimeMark) {
      var after := AfterFirst(line, ':');
      if after.Some? {
        s := s.(info := s.info.(duration := TrimSpace(after.value)));
      }
    }
  }

  /** A line with a backtick is one BetweenFirstTwo cuts. */
  lemma BacktickCut(line: string)
    ensures BetweenFirstTwo(line, '`').Some? <==> '`' in line
  {
    var i := Find(line, '`');
    if i == |line| {
      assert forall k | 0 <= k < |line| :: line[k] != '`';
    }
  }

  /** The fields a line never changes: those taken from the directory name. */
  predicate SameOrigin(a: Scanned, b: Scanned) {
    a.info.directory == b.info.directory && a.info.startTime == b.info.startTime
    && a.info.branch == b.info.branch && a.info.commitHash == b.info.commitHash
  }

  lemma ReadCommandEffect(s: Scanned, line: string)
    ensures var s1 := ReadCommand(s, line);
      SameOrigin(s, s1) && s1.info.isRunning == s.info.isRunning
      && (s1.commandFound <==> s.commandFound || (Contains(line, ExperimentList.CommandMark) && '`' in line))
  {
    BacktickCut(line);
  }

  lemma ReadExitEffect(s: Scanned, line: string)
    ensures var s1 := ReadExit(s, line);
      SameOrigin(s, s1) && s1.commandFound == s.commandFound
      && (s1.info.isRunning <==> s.info.isRunning && !Contains(line, ExperimentList.ExitMark))
  {
  }

  lemma ReadRestEffect(s: Scanned, line: string)
    ensures var s1 := ReadTime(ReadFinished(s, line), line);
      SameOrigin(s, s1) && s1.commandFound == s.commandFound && s1.info.isRunning == s.info.isRunning
  {
  }

  /** One line: the exit marker finishes the run, a command line with a
      backtick records the command, and the directory-name fields stay. */
  lemma StepEffect(s: Scanned, line: string)
    ensures Step(s, line).info.isRunning <==> s.info.isRunning && !Contains(line, ExperimentList.ExitMark)
    ensures Step(s, line).commandFound
        <==> s.commandFound || (Contains(line, ExperimentList.CommandMark) && '`' in line)
    ensures SameOrigin(s, Step(s, line))
  {
    var s1 := ReadCommand(s, line);
    ReadCommandEffect(s, line);
    ReadExitEffect(s1, line);
    ReadRestEffect(ReadExit(s1, line), line);
  }

  /** A summary finishes the run exactly when one of its lines holds the exit
      marker, and names the command exactly when one of its command lines
      holds a backtick; the directory-name fields are never touched. */
  lemma {:induction false} ScanEffect(s: Scanned, lines: seq<string>)
    ensures Scan(s, lines).info.isRunning
        <==> s.info.isRunning && forall l | l in lines :: !Contains(l, ExperimentList.ExitMark)
    ensures Scan(s, lines).commandFound
        <==> s.commandFound || exists l | l in lines :: Contains(l, ExperimentList.CommandMark) && '`' in l
    ensures SameOrigin(s, Scan(s, lines))
    decreases |lines|
  {
    if lines != [] {
      StepEffect(s, lines[0]);
      ScanEffect(Step(s, lines[0]), lines[1..]);
      assert forall l :: l in lines <==> l == lines[0] || l in lines[1..];
    }
  }

  /** parseRunInfo succeeds exactly when the stamp parses, the summary opens
      and some line the scanner reads (every line before the first of 64 KiB
      or more) names a command; the record then carries the directory
      name, groups 2 and 3 as branch and hash, group 1 as start time, and is
      running exactly when no line holds the exit marker. */
  lemma ParseRunInfoProperties(summary: Option<string>, dirName: string, parts: Parts)
    ensures ParseRunInfoSpec(summary, dirName, parts).Ok?
        <==> ParseMillis(parts.stamp).Some? && summary.Some?
             && exists l | l in Strings.Scanned(summary.value) :: Contains(l, ExperimentList.CommandMark) && '`' in l
    ensures var r := ParseRunInfoSpec(summary, dirName, parts);
      r.Ok? ==>
        r.value.directory == dirName && r.value.branch == parts.branch && r.value.commitHash == parts.hash
        && Some(r.value.startTime) == ParseMillis(parts.stamp)
        && (r.value.isRunning <==> forall l | l in Strings.Scanned(summary.value) :: !Contains(l, ExperimentList.ExitMark))
  {
    if ParseMillis(parts.stamp).Some? && summary.Some? {
      var s0 := Scanned(Initial(dirName, parts).(startTime := ParseMillis(parts.stamp).value), false);
      ScanEffect(s0, Strings.Scanned(summary.value));
    }
  }

  /** The scanner's error is not checked: a line of 64 KiB or more ends the
      reading there, as if the file stopped before it. */
  lemma {:induction false} LongLineHidesRest(before: string, long: string, rest: string, dirName: string, parts: Parts)
    requires before == [] || before[|before| - 1] == '\n'
    requires '\n' !in long && |long| >= MaxTokenSize
    ensures ParseRunInfoSpec(Some(before + long + rest), dirName, parts) == ParseRunInfoSpec(Some(before), dirName, parts)
  {
    assert Strings.Scanned(before + long + rest) == Strings.Scanned(before) by {
      assert before + long + rest == before + (long + rest);
      ScanLinesAppend(before, long + rest);
      ScanTooLong(long, rest);
    }
  }

  // ---------------------------------------------------------------------
  // The results lines of the experiment runner, as parseRunInfo reads them

  /** `- **Execution finished:** <time>`, the line the experiment runner writes. */
  function FinishedLine(t: DateTime): string {
    "- " + FinishedMark + " " + FormatPlain(t)
  }

  /** The zone-less layout starts and ends with a digit. */
  lemma PlainEnds(t: DateTime)
    requires ValidCivil(t)
    ensures FormatPlain(t) != [] && IsDigit(FormatPlain(t)[0]) && IsDigit(FormatPlain(t)[|FormatPlain(t)| - 1])
  {
    var y := Pad(t.year, 4);
    var sec := Pad(t.second, 2);
    var s := FormatPlain(t);
    var mid := "-" + (PadInt(t.month, 2) + ("-" + (PadInt(t.day, 2) + ("T" + (PadInt(t.hour, 2) + (":" + (PadInt(t.minute, 2) + ":")))))));
    assert s == y + mid + sec;
    assert s[0] == y[0];
    assert s[|s| - 1] == sec[|sec| - 1];
  }

  lemma FinishedLineCut(x: string)
    ensures AfterFirst("- " + FinishedMark + " " + x, ':') == Some("** " + x)
  {
    var p := "- **Execution finished";
    assert "- " + FinishedMark + " " + x == p + [':'] + ("** " + x);
    AfterFirstSplit(p, ':', "** " + x);
  }

  lemma FinishedLineHasMark(x: string)
    ensures Contains("- " + FinishedMark + " " + x, FinishedMark)
  {
    assert OccursAt("- " + FinishedMark + " " + x, FinishedMark, 2);
  }

  /** Text that starts with `**` is no time. */
  lemma StarsNotTime(x: string)
    requires x != [] && !IsSpace(x[|x| - 1])
    ensures ParsePlain(TrimSpace("** " + x)) == None
  {
    var v := "** " + x;
    assert v[|v| - 1] == x[|x| - 1];
    TrimSpaceKeeps(v);
    assert !IsDigit(v[0]);
    assert Year4(v) == None;
    assert ParseDate(v) == None;
    assert ParseClock(v, false) == None;
  }

  /** As written, the finish time of the runner's results lines is never
      read: after the first ':' the value starts with `**`. */
  lemma FinishedTimeLost(s: Scanned, t: DateTime)
    requires ValidCivil(t)
    ensures Contains(FinishedLine(t), FinishedMark)
    ensures ReadFinished(s, FinishedLine(t)) == s
  {
    var x := FormatPlain(t);
    PlainEnds(t);
    FinishedLineCut(x);
    FinishedLineHasMark(x);
    StarsNotTime(x);
  }

  /** As written, the exit code of the runner's results lines is never read;
      the run is still marked finished. */
  lemma ExitCodeLost(s: Scanned, code: int)
    ensures ReadExit(s, ExperimentList.ExitLine(code)).info == s.info.(isRunning := false)
  {
    ExperimentList.ExitTextNotNumber(code);
    ExperimentList.ExitLineHasMark(Itoa(code));
  }

  /** The reading evidently intended: the values after the markers. */
  function ReadExitCorrected(s: Scanned, line: string): Scanned {
    if !Contains(line, ExperimentList.ExitMark) then s
    else
      var after := ExperimentList.AfterMark(line, ExperimentList.ExitMark);
      var code := if after.Some? && Atoi(TrimSpace(after.value)).Some?
                  then Atoi(TrimSpace(after.value)).value else s.info.exitStatus;
      s.(info := s.info.(isRunning := false, exitStatus := code))
  }

  function ReadFinishedCorrected(s: Scanned, line: string): Scanned {
    var after := ExperimentList.AfterMark(line, FinishedMark);
    if after.Some? && ParsePlain(TrimSpace(after.value)).Some?
    then s.(info := s.info.(endTime := ParsePlain(TrimSpace(after.value)).value))
    else s
  }

  lemma FinishedLineMark(x: string)
    ensures ExperimentList.AfterMark("- " + FinishedMark + " " + x, FinishedMark) == Some(" " + x)
  {
    var line := "- " + FinishedMark + " " + x;
    assert line[2..2 + |FinishedMark|] == FinishedMark;
    forall j | 0 <= j < 2 ensures !HasPrefix(line[j..], FinishedMark) {
      PrefixMismatch(line[j..], FinishedMark, 0);
    }
    ExperimentList.AfterMarkAt(line, FinishedMark, 2);
    assert line[2 + |FinishedMark|..] == " " + x;
  }

  /** The corrected reading recovers the finish time to the second. */
  lemma FinishedTimeCorrected(s: Scanned, t: DateTime)
    requires ValidCivil(t)
    ensures ReadFinishedCorrected(s, FinishedLine(t)).info.endTime == t.(nanos := 0, offset := 0)
  {
    var x := FormatPlain(t);
    FinishedLineMark(x);
    PlainEnds(t);
    ExperimentList.TrimAfterSpace(x);
    PlainRoundTrip(t);
  }

  /** The corrected reading recovers every int64 exit code and marks the run finished. */
  lemma ExitCodeCorrected(s: Scanned, code: int)
    requires InInt64(code)
    ensures ReadExitCorrected(s, ExperimentList.ExitLine(code)).info == s.info.(isRunning := false, exitStatus := code)
  {
    var digits := Itoa(code);
    ExperimentList.ExitLineMark(digits);
    ExperimentList.ExitLineHasMark(digits);
    ItoaEnds(code);
    ExperimentList.TrimAfterSpace(digits);
    AtoiItoa(code);
  }

  // ---------------------------------------------------------------------
  // formatSize

  function Pow1024(k: nat): (p: nat)
    ensures p >= 1
  {
    if k == 0 then 1 else 1024 * Pow1024(k - 1)
  }

  /** A formatted disk usage: the empty text the statistics start with, a
      byte count below 1024, or the size divided by 1024^(exp+1) with the
      prefix "KMGTPE"[exp]. */
  datatype Size = NoSize | Bytes(n: int) | Scaled(bytes: int, div: int, exp: nat)

  /** Iterations of the formatSize loop when `n` starts as bytes / 1024. */
  function Steps(n: int): nat
    decreases n
  {
    if n < 1024 then 0 else 1 + Steps(n / 1024)
  }

  function SizeOf(bytes: int): Size {
    if bytes < 1024 then Bytes(bytes)
    else
      var e := Steps(bytes / 1024);
      Scaled(bytes, Pow1024(e + 1), e)
  }

  /** formatSize, up to the one-decimal float text of a scaled size. */
  method FormatSize(bytes: int) returns (s: Size)
    ensures s == SizeOf(bytes)
  {
    if bytes < 1024 {
      return Bytes(bytes);
    }
    var div, exp := 1024, 0;
    var n := bytes / 1024;
    while n >= 1024
      invariant exp + Steps(n) == Steps(bytes / 1024)
      invariant div == Pow1024(exp + 1)
      decreases n
    {
      div := div * 1024;
      exp := exp + 1;
      n := n / 1024;
    }
    return Scaled(bytes, div, exp);
  }

  lemma {:induction false} StepsBounds(n: int)
    requires n >= 1
    ensures Pow1024(Steps(n)) <= n < 1024 * Pow1024(Steps(n))
    decreases n
  {
    if n >= 1024 {
      var q := n / 1024;
      StepsBounds(q);
      var p := Pow1024(Steps(q));
      assert Pow1024(Steps(n)) == 1024 * p;
      assert 1024 * p <= 1024 * q <= n;
      assert q + 1 <= 1024 * p;
      assert n < 1024 * (q + 1) <= 1024 * (1024 * p);
    }
  }

  lemma {:induction false} Pow1024Grows(a: nat, b: nat)
    requires a <= b
    ensures Pow1024(a) <= Pow1024(b)
    decreases b
  {
    if a < b {
      Pow1024Grows(a, b - 1);
    }
  }

  /** A size of at least 1024 bytes is scaled by the largest power of 1024
      not above it, so the integer part of the printed number is 1 to 1023;
      for every int64 size the exponent indexes "KMGTPE". */
  lemma SizeOfBounds(bytes: int)
    requires 1024 <= bytes <= MaxInt64
    ensures SizeOf(bytes).Scaled?
    ensures var s := SizeOf(bytes); s.div <= bytes < 1024 * s.div && 1 <= bytes / s.div < 1024
    ensures SizeOf(bytes).exp < |"KMGTPE"|
  {
    var e := Steps(bytes / 1024);
    StepsBounds(bytes / 1024);
    var p := Pow1024(e);
    assert 1024 * p <= bytes < 1024 * (1024 * p);
    DivBounds(bytes, 1024 * p);
    if e >= 6 {
      Pow1024Grows(7, e + 1);
    }
  }

  lemma DivBounds(a: int, d: int)
    requires 0 < d <= a < 1024 * d
    ensures 1 <= a / d < 1024
  {
    var q := a / d;
    assert a == q * d + a % d && 0 <= a % d < d;
  }

  // ---------------------------------------------------------------------
  // getProjectStats

  /** An entry as filepath.Walk meets it: a file with its size and, when it
      opens, its text; or a directory with its entries in the order the walk
      visits them and the error reading them, if any. */
  datatype Node =
    | File(name: string, size: int, text: Option<string>)
    | Dir(name: string, children: seq<Node>, readErr: Option<string>)

  /** The text os.Open and the scanner get from <dir>/<file>; a directory
      of that name opens but yields no lines. */
  function SummaryOf(children: seq<Node>, file: string): Option<string> {
    if children == [] then None
    else if children[0].name == file then
      (match children[0]
       case File(_, _, text) => text
       case Dir(_, _, _) => Some(""))
    else SummaryOf(children[1..], file)
  }

  /** The counters the walk callback updates. */
  datatype Counts = Counts(total: nat, success: nat, failure: nat, running: nat, bytes: int, recent: seq<RunInfo>)

  const NoCounts := Counts(0, 0, 0, 0, 0, [])

  /** What the callback tells the walk: go on, do not enter this directory, or stop with an error. */
  datatype Verdict = Continue | SkipDir | Abort(err: string)

  /** A directory the callback counts: readable, not the base, with a run-directory name. */
  predicate Recognised(node: Node, isRoot: bool) {
    node.Dir? && node.readErr.None? && !isRoot && MatchRunDir(node.name).Some?
  }

  function ParseOf(node: Node): Result<RunInfo>
    requires node.Dir? && MatchRunDir(node.name).Some?
  {
    ParseRunInfoSpec(SummaryOf(node.children, SummaryFile), node.name, MatchRunDir(node.name).value)
  }

  /** The walk callback on one entry. */
  function VisitSpec(c: Counts, node: Node, isRoot: bool, incl: bool): (Counts, Verdict) {
    if node.File? then (c.(bytes := c.bytes + node.size), Continue)
    else if node.readErr.Some? then (c, Abort(node.readErr.value))
    else if isRoot || MatchRunDir(node.name).None? then (c, Continue)
    else CountSpec(c, node, incl)
  }

  /** The callback on a run directory: counted; a summary that does not
      parse counts as running and the walk goes into the directory, one that
      parses is recorded and the walk skips the directory. */
  function CountSpec(c: Counts, node: Node, incl: bool): (Counts, Verdict)
    requires node.Dir? && MatchRunDir(node.name).Some?
  {
    Tallied(c, ParseOf(node), incl)
  }

  /** The counters after a run directory whose summary parsed to `r`. */
  function Tallied(c: Counts, r: Result<RunInfo>, incl: bool): (Counts, Verdict) {
    var c1 := c.(total := c.total + 1);
    if r.Err? then (c1.(running := c1.running + 1), Continue)
    else (Record(c1, r.value, incl), SkipDir)
  }

  /** A parsed run: counted by its outcome, and kept while fewer than five are. */
  function Record(c: Counts, info: RunInfo, incl: bool): Counts {
    var c1 := if info.isRunning then c.(running := c.running + 1)
              else if info.exitStatus == 0 then c.(success := c.success + 1)
              else c.(failure := c.failure + 1);
    if incl && |c1.recent| < RecentLimit then c1.(recent := c1.recent + [info]) else c1
  }

  /** filepath.Walk from `node` with that callback. */
  function WalkNode(c: Counts, node: Node, isRoot: bool, incl: bool): Result<Counts>
    decreases node, 1
  {
    var (c1, v) := VisitSpec(c, node, isRoot, incl);
    if v.Abort? then Err(v.err)
    else if v.SkipDir? || node.File? then Ok(c1)
    else WalkAll(c1, node.children, incl)
  }

  function WalkAll(c: Counts, nodes: seq<Node>, incl: bool): Result<Counts>
    decreases nodes, 0
  {
    if nodes == [] then Ok(c)
    else
      var c1 :- WalkNode(c, nodes[0], false, incl);
      WalkAll(c1, nodes[1..], incl)
  }

  /** The statistics of the status command. */
  datatype ProjectStats = ProjectStats(
    totalExperiments: nat, successCount: nat, failureCount: nat, runningCount: nat,
    diskUsage: Size, diskUsageBytes: int, recentRuns: seq<RunInfo>)

  /** getProjectStats: `base` is None when the base directory does not exist. */
  function StatsSpec(base: Option<Node>, incl: bool): Result<ProjectStats> {
    match base
    case None => Ok(ProjectStats(0, 0, 0, 0, NoSize, 0, []))
    case Some(root) =>
      match WalkNode(NoCounts, root, true, incl)
      case Err(e) => Err("error walking directory: " + e)
      case Ok(c) => Ok(ProjectStats(c.total, c.success, c.failure, c.running, SizeOf(c.bytes), c.bytes, c.recent))
  }

  /** The state the walk callback closes over. */
  class Collector {
    var total: nat
    var success: nat
    var failure: nat
    var running: nat
    var totalSize: int
    var recent: seq<RunInfo>
    const includeRecent: bool

    function Tally(): Counts
      reads this
    {
      Counts(total, success, failure, running, totalSize, recent)
    }

    constructor (includeRecent: bool)
      ensures this.includeRecent == includeRecent && Tally() == NoCounts
    {
      this.includeRecent := includeRecent;
      total, success, failure, running, totalSize, recent := 0, 0, 0, 0, 0, [];
    }

    /** The walk callback. */
    method Visit(node: Node, isRoot: bool) returns (v: Verdict)
      modifies this
      ensures Tally() == VisitSpec(old(Tally()), node, isRoot, includeRecent).0
      ensures v == VisitSpec(old(Tally()), node, isRoot, includeRecent).1
    {
      ghost var c := Tally();
      if node.File? {
        totalSize := totalSize + node.size;
        return Continue;
      }
      if node.readErr.Some? {
        return Abort(node.readErr.value);
      }
      if isRoot || MatchRunDir(node.name).None? {
        return Continue;
      }
      v := CountRun(node);
    }

    /** The callback on a run directory. */
    method CountRun(node: Node) returns (v: Verdict)
      requires node.Dir? && MatchRunDir(node.name).Some?
      modifies this
      ensures Tally() == CountSpec(old(Tally()), node, includeRecent).0
      ensures v == CountSpec(old(Tally()), node, includeRecent).1
    {
      ghost var c := Tally();
      total := total + 1;
      ghost var c1 := c.(total := c.total + 1);
      assert Tally() == c1;
      var r := ParseRunInfo(SummaryOf(node.children, SummaryFile), node.name, MatchRunDir(node.name).value);
      assert r == ParseOf(node);
      if r.Err? {
        running := running + 1;
        return Continue;
      }
      RecordRun(r.value);
      v := SkipDir;
    }

    method RecordRun(info: RunInfo)
      modifies this
      ensures Tally() == Record(old(Tally()), info, includeRecent)
    {
      if info.isRunning {
        running := running + 1;
      } else if info.exitStatus == 0 {
        success := success + 1;
      } else {
        failure := failure + 1;
      }
      if includeRecent && |recent| < RecentLimit {
        recent := recent + [info];
      }
    }

    /** filepath.Walk: the callback on `node`, then, unless it said
        otherwise, on each entry below it in turn; the first error stops
        the walk. */
    method Walk(node: Node, isRoot: bool) returns (err: Option<string>)
      modifies this
      ensures WalkNode(old(Tally()), node, isRoot, includeRecent)
           == (if err.None? then Ok(Tally()) else Err(err.value))
      decreases node
    {
      var v := Visit(node, isRoot);
      if v.Abort? {
        return Some(v.err);
      }
      if v.SkipDir? || node.File? {
        return None;
      }
      var children := node.children;
      var i := 0;
      while i < |children|
        invariant 0 <= i <= |children|
        invariant WalkAll(Tally(), children[i..], includeRecent) == WalkNode(old(Tally()), node, isRoot, includeRecent)
      {
        ghost var before := Tally();
        assert children[i..][0] == children[i] && children[i..][1..] == children[i + 1..];
        err := Walk(children[i], false);
        if err.Some? {
          return;
        }
        i := i + 1;
      }
      assert children[i..] == [];
      return None;
    }
  }

  /** getProjectStats over the base directory (None when it does not exist). */
  method GetProjectStats(base: Option<Node>, includeRecentRuns: bool) returns (r: Result<ProjectStats>)
    ensures r == StatsSpec(base, includeRecentRuns)
  {
    if base.None? {
      return Ok(ProjectStats(0, 0, 0, 0, NoSize, 0, []));
    }
    var collector := new Collector(includeRecentRuns);
    var err := collector.Walk(base.value, true);
    if err.Some? {
      return Err("error walking directory: " + err.value);
    }
    var size := FormatSize(collector.totalSize);
    return Ok(ProjectStats(collector.total, collector.success, collector.failure, collector.running,
                           size, collector.totalSize, collector.recent));
  }

  // ---------------------------------------------------------------------
  // Properties of the walk

  /** The counters' invariant: every counted directory has exactly one
      outcome, and at most five runs are kept, none unless asked for. */
  predicate Counted(c: Counts, incl: bool) {
    c.total == c.success + c.failure + c.running && |c.recent| <= RecentLimit && (!incl ==> c.recent == [])
  }

  /** One callback: a recognised directory adds one to the total and to
      exactly one outcome; anything else leaves the counters alone. A
      directory whose summary does not parse counts as running, is walked
      into and is not kept; one that parses is not walked into and adds no
      bytes. */
  lemma VisitCounts(c: Counts, node: Node, isRoot: bool, incl: bool)
    ensures var (c1, v) := VisitSpec(c, node, isRoot, incl);
      (Counted(c, incl) ==> Counted(c1, incl))
      && c1.total == c.total + (if Recognised(node, isRoot) then 1 else 0)
      && c.success <= c1.success && c.failure <= c1.failure && c.running <= c1.running
      && c1.success + c1.failure + c1.running == c.success + c.failure + c.running + (if Recognised(node, isRoot) then 1 else 0)
    ensures var (c1, v) := VisitSpec(c, node, isRoot, incl);
      Recognised(node, isRoot) && ParseOf(node).Err? ==> c1.running == c.running + 1 && c1.recent == c.recent && v == Continue
    ensures var (c1, v) := VisitSpec(c, node, isRoot, incl);
      Recognised(node, isRoot) && ParseOf(node).Ok? ==> c1.bytes == c.bytes && v == SkipDir
  {
    if Recognised(node, isRoot) {
      CountCounts(c, node, incl);
      assert VisitSpec(c, node, isRoot, incl) == CountSpec(c, node, incl);
    }
  }

  lemma CountCounts(c: Counts, node: Node, incl: bool)
    requires node.Dir? && MatchRunDir(node.name).Some?
    ensures var (c1, v) := CountSpec(c, node, incl);
      (Counted(c, incl) ==> Counted(c1, incl))
      && c1.total == c.total + 1
      && c.success <= c1.success && c.failure <= c1.failure && c.running <= c1.running
      && c1.success + c1.failure + c1.running == c.success + c.failure + c.running + 1
      && (ParseOf(node).Err? ==> c1.running == c.running + 1 && c1.recent == c.recent && v == Continue)
      && (ParseOf(node).Ok? ==> c1.bytes == c.bytes && v == SkipDir)
  {
    TalliedCounts(c, ParseOf(node), incl);
  }

  lemma TalliedCounts(c: Counts, r: Result<RunInfo>, incl: bool)
    ensures var (c1, v) := Tallied(c, r, incl);
      (Counted(c, incl) ==> Counted(c1, incl))
      && c1.total == c.total + 1
      && c.success <= c1.success && c.failure <= c1.failure && c.running <= c1.running
      && c1.success + c1.failure + c1.running == c.success + c.failure + c.running + 1
      && (r.Err? ==> c1.running == c.running + 1 && c1.recent == c.recent && v == Continue)
      && (r.Ok? ==> c1.bytes == c.bytes && v == SkipDir)
  {
    if r.Ok? {
      RecordCounts(c.(total := c.total + 1), r.value, incl);
    }
  }

  /** Recording a parsed run adds one to exactly one outcome, keeps the
      first five runs when asked to, and leaves the rest alone. */
  lemma RecordCounts(c: Counts, info: RunInfo, incl: bool)
    ensures c.total == c.success + c.failure + c.running + 1 && |c.recent| <= RecentLimit && (!incl ==> c.recent == [])
        ==> Counted(Record(c, info, incl), incl)
    ensures var c1 := Record(c, info, incl);
      c1.total == c.total && c1.bytes == c.bytes
      && c.success <= c1.success && c.failure <= c1.failure && c.running <= c1.running
      && c1.success + c1.failure + c1.running == c.success + c.failure + c.running + 1
    ensures |c.recent| <= RecentLimit
        ==> Record(c, info, incl).recent == (if incl then Take5(c.recent + [info]) else c.recent)
  {
    if |c.recent| == RecentLimit {
      assert (c.recent + [info])[..RecentLimit] == c.recent;
    }
  }

  /** One callback keeps the recent runs unless it records a parsed run. */
  lemma VisitRecent(c: Counts, node: Node, isRoot: bool, incl: bool)
    requires |c.recent| <= RecentLimit
    ensures VisitSpec(c, node, isRoot, incl).0.recent
         == if Recognised(node, isRoot) && ParseOf(node).Ok? && incl
            then Take5(c.recent + [ParseOf(node).value]) else c.recent
  {
    if Recognised(node, isRoot) && ParseOf(node).Ok? {
      RecordCounts(c.(total := c.total + 1), ParseOf(node).value, incl);
    }
  }

  /** The five-run cap. */
  function Take5(xs: seq<RunInfo>): (r: seq<RunInfo>)
    ensures |r| <= RecentLimit && IsPrefixOf(r, xs)
  {
    if |xs| <= RecentLimit then xs else xs[..RecentLimit]
  }

  predicate IsPrefixOf(p: seq<RunInfo>, s: seq<RunInfo>) {
    |p| <= |s| && s[..|p|] == p
  }

  /** The runs whose summaries parse, in walk order, not looking inside them:
      a reference for what the walk keeps. */
  function ParsedRuns(node: Node, isRoot: bool): seq<RunInfo>
    decreases node, 1
  {
    if node.File? || node.readErr.Some? then []
    else if Recognised(node, isRoot) && ParseOf(node).Ok? then [ParseOf(node).value]
    else ParsedAll(node.children)
  }

  function ParsedAll(nodes: seq<Node>): seq<RunInfo>
    decreases nodes, 0
  {
    if nodes == [] then [] else ParsedRuns(nodes[0], false) + ParsedAll(nodes[1..])
  }

  /** The bytes of the files the walk passes: files in parsed run
      directories are not reached. */
  function FileBytes(node: Node, isRoot: bool): int
    decreases node, 1
  {
    if node.File? then node.size
    else if node.readErr.Some? || (Recognised(node, isRoot) && ParseOf(node).Ok?) then 0
    else FileBytesAll(node.children)
  }

  function FileBytesAll(nodes: seq<Node>): int
    decreases nodes, 0
  {
    if nodes == [] then 0 else FileBytes(nodes[0], false) + FileBytesAll(nodes[1..])
  }

  /** The walk keeps the counters' invariant. */
  lemma {:induction false} WalkNodeCounted(c: Counts, node: Node, isRoot: bool, incl: bool)
    requires Counted(c, incl)
    ensures WalkNode(c, node, isRoot, incl).Ok? ==> Counted(WalkNode(c, node, isRoot, incl).value, incl)
    decreases node, 1
  {
    VisitCounts(c, node, isRoot, incl);
    var (c1, v) := VisitSpec(c, node, isRoot, incl);
    if !v.Abort? && !v.SkipDir? && node.Dir? {
      WalkAllCounted(c1, node.children, incl);
    }
  }

  lemma {:induction false} WalkAllCounted(c: Counts, nodes: seq<Node>, incl: bool)
    requires Counted(c, incl)
    ensures WalkAll(c, nodes, incl).Ok? ==> Counted(WalkAll(c, nodes, incl).value, incl)
    decreases nodes, 0
  {
    if nodes != [] {
      WalkNodeCounted(c, nodes[0], false, incl);
      var r := WalkNode(c, nodes[0], false, incl);
      if r.Ok? {
        WalkAllCounted(r.value, nodes[1..], incl);
      }
    }
  }

  /** The walk adds up the bytes of exactly the files it passes. */
  lemma {:induction false} WalkNodeBytes(c: Counts, node: Node, isRoot: bool, incl: bool)
    ensures WalkNode(c, node, isRoot, incl).Ok?
        ==> WalkNode(c, node, isRoot, incl).value.bytes == c.bytes + FileBytes(node, isRoot)
    decreases node, 1
  {
    VisitCounts(c, node, isRoot, incl);
    if node.Dir? && node.readErr.None? && !(Recognised(node, isRoot) && ParseOf(node).Ok?) {
      WalkAllBytes(VisitSpec(c, node, isRoot, incl).0, node.children, incl);
    }
  }

  lemma {:induction false} WalkAllBytes(c: Counts, nodes: seq<Node>, incl: bool)
    ensures WalkAll(c, nodes, incl).Ok? ==> WalkAll(c, nodes, incl).value.bytes == c.bytes + FileBytesAll(nodes)
    decreases nodes, 0
  {
    if nodes != [] {
      WalkNodeBytes(c, nodes[0], false, incl);
      var r := WalkNode(c, nodes[0], false, incl);
      if r.Ok? {
        WalkAllBytes(r.value, nodes[1..], incl);
      }
    }
  }

  /** The walk keeps the first five parsed runs in walk order when asked
      to, and none otherwise. */
  lemma {:induction false} WalkNodeRecent(c: Counts, node: Node, isRoot: bool, incl: bool)
    requires |c.recent| <= RecentLimit
    ensures WalkNode(c, node, isRoot, incl).Ok?
        ==> WalkNode(c, node, isRoot, incl).value.recent
            == (if incl then Take5(c.recent + ParsedRuns(node, isRoot)) else c.recent)
    decreases node, 1
  {
    VisitRecent(c, node, isRoot, incl);
    if node.Dir? && node.readErr.None? && !(Recognised(node, isRoot) && ParseOf(node).Ok?) {
      WalkAllRecent(VisitSpec(c, node, isRoot, incl).0, node.children, incl);
    }
  }

  lemma {:induction false} WalkAllRecent(c: Counts, nodes: seq<Node>, incl: bool)
    requires |c.recent| <= RecentLimit
    ensures WalkAll(c, nodes, incl).Ok?
        ==> WalkAll(c, nodes, incl).value.recent == (if incl then Take5(c.recent + ParsedAll(nodes)) else c.recent)
    decreases nodes, 0
  {
    if nodes == [] {
      assert c.recent + [] == c.recent;
    } else {
      WalkNodeRecent(c, nodes[0], false, incl);
      var r := WalkNode(c, nodes[0], false, incl);
      if r.Ok? {
        WalkAllRecent(r.value, nodes[1..], incl);
        if incl {
          Take5Concat(c.recent, ParsedRuns(nodes[0], false), ParsedAll(nodes[1..]));
        }
      }
    }
  }

  lemma Take5Concat(a: seq<RunInfo>, b: seq<RunInfo>, d: seq<RunInfo>)
    ensures Take5(Take5(a + b) + d) == Take5(a + (b + d))
  {
    assert a + (b + d) == (a + b) + d;
    if |a + b| >= RecentLimit {
      assert ((a + b) + d)[..RecentLimit] == (a + b)[..RecentLimit];
    }
  }

  /** getProjectStats: no base directory gives all-zero statistics; a walk
      that finishes gives counters that add up, at most five recent runs
      (the first parsed ones in walk order, none unless asked for) and the
      bytes of the files outside parsed run directories. */
  lemma StatsProperties(base: Option<Node>, incl: bool)
    ensures base.None? ==> StatsSpec(base, incl) == Ok(ProjectStats(0, 0, 0, 0, NoSize, 0, []))
    ensures var r := StatsSpec(base, incl);
      r.Ok? && base.Some? ==>
        r.value.totalExperiments == r.value.successCount + r.value.failureCount + r.value.runningCount
        && r.value.recentRuns == (if incl then Take5(ParsedRuns(base.value, true)) else [])
        && r.value.diskUsageBytes == FileBytes(base.value, true)
        && r.value.diskUsage == SizeOf(r.value.diskUsageBytes)
  {
    if base.Some? {
      WalkNodeCounted(NoCounts, base.value, true, incl);
      WalkNodeBytes(NoCounts, base.value, true, incl);
      WalkNodeRecent(NoCounts, base.value, true, incl);
      assert NoCounts.recent + ParsedRuns(base.value, true) == ParsedRuns(base.value, true);
    }
  }

  // ---------------------------------------------------------------------
  // The summary file name

  /** The name the writers give the summary unless configured otherwise
      (internal/config/config.go). */
  const DefaultSummaryFile := "summary.md"

  /** As written: a run directory holding its summary under the default name
      is counted as running whatever that summary says, and the walk goes
      into it, since the callback looks for "Summary.md" only. */
  lemma DefaultSummaryUnseen(c: Counts, name: string, size: int, text: string, incl: bool)
    requires MatchRunDir(name).Some? && ParseMillis(MatchRunDir(name).value.stamp).Some?
    ensures CountSpec(c, Dir(name, [File(DefaultSummaryFile, size, Some(text))], None), incl).0
      == c.(total := c.total + 1, running := c.running + 1)
    ensures CountSpec(c, Dir(name, [File(DefaultSummaryFile, size, Some(text))], None), incl).1 == Continue
  {
    var node := Dir(name, [File(DefaultSummaryFile, size, Some(text))], None);
    assert SummaryOf(node.children, SummaryFile) == None by {
      assert DefaultSummaryFile[0] != SummaryFile[0];
      assert node.children[1..] == [];
    }
    assert ParseOf(node) == Err("failed to open summary file");
  }

  /** The callback on a run directory reading the configured summary file. */
  function CountSpecCorrected(c: Counts, node: Node, incl: bool, summaryFile: string): (Counts, Verdict)
    requires node.Dir? && MatchRunDir(node.name).Some?
  {
    Tallied(c, ParseRunInfoSpec(SummaryOf(node.children, summaryFile), node.name, MatchRunDir(node.name).value), incl)
  }

  /** Corrected: a summary under the configured name is read, so a run whose
      summary parses is recorded by its outcome and its directory skipped. */
  lemma ConfiguredSummaryRead(c: Counts, name: string, size: int, text: string, incl: bool, info: RunInfo)
    requires MatchRunDir(name).Some? && ParseRunInfoSpec(Some(text), name, MatchRunDir(name).value) == Ok(info)
    ensures CountSpecCorrected(c, Dir(name, [File(DefaultSummaryFile, size, Some(text))], None), incl,
                               DefaultSummaryFile).0
      == Record(c.(total := c.total + 1), info, incl)
    ensures CountSpecCorrected(c, Dir(name, [File(DefaultSummaryFile, size, Some(text))], None), incl,
                               DefaultSummaryFile).1
      == SkipDir
  {
    SummaryOfOnly(DefaultSummaryFile, size, text);
    TalliedOk(c, info, incl);
  }

  /** A parsed run is recorded and its directory skipped. */
  lemma TalliedOk(c: Counts, info: RunInfo, incl: bool)
    ensures Tallied(c, Ok(info), incl) == (Record(c.(total := c.total + 1), info, incl), SkipDir)
  {
  }

  /** A directory holding only the summary file yields its text. */
  lemma SummaryOfOnly(file: string, size: int, text: string)
    ensures SummaryOf([File(file, size, Some(text))], file) == Some(text)
  {
  }
}
