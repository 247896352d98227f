/** The older listing command (internal/experiment/list.go): experiments are
    read from their directory names and from `**Label:**` markers found
    anywhere in a line of the summary, then filtered, sorted with sort.Slice
    and truncated. */
module ExperimentList {
  import opened Wrappers
  import opened Strings
  import opened Decimal
  import opened Clock
  import opened Durations
  import opened RunDir
  import opened Sorting
  import opened Seqs
  import ListRuns
  import Summary

  /** ListOptions */
  datatype Options = Options(
    format: string, sortBy: string, reverse: bool, branch: string,
    status: string, since: string, command: string, limit: int)

  /** ExperimentInfo; the seconds total is kept as an integer. */
  datatype Experiment = Experiment(
    path: string, directory: string, timestamp: DateTime, branch: string,
    commitHash: string, command: string, exitStatus: int, duration: string,
    durationSecs: int, interrupted: bool, isRunning: bool)

  const CommandMark := "**Command:**"
  const ExitMark := "**Exit status:**"
  const TimeMark := "**Execution time:**"

  // ---------------------------------------------------------------------
  // parseDurationToSeconds

  /** The group of the leftmost match of `(\d+)u` in `s`: the first position
      that starts a run of digits directly followed by `u`. */
  function UnitDigits(s: string, u: char): Option<string>
    decreases |s|
  {
    if s == [] then None
    else
      var n := DigitRun(s);
      if 0 < n < |s| && s[n] == u then Some(s[..n]) else UnitDigits(s[1..], u)
  }

  /** The number before unit `u`, or 0 when there is none or it does not fit
      an int. */
  function UnitValue(s: string, u: char): int {
    match UnitDigits(s, u)
    case None => 0
    case Some(g) => (match Atoi(g) case Some(v) => v case None => 0)
  }

  /** parseDurationToSeconds: 3600 per hour, 60 per minute, 1 per second. */
  function DurationToSeconds(d: string): int {
    3600 * UnitValue(d, 'h') + 60 * UnitValue(d, 'm') + UnitValue(d, 's')
  }

  /** Digits directly followed by the unit are the match. */
  lemma UnitDigitsHit(g: string, rest: string, u: char)
    requires g != [] && AllDigits(g) && rest != [] && rest[0] == u && !IsDigit(u)
    ensures UnitDigits(g + rest, u) == Some(g)
  {
    DigitRunOf(g, rest);
    assert (g + rest)[..|g|] == g;
  }

  /** Digits (possibly none) followed by another non-digit are skipped
      together with that character. */
  lemma {:induction false} UnitDigitsSkip(g: string, rest: string, u: char)
    requires AllDigits(g) && rest != [] && !IsDigit(rest[0]) && rest[0] != u
    ensures UnitDigits(g + rest, u) == UnitDigits(rest[1..], u)
    decreases |g|
  {
    if g == [] {
      assert g + rest == rest;
    } else {
      DigitRunOf(g, rest);
      assert (g + rest)[1..] == g[1..] + rest;
      UnitDigitsSkip(g[1..], rest, u);
    }
  }

  /** A run of digits closed by unit `u`: the match for `u`, skipped for
      any other unit. */
  lemma Segment(g: string, u: char, rest: string, v: char)
    requires g != [] && AllDigits(g) && !IsDigit(u)
    ensures v == u ==> UnitDigits(g + [u] + rest, v) == Some(g)
    ensures v != u ==> UnitDigits(g + [u] + rest, v) == UnitDigits(rest, v)
  {
    assert g + [u] + rest == g + ([u] + rest);
    if v == u {
      UnitDigitsHit(g, [u] + rest, u);
    } else {
      UnitDigitsSkip(g, [u] + rest, v);
      assert ([u] + rest)[1..] == rest;
    }
  }

  lemma Space(rest: string, v: char)
    requires v != ' '
    ensures UnitDigits(" " + rest, v) == UnitDigits(rest, v)
  {
    UnitDigitsSkip([], " " + rest, v);
    assert [] + (" " + rest) == " " + rest && (" " + rest)[1..] == rest;
  }

  /** `Ss` */
  lemma SecondsLayout(s: nat)
    ensures var t := Itoa(s) + "s";
      UnitDigits(t, 'h') == None && UnitDigits(t, 'm') == None && UnitDigits(t, 's') == Some(Itoa(s))
  {
    var S := Itoa(s);
    assert S + "s" == S + ['s'] + "";
    Segment(S, 's', "", 'h');
    Segment(S, 's', "", 'm');
    Segment(S, 's', "", 's');
  }

  /** `Mm Ss` */
  lemma MinutesLayout(m: nat, s: nat)
    ensures var t := Itoa(m) + "m " + Itoa(s) + "s";
      UnitDigits(t, 'h') == None && UnitDigits(t, 'm') == Some(Itoa(m)) && UnitDigits(t, 's') == Some(Itoa(s))
  {
    var M, T := Itoa(m), Itoa(s) + "s";
    assert Itoa(m) + "m " + Itoa(s) + "s" == M + ['m'] + (" " + T);
    SecondsLayout(s);
    Segment(M, 'm', " " + T, 'h');
    Segment(M, 'm', " " + T, 'm');
    Segment(M, 'm', " " + T, 's');
    Space(T, 'h');
    Space(T, 's');
  }

  /** `Hh Mm Ss` */
  lemma HoursLayout(h: nat, m: nat, s: nat)
    ensures var t := Itoa(h) + "h " + Itoa(m) + "m " + Itoa(s) + "s";
      UnitDigits(t, 'h') == Some(Itoa(h)) && UnitDigits(t, 'm') == Some(Itoa(m)) && UnitDigits(t, 's') == Some(Itoa(s))
  {
    var H, T := Itoa(h), Itoa(m) + "m " + Itoa(s) + "s";
    assert Itoa(h) + "h " + Itoa(m) + "m " + Itoa(s) + "s" == H + ['h'] + (" " + T);
    MinutesLayout(m, s);
    Segment(H, 'h', " " + T, 'h');
    Segment(H, 'h', " " + T, 'm');
    Segment(H, 'h', " " + T, 's');
    Space(T, 'm');
    Space(T, 's');
  }

  /** A unit whose digits are an int64's text has that value. */
  lemma UnitValueOf(t: string, u: char, n: int)
    requires InInt64(n) && UnitDigits(t, u) == Some(Itoa(n))
    ensures UnitValue(t, u) == n
  {
    AtoiItoa(n);
  }

  /** parseDurationToSeconds reads back the whole seconds of what
      formatDuration writes for a non-negative duration. */
  lemma SecondsOfFormatDuration(d: int)
    requires 0 <= d <= MaxInt64
    ensures DurationToSeconds(FormatDuration(d)) == RoundToSecond(d) / Second
  {
    var (h, m, s) := Fields(d);
    FieldsSum(d);
    var t := FormatDuration(d);
    if h > 0 {
      HoursLayout(h, m, s);
      UnitValueOf(t, 'h', h);
      UnitValueOf(t, 'm', m);
    } else if m > 0 {
      MinutesLayout(m, s);
      UnitValueOf(t, 'm', m);
    } else {
      SecondsLayout(s);
    }
    UnitValueOf(t, 's', s);
  }

  /** Leading non-digits that are not units do not change the reading. */
  lemma SecondsAfterNoise(c: char, x: string)
    requires !IsDigit(c) && c != 'h' && c != 'm' && c != 's'
    ensures DurationToSeconds([c] + x) == DurationToSeconds(x)
  {
    UnitDigitsSkip([], [c] + x, 'h');
    UnitDigitsSkip([], [c] + x, 'm');
    UnitDigitsSkip([], [c] + x, 's');
    assert [] + ([c] + x) == [c] + x && ([c] + x)[1..] == x;
  }

  // ---------------------------------------------------------------------
  // parseSummary

  /** The exit status when the text after the first ':' trims to an int. */
  function ExitValue(e: Experiment, after: Option<string>): Experiment {
    if after.Some? && Atoi(TrimSpace(after.value)).Some? then e.(exitStatus := Atoi(TrimSpace(after.value)).value)
    else e
  }

  /** `**Command:**`: the text between the first two backticks. */
  function ReadCommand(e: Experiment, line: string): Experiment {
    if Contains(line, CommandMark) && BetweenFirstTwo(line, '`').Some?
    then e.(command := BetweenFirstTwo(line, '`').value) else e
  }

  /** `**Exit status:**`: finished, and the number after the first ':'. */
  function ReadExit(e: Experiment, line: string): Experiment {
    if Contains(line, ExitMark) then ExitValue(e.(isRunning := false), AfterFirst(line, ':')) else e
  }

  /** `**Execution time:**`: the trimmed text after the first ':'. */
  function ReadTime(e: Experiment, line: string): Experiment {
    if Contains(line, TimeMark) && AfterFirst(line, ':').Some?
    then e.(duration := TrimSpace(AfterFirst(line, ':').value),
            durationSecs := DurationToSeconds(TrimSpace(AfterFirst(line, ':').value)))
    else e
  }

  function ReadTerminated(e: Experiment, line: string): Experiment {
    if Contains(line, Summary.TerminatedMark) then e.(interrupted := true) else e
  }

  /** What one summary line does to the experiment, as written: the markers
      may occur anywhere in the line, and values are cut at the first ':' of
      the line. */
  function Step(e: Experiment, line: string): Experiment {
    ReadTerminated(ReadTime(ReadExit(ReadCommand(e, line), line), line), line)
  }

  function Scan(e: Experiment, lines: seq<string>): Experiment
    decreases |lines|
  {
    if lines == [] then e else Scan(Step(e, lines[0]), lines[1..])
  }

  /** parseSummary over the text of a summary file that opened: the fields
      of every line the scanner yields are read, and `failed` is the
      scanner's error, set exactly when a line of 64 KiB or more stopped it
      (the fields read before that line are kept). */
  method ParseSummary(start: Experiment, content: string) returns (exp: Experiment, failed: bool)
    ensures exp == Scan(start, Scanned(content))
    ensures failed <==> !ShortLines(content)
  {
    exp := start;
    var lines := Scanned(content);
    var i := 0;
    while i < |lines|
      invariant 0 <= i <= |lines|
      invariant Scan(exp, lines[i..]) == Scan(start, lines)
    {
      exp := ReadLine(exp, lines[i]);
      assert lines[i..][0] == lines[i] && lines[i..][1..] == lines[i + 1..];
      i := i + 1;
    }
    ScanLinesSpec(content);
    failed := |lines| < |RawLines(content)|;
  }

  /** The body of the parseSummary loop for one line. */
  method ReadLine(e0: Experiment, line: string) returns (exp: Experiment)
    ensures exp == Step(e0, line)
  {
    exp := e0;
    if Contains(line, CommandMark) {
      var parts := BetweenFirstTwo(line, '`');
      if parts.Some? {
        exp := exp.(command := parts.value);
      }
    }
    assert exp == ReadCommand(e0, line);
    ghost var e1 := exp;
    if Contains(line, ExitMark) {
      exp := exp.(isRunning := false);
      var after := AfterFirst(line, ':');
      if after.Some? {
        var status := Atoi(TrimSpace(after.value));
        if status.Some? {
          exp := exp.(exitStatus := status.value);
        }
      }
    }
    assert exp == ReadExit(e1, line);
    ghost var e2 := exp;
    if Contains(line, TimeMark) {
      var after := AfterFirst(line, ':');
      if after.Some? {
        exp := exp.(duration := TrimSpace(after.value));
        exp := exp.(durationSecs := DurationToSeconds(exp.duration));
      }
    }
    assert exp == ReadTime(e2, line);
    if Contains(line, Summary.TerminatedMark) {
      exp := exp.(interrupted := true);
    }
  }

  /** One line: the exit marker finishes, the terminated marker interrupts,
      and the directory-name fields stay. */
  lemma StepEffect(e: Experiment, line: string)
    ensures Step(e, line).isRunning <==> e.isRunning && !Contains(line, ExitMark)
    ensures Step(e, line).interrupted <==> e.interrupted || Contains(line, Summary.TerminatedMark)
    ensures Step(e, line).path == e.path && Step(e, line).directory == e.directory
    ensures Step(e, line).timestamp == e.timestamp && Step(e, line).branch == e.branch
    ensures Step(e, line).commitHash == e.commitHash
  {
    var e1 := ReadCommand(e, line);
    var e2 := ReadExit(e1, line);
    var e3 := ReadTime(e2, line);
    assert e1.isRunning == e.isRunning && e1.interrupted == e.interrupted;
    assert e2.isRunning <==> e.isRunning && !Contains(line, ExitMark);
    assert e2.interrupted == e.interrupted;
    assert e3.isRunning == e2.isRunning && e3.interrupted == e2.interrupted;
  }

  /** A summary marks the experiment finished exactly when one of its lines
      holds the exit marker, and interrupted exactly when one holds the
      terminated marker; the directory-name fields are never touched. */
  lemma {:induction false} ScanEffect(e: Experiment, lines: seq<string>)
    ensures Scan(e, lines).isRunning <==> e.isRunning && forall l | l in lines :: !Contains(l, ExitMark)
    ensures Scan(e, lines).interrupted <==> e.interrupted || exists l | l in lines :: Contains(l, Summary.TerminatedMark)
    ensures Scan(e, lines).path == e.path && Scan(e, lines).directory == e.directory
    ensures Scan(e, lines).timestamp == e.timestamp && Scan(e, lines).branch == e.branch
    ensures Scan(e, lines).commitHash == e.commitHash
    decreases |lines|
  {
    if lines != [] {
      StepEffect(e, lines[0]);
      ScanEffect(Step(e, lines[0]), lines[1..]);
      assert forall l :: l in lines <==> l == lines[0] || l in lines[1..];
    }
  }

  // ---------------------------------------------------------------------
  // The exit-status line as the experiment writer produces it

  /** `- **Exit status:** <code>`, the line written by the experiment runner. */
  function ExitLine(code: int): string {
    "- " + ExitMark + " " + Itoa(code)
  }

  lemma ExitLineCut(t: string)
    ensures AfterFirst("- " + ExitMark + " " + t, ':') == Some("** " + t)
  {
    var p := "- **Exit status";
    assert "- " + ExitMark + " " + t == p + [':'] + ("** " + t);
    AfterFirstSplit(p, ':', "** " + t);
  }

  /** As written, the exit-status line never gives up its code: the text after
      the first ':' is `** <code>`, which is not a number, so the experiment
      is marked finished with its exit status left as it was. */
  lemma ExitStatusLost(e: Experiment, code: int)
    ensures ExitValue(e, AfterFirst(ExitLine(code), ':')) == e
    ensures Contains(ExitLine(code), ExitMark)
  {
    ExitTextNotNumber(code);
    ExitLineHasMark(Itoa(code));
  }

  lemma ExitLineHasMark(t: string)
    ensures Contains("- " + ExitMark + " " + t, ExitMark)
  {
    assert OccursAt("- " + ExitMark + " " + t, ExitMark, 2);
  }

  /** The text after the first ':' of an exit-status line is `** <code>`,
      which does not read as a number. */
  lemma ExitTextNotNumber(code: int)
    ensures AfterFirst(ExitLine(code), ':') == Some("** " + Itoa(code))
    ensures Atoi(TrimSpace("** " + Itoa(code))) == None
  {
    ExitLineCut(Itoa(code));
    ItoaEnds(code);
    var v := "** " + Itoa(code);
    assert v[|v| - 1] == Itoa(code)[|Itoa(code)| - 1];
    TrimSpaceKeeps(v);
    assert Atoi(v) == None;
  }

  /** The text after the first occurrence of `mark`. */
  function AfterMark(s: string, mark: string): Option<string>
    decreases |s|
  {
    if HasPrefix(s, mark) then Some(s[|mark|..])
    else if s == [] then None
    else AfterMark(s[1..], mark)
  }

  /** The exit-status reading evidently intended: the number after the marker. */
  function ExitValueCorrected(e: Experiment, line: string): Experiment {
    var after := AfterMark(line, ExitMark);
    if after.Some? && Atoi(TrimSpace(after.value)).Some? then e.(exitStatus := Atoi(TrimSpace(after.value)).value)
    else e
  }

  /** AfterMark finds the first occurrence. */
  lemma {:induction false} AfterMarkAt(s: string, mark: string, k: nat)
    requires k + |mark| <= |s| && s[k..k + |mark|] == mark
    requires forall j | 0 <= j < k :: !HasPrefix(s[j..], mark)
    ensures AfterMark(s, mark) == Some(s[k + |mark|..])
    decreases k
  {
    if k == 0 {
      assert s[0..] == s;
    } else {
      assert s[0..] == s;
      forall j | 0 <= j < k - 1 ensures !HasPrefix(s[1..][j..], mark) {
        assert s[1..][j..] == s[j + 1..];
      }
      assert s[1..][k - 1..k - 1 + |mark|] == s[k..k + |mark|];
      AfterMarkAt(s[1..], mark, k - 1);
      assert s[1..][k - 1 + |mark|..] == s[k + |mark|..];
    }
  }

  lemma ExitLineMark(t: string)
    ensures AfterMark("- " + ExitMark + " " + t, ExitMark) == Some(" " + t)
  {
    var line := "- " + ExitMark + " " + t;
    assert line[2..2 + |ExitMark|] == ExitMark;
    forall j | 0 <= j < 2 ensures !HasPrefix(line[j..], ExitMark) {
      PrefixMismatch(line[j..], ExitMark, 0);
    }
    AfterMarkAt(line, ExitMark, 2);
    assert line[2 + |ExitMark|..] == " " + t;
  }

  lemma TrimAfterSpace(t: string)
    requires t != [] && !IsSpace(t[0]) && !IsSpace(t[|t| - 1])
    ensures TrimSpace(" " + t) == t
  {
    assert (" " + t)[1..] == t;
    assert TrimLeft(" " + t) == TrimLeft(t);
    TrimSpaceKeeps(t);
  }

  /** The corrected reading gives back every int64 exit code written. */
  lemma ExitValueCorrectedReads(e: Experiment, code: int)
    requires InInt64(code)
    ensures ExitValueCorrected(e, ExitLine(code)).exitStatus == code
  {
    var digits := Itoa(code);
    assert ExitLine(code) == "- " + ExitMark + " " + digits;
    ExitLineMark(digits);
    ItoaEnds(code);
    TrimAfterSpace(digits);
    AtoiItoa(code);
  }

  // ---------------------------------------------------------------------
  // findExperiments

  /** The experiment an entry of the base directory yields, if it is listed:
      a directory whose name matches and whose stamp parses. A summary that
      cannot be opened leaves the defaults, with Command "Unknown"; so does
      one the scanner gives up on, after the lines before the long one were
      read. */
  function Load(baseDir: string, summaryFile: string, e: ListRuns.Entry): Option<Experiment> {
    if !e.isDir then None
    else
      match MatchRunDir(e.name)
      case None => None
      case Some(p) =>
        match ParseMillis(p.stamp)
        case None => None
        case Some(t) =>
          var exp := Experiment(baseDir + "/" + e.name, e.name, t, p.branch, p.hash, "", 0, "", 0, false, true);
          match e.summary
          case Err(_) => Some(exp.(command := "Unknown"))
          case Ok(content) =>
            var read := Scan(exp, Scanned(content));
            Some(if ShortLines(content) then read else read.(command := "Unknown"))
  }

  function Found(baseDir: string, summaryFile: string, es: seq<ListRuns.Entry>): seq<Experiment>
    decreases |es|
  {
    if es == [] then []
    else
      (match Load(baseDir, summaryFile, es[0]) case Some(x) => [x] case None => [])
      + Found(baseDir, summaryFile, es[1..])
  }

  function FindExperimentsSpec(base: ListRuns.BaseDir, baseDir: string, summaryFile: string)
    : Result<seq<Experiment>>
  {
    match base
    case Missing => Ok([])
    case Unreadable(e) => Err("failed to read base directory: " + e)
    case Listing(es) => Ok(Found(baseDir, summaryFile, es))
  }

  /** findExperiments */
  method FindExperiments(base: ListRuns.BaseDir, baseDir: string, summaryFile: string)
    returns (r: Result<seq<Experiment>>)
    ensures r == FindExperimentsSpec(base, baseDir, summaryFile)
  {
    if base.Missing? {
      return Ok([]);
    }
    if base.Unreadable? {
      return Err("failed to read base directory: " + base.err);
    }
    var es := base.entries;
    var experiments: seq<Experiment> := [];
    var i := 0;
    while i < |es|
      invariant 0 <= i <= |es|
      invariant experiments + Found(baseDir, summaryFile, es[i..]) == Found(baseDir, summaryFile, es)
    {
      var entry := es[i];
      i := i + 1;
      FoundStep(baseDir, summaryFile, es, i - 1);
      var exp := LoadEntry(baseDir, summaryFile, entry);
      if exp.Some? {
        experiments := experiments + [exp.value];
      }
    }
    assert es[i..] == [] && experiments + [] == experiments;
    return Ok(experiments);
  }

  lemma FoundStep(baseDir: string, summaryFile: string, es: seq<ListRuns.Entry>, i: nat)
    requires i < |es|
    ensures Load(baseDir, summaryFile, es[i]).None? ==>
      Found(baseDir, summaryFile, es[i..]) == Found(baseDir, summaryFile, es[i + 1..])
    ensures Load(baseDir, summaryFile, es[i]).Some? ==>
      Found(baseDir, summaryFile, es[i..]) == [Load(baseDir, summaryFile, es[i]).value] + Found(baseDir, summaryFile, es[i + 1..])
  {
    assert es[i..][0] == es[i] && es[i..][1..] == es[i + 1..];
  }

  /** The body of the findExperiments loop for one entry; None stands for
      `continue`. */
  method LoadEntry(baseDir: string, summaryFile: string, entry: ListRuns.Entry) returns (r: Option<Experiment>)
    ensures r == Load(baseDir, summaryFile, entry)
  {
    if !entry.isDir {
      return None;
    }
    var matches := MatchRunDir(entry.name);
    if matches.None? {
      return None;
    }
    var timestamp := ParseMillis(matches.value.stamp);
    if timestamp.None? {
      return None;
    }
    var exp := Experiment(baseDir + "/" + entry.name, entry.name, timestamp.value,
                          matches.value.branch, matches.value.hash, "", 0, "", 0, false, true);
    if entry.summary.Err? {
      exp := exp.(command := "Unknown");
    } else {
      var failed;
      exp, failed := ParseSummary(exp, entry.summary.value);
      if failed {
        exp := exp.(command := "Unknown");
      }
    }
    return Some(exp);
  }

  /** Every listed entry gives exactly one experiment, in read order: a
      summary that cannot be opened does not drop the directory, and a name
      or stamp that does not parse does. */
  lemma {:induction false} FoundSpec(baseDir: string, summaryFile: string, es: seq<ListRuns.Entry>)
    ensures forall e | e in es && Load(baseDir, summaryFile, e).Some? ::
      Load(baseDir, summaryFile, e).value in Found(baseDir, summaryFile, es)
    ensures forall x | x in Found(baseDir, summaryFile, es) ::
      exists e | e in es :: Load(baseDir, summaryFile, e) == Some(x)
    ensures |Found(baseDir, summaryFile, es)| <= |es|
    decreases |es|
  {
    if es != [] {
      FoundSpec(baseDir, summaryFile, es[1..]);
      assert forall e :: e in es <==> e == es[0] || e in es[1..];
    }
  }

  /** The listed fields of an entry: the name's groups, the parsed stamp, and
      "Unknown" as command when the summary cannot be opened or holds a line
      too long for the scanner. */
  lemma LoadSpec(baseDir: string, summaryFile: string, e: ListRuns.Entry)
    ensures Load(baseDir, summaryFile, e).Some? <==>
      e.isDir && MatchRunDir(e.name).Some? && ParseMillis(MatchRunDir(e.name).value.stamp).Some?
    ensures Load(baseDir, summaryFile, e).Some? ==>
      var x, p := Load(baseDir, summaryFile, e).value, MatchRunDir(e.name).value;
      x.directory == e.name && x.branch == p.branch && x.commitHash == p.hash
      && x.timestamp == ParseMillis(p.stamp).value
      && (e.summary.Err? ==> x.command == "Unknown" && x.isRunning && x.exitStatus == 0)
      && (e.summary.Ok? && !ShortLines(e.summary.value) ==> x.command == "Unknown")
  {
    if Load(baseDir, summaryFile, e).Some? && e.summary.Ok? {
      var p := MatchRunDir(e.name).value;
      var t := ParseMillis(p.stamp).value;
      var exp := Experiment(baseDir + "/" + e.name, e.name, t, p.branch, p.hash, "", 0, "", 0, false, true);
      ScanEffect(exp, Scanned(e.summary.value));
    }
  }

  // ---------------------------------------------------------------------
  // filterExperiments

  predicate Keep(x: Experiment, opts: Options, cutoff: int, matches: string -> bool) {
    (opts.branch == "" || Contains(x.branch, opts.branch))
    && ListRuns.StatusKeeps(opts.status, x.isRunning, x.exitStatus)
    && !(cutoff != 0 && Instant(x.timestamp) < cutoff)
    && (opts.command == "" || matches(x.command))
  }

  function KeepFn(opts: Options, cutoff: int, matches: string -> bool): Experiment -> bool {
    (x: Experiment) => Keep(x, opts, cutoff, matches)
  }

  function FilterResult(xs: seq<Experiment>, opts: Options, now: DateTime, pattern: Result<string -> bool>)
    : Result<seq<Experiment>>
  {
    var cutoff :- ListRuns.Cutoff(opts.since, now);
    if opts.command != "" && pattern.Err? then Err("invalid command pattern: " + pattern.msg)
    else
      var matches := if pattern.Ok? then pattern.value else (c: string) => false;
      Ok(Filter(xs, KeepFn(opts, cutoff, matches)))
  }

  /** A since span that wraps to the smallest Duration puts the cutoff about
      292 years before now: the since test drops no experiment stamped after
      it. */
  lemma SinceWrapKeepsRecent(xs: seq<Experiment>, opts: Options, now: DateTime, matches: string -> bool)
    requires ParseSpan(opts.since, "7d, 24h") == Ok(MinInt64)
    requires forall x | x in xs :: Instant(now) + MinInt64 <= Instant(x.timestamp)
    ensures ListRuns.Cutoff(opts.since, now) == Ok(Instant(now) + MinInt64)
    ensures Filter(xs, KeepFn(opts, Instant(now) + MinInt64, matches)) == Filter(xs, KeepFn(opts, 0, matches))
  {
    var c := Instant(now) + MinInt64;
    forall i | 0 <= i < |xs|
      ensures KeepFn(opts, c, matches)(xs[i]) == KeepFn(opts, 0, matches)(xs[i])
    {
      assert xs[i] in xs;
    }
    FilterAgree(xs, KeepFn(opts, c, matches), KeepFn(opts, 0, matches));
  }

  /** filterExperiments */
  method FilterExperiments(xs: seq<Experiment>, opts: Options, now: DateTime, pattern: Result<string -> bool>)
    returns (r: Result<seq<Experiment>>)
    ensures r == FilterResult(xs, opts, now, pattern)
  {
    var cutoff := 0;
    if opts.since != "" {
      var d := ParseSpan(opts.since, "7d, 24h");
      if d.Err? {
        return Err("invalid 'since' format: " + d.msg);
      }
      cutoff := Instant(now) + Neg64(d.value);
    }
    var matches: string -> bool := (c: string) => false;
    if opts.command != "" && pattern.Err? {
      return Err("invalid command pattern: " + pattern.msg);
    }
    if pattern.Ok? {
      matches := pattern.value;
    }
    var filtered := KeepExperiments(xs, opts, cutoff, matches);
    return Ok(filtered);
  }

  /** The loop of filterExperiments. */
  method KeepExperiments(xs: seq<Experiment>, opts: Options, cutoff: int, matches: string -> bool)
    returns (filtered: seq<Experiment>)
    ensures filtered == Filter(xs, KeepFn(opts, cutoff, matches))
  {
    filtered := [];
    var i := 0;
    while i < |xs|
      invariant 0 <= i <= |xs|
      invariant filtered + Filter(xs[i..], KeepFn(opts, cutoff, matches)) == Filter(xs, KeepFn(opts, cutoff, matches))
    {
      FilterStep(xs, i, KeepFn(opts, cutoff, matches));
      var x := xs[i];
      i := i + 1;
      if opts.branch != "" && !Contains(x.branch, opts.branch) {
        continue;
      }
      if opts.status != "" {
        if opts.status == "success" && (x.isRunning || x.exitStatus != 0) {
          continue;
        }
        if opts.status == "failure" && (x.isRunning || x.exitStatus == 0) {
          continue;
        }
        if opts.status == "running" && !x.isRunning {
          continue;
        }
      }
      if cutoff != 0 && Instant(x.timestamp) < cutoff {
        continue;
      }
      if opts.command != "" && !matches(x.command) {
        continue;
      }
      filtered := filtered + [x];
    }
    assert xs[i..] == [] && filtered + [] == filtered;
  }

  // ---------------------------------------------------------------------
  // sortExperiments

  /** The `less` functions as written; the default is newest first. */
  predicate Less(sortBy: string, a: Experiment, b: Experiment) {
    if sortBy == "branch" then ListRuns.CompareStrings(a.branch, b.branch) < 0
    else if sortBy == "status" then
      if a.isRunning != b.isRunning then b.isRunning else a.exitStatus < b.exitStatus
    else if sortBy == "duration" then a.durationSecs < b.durationSecs
    else After(a.timestamp, b.timestamp)
  }

  /** The status order evidently intended by its comment: running first. */
  predicate LessCorrected(sortBy: string, a: Experiment, b: Experiment) {
    if sortBy == "status" && a.isRunning != b.isRunning then a.isRunning else Less(sortBy, a, b)
  }

  /** The three-way comparison a `less` function induces. */
  function Order(less: (Experiment, Experiment) -> bool): (Experiment, Experiment) -> int {
    (a: Experiment, b: Experiment) => if less(a, b) then -1 else if less(b, a) then 1 else 0
  }

  /** `less`, negated when `reverse` is set. */
  function LessFn(sortBy: string, reverse: bool): (Experiment, Experiment) -> bool {
    if reverse then (a: Experiment, b: Experiment) => !Less(sortBy, a, b)
    else (a: Experiment, b: Experiment) => Less(sortBy, a, b)
  }

  /** sortExperiments. sort.Slice leaves the order of elements that are not
      `less` one way or the other unspecified; this fixes one such order. */
  method SortExperiments(a: array<Experiment>, sortBy: string, reverse: bool)
    modifies a
    ensures a[..] == InsertionSort(old(a[..]), Order(LessFn(sortBy, reverse)))
  {
    SortStable(a, Order(LessFn(sortBy, reverse)));
  }

  /** Each `less` is a strict weak order, so its comparison is a preorder. */
  lemma LessPreorder(sortBy: string)
    ensures Preorder(Order(LessFn(sortBy, false)))
  {
    var cmp := Order(LessFn(sortBy, false));
    forall x, y ensures Opposite(cmp, x, y) {
      ListRuns.CompareStringsAnti(x.branch, y.branch);
    }
    forall x, y, z ensures NotAfter(cmp, x, y) && NotAfter(cmp, y, z) ==> NotAfter(cmp, x, z) {
      ListRuns.CompareStringsAnti(x.branch, y.branch);
      ListRuns.CompareStringsAnti(y.branch, z.branch);
      ListRuns.CompareStringsAnti(x.branch, z.branch);
      ListRuns.CompareStringsTrans(x.branch, y.branch, z.branch);
    }
  }

  /** The output is a permutation of the input in every mode; without
      `reverse` no element is `less` than one before it. */
  lemma SortExperimentsSpec(s: seq<Experiment>, sortBy: string, reverse: bool)
    ensures multiset(InsertionSort(s, Order(LessFn(sortBy, reverse)))) == multiset(s)
    ensures !reverse ==> var r := InsertionSort(s, Order(LessFn(sortBy, reverse)));
      forall i, j | 0 <= i < j < |r| :: !Less(sortBy, r[j], r[i])
  {
    SortPermutation(s, Order(LessFn(sortBy, reverse)));
    if !reverse {
      LessPreorder(sortBy);
      var cmp := Order(LessFn(sortBy, false));
      SortSorted(s, cmp);
      var r := InsertionSort(s, cmp);
      forall i, j | 0 <= i < j < |r| ensures !Less(sortBy, r[j], r[i]) {
        assert cmp(r[i], r[j]) <= 0;
        ListRuns.CompareStringsAnti(r[i].branch, r[j].branch);
      }
    }
  }

  /** What "no element is less than one before it" means for each key:
      newest first by default, ascending exit status among finished runs,
      and, as written, running experiments after finished ones. */
  lemma OrderMeaning(sortBy: string, x: Experiment, y: Experiment)
    requires !Less(sortBy, y, x)
    ensures sortBy !in {"branch", "status", "duration"} ==> Instant(x.timestamp) >= Instant(y.timestamp)
    ensures sortBy == "duration" ==> x.durationSecs <= y.durationSecs
    ensures sortBy == "status" ==> (x.isRunning ==> y.isRunning)
    ensures sortBy == "status" && x.isRunning == y.isRunning ==> x.exitStatus <= y.exitStatus
  {
  }

  /** As written, the status order puts a running experiment after a
      finished one, against its "running first" comment. */
  lemma StatusRunningLast(x: Experiment, y: Experiment)
    requires x.isRunning && !y.isRunning
    ensures InsertionSort([x, y], Order(LessFn("status", false))) == [y, x]
  {
    var cmp := Order(LessFn("status", false));
    assert [x, y][..1] == [x] && [x][..0] == [];
    assert cmp(x, y) == 1;
    assert InsertionSort([x], cmp) == Insert(x, [], cmp) == [x];
    assert InsertionSort([x, y], cmp) == Insert(y, [x], cmp);
    assert Insert(y, [x], cmp) == Insert(y, [], cmp) + [x];
  }

  /** With the corrected order, running experiments come first. */
  lemma StatusRunningFirstCorrected(s: seq<Experiment>)
    ensures var cmp := Order((a: Experiment, b: Experiment) => LessCorrected("status", a, b));
      var r := InsertionSort(s, cmp);
      multiset(r) == multiset(s) && forall i, j | 0 <= i < j < |r| :: r[j].isRunning ==> r[i].isRunning
  {
    var cmp := Order((a: Experiment, b: Experiment) => LessCorrected("status", a, b));
    SortPermutation(s, cmp);
    forall x, y ensures Opposite(cmp, x, y) {
    }
    forall x, y, z ensures NotAfter(cmp, x, y) && NotAfter(cmp, y, z) ==> NotAfter(cmp, x, z) {
    }
    SortSorted(s, cmp);
    var r := InsertionSort(s, cmp);
    forall i, j | 0 <= i < j < |r| ensures r[j].isRunning ==> r[i].isRunning {
      assert cmp(r[i], r[j]) <= 0;
    }
  }

  // ---------------------------------------------------------------------
  // List

  function ListSpec(base: ListRuns.BaseDir, baseDir: string, summaryFile: string, opts: Options, now: DateTime,
                    pattern: Result<string -> bool>): Result<seq<Experiment>>
  {
    match FindExperimentsSpec(base, baseDir, summaryFile)
    case Err(e) => Err("failed to find experiments: " + e)
    case Ok(xs) =>
      if xs == [] then Ok([])
      else
        match FilterResult(xs, opts, now, pattern)
        case Err(e) => Err("failed to apply filters: " + e)
        case Ok(filtered) =>
          if filtered == [] then Ok([])
          else Ok(Limit(InsertionSort(filtered, Order(LessFn(opts.sortBy, opts.reverse))), opts.limit))
  }

  /** List, up to rendering; every format other than "json" and "csv" is a table. */
  method List(base: ListRuns.BaseDir, baseDir: string, summaryFile: string, opts: Options, now: DateTime,
              pattern: Result<string -> bool>) returns (r: Result<seq<Experiment>>)
    ensures r == ListSpec(base, baseDir, summaryFile, opts, now, pattern)
  {
    var xs := FindExperiments(base, baseDir, summaryFile);
    if xs.Err? {
      return Err("failed to find experiments: " + xs.msg);
    }
    if |xs.value| == 0 {
      return Ok([]);
    }
    var filtered := FilterExperiments(xs.value, opts, now, pattern);
    if filtered.Err? {
      return Err("failed to apply filters: " + filtered.msg);
    }
    if |filtered.value| == 0 {
      return Ok([]);
    }
    var a := new Experiment[|filtered.value|](i requires 0 <= i < |filtered.value| => filtered.value[i]);
    assert a[..] == filtered.value;
    SortExperiments(a, opts.sortBy, opts.reverse);
    var sorted := a[..];
    if 0 < opts.limit && opts.limit < |sorted| {
      sorted := sorted[..opts.limit];
    }
    return Ok(sorted);
  }

  /** The sorted, limited list of experiments that all pass the filters. */
  lemma SortedLimited(filtered: seq<Experiment>, opts: Options, cutoff: int, matches: string -> bool)
    requires forall x | x in filtered :: Keep(x, opts, cutoff, matches)
    ensures var out := Limit(InsertionSort(filtered, Order(LessFn(opts.sortBy, opts.reverse))), opts.limit);
      (opts.limit > 0 ==> |out| <= opts.limit) && forall x | x in out :: Keep(x, opts, cutoff, matches)
  {
    var cmp := Order(LessFn(opts.sortBy, opts.reverse));
    var sorted := InsertionSort(filtered, cmp);
    SortPermutation(filtered, cmp);
    var out := Limit(sorted, opts.limit);
    assert out == sorted[..|out|];
    forall x | x in out ensures Keep(x, opts, cutoff, matches) {
      assert x in multiset(sorted);
    }
  }

  /** What is listed passes every filter and is at most `limit` long when a
      limit is set. */
  lemma ListSpecProperties(base: ListRuns.BaseDir, baseDir: string, summaryFile: string, opts: Options,
                           now: DateTime, pattern: Result<string -> bool>, cutoff: int)
    requires ListSpec(base, baseDir, summaryFile, opts, now, pattern).Ok?
    requires ListRuns.Cutoff(opts.since, now) == Ok(cutoff)
    ensures var out := ListSpec(base, baseDir, summaryFile, opts, now, pattern).value;
      (opts.limit > 0 ==> |out| <= opts.limit)
      && forall x | x in out :: Keep(x, opts, cutoff, if pattern.Ok? then pattern.value else (c: string) => false)
  {
    var xs := FindExperimentsSpec(base, baseDir, summaryFile).value;
    if xs != [] {
      var matches := if pattern.Ok? then pattern.value else (c: string) => false;
      var filtered := FilterResult(xs, opts, now, pattern).value;
      assert filtered == Filter(xs, KeepFn(opts, cutoff, matches));
      FilterSpec(xs, KeepFn(opts, cutoff, matches));
      SortedLimited(filtered, opts, cutoff, matches);
    }
  }
}
