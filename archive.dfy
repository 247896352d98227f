/** The archive command (internal/archive/archive.go): run directories older
    than a cutoff are selected by status, packed one by one into
    destDir/<name>.<format>, optionally deleted, and recorded as rows of
    archive_index.md. The file system, the clock and the user's answer are
    inputs; what the command does to the file system is returned as a trace
    of effects. */
module Archive {
  import opened Wrappers
  import opened Strings
  import opened Decimal
  import opened Clock
  import opened Durations
  import opened RunDir
  import ListRuns
  import ExperimentList
  import Summary

  /** Options of the command. */
  datatype Options = Options(
    olderThan: string, status: string, format: string, destination: string,
    delete: bool, dryRun: bool)

  /** The configuration the command consults: Paths.BaseDir, Archive.Format
      and Archive.OlderThan. */
  datatype Config = Config(baseDir: string, format: string, olderThan: string)

  /** ExperimentInfo */
  datatype ExperimentInfo = ExperimentInfo(
    path: string, name: string, timestamp: DateTime, branch: string,
    commitHash: string, exitStatus: int, isFinished: bool)

  // ---------------------------------------------------------------------
  // parseCutoff

  /** parseCutoff: the configured default stands in for an empty argument,
      and the cutoff is time.Now().Add(-duration) as an instant, the span
      negated as an int64. */
  function ParseCutoff(cutoff: string, cfg: Config, now: DateTime): Result<int> {
    var s := if cutoff == "" then cfg.olderThan else cutoff;
    var d :- ParseSpan(s, "30d, 12h");
    Ok(Instant(now) + Neg64(d))
  }

  /** Exactly `^\d+[dhm]$` with a number that fits an int is accepted, and the
      cutoff lies that many units before now. */
  lemma ParseCutoffAccepts(cutoff: string, cfg: Config, now: DateTime)
    ensures var s := if cutoff == "" then cfg.olderThan else cutoff;
      ParseCutoff(cutoff, cfg, now).Ok? <==> SpanSyntax(s) && Value(s[..|s| - 1]) <= MaxInt64
    ensures var s := if cutoff == "" then cfg.olderThan else cutoff;
      !SpanSyntax(s) ==>
        ParseCutoff(cutoff, cfg, now) == Err("invalid duration format: " + s + " (expected 30d, 12h, etc.)")
    ensures var s := if cutoff == "" then cfg.olderThan else cutoff;
      ParseCutoff(cutoff, cfg, now).Ok? && Value(s[..|s| - 1]) * UnitLength(s[|s| - 1]) <= MaxInt64 ==>
        ParseCutoff(cutoff, cfg, now).value == Instant(now) - Value(s[..|s| - 1]) * UnitLength(s[|s| - 1])
    ensures var s := if cutoff == "" then cfg.olderThan else cutoff;
      ParseCutoff(cutoff, cfg, now).Ok? ==>
        ParseCutoff(cutoff, cfg, now).value == Instant(now) + Neg64(Wrap64(Value(s[..|s| - 1]) * UnitLength(s[|s| - 1])))
  {
    var s := if cutoff == "" then cfg.olderThan else cutoff;
    ParseSpanAccepts(s, "30d, 12h");
  }

  // ---------------------------------------------------------------------
  // parseExperimentStatus

  /** `\s` of RE2: tab, newline, form feed, carriage return and space. */
  predicate IsReSpace(c: char) {
    c == '\t' || c == '\n' || c == '\U{000C}' || c == '\r' || c == ' '
  }

  /** Length of the run of `\s` characters `s` starts with. */
  function SpaceRun(s: string): (n: nat)
    ensures n <= |s| && (n < |s| ==> !IsReSpace(s[n]))
    ensures forall k | 0 <= k < n :: IsReSpace(s[k])
    decreases |s|
  {
    if s != [] && IsReSpace(s[0]) then 1 + SpaceRun(s[1..]) else 0
  }

  /** The group of `\s*(\d+)` matched at the start of `s`. Spaces and digits
      are disjoint, so a match must take every leading space, and the greedy
      group takes every digit after them. */
  function DigitsAfter(s: string): (r: Option<string>)
    ensures r.Some? ==> r.value != [] && AllDigits(r.value)
  {
    var t := s[SpaceRun(s)..];
    var n := DigitRun(t);
    if n == 0 then None else Some(t[..n])
  }

  /** The group of `\*\*Exit status:\*\*\s*(\d+)` matched at the start of `s`. */
  function ExitMatchAt(s: string): Option<string> {
    if HasPrefix(s, ExperimentList.ExitMark) then DigitsAfter(s[|ExperimentList.ExitMark|..]) else None
  }

  /** FindStringSubmatch: the group of the match that starts leftmost. */
  function FindExit(s: string): (r: Option<string>)
    ensures r.Some? ==> r.value != [] && AllDigits(r.value)
    decreases |s|
  {
    if ExitMatchAt(s).Some? then ExitMatchAt(s)
    else if s == [] then None
    else FindExit(s[1..])
  }

  /** The regular expression matches somewhere iff it matches at some
      position, and the group reported is that of the leftmost one. */
  lemma {:induction false} FindExitLeftmost(s: string)
    ensures FindExit(s).None? <==> forall i | 0 <= i <= |s| :: ExitMatchAt(s[i..]).None?
    ensures FindExit(s).Some? ==>
      exists i | 0 <= i <= |s| :: FindExit(s) == ExitMatchAt(s[i..]) &&
        forall j | 0 <= j < i :: ExitMatchAt(s[j..]).None?
    decreases |s|
  {
    assert s[0..] == s;
    if ExitMatchAt(s).None? && s != [] {
      FindExitLeftmost(s[1..]);
      forall i | 0 <= i <= |s[1..]|
        ensures s[1..][i..] == s[i + 1..]
      {
      }
      if FindExit(s).Some? {
        var i :| 0 <= i <= |s[1..]| && FindExit(s[1..]) == ExitMatchAt(s[1..][i..]) &&
          forall j | 0 <= j < i :: ExitMatchAt(s[1..][j..]).None?;
        forall j | 0 <= j < i + 1
          ensures ExitMatchAt(s[j..]).None?
        {
          if j > 0 {
            assert s[j..] == s[1..][j - 1..];
          }
        }
        assert FindExit(s) == ExitMatchAt(s[i + 1..]);
      } else {
        forall i | 0 <= i <= |s|
          ensures ExitMatchAt(s[i..]).None?
        {
          if i > 0 {
            assert s[i..] == s[1..][i - 1..];
          }
        }
      }
    }
  }

  /** parseExperimentStatus: the info with its status fields reset to "still
      running, exit -1" and then set from the summary text, and whether the
      summary could be read. The Go function fills in the record it is given
      in place; here it returns the filled-in record. */
  function ParseExperimentStatus(info: ExperimentInfo, summary: Result<string>): (ExperimentInfo, bool) {
    var unknown := info.(isFinished := false, exitStatus := -1);
    match summary
    case Err(_) => (unknown, false)
    case Ok(text) =>
      match FindExit(text)
      case None => (unknown, true)
      case Some(digits) =>
        (unknown.(isFinished := true, exitStatus := match Atoi(digits) case Some(v) => v case None => -1), true)
  }

  /** An unreadable summary leaves the run unfinished with exit -1. A readable
      one marks it finished iff the pattern occurs in it, with the exit status
      the value of the digits when they fit an int and -1 otherwise. Nothing
      else in the record changes. */
  lemma ParseExperimentStatusSpec(info: ExperimentInfo, summary: Result<string>)
    ensures var (r, readable) := ParseExperimentStatus(info, summary);
      readable == summary.Ok? &&
      r.(isFinished := info.isFinished, exitStatus := info.exitStatus) == info
    ensures summary.Err? ==>
      !ParseExperimentStatus(info, summary).0.isFinished && ParseExperimentStatus(info, summary).0.exitStatus == -1
    ensures summary.Ok? ==>
      (ParseExperimentStatus(info, summary).0.isFinished <==>
        exists i | 0 <= i <= |summary.value| :: ExitMatchAt(summary.value[i..]).Some?)
    ensures summary.Ok? && FindExit(summary.value).Some? ==>
      var digits := FindExit(summary.value).value;
      ParseExperimentStatus(info, summary).0.exitStatus == if Value(digits) <= MaxInt64 then Value(digits) else -1
    ensures summary.Ok? && FindExit(summary.value).None? ==> ParseExperimentStatus(info, summary).0.exitStatus == -1
  {
    if summary.Ok? {
      var text := summary.value;
      FindExitSomewhere(text);
      match FindExit(text)
      case None =>
      case Some(digits) => AtoiOfDigits(digits);
    }
  }

  /** The pattern is found iff it matches at some position. */
  lemma FindExitSomewhere(s: string)
    ensures FindExit(s).Some? <==> exists i | 0 <= i <= |s| :: ExitMatchAt(s[i..]).Some?
  {
    FindExitLeftmost(s);
  }

  /** strconv.Atoi of a run of digits is its value when that fits an int. */
  lemma AtoiOfDigits(d: string)
    requires d != [] && AllDigits(d)
    ensures Atoi(d) == if Value(d) <= MaxInt64 then Some(Value(d)) else None
  {
    assert d[0] != '-' && d[0] != '+';
  }

  /** `\s*(\d+)` after a single space reads the digits. */
  lemma DigitsAfterSpace(d: string, rest: string)
    requires d != [] && AllDigits(d) && (rest == [] || !IsDigit(rest[0]))
    ensures DigitsAfter(" " + d + rest) == Some(d)
  {
    var s := " " + d + rest;
    assert s[1..] == d + rest && s[1..][0] == d[0];
    assert SpaceRun(s) == 1;
    DigitRunOf(d, rest);
    assert (d + rest)[..|d|] == d;
  }

  /** A position that does not start with `*` holds no match. */
  lemma FindExitSkip(s: string)
    requires s != [] && s[0] != '*'
    ensures FindExit(s) == FindExit(s[1..])
  {
    PrefixMismatch(s, ExperimentList.ExitMark, 0);
  }

  lemma FindExitSkipTwo(p: string, t: string)
    requires |p| == 2 && p[0] != '*' && p[1] != '*'
    ensures FindExit(p + t) == FindExit(t)
  {
    FindExitSkip(p + t);
    assert (p + t)[1..] == [p[1]] + t;
    FindExitSkip([p[1]] + t);
    assert ([p[1]] + t)[1..] == t;
  }

  /** The mark followed by spaces and digits is a match. */
  lemma FindExitAtMark(x: string)
    requires DigitsAfter(x).Some?
    ensures FindExit(ExperimentList.ExitMark + x) == DigitsAfter(x)
  {
    var t := ExperimentList.ExitMark + x;
    assert t[..16] == ExperimentList.ExitMark && t[16..] == x;
  }

  lemma LabelSplit(m: string, d: string, rest: string)
    ensures "- " + m + " " + d + rest == "- " + (m + (" " + d + rest))
  {
  }

  /** A label line "- <mark> <digits>" with the as-written mark is read. */
  lemma FindExitLine(d: string, rest: string)
    requires d != [] && AllDigits(d) && (rest == [] || !IsDigit(rest[0]))
    ensures FindExit("- " + ExperimentList.ExitMark + " " + d + rest) == Some(d)
  {
    var x := " " + d + rest;
    LabelSplit(ExperimentList.ExitMark, d, rest);
    FindExitSkipTwo("- ", ExperimentList.ExitMark + x);
    DigitsAfterSpace(d, rest);
    FindExitAtMark(x);
  }

  /** The line the older writer produces (internal/experiment/run.go) is read:
      its exit status, when it is not negative, is found. */
  lemma OlderExitLineRead(code: int, rest: string)
    requires 0 <= code && (rest == [] || !IsDigit(rest[0]))
    ensures FindExit(ExperimentList.ExitLine(code) + rest) == Some(Itoa(code))
  {
    FindExitLine(DecimalText(code), rest);
    assert ExperimentList.ExitLine(code) + rest == "- " + ExperimentList.ExitMark + " " + DecimalText(code) + rest;
  }

  /** The line the newer writer produces (internal/utils/summary.go) holds no
      match at all, whatever follows the label, as long as it has no `*`. */
  lemma NewerExitLineUnseen(x: string)
    requires '*' !in x
    ensures FindExit(Summary.ExitLabel + x) == None
  {
    var line := Summary.ExitLabel + x;
    var m := ExperimentList.ExitMark;
    assert |Summary.ExitLabel| == 19 && |m| == 16;
    forall i | 0 <= i <= |line|
      ensures ExitMatchAt(line[i..]).None?
    {
      var s := line[i..];
      if i <= 1 {
        assert s[0] == line[i];
        PrefixMismatch(s, m, 0);
      } else if i == 2 {
        assert s[15] == line[17] == ':';
        PrefixMismatch(s, m, 15);
      } else if i == 3 {
        assert s[1] == line[4] == 'E';
        PrefixMismatch(s, m, 1);
      } else if i + 15 < |line| {
        assert s[15] == x[i + 15 - 19];
        PrefixMismatch(s, m, 15);
      } else {
        PrefixMismatch(s, m, 15);
      }
    }
    FindExitLeftmost(line);
  }

  /** So a run whose summary was written by the newer writer is never seen as
      finished, whatever its exit code. */
  lemma NewerSummaryLooksRunning(info: ExperimentInfo, code: int)
    ensures var r := ParseExperimentStatus(info, Ok(Summary.ExitLabel + Itoa(code)));
      !r.0.isFinished && r.0.exitStatus == -1
  {
    ItoaExclude(code, '*');
    NewerExitLineUnseen(Itoa(code));
  }

  /** The other spelling of the exit-status label, the newer writer's. */
  const NewerExitMark := "**Exit status**:"

  /** The evidently intended pattern, which accepts both spellings:
      `\*\*Exit status(:\*\*|\*\*:)\s*(\d+)`. */
  function ExitMatchAtCorrected(s: string): Option<string> {
    if HasPrefix(s, ExperimentList.ExitMark) then DigitsAfter(s[|ExperimentList.ExitMark|..])
    else if HasPrefix(s, NewerExitMark) then DigitsAfter(s[|NewerExitMark|..])
    else None
  }

  function FindExitCorrected(s: string): (r: Option<string>)
    ensures r.Some? ==> r.value != [] && AllDigits(r.value)
    decreases |s|
  {
    if ExitMatchAtCorrected(s).Some? then ExitMatchAtCorrected(s)
    else if s == [] then None
    else FindExitCorrected(s[1..])
  }

  /** parseExperimentStatus with the corrected pattern. */
  function ParseExperimentStatusCorrected(info: ExperimentInfo, summary: Result<string>): (ExperimentInfo, bool) {
    var unknown := info.(isFinished := false, exitStatus := -1);
    match summary
    case Err(_) => (unknown, false)
    case Ok(text) =>
      match FindExitCorrected(text)
      case None => (unknown, true)
      case Some(digits) =>
        (unknown.(isFinished := true, exitStatus := match Atoi(digits) case Some(v) => v case None => -1), true)
  }

  lemma FindCorrectedSkipTwo(p: string, t: string)
    requires |p| == 2 && p[0] != '*' && p[1] != '*'
    ensures FindExitCorrected(p + t) == FindExitCorrected(t)
  {
    PrefixMismatch(p + t, ExperimentList.ExitMark, 0);
    PrefixMismatch(p + t, NewerExitMark, 0);
    assert (p + t)[1..] == [p[1]] + t;
    PrefixMismatch([p[1]] + t, ExperimentList.ExitMark, 0);
    PrefixMismatch([p[1]] + t, NewerExitMark, 0);
    assert ([p[1]] + t)[1..] == t;
  }

  /** Either mark followed by spaces and digits is a match. */
  lemma CorrectedMatchAt(m: string, x: string)
    requires m == ExperimentList.ExitMark || m == NewerExitMark
    requires DigitsAfter(x).Some?
    ensures FindExitCorrected(m + x) == DigitsAfter(x)
  {
    assert (m + x)[..16] == m && (m + x)[16..] == x;
    if m == NewerExitMark {
      PrefixMismatch(m + x, ExperimentList.ExitMark, 13);
    }
  }

  lemma CorrectedReadsLine(m: string, d: string, rest: string)
    requires m == ExperimentList.ExitMark || m == NewerExitMark
    requires d != [] && AllDigits(d) && (rest == [] || !IsDigit(rest[0]))
    ensures FindExitCorrected("- " + m + " " + d + rest) == Some(d)
  {
    var x := " " + d + rest;
    LabelSplit(m, d, rest);
    FindCorrectedSkipTwo("- ", m + x);
    DigitsAfterSpace(d, rest);
    CorrectedMatchAt(m, x);
  }

  /** The newer writer's label is the newer mark between "- " and a space. */
  lemma NewerLabel()
    ensures Summary.ExitLabel == "- " + NewerExitMark + " "
  {
  }

  /** With the corrected pattern both writers' exit lines are read: the run is
      finished and its exit status is the code written. */
  lemma CorrectedReadsBothWriters(info: ExperimentInfo, code: int, rest: string)
    requires 0 <= code <= MaxInt64 && (rest == [] || !IsDigit(rest[0]))
    ensures var r := ParseExperimentStatusCorrected(info, Ok(Summary.ExitLabel + Itoa(code) + rest)).0;
      r.isFinished && r.exitStatus == code
    ensures var r := ParseExperimentStatusCorrected(info, Ok(ExperimentList.ExitLine(code) + rest)).0;
      r.isFinished && r.exitStatus == code
  {
    CorrectedReadsNewer(code, rest);
    CorrectedReadsOlder(code, rest);
    AtoiItoa(code);
  }

  lemma CorrectedReadsNewer(code: int, rest: string)
    requires 0 <= code && (rest == [] || !IsDigit(rest[0]))
    ensures FindExitCorrected(Summary.ExitLabel + Itoa(code) + rest) == Some(Itoa(code))
  {
    var d := DecimalText(code);
    CorrectedReadsLine(NewerExitMark, d, rest);
    NewerLabel();
  }

  lemma CorrectedReadsOlder(code: int, rest: string)
    requires 0 <= code && (rest == [] || !IsDigit(rest[0]))
    ensures FindExitCorrected(ExperimentList.ExitLine(code) + rest) == Some(Itoa(code))
  {
    var d := DecimalText(code);
    CorrectedReadsLine(ExperimentList.ExitMark, d, rest);
  }

  // ---------------------------------------------------------------------
  // findExperimentsToArchive

  /** A status filter other than "" and "all". */
  predicate Specific(status: string) {
    status != "" && status != "all"
  }

  /** The status filter of findExperimentsToArchive. */
  predicate StatusPasses(info: ExperimentInfo, status: string) {
    !Specific(status) ||
    (!(status == "success" && (info.exitStatus != 0 || !info.isFinished))
     && !(status == "failure" && (info.exitStatus == 0 || !info.isFinished))
     && !(status == "running" && info.isFinished))
  }

  /** "success" keeps finished runs with exit 0, "failure" finished runs with
      another exit status, "running" unfinished runs; "", "all" and any
      other word keep every run. */
  lemma StatusFilterCases(info: ExperimentInfo, status: string)
    ensures status == "success" ==> (StatusPasses(info, status) <==> info.isFinished && info.exitStatus == 0)
    ensures status == "failure" ==> (StatusPasses(info, status) <==> info.isFinished && info.exitStatus != 0)
    ensures status == "running" ==> (StatusPasses(info, status) <==> !info.isFinished)
    ensures status != "success" && status != "failure" && status != "running" ==> StatusPasses(info, status)
  {
  }

  /** The outcome of the loop body for one directory entry: the record to
      append, or None for each `continue`. The entry's summary is the reading
      of <dir>/summary.md. */
  function Examined(baseDir: string, e: ListRuns.Entry, cutoff: int, status: string): Option<ExperimentInfo> {
    if !e.isDir then None
    else
      match MatchRunDir(e.name)
      case None => None
      case Some(p) =>
        match ParseMillis(p.stamp)
        case None => None
        case Some(ts) =>
          if !(Instant(ts) < cutoff) then None
          else
            var parsed := ParseExperimentStatus(
              ExperimentInfo(baseDir + "/" + e.name, e.name, ts, p.branch, p.hash, 0, false), e.summary);
            if !parsed.1 && Specific(status) then None
            else if !StatusPasses(parsed.0, status) then None
            else Some(parsed.0)
  }

  /** A directory old enough to be a candidate: it matches the pattern and its
      timestamp parses and lies strictly before the cutoff. */
  predicate Eligible(e: ListRuns.Entry, cutoff: int) {
    e.isDir && MatchRunDir(e.name).Some? && ParseMillis(MatchRunDir(e.name).value.stamp).Some?
    && Instant(ParseMillis(MatchRunDir(e.name).value.stamp).value) < cutoff
  }

  /** What a kept record holds: the entry was eligible, the record carries the
      name, path, timestamp, branch and hash of the directory name, it passes
      the status filter, and when its summary could not be read it is
      unfinished with exit -1 and the filter was "" or "all". */
  lemma ExaminedKeeps(baseDir: string, e: ListRuns.Entry, cutoff: int, status: string)
    requires Examined(baseDir, e, cutoff, status).Some?
    ensures var x := Examined(baseDir, e, cutoff, status).value;
      Eligible(e, cutoff) &&
      x.name == e.name && x.path == baseDir + "/" + e.name &&
      MatchRunDir(e.name) == Some(Parts(MatchRunDir(e.name).value.stamp, x.branch, x.commitHash)) &&
      ParseMillis(MatchRunDir(e.name).value.stamp) == Some(x.timestamp) &&
      StatusPasses(x, status)
    ensures var x := Examined(baseDir, e, cutoff, status).value;
      e.summary.Err? ==> !Specific(status) && !x.isFinished && x.exitStatus == -1
  {
  }

  /** Under "" or "all" every eligible directory is kept, readable summary or
      not; under a specific filter an unreadable summary excludes it. */
  lemma ExaminedAll(baseDir: string, e: ListRuns.Entry, cutoff: int, status: string)
    ensures !Specific(status) ==> (Examined(baseDir, e, cutoff, status).Some? <==> Eligible(e, cutoff))
    ensures Specific(status) && e.summary.Err? ==> Examined(baseDir, e, cutoff, status).None?
    ensures !Eligible(e, cutoff) ==> Examined(baseDir, e, cutoff, status).None?
  {
  }

  /** The records kept from `es`, in read order. */
  function Chosen(baseDir: string, es: seq<ListRuns.Entry>, cutoff: int, status: string): seq<ExperimentInfo>
    decreases |es|
  {
    if es == [] then []
    else
      (match Examined(baseDir, es[0], cutoff, status) case None => [] case Some(x) => [x])
      + Chosen(baseDir, es[1..], cutoff, status)
  }

  function FindSpec(base: ListRuns.BaseDir, baseDir: string, cutoff: int, status: string): Result<seq<ExperimentInfo>> {
    match base
    case Missing => Ok([])
    case Unreadable(e) => Err("failed to read base directory: " + e)
    case Listing(es) => Ok(Chosen(baseDir, es, cutoff, status))
  }

  /** findExperimentsToArchive */
  method FindExperimentsToArchive(base: ListRuns.BaseDir, baseDir: string, cutoff: int, status: string)
    returns (r: Result<seq<ExperimentInfo>>)
    ensures r == FindSpec(base, baseDir, cutoff, status)
  {
    if base.Missing? {
      return Ok([]);
    }
    if base.Unreadable? {
      return Err("failed to read base directory: " + base.err);
    }
    var es := base.entries;
    var results: seq<ExperimentInfo> := [];
    var i := 0;
    assert es[i..] == es;
    while i < |es|
      invariant 0 <= i <= |es|
      invariant results + Chosen(baseDir, es[i..], cutoff, status) == Chosen(baseDir, es, cutoff, status)
    {
      var x := Examined(baseDir, es[i], cutoff, status);
      ChosenStep(baseDir, es, i, cutoff, status, results);
      if x.Some? {
        results := results + [x.value];
      }
      i := i + 1;
    }
    assert results + [] == results;
    return Ok(results);
  }

  lemma ChosenStep(baseDir: string, es: seq<ListRuns.Entry>, i: nat, cutoff: int, status: string,
                   done: seq<ExperimentInfo>)
    requires i < |es|
    ensures var x := Examined(baseDir, es[i], cutoff, status);
      done + Chosen(baseDir, es[i..], cutoff, status) ==
        (if x.Some? then done + [x.value] else done) + Chosen(baseDir, es[i + 1..], cutoff, status)
  {
    assert es[i..][0] == es[i] && es[i..][1..] == es[i + 1..];
  }

  /** The records are kept in read order: the records of a listing are those
      of its first part followed by those of the rest. */
  lemma {:induction false} ChosenAppend(baseDir: string, a: seq<ListRuns.Entry>, b: seq<ListRuns.Entry>,
                                        cutoff: int, status: string)
    ensures Chosen(baseDir, a + b, cutoff, status) == Chosen(baseDir, a, cutoff, status) + Chosen(baseDir, b, cutoff, status)
    decreases |a|
  {
    if a == [] {
      assert a + b == b;
    } else {
      assert (a + b)[0] == a[0] && (a + b)[1..] == a[1..] + b;
      ChosenAppend(baseDir, a[1..], b, cutoff, status);
    }
  }

  /** A record is kept iff some entry of the listing yields it. */
  lemma {:induction false} ChosenMembers(baseDir: string, es: seq<ListRuns.Entry>, cutoff: int, status: string,
                                         x: ExperimentInfo)
    ensures x in Chosen(baseDir, es, cutoff, status) <==>
      exists e | e in es :: Examined(baseDir, e, cutoff, status) == Some(x)
    decreases |es|
  {
    if es != [] {
      ChosenMembers(baseDir, es[1..], cutoff, status, x);
      assert forall e :: e in es <==> e == es[0] || e in es[1..];
    }
  }

  /** An older-than span that wraps to the smallest Duration stays negative
      when negated (Durations.SpanWrapsToMin gives such a text): the cutoff
      lies about 292 years before now, so no directory stamped after it is
      chosen, where a cutoff of now minus the span would take them all. */
  lemma OlderThanWrapSkipsRecent(cutoff: string, cfg: Config, now: DateTime, baseDir: string,
                                 es: seq<ListRuns.Entry>, status: string)
    requires ParseSpan(if cutoff == "" then cfg.olderThan else cutoff, "30d, 12h") == Ok(MinInt64)
    requires forall e | e in es && MatchRunDir(e.name).Some? && ParseMillis(MatchRunDir(e.name).value.stamp).Some? ::
      Instant(now) + MinInt64 <= Instant(ParseMillis(MatchRunDir(e.name).value.stamp).value)
    ensures ParseCutoff(cutoff, cfg, now) == Ok(Instant(now) + MinInt64)
    ensures Chosen(baseDir, es, Instant(now) + MinInt64, status) == []
  {
    var c := Instant(now) + MinInt64;
    forall e | e in es
      ensures !Eligible(e, c)
    {
    }
    NoneEligible(baseDir, es, c, status);
  }

  /** A listing with no eligible entry yields no record. */
  lemma NoneEligible(baseDir: string, es: seq<ListRuns.Entry>, cutoff: int, status: string)
    requires forall e | e in es :: !Eligible(e, cutoff)
    ensures Chosen(baseDir, es, cutoff, status) == []
  {
    var chosen := Chosen(baseDir, es, cutoff, status);
    if chosen != [] {
      ChosenMembers(baseDir, es, cutoff, status, chosen[0]);
      var e :| e in es && Examined(baseDir, e, cutoff, status) == Some(chosen[0]);
      ExaminedAll(baseDir, e, cutoff, status);
      assert false;
    }
  }

  // ---------------------------------------------------------------------
  // updateArchiveIndex

  const IndexHeader :=
    "# Moco Experiment Archive Index\n\n"
    + "| Archive File | Original Directory | Timestamp | Branch | Status | Archived On | Original Deleted |\n"
    + "|-------------|-------------------|-----------|--------|--------|------------|------------------|\n"

  function StatusText(e: ExperimentInfo): string {
    if !e.isFinished then "Running"
    else if e.exitStatus == 0 then "Success"
    else "Failed (" + Itoa(e.exitStatus) + ")"
  }

  function DeletedText(deleted: bool): string {
    if deleted then "Yes" else "No"
  }

  /** The row of one experiment; `now` is the time of the update in the
      layout "2006-01-02 15:04:05". */
  function IndexRow(e: ExperimentInfo, format: string, deleted: bool, now: string): string {
    "| " + e.name + "." + format + " | " + e.name + " | " + FormatSpaced(e.timestamp) + " | "
    + e.branch + " | " + StatusText(e) + " | " + now + " | " + DeletedText(deleted) + " |\n"
  }

  function IndexRows(exps: seq<ExperimentInfo>, format: string, deleted: bool, now: string): string
    decreases |exps|
  {
    if exps == [] then "" else IndexRow(exps[0], format, deleted, now) + IndexRows(exps[1..], format, deleted, now)
  }

  /** The index after an update: the header when the existing content is
      empty, the existing content otherwise, then one row per experiment. */
  function IndexSpec(existing: string, exps: seq<ExperimentInfo>, format: string, deleted: bool, now: string): string {
    (if existing == "" then IndexHeader else existing) + IndexRows(exps, format, deleted, now)
  }

  /** The accumulation of updateArchiveIndex. */
  method UpdateIndex(existing: string, exps: seq<ExperimentInfo>, format: string, deleted: bool, now: string)
    returns (content: string)
    ensures content == IndexSpec(existing, exps, format, deleted, now)
  {
    content := existing;
    if content == "" {
      content := IndexHeader;
    }
    ghost var base := content;
    var i := 0;
    assert exps[i..] == exps;
    while i < |exps|
      invariant 0 <= i <= |exps|
      invariant content + IndexRows(exps[i..], format, deleted, now) == base + IndexRows(exps, format, deleted, now)
    {
      var row := IndexRow(exps[i], format, deleted, now);
      IndexRowsStep(exps, i, format, deleted, now, content);
      content := content + row;
      i := i + 1;
    }
    assert content + "" == content;
  }

  lemma IndexRowsStep(exps: seq<ExperimentInfo>, i: nat, format: string, deleted: bool, now: string, done: string)
    requires i < |exps|
    ensures done + IndexRows(exps[i..], format, deleted, now)
      == (done + IndexRow(exps[i], format, deleted, now)) + IndexRows(exps[i + 1..], format, deleted, now)
  {
    assert exps[i..][0] == exps[i] && exps[i..][1..] == exps[i + 1..];
  }

  /** Existing content is kept as a prefix and the header is written only
      into an empty index. */
  lemma IndexKeepsExisting(existing: string, exps: seq<ExperimentInfo>, format: string, deleted: bool, now: string)
    ensures existing != "" ==>
      HasPrefix(IndexSpec(existing, exps, format, deleted, now), existing) &&
      IndexSpec(existing, exps, format, deleted, now)[|existing|..] == IndexRows(exps, format, deleted, now)
    ensures existing == "" ==>
      HasPrefix(IndexSpec(existing, exps, format, deleted, now), IndexHeader) &&
      IndexSpec(existing, exps, format, deleted, now)[|IndexHeader|..] == IndexRows(exps, format, deleted, now)
  {
  }

  /** Rows of a longer list are the rows of its parts, in order. */
  lemma {:induction false} IndexRowsAppend(a: seq<ExperimentInfo>, b: seq<ExperimentInfo>, format: string,
                                           deleted: bool, now: string)
    ensures IndexRows(a + b, format, deleted, now) == IndexRows(a, format, deleted, now) + IndexRows(b, format, deleted, now)
    decreases |a|
  {
    if a == [] {
      assert a + b == b;
    } else {
      assert (a + b)[0] == a[0] && (a + b)[1..] == a[1..] + b;
      IndexRowsAppend(a[1..], b, format, deleted, now);
    }
  }

  /** Two updates in a row: the second appends its rows after the first's,
      and the header appears once, from the first. */
  lemma HeaderOnce(existing: string, a: seq<ExperimentInfo>, b: seq<ExperimentInfo>, format1: string,
                   format2: string, deleted1: bool, deleted2: bool, now1: string, now2: string)
    ensures var first := IndexSpec(existing, a, format1, deleted1, now1);
      IndexSpec(first, b, format2, deleted2, now2) == first + IndexRows(b, format2, deleted2, now2)
  {
    var first := IndexSpec(existing, a, format1, deleted1, now1);
    if existing == "" {
      assert |first| >= |IndexHeader| > 0;
    } else {
      assert |first| >= |existing| > 0;
    }
  }

  /** The status cell names the outcome: "Running" for an unfinished run,
      "Success" for exit 0, and "Failed (n)" with the exit status otherwise;
      the three never coincide. */
  lemma StatusTextCases(e: ExperimentInfo)
    ensures StatusText(e) == "Running" <==> !e.isFinished
    ensures StatusText(e) == "Success" <==> e.isFinished && e.exitStatus == 0
    ensures e.isFinished && e.exitStatus != 0 ==> StatusText(e) == "Failed (" + Itoa(e.exitStatus) + ")"
    ensures DeletedText(true) != DeletedText(false)
  {
    if e.isFinished && e.exitStatus != 0 {
      assert StatusText(e)[0] == 'F';
    }
  }

  // ---------------------------------------------------------------------
  // Run

  /** What Run does to the file system. */
  datatype Effect =
    | MakeDir(dir: string)
    | Pack(src: string, dest: string)
    | Remove(path: string)
    | CreateIndex(path: string)
    | WriteIndex(path: string, text: string)

  /** The outcome of reading archive_index.md. */
  datatype IndexFile = IndexAbsent | IndexUnreadable(err: string) | IndexPresent(text: string)

  /** The answers of the outside world: the base directory listing, the
      clock, the failures of os.MkdirAll, archiveDirectory and os.RemoveAll,
      the user's confirmation, the index file, and the failures of os.Create
      and WriteString on the index. */
  datatype World = World(
    base: ListRuns.BaseDir, now: DateTime, mkdirErr: Option<string>, confirmed: bool,
    packErr: string -> Option<string>, removeErr: string -> Option<string>, index: IndexFile,
    createErr: Option<string>, writeErr: Option<string>)

  function FormatOf(opts: Options, cfg: Config): string {
    if opts.format == "" then cfg.format else opts.format
  }

  predicate KnownFormat(format: string) {
    format == "tar.gz" || format == "zip"
  }

  function DestDirOf(opts: Options): string {
    if opts.destination == "" then "archives" else opts.destination
  }

  /** filepath.Join(destDir, name + "." + format) */
  function ArchivePath(destDir: string, name: string, format: string): string {
    destDir + "/" + name + "." + format
  }

  /** `done` followed by an outcome and its effects. */
  function Then(done: seq<Effect>, r: (Option<string>, seq<Effect>)): (Option<string>, seq<Effect>) {
    (r.0, done + r.1)
  }

  /** The archive loop over `exps`: each is packed, then removed when
      `delete` is set; the first failure ends the loop with its error. An
      effect is listed once it has succeeded. */
  function PackAll(exps: seq<ExperimentInfo>, destDir: string, format: string, delete: bool, w: World)
    : (Option<string>, seq<Effect>)
    decreases |exps|
  {
    if exps == [] then (None, [])
    else
      var e := exps[0];
      var packed := Pack(e.path, ArchivePath(destDir, e.name, format));
      if w.packErr(e.path).Some? then (Some("failed to archive " + e.name + ": " + w.packErr(e.path).value), [])
      else if !delete then Then([packed], PackAll(exps[1..], destDir, format, delete, w))
      else if w.removeErr(e.path).Some? then
        (Some("failed to delete " + e.path + ": " + w.removeErr(e.path).value), [packed])
      else Then([packed, Remove(e.path)], PackAll(exps[1..], destDir, format, delete, w))
  }

  lemma ThenThen(a: seq<Effect>, b: seq<Effect>, r: (Option<string>, seq<Effect>))
    ensures Then(a, Then(b, r)) == Then(a + b, r)
  {
    assert a + (b + r.1) == a + b + r.1;
  }

  /** The archive loop of Run. */
  method PackEach(exps: seq<ExperimentInfo>, destDir: string, format: string, delete: bool, w: World)
    returns (err: Option<string>, done: seq<Effect>)
    ensures (err, done) == PackAll(exps, destDir, format, delete, w)
  {
    done := [];
    var i := 0;
    assert exps[i..] == exps;
    assert [] + PackAll(exps, destDir, format, delete, w).1 == PackAll(exps, destDir, format, delete, w).1;
    while i < |exps|
      invariant 0 <= i <= |exps|
      invariant Then(done, PackAll(exps[i..], destDir, format, delete, w)) == PackAll(exps, destDir, format, delete, w)
    {
      assert exps[i..][0] == exps[i] && exps[i..][1..] == exps[i + 1..];
      var e := exps[i];
      var packErr := w.packErr(e.path);
      if packErr.Some? {
        assert done + [] == done;
        return Some("failed to archive " + e.name + ": " + packErr.value), done;
      }
      var packed := Pack(e.path, ArchivePath(destDir, e.name, format));
      if delete {
        var removeErr := w.removeErr(e.path);
        if removeErr.Some? {
          return Some("failed to delete " + e.path + ": " + removeErr.value), done + [packed];
        }
        ThenThen(done, [packed, Remove(e.path)], PackAll(exps[i + 1..], destDir, format, delete, w));
        done := done + [packed, Remove(e.path)];
      } else {
        ThenThen(done, [packed], PackAll(exps[i + 1..], destDir, format, delete, w));
        done := done + [packed];
      }
      i := i + 1;
    }
    assert done + [] == done;
    return None, done;
  }

  /** updateArchiveIndex after a complete archive loop: the error it returns
      and its effects. An unreadable index or a failed os.Create changes
      nothing; once created (and so emptied) the file receives the new text
      unless WriteString fails. */
  function IndexOutcome(destDir: string, index: IndexFile, createErr: Option<string>, writeErr: Option<string>,
                        exps: seq<ExperimentInfo>, format: string, deleted: bool, now: DateTime)
    : (Option<string>, seq<Effect>)
  {
    var path := destDir + "/archive_index.md";
    if index.IndexUnreadable? then (Some(index.err), [])
    else if createErr.Some? then (createErr, [])
    else
      var prior := if index.IndexPresent? then index.text else "";
      if writeErr.Some? then (writeErr, [CreateIndex(path)])
      else (None, [CreateIndex(path), WriteIndex(path, IndexSpec(prior, exps, format, deleted, FormatSpaced(now)))])
  }

  /** The index step of Run, whose error is only printed as a warning. */
  function IndexEffects(destDir: string, exps: seq<ExperimentInfo>, format: string, deleted: bool, w: World)
    : seq<Effect>
  {
    IndexOutcome(destDir, w.index, w.createErr, w.writeErr, exps, format, deleted, w.now).1
  }

  /** What Run does once the experiments are found: nothing when there are
      none, on a dry run or when the user declines; otherwise the archive
      loop and, after a complete loop, the index. */
  function FinishSpec(exps: seq<ExperimentInfo>, destDir: string, format: string, opts: Options, w: World)
    : (Option<string>, seq<Effect>)
  {
    if exps == [] || opts.dryRun || !w.confirmed then (None, [])
    else
      var packed := PackAll(exps, destDir, format, opts.delete, w);
      if packed.0.Some? then packed
      else (None, packed.1 + IndexEffects(destDir, exps, format, opts.delete, w))
  }

  /** The outcome of Run: the error it returns, if any, and its effects. */
  function RunSpec(opts: Options, cfg: Config, w: World): (Option<string>, seq<Effect>) {
    var format := FormatOf(opts, cfg);
    if !KnownFormat(format) then (Some("unsupported archive format: " + format), [])
    else
      match ParseCutoff(opts.olderThan, cfg, w.now)
      case Err(e) => (Some("invalid olderThan format: " + e), [])
      case Ok(cutoff) =>
        var destDir := DestDirOf(opts);
        if !opts.dryRun && w.mkdirErr.Some? then
          (Some("failed to create destination directory: " + w.mkdirErr.value), [])
        else
          var made := if opts.dryRun then [] else [MakeDir(destDir)];
          match FindSpec(w.base, cfg.baseDir, cutoff, opts.status)
          case Err(e) => (Some("failed to find experiments: " + e), made)
          case Ok(exps) => Then(made, FinishSpec(exps, destDir, format, opts, w))
  }

  /** The index update after the archive loop. */
  method UpdateArchiveIndex(destDir: string, index: IndexFile, createErr: Option<string>, writeErr: Option<string>,
                            exps: seq<ExperimentInfo>, format: string, deleted: bool, now: DateTime)
    returns (err: Option<string>, fx: seq<Effect>)
    ensures (err, fx) == IndexOutcome(destDir, index, createErr, writeErr, exps, format, deleted, now)
  {
    var path := destDir + "/archive_index.md";
    var prior := "";
    match index {
      case IndexUnreadable(e) =>
        return Some(e), [];
      case IndexAbsent =>
      case IndexPresent(text) =>
        prior := text;
    }
    if createErr.Some? {
      return createErr, [];
    }
    assert prior == if index.IndexPresent? then index.text else "";
    fx := [CreateIndex(path)];
    var text := UpdateIndex(prior, exps, format, deleted, FormatSpaced(now));
    if writeErr.Some? {
      return writeErr, fx;
    }
    return None, [CreateIndex(path), WriteIndex(path, text)];
  }

  /** The text of the file at `path` after `fx`: os.Create empties it and
      WriteString appends to it. */
  function FileAfter(before: string, path: string, fx: seq<Effect>): string
    decreases |fx|
  {
    if fx == [] then before
    else
      var next :=
        match fx[0]
        case CreateIndex(p) => if p == path then "" else before
        case WriteIndex(p, t) => if p == path then before + t else before
        case _ => before;
      FileAfter(next, path, fx[1..])
  }

  /** What the index update leaves in archive_index.md, whose text is `before`
      when it exists: the old text (or the header) followed by the new rows
      when every step succeeds; the old text untouched when it cannot be read
      or created; and an emptied file when the write fails after os.Create. */
  lemma IndexUpdateLeaves(destDir: string, index: IndexFile, createErr: Option<string>, writeErr: Option<string>,
                          exps: seq<ExperimentInfo>, format: string, deleted: bool, now: DateTime, before: string)
    requires index.IndexAbsent? ==> before == ""
    requires index.IndexPresent? ==> before == index.text
    ensures var r := IndexOutcome(destDir, index, createErr, writeErr, exps, format, deleted, now);
      r.0.None? <==> !index.IndexUnreadable? && createErr.None? && writeErr.None?
    ensures var r := IndexOutcome(destDir, index, createErr, writeErr, exps, format, deleted, now);
      var after := FileAfter(before, destDir + "/archive_index.md", r.1);
      (r.0.None? ==> after == IndexSpec(before, exps, format, deleted, FormatSpaced(now))) &&
      (index.IndexUnreadable? || createErr.Some? ==> after == before) &&
      (!index.IndexUnreadable? && createErr.None? && writeErr.Some? ==> after == "")
  {
    var path := destDir + "/archive_index.md";
    if !index.IndexUnreadable? && createErr.None? {
      if writeErr.None? {
        FileAfterRewrite(before, path, IndexSpec(before, exps, format, deleted, FormatSpaced(now)));
      } else {
        FileAfterCreate(before, path);
      }
    }
  }

  /** os.Create then WriteString leaves exactly the written text. */
  lemma FileAfterRewrite(before: string, path: string, text: string)
    ensures FileAfter(before, path, [CreateIndex(path), WriteIndex(path, text)]) == text
  {
    var fx := [CreateIndex(path), WriteIndex(path, text)];
    assert fx[1..] == [WriteIndex(path, text)] && fx[1..][1..] == [];
    assert FileAfter(before, path, fx) == FileAfter("", path, fx[1..]);
    assert FileAfter("", path, fx[1..]) == FileAfter("" + text, path, []);
    assert "" + text == text;
  }

  /** os.Create alone leaves an empty file. */
  lemma FileAfterCreate(before: string, path: string)
    ensures FileAfter(before, path, [CreateIndex(path)]) == ""
  {
    assert [CreateIndex(path)][1..] == [];
  }

  /** A failure of the index step is only a warning: Run returns the same
      error whatever the index read, create and write do. */
  lemma RunIgnoresIndexFailure(opts: Options, cfg: Config, w: World)
    ensures RunSpec(opts, cfg, w).0 == RunSpec(opts, cfg, w.(index := IndexAbsent, createErr := None, writeErr := None)).0
  {
    var w' := w.(index := IndexAbsent, createErr := None, writeErr := None);
    var format := FormatOf(opts, cfg);
    var cutoff := ParseCutoff(opts.olderThan, cfg, w.now);
    if KnownFormat(format) && cutoff.Ok? && (opts.dryRun || w.mkdirErr.None?) {
      var destDir := DestDirOf(opts);
      var found := FindSpec(w.base, cfg.baseDir, cutoff.value, opts.status);
      if found.Ok? {
        var exps := found.value;
        if exps != [] && !opts.dryRun && w.confirmed {
          assert PackAll(exps, destDir, format, opts.delete, w) == PackAll(exps, destDir, format, opts.delete, w') by {
            PackAllIgnoresIndex(exps, destDir, format, opts.delete, w, w');
          }
        }
      }
    }
  }

  /** The archive loop does not look at the index. */
  lemma {:induction false} PackAllIgnoresIndex(exps: seq<ExperimentInfo>, destDir: string, format: string,
                                               delete: bool, w: World, w': World)
    requires w.packErr == w'.packErr && w.removeErr == w'.removeErr
    ensures PackAll(exps, destDir, format, delete, w) == PackAll(exps, destDir, format, delete, w')
    decreases |exps|
  {
    if exps != [] {
      PackAllIgnoresIndex(exps[1..], destDir, format, delete, w, w');
    }
  }

  /** The part of Run after the search. */
  method Finish(exps: seq<ExperimentInfo>, destDir: string, format: string, opts: Options, w: World)
    returns (err: Option<string>, effects: seq<Effect>)
    ensures (err, effects) == FinishSpec(exps, destDir, format, opts, w)
  {
    if |exps| == 0 || opts.dryRun || !w.confirmed {
      return None, [];
    }
    err, effects := PackEach(exps, destDir, format, opts.delete, w);
    if err.Some? {
      return;
    }
    var warning, fx := UpdateArchiveIndex(destDir, w.index, w.createErr, w.writeErr, exps, format, opts.delete, w.now);
    effects := effects + fx;
  }

  /** Run */
  method Run(opts: Options, cfg: Config, w: World) returns (err: Option<string>, effects: seq<Effect>)
    ensures (err, effects) == RunSpec(opts, cfg, w)
  {
    var format := opts.format;
    if format == "" {
      format := cfg.format;
    }
    if format != "tar.gz" && format != "zip" {
      return Some("unsupported archive format: " + format), [];
    }
    var cutoff := ParseCutoff(opts.olderThan, cfg, w.now);
    if cutoff.Err? {
      return Some("invalid olderThan format: " + cutoff.msg), [];
    }
    var destDir := opts.destination;
    if destDir == "" {
      destDir := "archives";
    }
    effects := [];
    if !opts.dryRun {
      if w.mkdirErr.Some? {
        return Some("failed to create destination directory: " + w.mkdirErr.value), [];
      }
      effects := [MakeDir(destDir)];
    }
    var exps := FindExperimentsToArchive(w.base, cfg.baseDir, cutoff.value, opts.status);
    if exps.Err? {
      return Some("failed to find experiments: " + exps.msg), effects;
    }
    var rest;
    err, rest := Finish(exps.value, destDir, format, opts, w);
    effects := effects + rest;
  }

  /** Every removal directly follows the packing of the same directory. */
  predicate RemovesFollowPacks(fx: seq<Effect>) {
    forall k | 0 <= k < |fx| && fx[k].Remove? :: 0 < k && fx[k - 1].Pack? && fx[k - 1].src == fx[k].path
  }

  lemma RemovesFollowPacksAppend(a: seq<Effect>, b: seq<Effect>)
    requires RemovesFollowPacks(a) && RemovesFollowPacks(b) && (b == [] || !b[0].Remove?)
    ensures RemovesFollowPacks(a + b)
  {
    forall k | 0 <= k < |a + b| && (a + b)[k].Remove?
      ensures 0 < k && (a + b)[k - 1].Pack? && (a + b)[k - 1].src == (a + b)[k].path
    {
      if k >= |a| {
        assert (a + b)[k] == b[k - |a|];
        assert (a + b)[k - 1] == b[k - 1 - |a|];
      }
    }
  }

  /** The archive loop removes an original only when `delete` is set, right
      after packing that same directory; every pack goes to
      destDir/<name>.<format> of one of the experiments. */
  lemma {:induction false} PackAllOrder(exps: seq<ExperimentInfo>, destDir: string, format: string, delete: bool,
                                        w: World)
    ensures RemovesFollowPacks(PackAll(exps, destDir, format, delete, w).1)
    ensures !delete ==> forall f | f in PackAll(exps, destDir, format, delete, w).1 :: !f.Remove?
    ensures forall f | f in PackAll(exps, destDir, format, delete, w).1 && f.Pack? ::
      exists e | e in exps :: f == Pack(e.path, ArchivePath(destDir, e.name, format))
    ensures PackAll(exps, destDir, format, delete, w).1 == [] || PackAll(exps, destDir, format, delete, w).1[0].Pack?
    decreases |exps|
  {
    if exps != [] {
      var e := exps[0];
      var packed := Pack(e.path, ArchivePath(destDir, e.name, format));
      PackAllOrder(exps[1..], destDir, format, delete, w);
      var rest := PackAll(exps[1..], destDir, format, delete, w).1;
      var fx := PackAll(exps, destDir, format, delete, w).1;
      if w.packErr(e.path).None? {
        var head := if delete then [packed, Remove(e.path)] else [packed];
        if delete && w.removeErr(e.path).Some? {
          assert fx == [packed];
        } else {
          assert fx == head + rest;
          RemovesFollowPacksAppend(head, rest);
          forall f | f in fx && f.Pack?
            ensures exists e' | e' in exps :: f == Pack(e'.path, ArchivePath(destDir, e'.name, format))
          {
            if f !in head {
              var e' :| e' in exps[1..] && f == Pack(e'.path, ArchivePath(destDir, e'.name, format));
              assert e' in exps;
            }
          }
        }
      }
    }
  }

  /** A loop that ends without error has packed every experiment to its own
      path, and removed every original when `delete` is set. */
  lemma {:induction false} PackAllComplete(exps: seq<ExperimentInfo>, destDir: string, format: string, delete: bool,
                                           w: World)
    requires PackAll(exps, destDir, format, delete, w).0.None?
    ensures forall e | e in exps :: Pack(e.path, ArchivePath(destDir, e.name, format)) in PackAll(exps, destDir, format, delete, w).1
    ensures delete ==> forall e | e in exps :: Remove(e.path) in PackAll(exps, destDir, format, delete, w).1
    decreases |exps|
  {
    if exps != [] {
      PackAllComplete(exps[1..], destDir, format, delete, w);
      assert forall e :: e in exps <==> e == exps[0] || e in exps[1..];
    }
  }

  /** An unknown format is rejected before anything happens. */
  lemma RunRejectsFormat(opts: Options, cfg: Config, w: World)
    requires !KnownFormat(FormatOf(opts, cfg))
    ensures RunSpec(opts, cfg, w) == (Some("unsupported archive format: " + FormatOf(opts, cfg)), [])
  {
  }

  /** A dry run changes nothing: no directory, archive, removal or index. */
  lemma RunDryRun(opts: Options, cfg: Config, w: World)
    requires opts.dryRun
    ensures RunSpec(opts, cfg, w).1 == []
  {
  }

  /** A declined confirmation archives, removes and records nothing: at most
      the destination directory has been created. */
  lemma RunDeclined(opts: Options, cfg: Config, w: World)
    requires !w.confirmed
    ensures forall f | f in RunSpec(opts, cfg, w).1 :: f == MakeDir(DestDirOf(opts))
  {
  }

  lemma FinishOrder(exps: seq<ExperimentInfo>, destDir: string, format: string, opts: Options, w: World)
    ensures RemovesFollowPacks(FinishSpec(exps, destDir, format, opts, w).1)
    ensures FinishSpec(exps, destDir, format, opts, w).1 == [] || !FinishSpec(exps, destDir, format, opts, w).1[0].Remove?
    ensures !opts.delete ==> forall f | f in FinishSpec(exps, destDir, format, opts, w).1 :: !f.Remove?
  {
    if exps != [] && !opts.dryRun && w.confirmed {
      var packed := PackAll(exps, destDir, format, opts.delete, w);
      PackAllOrder(exps, destDir, format, opts.delete, w);
      if packed.0.None? {
        var idx := IndexEffects(destDir, exps, format, opts.delete, w);
        RemovesFollowPacksAppend(packed.1, idx);
      }
    }
  }

  /** Over the whole command, originals are removed only when Delete is set
      and only right after their own archive was written. */
  lemma RunRemovesAfterPack(opts: Options, cfg: Config, w: World)
    ensures RemovesFollowPacks(RunSpec(opts, cfg, w).1)
    ensures !opts.delete ==> forall f | f in RunSpec(opts, cfg, w).1 :: !f.Remove?
  {
    var format := FormatOf(opts, cfg);
    var cutoff := ParseCutoff(opts.olderThan, cfg, w.now);
    if KnownFormat(format) && cutoff.Ok? && (opts.dryRun || w.mkdirErr.None?) {
      var destDir := DestDirOf(opts);
      var made := if opts.dryRun then [] else [MakeDir(destDir)];
      var found := FindSpec(w.base, cfg.baseDir, cutoff.value, opts.status);
      if found.Ok? {
        var fx := FinishSpec(found.value, destDir, format, opts, w).1;
        assert RunSpec(opts, cfg, w).1 == made + fx;
        FinishOrder(found.value, destDir, format, opts, w);
        RemovesFollowPacksAppend(made, fx);
      }
    }
  }

  /** A run that confirms, selects experiments and ends without error has
      written each selected experiment to destDir/<name>.<format>. */
  lemma RunArchivesAll(opts: Options, cfg: Config, w: World, cutoff: int, exps: seq<ExperimentInfo>)
    requires KnownFormat(FormatOf(opts, cfg)) && ParseCutoff(opts.olderThan, cfg, w.now) == Ok(cutoff)
    requires FindSpec(w.base, cfg.baseDir, cutoff, opts.status) == Ok(exps)
    requires !opts.dryRun && w.confirmed && RunSpec(opts, cfg, w).0.None?
    ensures forall e | e in exps ::
      Pack(e.path, ArchivePath(DestDirOf(opts), e.name, FormatOf(opts, cfg))) in RunSpec(opts, cfg, w).1
  {
    if exps != [] {
      PackAllComplete(exps, DestDirOf(opts), FormatOf(opts, cfg), opts.delete, w);
    }
  }
}
