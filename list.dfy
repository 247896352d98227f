/** `moco list`: find the run directories under the base directory, read
    their records, filter, sort, and keep a prefix. The base directory is a
    listing of entries with the content (or the open error) of each one's
    summary file; the clock reading and the compiled command pattern are
    parameters. */
module ListRuns {
  import opened Wrappers
  import opened Strings
  import opened Clock
  import opened Durations
  import opened Summary
  import opened RunDir
  import opened Sorting
  import opened Seqs

  /** An entry of the base directory: its name, whether it is a directory, and
      what opening `<name>/<summary file>` gives. */
  datatype Entry = Entry(name: string, isDir: bool, summary: Result<string>)

  /** os.Stat / os.ReadDir on the base directory. */
  datatype BaseDir = Missing | Unreadable(err: string) | Listing(entries: seq<Entry>)

  /** The `list` settings of the configuration. */
  datatype ListConfig = ListConfig(
    branch: string, status: string, since: string, command: string,
    sortBy: string, reverse: bool, limit: int, format: string)

  /** filepath.Join(baseDir, name, summaryFile), for a base directory without
      a trailing separator and plain names. */
  function SummaryPath(baseDir: string, name: string, summaryFile: string): string {
    baseDir + "/" + name + "/" + summaryFile
  }

  predicate IsRunDir(e: Entry) {
    e.isDir && MatchRunDir(e.name).Some?
  }

  // ---------------------------------------------------------------------
  // findRuns

  /** The record of one run directory. */
  function ReadRun(baseDir: string, summaryFile: string, e: Entry): Result<RunInfo> {
    match ParseSummary(SummaryPath(baseDir, e.name, summaryFile), e.summary)
    case Err(m) => Err("failed to parse summary file: " + m)
    case Ok(r) => Ok(r)
  }

  /** The records of the run directories among `es`, in order, or the first
      error one of them gives. */
  function Collect(baseDir: string, summaryFile: string, es: seq<Entry>): Result<seq<RunInfo>>
    decreases |es|
  {
    if es == [] then Ok([])
    else if !IsRunDir(es[0]) then Collect(baseDir, summaryFile, es[1..])
    else
      var r :- ReadRun(baseDir, summaryFile, es[0]);
      var rest :- Collect(baseDir, summaryFile, es[1..]);
      Ok([r] + rest)
  }

  function FindRunsSpec(base: BaseDir, baseDir: string, summaryFile: string): Result<seq<RunInfo>> {
    match base
    case Missing => Ok([])
    case Unreadable(e) => Err("failed to read base directory: " + e)
    case Listing(es) => Collect(baseDir, summaryFile, es)
  }

  /** `done` followed by the outcome of the rest. */
  function Prepend(done: seq<RunInfo>, rest: Result<seq<RunInfo>>): Result<seq<RunInfo>> {
    match rest
    case Err(m) => Err(m)
    case Ok(v) => Ok(done + v)
  }

  /** findRuns */
  method FindRuns(base: BaseDir, baseDir: string, summaryFile: string) returns (r: Result<seq<RunInfo>>)
    ensures r == FindRunsSpec(base, baseDir, summaryFile)
  {
    if base.Missing? {
      return Ok([]);
    }
    if base.Unreadable? {
      return Err("failed to read base directory: " + base.err);
    }
    var es := base.entries;
    var runs: seq<RunInfo> := [];
    var i := 0;
    assert es[i..] == es;
    assert Prepend(runs, Collect(baseDir, summaryFile, es)) == Collect(baseDir, summaryFile, es) by {
      if Collect(baseDir, summaryFile, es).Ok? {
        assert runs + Collect(baseDir, summaryFile, es).value == Collect(baseDir, summaryFile, es).value;
      }
    }
    while i < |es|
      invariant 0 <= i <= |es|
      invariant Prepend(runs, Collect(baseDir, summaryFile, es[i..])) == Collect(baseDir, summaryFile, es)
    {
      CollectStep(baseDir, summaryFile, es, i);
      if !es[i].isDir || MatchRunDir(es[i].name).None? {
        i := i + 1;
        continue;
      }
      var info := ReadRun(baseDir, summaryFile, es[i]);
      if info.Err? {
        return Err(info.msg);
      }
      PrependOne(runs, info.value, Collect(baseDir, summaryFile, es[i + 1..]));
      runs := runs + [info.value];
      i := i + 1;
    }
    assert es[i..] == [] && runs + [] == runs;
    return Ok(runs);
  }

  lemma CollectStep(baseDir: string, summaryFile: string, es: seq<Entry>, i: nat)
    requires i < |es|
    ensures Collect(baseDir, summaryFile, es[i..]) ==
      if !IsRunDir(es[i]) then Collect(baseDir, summaryFile, es[i + 1..])
      else if ReadRun(baseDir, summaryFile, es[i]).Err? then Err(ReadRun(baseDir, summaryFile, es[i]).msg)
      else Prepend([ReadRun(baseDir, summaryFile, es[i]).value], Collect(baseDir, summaryFile, es[i + 1..]))
  {
    assert es[i..][0] == es[i] && es[i..][1..] == es[i + 1..];
  }

  lemma PrependOne(done: seq<RunInfo>, x: RunInfo, rest: Result<seq<RunInfo>>)
    ensures Prepend(done + [x], rest) == Prepend(done, Prepend([x], rest))
  {
    if rest.Ok? {
      assert done + [x] + rest.value == done + ([x] + rest.value);
    }
  }

  /** The run directories among the entries, in read order. */
  function Candidates(es: seq<Entry>): (c: seq<Entry>)
    ensures forall e | e in c :: e in es && IsRunDir(e)
    decreases |es|
  {
    if es == [] then []
    else (if IsRunDir(es[0]) then [es[0]] else []) + Candidates(es[1..])
  }

  /** findRuns succeeds exactly when every run directory's record parses:
      it aborts on the first one that does not. */
  lemma {:induction false} CollectOk(baseDir: string, summaryFile: string, es: seq<Entry>)
    ensures Collect(baseDir, summaryFile, es).Ok?
        <==> forall e | e in Candidates(es) :: ReadRun(baseDir, summaryFile, e).Ok?
    decreases |es|
  {
    if es != [] {
      CollectOk(baseDir, summaryFile, es[1..]);
      var c, c1 := Candidates(es), Candidates(es[1..]);
      if IsRunDir(es[0]) {
        assert c == [es[0]] + c1;
        assert forall e | e in c :: e == es[0] || e in c1;
      } else {
        assert c == c1;
      }
    }
  }

  /** When it succeeds, findRuns gives one record per run directory, in
      read order. */
  lemma {:induction false} CollectValues(baseDir: string, summaryFile: string, es: seq<Entry>)
    requires Collect(baseDir, summaryFile, es).Ok?
    ensures var c, v := Candidates(es), Collect(baseDir, summaryFile, es).value;
      |v| == |c| && forall i | 0 <= i < |c| :: ReadRun(baseDir, summaryFile, c[i]) == Ok(v[i])
    decreases |es|
  {
    if es != [] {
      var c, c1 := Candidates(es), Candidates(es[1..]);
      var v := Collect(baseDir, summaryFile, es).value;
      if IsRunDir(es[0]) {
        assert c == [es[0]] + c1;
        var h := ReadRun(baseDir, summaryFile, es[0]);
        var t := Collect(baseDir, summaryFile, es[1..]);
        assert h.Ok? && t.Ok? && v == [h.value] + t.value;
        CollectValues(baseDir, summaryFile, es[1..]);
        forall i | 0 <= i < |c| ensures ReadRun(baseDir, summaryFile, c[i]) == Ok(v[i]) {
          if i > 0 {
            assert v[i] == t.value[i - 1] && c[i] == c1[i - 1];
          }
        }
      } else {
        assert c == c1;
        CollectValues(baseDir, summaryFile, es[1..]);
      }
    }
  }

  // ---------------------------------------------------------------------
  // filterRuns

  /** The status filter: "success", "failure" and "running" pick their
      class; any other value, the empty one included, keeps every run. */
  predicate StatusKeeps(status: string, isRunning: bool, exitStatus: int) {
    if status == "success" then !isRunning && exitStatus == 0
    else if status == "failure" then !isRunning && exitStatus != 0
    else if status == "running" then isRunning
    else true
  }

  /** Whether a run passes every active filter. `cutoff` is the "since"
      instant (0, the zero Time, when there is none) and `matches` the
      compiled command pattern. */
  predicate Keep(run: RunInfo, cfg: ListConfig, cutoff: int, matches: string -> bool) {
    (cfg.branch == "" || Contains(run.branch, cfg.branch))
    && StatusKeeps(cfg.status, run.isRunning, run.exitStatus)
    && !(cutoff != 0 && Instant(run.startTime) < cutoff)
    && (cfg.command == "" || matches(run.command))
  }

  function Select(runs: seq<RunInfo>, cfg: ListConfig, cutoff: int, matches: string -> bool): seq<RunInfo> {
    Filter(runs, KeepFn(cfg, cutoff, matches))
  }

  function KeepFn(cfg: ListConfig, cutoff: int, matches: string -> bool): RunInfo -> bool {
    (r: RunInfo) => Keep(r, cfg, cutoff, matches)
  }

  /** The "since" instant: time.Now().Add(-duration), with the span negated
      as an int64 (so the smallest span stays itself), or the zero Time. */
  function Cutoff(since: string, now: DateTime): Result<int> {
    if since == "" then Ok(0)
    else
      match ParseSpan(since, "7d, 24h")
      case Err(e) => Err("invalid 'since' format: " + e)
      case Ok(d) => Ok(Instant(now) + Neg64(d))
  }

  /** filterRuns, with `pattern` the outcome of compiling the command filter. */
  function FilterResult(runs: seq<RunInfo>, cfg: ListConfig, now: DateTime, pattern: Result<string -> bool>)
    : Result<seq<RunInfo>>
  {
    var cutoff :- Cutoff(cfg.since, now);
    if cfg.command != "" && pattern.Err? then Err("invalid command pattern: " + pattern.msg)
    else
      var matches := if pattern.Ok? then pattern.value else (c: string) => false;
      Ok(Select(runs, cfg, cutoff, matches))
  }

  /** A since span that wraps to the smallest Duration stays negative when
      negated (Durations.SpanWrapsToMin gives such a text): the cutoff lies
      about 292 years before now, and the since test drops no run started
      after it. */
  lemma SinceWrapKeepsRecent(runs: seq<RunInfo>, cfg: ListConfig, now: DateTime, matches: string -> bool)
    requires ParseSpan(cfg.since, "7d, 24h") == Ok(MinDuration)
    requires forall r | r in runs :: Instant(now) + MinDuration <= Instant(r.startTime)
    ensures Cutoff(cfg.since, now) == Ok(Instant(now) + MinDuration)
    ensures Select(runs, cfg, Instant(now) + MinDuration, matches) == Select(runs, cfg, 0, matches)
  {
    var c := Instant(now) + MinDuration;
    forall i | 0 <= i < |runs|
      ensures KeepFn(cfg, c, matches)(runs[i]) == KeepFn(cfg, 0, matches)(runs[i])
    {
      assert runs[i] in runs;
    }
    FilterAgree(runs, KeepFn(cfg, c, matches), KeepFn(cfg, 0, matches));
  }

  method FilterRuns(runs: seq<RunInfo>, cfg: ListConfig, now: DateTime, pattern: Result<string -> bool>)
    returns (r: Result<seq<RunInfo>>)
    ensures r == FilterResult(runs, cfg, now, pattern)
  {
    var cutoff := 0;
    if cfg.since != "" {
      var d := ParseSpan(cfg.since, "7d, 24h");
      if d.Err? {
        return Err("invalid 'since' format: " + d.msg);
      }
      cutoff := Instant(now) + Neg64(d.value);
    }
    var matches: string -> bool := (c: string) => false;
    if cfg.command != "" {
      if pattern.Err? {
        return Err("invalid command pattern: " + pattern.msg);
      }
    }
    if pattern.Ok? {
      matches := pattern.value;
    }
    var filtered := SelectRuns(runs, cfg, cutoff, matches);
    return Ok(filtered);
  }

  /** The loop of filterRuns over the runs. */
  method SelectRuns(runs: seq<RunInfo>, cfg: ListConfig, cutoff: int, matches: string -> bool)
    returns (filtered: seq<RunInfo>)
    ensures filtered == Select(runs, cfg, cutoff, matches)
  {
    filtered := [];
    var i := 0;
    while i < |runs|
      invariant 0 <= i <= |runs|
      invariant filtered + Select(runs[i..], cfg, cutoff, matches) == Select(runs, cfg, cutoff, matches)
    {
      FilterStep(runs, i, KeepFn(cfg, cutoff, matches));
      var run := runs[i];
      i := i + 1;
      if cfg.branch != "" && !Contains(run.branch, cfg.branch) {
        continue;
      }
      if cfg.status != "" {
        if cfg.status == "success" && (run.isRunning || run.exitStatus != 0) {
          continue;
        }
        if cfg.status == "failure" && (run.isRunning || run.exitStatus == 0) {
          continue;
        }
        if cfg.status == "running" && !run.isRunning {
          continue;
        }
      }
      if cutoff != 0 && Instant(run.startTime) < cutoff {
        continue;
      }
      if cfg.command != "" && !matches(run.command) {
        continue;
      }
      filtered := filtered + [run];
    }
    assert runs[i..] == [] && filtered + [] == filtered;
  }

  /** The three status classes are disjoint and cover every run. */
  lemma StatusPartition(isRunning: bool, exitStatus: int)
    ensures StatusKeeps("success", isRunning, exitStatus) || StatusKeeps("failure", isRunning, exitStatus)
         || StatusKeeps("running", isRunning, exitStatus)
    ensures !(StatusKeeps("success", isRunning, exitStatus) && StatusKeeps("failure", isRunning, exitStatus))
    ensures !(StatusKeeps("success", isRunning, exitStatus) && StatusKeeps("running", isRunning, exitStatus))
    ensures !(StatusKeeps("failure", isRunning, exitStatus) && StatusKeeps("running", isRunning, exitStatus))
    ensures StatusKeeps("", isRunning, exitStatus) && StatusKeeps("all", isRunning, exitStatus)
  {
  }

  /** A bad "since" text or a command pattern that does not compile is
      reported before any run is looked at. */
  lemma FilterErrors(runs: seq<RunInfo>, cfg: ListConfig, now: DateTime, pattern: Result<string -> bool>)
    ensures FilterResult(runs, cfg, now, pattern).Err? <==>
      (cfg.since != "" && ParseSpan(cfg.since, "7d, 24h").Err?) || (cfg.command != "" && pattern.Err?)
    ensures FilterResult(runs, cfg, now, pattern).Err? ==> FilterResult([], cfg, now, pattern) == FilterResult(runs, cfg, now, pattern)
  {
  }

  // ---------------------------------------------------------------------
  // sortRuns

  /** compareInt / compareDuration */
  function CompareInt(a: int, b: int): (c: int)
    ensures c == -1 || c == 0 || c == 1
  {
    if a < b then -1 else if a > b then 1 else 0
  }

  /** compareTime */
  function CompareTime(a: DateTime, b: DateTime): (c: int)
    ensures c == -1 || c == 0 || c == 1
  {
    if Before(a, b) then -1 else if After(a, b) then 1 else 0
  }

  /** strings.Compare: code-point order, which is the byte order of UTF-8. */
  function CompareStrings(a: string, b: string): (c: int)
    ensures c == -1 || c == 0 || c == 1
  {
    if a == [] && b == [] then 0
    else if a == [] then -1
    else if b == [] then 1
    else if a[0] < b[0] then -1
    else if a[0] > b[0] then 1
    else CompareStrings(a[1..], b[1..])
  }

  /** The comparator for a sort key, before `reverse`. */
  function Compare(sortBy: string, a: RunInfo, b: RunInfo): int {
    if sortBy == "branch" then CompareStrings(a.branch, b.branch)
    else if sortBy == "status" then
      if a.isRunning then (if b.isRunning then 0 else -1)
      else if b.isRunning then 1
      else CompareInt(a.exitStatus, b.exitStatus)
    else if sortBy == "duration" then CompareInt(Sub(a.endTime, a.startTime), Sub(b.endTime, b.startTime))
    else CompareTime(a.startTime, b.startTime)
  }

  function Comparator(sortBy: string, reverse: bool): (RunInfo, RunInfo) -> int {
    var base := (a: RunInfo, b: RunInfo) => Compare(sortBy, a, b);
    if reverse then Negate(base) else base
  }

  /** The compare helpers give -1, 0 or 1 and flip sign with their arguments. */
  lemma CompareHelpers(a: int, b: int, s: DateTime, t: DateTime)
    ensures CompareInt(a, b) == -CompareInt(b, a) && (CompareInt(a, b) == 0 <==> a == b)
    ensures CompareTime(s, t) == -CompareTime(t, s) && (CompareTime(s, t) == 0 <==> Instant(s) == Instant(t))
  {
  }

  lemma {:induction false} CompareStringsAnti(a: string, b: string)
    ensures CompareStrings(a, b) == -CompareStrings(b, a)
    ensures CompareStrings(a, b) == 0 <==> a == b
    decreases |a|
  {
    if a != [] && b != [] && a[0] == b[0] {
      CompareStringsAnti(a[1..], b[1..]);
      if a[1..] == b[1..] {
        assert a == [a[0]] + a[1..] && b == [b[0]] + b[1..];
      }
    }
  }

  lemma {:induction false} CompareStringsTrans(a: string, b: string, c: string)
    ensures CompareStrings(a, b) <= 0 && CompareStrings(b, c) <= 0 ==> CompareStrings(a, c) <= 0
    decreases |a|
  {
    if a != [] && b != [] && c != [] && a[0] == b[0] && b[0] == c[0] {
      CompareStringsTrans(a[1..], b[1..], c[1..]);
    }
  }

  /** Every sort key gives a total preorder on runs. */
  lemma ComparePreorder(sortBy: string)
    ensures Preorder((a: RunInfo, b: RunInfo) => Compare(sortBy, a, b))
  {
    var cmp := (a: RunInfo, b: RunInfo) => Compare(sortBy, a, b);
    forall x, y ensures Opposite(cmp, x, y) {
      CompareStringsAnti(x.branch, y.branch);
    }
    forall x, y, z ensures NotAfter(cmp, x, y) && NotAfter(cmp, y, z) ==> NotAfter(cmp, x, z) {
      CompareStringsTrans(x.branch, y.branch, z.branch);
    }
  }

  lemma ComparatorPreorder(sortBy: string, reverse: bool)
    ensures Preorder(Comparator(sortBy, reverse))
  {
    ComparePreorder(sortBy);
    if reverse {
      NegatePreorder((a: RunInfo, b: RunInfo) => Compare(sortBy, a, b));
    }
  }

  /** sortRuns */
  method SortRuns(runs: array<RunInfo>, sortBy: string, reverse: bool)
    modifies runs
    ensures runs[..] == InsertionSort(old(runs[..]), Comparator(sortBy, reverse))
  {
    SortStable(runs, Comparator(sortBy, reverse));
  }

  /** The sorted list is a permutation of the input, in the chosen order, and
      runs that compare equal keep their input order. */
  lemma SortRunsSpec(s: seq<RunInfo>, sortBy: string, reverse: bool, y: RunInfo)
    ensures multiset(InsertionSort(s, Comparator(sortBy, reverse))) == multiset(s)
    ensures Sorted(InsertionSort(s, Comparator(sortBy, reverse)), Comparator(sortBy, reverse))
    ensures Ties(InsertionSort(s, Comparator(sortBy, reverse)), y, Comparator(sortBy, reverse))
         == Ties(s, y, Comparator(sortBy, reverse))
  {
    ComparatorPreorder(sortBy, reverse);
    SortPermutation(s, Comparator(sortBy, reverse));
    SortSorted(s, Comparator(sortBy, reverse));
    SortStableTies(s, y, Comparator(sortBy, reverse));
  }

  /** With `reverse`, two runs that compare equal still come out in input
      order, so the reversed listing is not the listing read backwards. */
  lemma ReverseIsNotBackwards(sortBy: string, x: RunInfo, y: RunInfo)
    requires Compare(sortBy, x, y) == 0
    ensures InsertionSort([x, y], Comparator(sortBy, false)) == [x, y]
    ensures InsertionSort([x, y], Comparator(sortBy, true)) == [x, y]
  {
    ComparePreorder(sortBy);
    var cmp := (a: RunInfo, b: RunInfo) => Compare(sortBy, a, b);
    Anti(cmp, x, y);
    ReverseKeepsTies(x, y, cmp);
  }

  /** A run that has not finished keeps the zero Time as its end, and
      Time.Sub from the zero Time to any start from year 300 on saturates
      at the smallest Duration. Sorted by "duration", such runs all tie and,
      the sort being stable, stay in the order they were found, with or
      without `reverse`. */
  lemma {:induction false} RunningRunsKeepOrder(runs: seq<RunInfo>, reverse: bool)
    requires forall r | r in runs :: r.endTime == ZeroTime && Valid(r.startTime) && r.startTime.year >= 300
    ensures InsertionSort(runs, Comparator("duration", reverse)) == runs
  {
    var cmp := Comparator("duration", reverse);
    forall i, j | 0 <= i < |runs| && 0 <= j < |runs|
      ensures cmp(runs[i], runs[j]) == 0
    {
      assert runs[i] in runs && runs[j] in runs;
      RunningRunsTie(runs[i], runs[j], reverse);
    }
    AllTiedKeepOrder(runs, cmp);
  }

  lemma RunningRunsTie(a: RunInfo, b: RunInfo, reverse: bool)
    requires a.endTime == ZeroTime && Valid(a.startTime) && a.startTime.year >= 300
    requires b.endTime == ZeroTime && Valid(b.startTime) && b.startTime.year >= 300
    ensures Comparator("duration", reverse)(a, b) == 0
  {
    SubFromZeroSaturates(a.startTime);
    SubFromZeroSaturates(b.startTime);
    assert Compare("duration", a, b) == 0;
  }

  // ---------------------------------------------------------------------
  // The list command

  predicate KnownFormat(format: string) {
    format == "json" || format == "csv" || format == "table" || format == "plain"
  }

  /** What `moco list` prints, as the list of runs (rendering aside). */
  function ListSpec(base: BaseDir, baseDir: string, summaryFile: string, cfg: ListConfig, now: DateTime,
                    pattern: Result<string -> bool>): Result<seq<RunInfo>>
  {
    match FindRunsSpec(base, baseDir, summaryFile)
    case Err(e) => Err("failed to find runs: " + e)
    case Ok(runs) =>
      if runs == [] then Ok([])
      else
        match FilterResult(runs, cfg, now, pattern)
        case Err(e) => Err("failed to apply filters: " + e)
        case Ok(filtered) =>
          if filtered == [] then Ok([])
          else if !KnownFormat(cfg.format) then Err("invalid output format: " + cfg.format)
          else Ok(Limit(InsertionSort(filtered, Comparator(cfg.sortBy, cfg.reverse)), cfg.limit))
  }

  /** The list command (list.Main): find, filter, sort, limit. */
  method List(base: BaseDir, baseDir: string, summaryFile: string, cfg: ListConfig, now: DateTime,
              pattern: Result<string -> bool>) returns (r: Result<seq<RunInfo>>)
    ensures r == ListSpec(base, baseDir, summaryFile, cfg, now, pattern)
  {
    var runs := FindRuns(base, baseDir, summaryFile);
    if runs.Err? {
      return Err("failed to find runs: " + runs.msg);
    }
    if |runs.value| == 0 {
      return Ok([]);
    }
    var filtered := FilterRuns(runs.value, cfg, now, pattern);
    if filtered.Err? {
      return Err("failed to apply filters: " + filtered.msg);
    }
    if |filtered.value| == 0 {
      return Ok([]);
    }
    var a := new RunInfo[|filtered.value|](i requires 0 <= i < |filtered.value| => filtered.value[i]);
    assert a[..] == filtered.value;
    SortRuns(a, cfg.sortBy, cfg.reverse);
    var sorted := a[..];
    if 0 < cfg.limit && cfg.limit < |sorted| {
      sorted := sorted[..cfg.limit];
    }
    if !KnownFormat(cfg.format) {
      return Err("invalid output format: " + cfg.format);
    }
    return Ok(sorted);
  }

  /** The sorted, limited list of runs that all pass the filters. */
  lemma SortedLimited(filtered: seq<RunInfo>, cfg: ListConfig, cutoff: int, matches: string -> bool)
    requires forall r | r in filtered :: Keep(r, cfg, cutoff, matches)
    ensures var out := Limit(InsertionSort(filtered, Comparator(cfg.sortBy, cfg.reverse)), cfg.limit);
      (cfg.limit > 0 ==> |out| <= cfg.limit)
      && Sorted(out, Comparator(cfg.sortBy, cfg.reverse))
      && forall r | r in out :: Keep(r, cfg, cutoff, matches)
  {
    var cmp := Comparator(cfg.sortBy, cfg.reverse);
    var sorted := InsertionSort(filtered, cmp);
    ComparatorPreorder(cfg.sortBy, cfg.reverse);
    SortSorted(filtered, cmp);
    SortPermutation(filtered, cmp);
    var out := Limit(sorted, cfg.limit);
    assert out == sorted[..|out|];
    forall r | r in out ensures Keep(r, cfg, cutoff, matches) {
      assert r in multiset(sorted);
    }
  }

  /** What is listed passes every filter, comes in the chosen order, and is
      at most `limit` runs long when a limit is set. */
  lemma ListSpecProperties(base: BaseDir, baseDir: string, summaryFile: string, cfg: ListConfig, now: DateTime,
                           pattern: Result<string -> bool>, cutoff: int)
    requires ListSpec(base, baseDir, summaryFile, cfg, now, pattern).Ok?
    requires Cutoff(cfg.since, now) == Ok(cutoff)
    ensures var out := ListSpec(base, baseDir, summaryFile, cfg, now, pattern).value;
      (cfg.limit > 0 ==> |out| <= cfg.limit)
      && Sorted(out, Comparator(cfg.sortBy, cfg.reverse))
      && forall r | r in out :: Keep(r, cfg, cutoff, if pattern.Ok? then pattern.value else (c: string) => false)
  {
    var runs := FindRunsSpec(base, baseDir, summaryFile).value;
    if runs != [] {
      var matches := if pattern.Ok? then pattern.value else (c: string) => false;
      var filtered := FilterResult(runs, cfg, now, pattern).value;
      assert filtered == Select(runs, cfg, cutoff, matches);
      Seqs.FilterSpec(runs, KeepFn(cfg, cutoff, matches));
      SortedLimited(filtered, cfg, cutoff, matches);
    }
  }
}
