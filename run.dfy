// The `run` command (internal/run/run.go): check the repository, make the
// run's directory, write the summary file's first part, start the command
// with its output captured, wait for it or for a signal, append the results
// and clean up on failure. The file system, the clock, the child process and
// the signals are not modelled: their answers are the fields of a World, and
// what the program does to the outside is a trace of effects.

module RunCommand {
  import opened Wrappers
  import opened Strings
  import opened Decimal
  import opened Clock
  import opened Repo
  import RunDir
  import Summary
  import ExperimentRun

  /** The configuration values Main reads. */
  datatype Config = Config(
    baseDir: string, summaryFile: string, stdoutFile: string, stderrFile: string,
    force: bool, noPushd: bool, cleanupOnFail: bool)

  /** What the select receives first: the child's wait result, or a signal;
      with a signal, whether the probe with signal 0 found the child alive. */
  datatype Event = Completed(wait: ExperimentRun.WaitResult) | Signalled(sig: string, alive: bool)

  /** What WriteSummaryFileInit is given, with the answers of the queries it
      makes: the host name, `git show`, a second repository query, `git diff`
      and `uname -a` (its output and its error, if any). */
  datatype InitArgs = InitArgs(
    start: DateTime, repo: RepoStatus, command: seq<string>, hostname: Result<string>,
    gitShow: Result<string>, status: Result<RepoStatus>, gitDiff: Result<string>,
    uname: string, unameErr: Option<string>)

  /** What WriteSummaryFileEnd is given. */
  datatype EndArgs = EndArgs(start: DateTime, end: DateTime, exitCode: int, interrupted: bool)

  /** The changes Main makes, and the signal it passes on. WriteInit puts
      InitText of its arguments in the file, AppendEnd adds EndText. */
  datatype Effect =
    | MakeBaseDir(path: string)
    | MakeDir(path: string)
    | CreateFile(path: string)
    | WriteInit(path: string, init: InitArgs)
    | Start(argv: seq<string>, dir: Option<string>)
    | Forward(sig: string)
    | AppendEnd(path: string, end: EndArgs)
    | RemoveAll(path: string)

  /** The answers of everything outside the program: the repository query,
      the file-system calls (an error, or None when they succeed), the clock
      (read once at the start and once at the end), the queries of the
      summary writer, the start of the child and what the select receives. */
  datatype World = World(
    repo: Result<RepoStatus>, mkdirAllErr: Option<string>, start: DateTime, mkdirErr: Option<string>,
    hostname: Result<string>, gitShow: Result<string>, status: Result<RepoStatus>,
    gitDiff: Result<string>, uname: string, unameErr: Option<string>,
    createErr: Option<string>, writeErr: Option<string>,
    stdoutErr: Option<string>, stderrErr: Option<string>, startErr: Option<string>,
    event: Event, end: DateTime, openErr: Option<string>, appendErr: Option<string>)

  const DirtyMessage := "git repository has uncommitted changes, use --force to run anyway"
  const NoBaseDirMessage := "base directory not set in configuration"

  /** The run's directory: the start to the millisecond, the sanitised
      branch and the short hash, under the base directory. */
  function ExpDirOf(cfg: Config, w: World): string
    requires w.repo.Ok?
  {
    cfg.baseDir + "/" + RunDir.DirName(w.start, w.repo.value.branch, w.repo.value.shortHash)
  }

  function SummaryPathOf(cfg: Config, expDir: string): string {
    expDir + "/" + cfg.summaryFile
  }

  function InitOf(commands: seq<string>, w: World, repo: RepoStatus): InitArgs {
    InitArgs(w.start, repo, commands, w.hostname, w.gitShow, w.status, w.gitDiff, w.uname, w.unameErr)
  }

  /** The exit code the select settles on: the child's, or 130 after a signal. */
  function ExitCodeOf(ev: Event): int {
    match ev
    case Completed(wait) => ExperimentRun.WaitCode(wait)
    case Signalled(_, _) => 130
  }

  /** Up to the run's directory: the repository checks, the base directory
      and the run's directory; its path when all went well. */
  function PrepareSpec(cfg: Config, w: World): (r: (Result<string>, seq<Effect>))
    ensures r.0.Ok? ==> w.repo.Ok? && r.0.value == ExpDirOf(cfg, w)
    ensures r.0.Ok? ==> (!w.repo.value.isDirty || cfg.force) && cfg.baseDir != ""
  {
    match w.repo
    case Err(e) => (Err("git repository error: " + e), [])
    case Ok(repo) =>
      if repo.isDirty && !cfg.force then (Err(DirtyMessage), [])
      else if cfg.baseDir == "" then (Err(NoBaseDirMessage), [])
      else if w.mkdirAllErr.Some? then (Err("failed to create base directory: " + w.mkdirAllErr.value), [])
      else
        var expDir := ExpDirOf(cfg, w);
        if w.mkdirErr.Some? then
          (Err("failed to create experiment directory: " + w.mkdirErr.value), [MakeBaseDir(cfg.baseDir)])
        else (Ok(expDir), [MakeBaseDir(cfg.baseDir), MakeDir(expDir)])
  }

  /** From the summary file to the start of the child. A child that cannot
      be started has its directory removed. */
  function LaunchSpec(commands: seq<string>, cfg: Config, w: World, repo: RepoStatus, expDir: string)
    : (Option<string>, seq<Effect>)
  {
    var path := SummaryPathOf(cfg, expDir);
    if w.createErr.Some? then
      (Some("failed to write summary: failed to create summary file: " + w.createErr.value), [])
    else if w.writeErr.Some? then
      (Some("failed to write summary: failed to write metadata: " + w.writeErr.value), [CreateFile(path)])
    else
      var written := [CreateFile(path), WriteInit(path, InitOf(commands, w, repo))];
      if w.stdoutErr.Some? then (Some("failed to create stdout file: " + w.stdoutErr.value), written)
      else
        var out := written + [CreateFile(expDir + "/" + cfg.stdoutFile)];
        if w.stderrErr.Some? then (Some("failed to create stderr file: " + w.stderrErr.value), out)
        else
          var files := out + [CreateFile(expDir + "/" + cfg.stderrFile)];
          if w.startErr.Some? then (Some("failed to start command: " + w.startErr.value), files + [RemoveAll(expDir)])
          else (None, files + [Start(commands, if cfg.noPushd then None else Some(expDir))])
  }

  /** From the started child to the result: a signal is passed on when the
      child is still alive; a failure to append the results is returned at
      once; otherwise the directory is removed on failure when asked, and a
      non-zero exit code is an error. */
  function EndSpec(cfg: Config, w: World, expDir: string): (Option<string>, seq<Effect>) {
    var code := ExitCodeOf(w.event);
    var forwarded := if w.event.Signalled? && w.event.alive then [Forward(w.event.sig)] else [];
    if w.openErr.Some? then
      (Some("failed to write summary: failed to open summary file: " + w.openErr.value), forwarded)
    else if w.appendErr.Some? then
      (Some("failed to write summary: failed to write results: " + w.appendErr.value), forwarded)
    else
      var appended := [AppendEnd(SummaryPathOf(cfg, expDir), EndArgs(w.start, w.end, code, w.event.Signalled?))];
      var removed := if code != 0 && cfg.cleanupOnFail then [RemoveAll(expDir)] else [];
      (if code != 0 then Some("command failed with exit code " + Itoa(code)) else None,
       forwarded + appended + removed)
  }

  /** The outcome of Main: the error it returns, if any, and its effects. */
  function MainSpec(commands: seq<string>, cfg: Config, w: World): (Option<string>, seq<Effect>) {
    var prep := PrepareSpec(cfg, w);
    if prep.0.Err? then (Some(prep.0.msg), prep.1)
    else
      var launch := LaunchSpec(commands, cfg, w, w.repo.value, prep.0.value);
      if launch.0.Some? then (launch.0, prep.1 + launch.1)
      else
        var end := EndSpec(cfg, w, prep.0.value);
        (end.0, prep.1 + launch.1 + end.1)
  }

  method Prepare(cfg: Config, w: World) returns (r: Result<string>, effects: seq<Effect>)
    ensures (r, effects) == PrepareSpec(cfg, w)
  {
    if w.repo.Err? {
      return Err("git repository error: " + w.repo.msg), [];
    }
    var repo := w.repo.value;
    if repo.isDirty && !cfg.force {
      return Err(DirtyMessage), [];
    }
    var baseDir := cfg.baseDir;
    if baseDir == "" {
      return Err(NoBaseDirMessage), [];
    }
    if w.mkdirAllErr.Some? {
      return Err("failed to create base directory: " + w.mkdirAllErr.value), [];
    }
    effects := [MakeBaseDir(baseDir)];
    var dirName := FormatMillis(w.start) + "_" + SanitizeBranchName(repo.branch) + "_" + repo.shortHash;
    var expDir := baseDir + "/" + dirName;
    if w.mkdirErr.Some? {
      return Err("failed to create experiment directory: " + w.mkdirErr.value), effects;
    }
    effects := effects + [MakeDir(expDir)];
    assert effects == [MakeBaseDir(baseDir), MakeDir(expDir)];
    r := Ok(expDir);
  }

  method Launch(commands: seq<string>, cfg: Config, w: World, repo: RepoStatus, expDir: string)
    returns (err: Option<string>, effects: seq<Effect>)
    ensures (err, effects) == LaunchSpec(commands, cfg, w, repo, expDir)
  {
    var summaryPath := expDir + "/" + cfg.summaryFile;
    if w.createErr.Some? {
      return Some("failed to write summary: failed to create summary file: " + w.createErr.value), [];
    }
    effects := [CreateFile(summaryPath)];
    if w.writeErr.Some? {
      return Some("failed to write summary: failed to write metadata: " + w.writeErr.value), effects;
    }
    effects := effects + [WriteInit(summaryPath, InitOf(commands, w, repo))];
    assert effects == [CreateFile(summaryPath), WriteInit(summaryPath, InitOf(commands, w, repo))];
    var dir := if cfg.noPushd then None else Some(expDir);
    if w.stdoutErr.Some? {
      return Some("failed to create stdout file: " + w.stdoutErr.value), effects;
    }
    effects := effects + [CreateFile(expDir + "/" + cfg.stdoutFile)];
    if w.stderrErr.Some? {
      return Some("failed to create stderr file: " + w.stderrErr.value), effects;
    }
    effects := effects + [CreateFile(expDir + "/" + cfg.stderrFile)];
    if w.startErr.Some? {
      effects := effects + [RemoveAll(expDir)];
      return Some("failed to start command: " + w.startErr.value), effects;
    }
    effects := effects + [Start(commands, dir)];
    err := None;
  }

  /** The select, the results and the cleanup. */
  method Finish(cfg: Config, w: World, expDir: string) returns (err: Option<string>, effects: seq<Effect>)
    ensures (err, effects) == EndSpec(cfg, w, expDir)
  {
    var exitCode := 0;
    var interrupted := false;
    var forwarded := [];
    match w.event {
      case Completed(wait) =>
        if !wait.Exited? {
          if wait.ExitError? {
            exitCode := wait.code;
          } else {
            exitCode := 1;
          }
        }
      case Signalled(sig, alive) =>
        interrupted := true;
        if alive {
          forwarded := [Forward(sig)];
        }
        exitCode := 130;
    }
    if w.openErr.Some? {
      return Some("failed to write summary: failed to open summary file: " + w.openErr.value), forwarded;
    }
    if w.appendErr.Some? {
      return Some("failed to write summary: failed to write results: " + w.appendErr.value), forwarded;
    }
    var appended := [AppendEnd(expDir + "/" + cfg.summaryFile, EndArgs(w.start, w.end, exitCode, interrupted))];
    var removed := [];
    if exitCode != 0 && cfg.cleanupOnFail {
      removed := [RemoveAll(expDir)];
    }
    effects := forwarded + appended + removed;
    if exitCode != 0 {
      err := Some("command failed with exit code " + Itoa(exitCode));
    } else {
      err := None;
    }
  }

  /** Main (here Execute): runs the command with experiment tracking. The command must have
      at least one word (its first word names the program). */
  method Execute(commands: seq<string>, cfg: Config, w: World) returns (err: Option<string>, effects: seq<Effect>)
    requires commands != []
    ensures (err, effects) == MainSpec(commands, cfg, w)
  {
    var prep, made := Prepare(cfg, w);
    if prep.Err? {
      return Some(prep.msg), made;
    }
    var launched;
    err, launched := Launch(commands, cfg, w, w.repo.value, prep.value);
    if err.Some? {
      return err, made + launched;
    }
    var ended;
    err, ended := Finish(cfg, w, prep.value);
    effects := made + launched + ended;
  }

  // ---------------------------------------------------------------------
  // Properties of Main

  /** The child was started: every step before it succeeded. */
  predicate Started(commands: seq<string>, cfg: Config, w: World) {
    PrepareSpec(cfg, w).0.Ok?
    && LaunchSpec(commands, cfg, w, w.repo.value, PrepareSpec(cfg, w).0.value).0.None?
  }

  /** A failed repository query, a dirty tree without --force, an empty base
      directory setting and a base directory that cannot be made are the only
      ways Main ends without changing anything; the dirty tree and the empty
      setting are refused with their own messages. */
  lemma MainChangesNothing(commands: seq<string>, cfg: Config, w: World)
    ensures MainSpec(commands, cfg, w).1 == []
        <==> w.repo.Err? || (w.repo.value.isDirty && !cfg.force) || cfg.baseDir == "" || w.mkdirAllErr.Some?
    ensures w.repo.Ok? && w.repo.value.isDirty && !cfg.force ==> MainSpec(commands, cfg, w) == (Some(DirtyMessage), [])
    ensures w.repo.Ok? && (!w.repo.value.isDirty || cfg.force) && cfg.baseDir == ""
        ==> MainSpec(commands, cfg, w) == (Some(NoBaseDirMessage), [])
  {
    var prep := PrepareSpec(cfg, w);
    if w.repo.Ok? && !(w.repo.value.isDirty && !cfg.force) && cfg.baseDir != "" && w.mkdirAllErr.None? {
      assert prep.1[0].MakeBaseDir?;
      assert MainSpec(commands, cfg, w).1[0] == prep.1[0];
    }
  }

  /** A child that cannot be started leaves an error and no directory: the
      last effect removes the run's directory, and nothing is appended. */
  lemma StartFailureCleansUp(commands: seq<string>, cfg: Config, w: World)
    requires PrepareSpec(cfg, w).0.Ok? && w.createErr.None? && w.writeErr.None?
    requires w.stdoutErr.None? && w.stderrErr.None? && w.startErr.Some?
    ensures var r := MainSpec(commands, cfg, w);
      && r.0 == Some("failed to start command: " + w.startErr.value)
      && r.1 != [] && r.1[|r.1| - 1] == RemoveAll(ExpDirOf(cfg, w))
      && forall e | e in r.1 :: !e.Start? && !e.AppendEnd?
  {
    LaunchKinds(commands, cfg, w, w.repo.value, ExpDirOf(cfg, w));
    PrepareMakesDirs(cfg, w);
  }

  /** Once the child started: the exit code is 0 on success, the exit
      error's own code, 1 for any other wait error and 130 after a signal;
      the run is an error exactly when the results could not be appended or
      the code is not 0, and the error says which. */
  lemma MainAfterStart(commands: seq<string>, cfg: Config, w: World)
    requires Started(commands, cfg, w)
    ensures var code := ExitCodeOf(w.event);
      var err := MainSpec(commands, cfg, w).0;
      && (w.event == Completed(ExperimentRun.Exited) ==> code == 0)
      && (w.event.Completed? && w.event.wait.ExitError? ==> code == w.event.wait.code)
      && (w.event.Completed? && w.event.wait.WaitFailed? ==> code == 1)
      && (w.event.Signalled? ==> code == 130)
      && (err.Some? <==> w.openErr.Some? || w.appendErr.Some? || code != 0)
      && (w.openErr.None? && w.appendErr.None? && code != 0 ==>
            err == Some("command failed with exit code " + Itoa(code)))
  {
  }

  /** The steps up to the directory only make directories. */
  lemma PrepareMakesDirs(cfg: Config, w: World)
    ensures forall e | e in PrepareSpec(cfg, w).1 :: e.MakeBaseDir? || e.MakeDir?
  {
  }

  /** The steps from the summary file on create and write files; they start
      the child only when all succeed, and remove the directory only when the
      start fails. */
  lemma LaunchKinds(commands: seq<string>, cfg: Config, w: World, repo: RepoStatus, expDir: string)
    ensures var launch := LaunchSpec(commands, cfg, w, repo, expDir);
      && (forall e | e in launch.1 :: e.CreateFile? || e.WriteInit? || e.Start? || e == RemoveAll(expDir))
      && (launch.0.Some? ==> forall e | e in launch.1 :: !e.Start?)
      && (launch.0.None? ==> forall e | e in launch.1 :: !e.RemoveAll?)
  {
  }

  /** The effects of a started run before the child ends. */
  function BeforeEnd(commands: seq<string>, cfg: Config, w: World): seq<Effect>
    requires w.repo.Ok?
  {
    PrepareSpec(cfg, w).1 + LaunchSpec(commands, cfg, w, w.repo.value, ExpDirOf(cfg, w)).1
  }

  /** A started run's effects: those up to the start, which pass on no
      signal, remove nothing and append nothing, then those of the last stage. */
  lemma MainSpecStarted(commands: seq<string>, cfg: Config, w: World)
    requires Started(commands, cfg, w)
    ensures MainSpec(commands, cfg, w).1 == BeforeEnd(commands, cfg, w) + EndSpec(cfg, w, ExpDirOf(cfg, w)).1
    ensures forall e | e in BeforeEnd(commands, cfg, w) :: !e.Forward? && !e.RemoveAll? && !e.AppendEnd?
  {
    BeforeEndQuiet(commands, cfg, w);
  }

  lemma BeforeEndQuiet(commands: seq<string>, cfg: Config, w: World)
    requires Started(commands, cfg, w)
    ensures forall e | e in BeforeEnd(commands, cfg, w) :: !e.Forward? && !e.RemoveAll? && !e.AppendEnd?
  {
    PrepareMakesDirs(cfg, w);
    LaunchKinds(commands, cfg, w, w.repo.value, ExpDirOf(cfg, w));
  }

  /** The last stage passes on the signal only to a live child. */
  lemma EndForwards(cfg: Config, w: World, expDir: string)
    ensures (exists s :: Forward(s) in EndSpec(cfg, w, expDir).1) <==> w.event.Signalled? && w.event.alive
  {
    if w.event.Signalled? && w.event.alive {
      assert EndSpec(cfg, w, expDir).1[0] == Forward(w.event.sig);
    }
  }

  /** The last stage appends the results when the file opens and takes them. */
  lemma EndAppends(cfg: Config, w: World, expDir: string)
    ensures var effects := EndSpec(cfg, w, expDir).1;
      && ((exists p, e :: AppendEnd(p, e) in effects) <==> w.openErr.None? && w.appendErr.None?)
      && (w.openErr.None? && w.appendErr.None? ==>
            AppendEnd(SummaryPathOf(cfg, expDir), EndArgs(w.start, w.end, ExitCodeOf(w.event), w.event.Signalled?))
              in effects)
  {
    if w.openErr.None? && w.appendErr.None? {
      var a := AppendEnd(SummaryPathOf(cfg, expDir), EndArgs(w.start, w.end, ExitCodeOf(w.event), w.event.Signalled?));
      assert a in EndSpec(cfg, w, expDir).1;
    }
  }

  /** The last stage removes the run's directory, as its last effect,
      exactly when the results were appended, the code is not 0 and cleanup
      on failure is set. */
  lemma EndRemoves(cfg: Config, w: World, expDir: string)
    ensures var effects := EndSpec(cfg, w, expDir).1;
      && ((exists p :: RemoveAll(p) in effects)
            <==> w.openErr.None? && w.appendErr.None? && ExitCodeOf(w.event) != 0 && cfg.cleanupOnFail)
      && (forall e | e in effects && e.RemoveAll? :: e == RemoveAll(expDir))
      && (forall i | 0 <= i < |effects| && effects[i].RemoveAll? :: i == |effects| - 1)
  {
  }

  /** Steps that neither pass on a signal, nor remove, nor append, followed
      by others: what is passed on, removed and appended comes from the
      others, and a removal last among the others is last overall. */
  lemma AfterQuietSteps(before: seq<Effect>, after: seq<Effect>)
    requires forall e | e in before :: !e.Forward? && !e.RemoveAll? && !e.AppendEnd?
    ensures forall e | e in before + after && (e.Forward? || e.RemoveAll? || e.AppendEnd?) :: e in after
    ensures forall e | e in after :: e in before + after
    ensures (forall i | 0 <= i < |after| && after[i].RemoveAll? :: i == |after| - 1)
        ==> (forall i | 0 <= i < |before + after| && (before + after)[i].RemoveAll? :: i == |before + after| - 1)
  {
    var all := before + after;
    if forall i | 0 <= i < |after| && after[i].RemoveAll? :: i == |after| - 1 {
      forall i | 0 <= i < |all| && all[i].RemoveAll? ensures i == |all| - 1 {
        assert i >= |before|;
        assert all[i] == after[i - |before|];
      }
    }
  }

  /** Once the child started, a signal is passed on exactly when one came
      and the probe found the child alive. */
  lemma ForwardsOnlyToLiving(commands: seq<string>, cfg: Config, w: World)
    requires Started(commands, cfg, w)
    ensures (exists s :: Forward(s) in MainSpec(commands, cfg, w).1) <==> w.event.Signalled? && w.event.alive
  {
    var end := EndSpec(cfg, w, ExpDirOf(cfg, w)).1;
    MainSpecStarted(commands, cfg, w);
    EndForwards(cfg, w, ExpDirOf(cfg, w));
    AfterQuietSteps(BeforeEnd(commands, cfg, w), end);
  }

  /** Once the child started, the results are appended exactly when the
      summary file opens and takes them; they carry the start, the end, the
      exit code, and whether a signal came. */
  lemma AppendsResults(commands: seq<string>, cfg: Config, w: World)
    requires Started(commands, cfg, w)
    ensures var effects := MainSpec(commands, cfg, w).1;
      && ((exists p, e :: AppendEnd(p, e) in effects) <==> w.openErr.None? && w.appendErr.None?)
      && (w.openErr.None? && w.appendErr.None? ==>
            AppendEnd(SummaryPathOf(cfg, ExpDirOf(cfg, w)),
                      EndArgs(w.start, w.end, ExitCodeOf(w.event), w.event.Signalled?)) in effects)
  {
    var end := EndSpec(cfg, w, ExpDirOf(cfg, w)).1;
    MainSpecStarted(commands, cfg, w);
    EndAppends(cfg, w, ExpDirOf(cfg, w));
    AfterQuietSteps(BeforeEnd(commands, cfg, w), end);
  }

  /** Once the child started, the run's directory is removed exactly when
      the results were appended, the code is not 0 and cleanup on failure is
      set; a removal is the last effect. */
  lemma RemovesOnFailure(commands: seq<string>, cfg: Config, w: World)
    requires Started(commands, cfg, w)
    ensures var effects := MainSpec(commands, cfg, w).1;
      && ((exists p :: RemoveAll(p) in effects)
            <==> w.openErr.None? && w.appendErr.None? && ExitCodeOf(w.event) != 0 && cfg.cleanupOnFail)
      && (forall e | e in effects && e.RemoveAll? :: e == RemoveAll(ExpDirOf(cfg, w)))
      && (forall i | 0 <= i < |effects| && effects[i].RemoveAll? :: i == |effects| - 1)
  {
    var end := EndSpec(cfg, w, ExpDirOf(cfg, w)).1;
    MainSpecStarted(commands, cfg, w);
    EndRemoves(cfg, w, ExpDirOf(cfg, w));
    AfterQuietSteps(BeforeEnd(commands, cfg, w), end);
  }

  // ---------------------------------------------------------------------
  // The summary file

  /** What has been written to a file, in order. */
  datatype Piece = InitPiece(init: InitArgs) | EndPiece(end: EndArgs)

  /** One effect on what a file holds (None: the file does not exist).
      Creating empties the file; writing and appending add a piece to an
      existing file; removing a directory removes the files under it. */
  function Apply(f: Option<seq<Piece>>, e: Effect, path: string): Option<seq<Piece>> {
    match e
    case CreateFile(p) => if p == path then Some([]) else f
    case WriteInit(p, i) => if p == path && f.Some? then Some(f.value + [InitPiece(i)]) else f
    case AppendEnd(p, x) => if p == path && f.Some? then Some(f.value + [EndPiece(x)]) else f
    case RemoveAll(d) => if HasPrefix(path, d + "/") then None else f
    case _ => f
  }

  /** What a file holds after the effects, from what it held before. */
  function Replay(f: Option<seq<Piece>>, effects: seq<Effect>, path: string): Option<seq<Piece>>
    decreases |effects|
  {
    if effects == [] then f else Replay(Apply(f, effects[0], path), effects[1..], path)
  }

  /** What a file that did not exist holds after the effects. */
  function FileAt(effects: seq<Effect>, path: string): Option<seq<Piece>> {
    Replay(None, effects, path)
  }

  lemma {:induction false} ReplayAppend(f: Option<seq<Piece>>, a: seq<Effect>, b: seq<Effect>, path: string)
    ensures Replay(f, a + b, path) == Replay(Replay(f, a, path), b, path)
    decreases |a|
  {
    if a != [] {
      assert (a + b)[0] == a[0] && (a + b)[1..] == a[1..] + b;
      ReplayAppend(Apply(f, a[0], path), a[1..], b, path);
    } else {
      assert a + b == b;
    }
  }

  /** Effects that touch no file leave every file as it was. */
  lemma {:induction false} ReplayUntouched(f: Option<seq<Piece>>, effects: seq<Effect>, path: string)
    requires forall e | e in effects :: e.MakeBaseDir? || e.MakeDir? || e.Start? || e.Forward?
    ensures Replay(f, effects, path) == f
    decreases |effects|
  {
    if effects != [] {
      assert effects[0] in effects;
      assert forall e | e in effects[1..] :: e in effects;
      ReplayUntouched(Apply(f, effects[0], path), effects[1..], path);
    }
  }

  /** Two files of one directory with different names are different paths. */
  lemma SiblingsDiffer(dir: string, x: string, y: string)
    requires x != y
    ensures dir + "/" + x != dir + "/" + y
  {
    assert (dir + "/" + x)[|dir| + 1..] == x;
    assert (dir + "/" + y)[|dir| + 1..] == y;
  }

  lemma ReplayCons(f: Option<seq<Piece>>, e: Effect, rest: seq<Effect>, path: string)
    ensures Replay(f, [e] + rest, path) == Replay(Apply(f, e, path), rest, path)
  {
    assert ([e] + rest)[1..] == rest;
  }

  /** The summary file after the steps up to the start: the first block only. */
  lemma ReplayLaunch(path: string, i: InitArgs, so: string, se: string, st: Effect)
    requires so != path && se != path && st.Start?
    ensures Replay(None, [CreateFile(path), WriteInit(path, i), CreateFile(so), CreateFile(se), st], path)
         == Some([InitPiece(i)])
  {
    var f := Some([InitPiece(i)]);
    assert [CreateFile(path), WriteInit(path, i), CreateFile(so), CreateFile(se), st]
        == [CreateFile(path)] + ([WriteInit(path, i)] + ([CreateFile(so)] + ([CreateFile(se)] + [st])));
    ReplayCons(None, CreateFile(path), [WriteInit(path, i)] + ([CreateFile(so)] + ([CreateFile(se)] + [st])), path);
    ReplayCons(Some([]), WriteInit(path, i), [CreateFile(so)] + ([CreateFile(se)] + [st]), path);
    assert Apply(Some([]), WriteInit(path, i), path) == f by { assert [] + [InitPiece(i)] == [InitPiece(i)]; }
    ReplayCons(f, CreateFile(so), [CreateFile(se)] + [st], path);
    ReplayCons(f, CreateFile(se), [st], path);
    ReplayCons(f, st, [], path);
    assert [st] + [] == [st];
  }

  /** The summary file after the last stage: the results block added, or
      the file gone with its directory. */
  lemma ReplayEnd(cfg: Config, w: World, expDir: string, f: seq<Piece>)
    requires w.openErr.None? && w.appendErr.None?
    ensures var code := ExitCodeOf(w.event);
      Replay(Some(f), EndSpec(cfg, w, expDir).1, SummaryPathOf(cfg, expDir))
        == if code != 0 && cfg.cleanupOnFail then None
           else Some(f + [EndPiece(EndArgs(w.start, w.end, code, w.event.Signalled?))])
  {
    var path := SummaryPathOf(cfg, expDir);
    var code := ExitCodeOf(w.event);
    var forwarded := if w.event.Signalled? && w.event.alive then [Forward(w.event.sig)] else [];
    var appended := [AppendEnd(path, EndArgs(w.start, w.end, code, w.event.Signalled?))];
    var removed := if code != 0 && cfg.cleanupOnFail then [RemoveAll(expDir)] else [];
    assert EndSpec(cfg, w, expDir).1 == forwarded + (appended + removed);
    ReplayAppend(Some(f), forwarded, appended + removed, path);
    ReplayUntouched(Some(f), forwarded, path);
    ReplayAppend(Some(f), appended, removed, path);
    var g := Some(f + [EndPiece(EndArgs(w.start, w.end, code, w.event.Signalled?))]);
    assert Replay(Some(f), appended, path) == g by {
      assert appended[1..] == [];
    }
    if removed != [] {
      assert HasPrefix(path, expDir + "/") by {
        assert path[..|expDir + "/"|] == expDir + "/";
      }
      assert removed[1..] == [];
    }
  }

  /** The effects of the steps from the summary file to a successful start. */
  lemma LaunchStarted(commands: seq<string>, cfg: Config, w: World, repo: RepoStatus, expDir: string)
    requires LaunchSpec(commands, cfg, w, repo, expDir).0.None?
    ensures LaunchSpec(commands, cfg, w, repo, expDir).1
         == [CreateFile(SummaryPathOf(cfg, expDir)), WriteInit(SummaryPathOf(cfg, expDir), InitOf(commands, w, repo)),
             CreateFile(expDir + "/" + cfg.stdoutFile), CreateFile(expDir + "/" + cfg.stderrFile),
             Start(commands, if cfg.noPushd then None else Some(expDir))]
  {
  }

  /** After a run whose child started and whose results were appended, the
      summary file holds the first block and the results block, unless the
      directory was removed on failure; the other files of the run's
      directory must have other names, or creating them empties it. */
  lemma SummaryFileAfterRun(commands: seq<string>, cfg: Config, w: World)
    requires Started(commands, cfg, w) && w.openErr.None? && w.appendErr.None?
    requires cfg.stdoutFile != cfg.summaryFile && cfg.stderrFile != cfg.summaryFile
    ensures var code := ExitCodeOf(w.event);
      FileAt(MainSpec(commands, cfg, w).1, SummaryPathOf(cfg, ExpDirOf(cfg, w)))
        == if code != 0 && cfg.cleanupOnFail then None
           else Some([InitPiece(InitOf(commands, w, w.repo.value)),
                      EndPiece(EndArgs(w.start, w.end, code, w.event.Signalled?))])
  {
    var expDir := ExpDirOf(cfg, w);
    var path := SummaryPathOf(cfg, expDir);
    var prep := PrepareSpec(cfg, w).1;
    var launch := LaunchSpec(commands, cfg, w, w.repo.value, expDir).1;
    var end := EndSpec(cfg, w, expDir).1;
    var i := InitOf(commands, w, w.repo.value);
    MainSpecStarted(commands, cfg, w);
    ReplayAppend(None, prep + launch, end, path);
    ReplayAppend(None, prep, launch, path);
    assert Replay(None, prep, path) == None by {
      PrepareMakesDirs(cfg, w);
      ReplayUntouched(None, prep, path);
    }
    assert Replay(None, launch, path) == Some([InitPiece(i)]) by {
      LaunchStarted(commands, cfg, w, w.repo.value, expDir);
      SiblingsDiffer(expDir, cfg.stdoutFile, cfg.summaryFile);
      SiblingsDiffer(expDir, cfg.stderrFile, cfg.summaryFile);
      ReplayLaunch(path, i, expDir + "/" + cfg.stdoutFile, expDir + "/" + cfg.stderrFile,
                   Start(commands, if cfg.noPushd then None else Some(expDir)));
    }
    ReplayEnd(cfg, w, expDir, [InitPiece(i)]);
    assert [InitPiece(i)] + [EndPiece(EndArgs(w.start, w.end, ExitCodeOf(w.event), w.event.Signalled?))]
        == [InitPiece(i), EndPiece(EndArgs(w.start, w.end, ExitCodeOf(w.event), w.event.Signalled?))];
  }

  /** The values the summary reader needs to read a file back: valid times
      and an exit code that fits, values that do not break lines, a host name
      and path without asterisks (which could spell the termination mark),
      no fence inside a section, one start for both blocks, and no line long
      enough to fill the scanner's buffer. */
  predicate Readable(path: string, i: InitArgs, e: EndArgs) {
    var hostname := Summary.OrElse(i.hostname, "unknown");
    Valid(i.start) && Valid(e.end) && InInt64(e.exitCode) && e.start == i.start
    && '\n' !in i.repo.branch && '\n' !in i.repo.fullHash && '\n' !in Join(i.command, " ")
    && '\n' !in hostname && '\n' !in path && '*' !in hostname && '*' !in path
    && Summary.FenceFree(Lines(Summary.OrElse(CommitDetails(i.gitShow), "Error retrieving commit details") + "\n"))
    && Summary.FenceFree(Lines(FormatGitStatus(if i.status.Ok? then i.status.value else RepoStatus(false, false, "", "", "")) + "\n"))
    && Summary.FenceFree(Lines(Summary.OrElse(UncommittedChanges(i.gitDiff), "Error retrieving uncommitted changes") + "\n"))
    && Summary.FenceFree(Lines(i.uname + (if i.unameErr.Some? then "Error retrieving system info: " + i.unameErr.value else "") + "\n"))
    && ShortLines(Summary.InitTextFor(path, i.start, i.repo, i.command, i.hostname, i.gitShow, i.status,
                                      i.gitDiff, i.uname, i.unameErr)
                  + Summary.EndText(e.start, e.end, e.exitCode, e.interrupted))
  }

  /** A summary file holding the two blocks (InitPiece(i), then EndPiece(e),
      as the writer's texts) reads back as the values they were written from:
      the directory and file name of its path, the command, the start and end
      (to the second), the exit code, finished, the branch, the commit hash
      and whether the run was interrupted. */
  lemma {:induction false} SummaryReadsBack(path: string, i: InitArgs, e: EndArgs)
    requires Readable(path, i, e)
    ensures Summary.ParseSummary(path,
              Ok(Summary.InitTextFor(path, i.start, i.repo, i.command, i.hostname, i.gitShow, i.status,
                                     i.gitDiff, i.uname, i.unameErr)
                 + Summary.EndText(e.start, e.end, e.exitCode, e.interrupted)))
         == Ok(Summary.RunInfo(Summary.SplitPath(path).0, Summary.SplitPath(path).1, Join(i.command, " "),
                               i.start.(nanos := 0), e.end.(nanos := 0), e.exitCode, false,
                               i.repo.branch, i.repo.fullHash, e.interrupted))
  {
    var hostname := Summary.OrElse(i.hostname, "unknown");
    var details := Summary.OrElse(CommitDetails(i.gitShow), "Error retrieving commit details");
    var status := FormatGitStatus(if i.status.Ok? then i.status.value else RepoStatus(false, false, "", "", ""));
    var diff := Summary.OrElse(UncommittedChanges(i.gitDiff), "Error retrieving uncommitted changes");
    var sysInfo := i.uname + (if i.unameErr.Some? then "Error retrieving system info: " + i.unameErr.value else "");
    Summary.RoundTrip(path, i.start, e.end, i.repo, i.command, hostname, details, status, diff, sysInfo,
                      e.exitCode, e.interrupted);
  }
}
