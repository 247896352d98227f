/** What the tool records about the Git repository it runs in. The go-git and
    `git` subprocess queries are outside the model; their answers are
    parameters. */
module Repo {
  import opened Wrappers
  import opened Strings

  /** RepoStatus, without the commit message, author and date, which no modelled operation reads. */
  datatype RepoStatus = RepoStatus(
    isValid: bool, isDirty: bool, branch: string, shortHash: string, fullHash: string)

  /** What HEAD points at. */
  datatype Head = OnBranch(short: string) | DetachedHead

  const DetachedName := "detached-HEAD"

  /** The branch GetRepoStatus records for a HEAD. */
  function BranchOf(head: Head): (b: string)
    ensures head.OnBranch? ==> b == head.short
    ensures head.DetachedHead? ==> b == DetachedName
  {
    match head
    case OnBranch(short) => short
    case DetachedHead => DetachedName
  }

  /** The status of a repository that opened, given HEAD, the hex of the
      commit it names and whether the work tree is clean. */
  function Describe(head: Head, hash: string, clean: bool): (r: RepoStatus)
    requires |hash| >= 7
    ensures r.isValid && r.isDirty == !clean && r.fullHash == hash
    ensures |r.shortHash| == 7 && HasPrefix(r.fullHash, r.shortHash)
    ensures r.branch == BranchOf(head)
  {
    RepoStatus(true, !clean, BranchOf(head), hash[..7], hash)
  }

  /** GetCommitDetails / GetUncommittedChanges: the subprocess output, with a
      placeholder for empty output, or the error that running it gave. */
  function CommandOutput(output: Result<string>, placeholder: string, failure: string): (r: Result<string>)
    requires placeholder != ""
    ensures r.Ok? <==> output.Ok?
    ensures r.Ok? ==> r.value != "" && (output.value != "" ==> r.value == output.value)
    ensures output == Ok("") ==> r == Ok(placeholder)
    ensures r.Err? ==> HasPrefix(r.msg, failure) && r.msg == failure + output.msg
  {
    match output
    case Err(e) => Err(failure + e)
    case Ok(text) => Ok(if text == "" then placeholder else text)
  }

  function CommitDetails(output: Result<string>): (r: Result<string>)
    ensures r.Ok? ==> r.value != ""
    ensures output == Ok("") ==> r == Ok("[No commit details]")
    ensures output.Ok? && output.value != "" ==> r == output
    ensures output.Err? ==> r == Err("failed to run git show: " + output.msg)
  {
    CommandOutput(output, "[No commit details]", "failed to run git show: ")
  }

  function UncommittedChanges(output: Result<string>): (r: Result<string>)
    ensures r.Ok? ==> r.value != ""
    ensures output == Ok("") ==> r == Ok("[No uncommitted changes]\n")
    ensures output.Ok? && output.value != "" ==> r == output
    ensures output.Err? ==> r == Err("failed to run git diff: " + output.msg)
  {
    CommandOutput(output, "[No uncommitted changes]\n", "failed to run git diff: ")
  }

  /** SanitizeBranchName: every '/' becomes '-'. */
  function SanitizeBranchName(name: string): (r: string)
    ensures |r| == |name|
    ensures forall i | 0 <= i < |name| :: r[i] == (if name[i] == '/' then '-' else name[i])
  {
    if name == [] then []
    else [if name[0] == '/' then '-' else name[0]] + SanitizeBranchName(name[1..])
  }

  lemma SanitizeBranchNameProperties(name: string)
    ensures '/' !in SanitizeBranchName(name)
    ensures '/' !in name ==> SanitizeBranchName(name) == name
    ensures SanitizeBranchName(SanitizeBranchName(name)) == SanitizeBranchName(name)
  {
    var r := SanitizeBranchName(name);
    assert forall i | 0 <= i < |r| :: r[i] != '/';
    if '/' !in name {
      assert forall i | 0 <= i < |name| :: r[i] == name[i];
    }
  }

  lemma SanitizeBranchNameExamples()
    ensures SanitizeBranchName("main") == "main"
    ensures SanitizeBranchName("foo/bar") == "foo-bar"
  {
    SanitizeBranchNameProperties("main");
    var r := SanitizeBranchName("foo/bar");
    assert r[3] == '-';
  }

  // ---------------------------------------------------------------------
  // formatGitStatus (the same function exists in the utils and experiment packages)

  const InvalidRepoText := "Not a valid git repository"
  const CleanText := "nothing to commit, working tree clean\n"
  const DirtyText :=
    "Changes not staged for commit:\n"
    + "  (use \"git add <file>...\" to update what will be committed)\n"
    + "  (use \"git restore <file>...\" to discard changes in working directory)\n"
    + "\n"
    + "        modified:   [uncommitted changes present]\n"

  /** formatGitStatus: the fixed text for an invalid repository; otherwise the
      branch line, then the dirty or the clean explanation. */
  function FormatGitStatus(repo: RepoStatus): (s: string)
    ensures !repo.isValid ==> s == InvalidRepoText
    ensures repo.isValid ==> HasPrefix(s, "On branch " + repo.branch + "\n")
    ensures repo.isValid && repo.isDirty ==> HasSuffix(s, DirtyText)
    ensures repo.isValid && !repo.isDirty ==> HasSuffix(s, CleanText)
  {
    if !repo.isValid then InvalidRepoText
    else "On branch " + repo.branch + "\n" + (if repo.isDirty then DirtyText else CleanText)
  }
}
