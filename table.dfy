/** The status column of the run table. */
module Table {
  import opened Wrappers
  import opened Strings
  import opened Decimal
  import opened Summary

  const FailedPrefix := "Failed (exit: "

  /** statusString: a running record is "Running"; a finished one is
      "Success" on exit 0, "Interrupted" when the user stopped it, and
      otherwise "Failed (exit: N)". */
  function StatusString(run: RunInfo): string {
    if run.isRunning then "Running"
    else if run.exitStatus == 0 then "Success"
    else if run.interrupted then "Interrupted"
    else FailedPrefix + Itoa(run.exitStatus) + ")"
  }

  /** The exit status a "Failed (exit: N)" text names, if the text has that form. */
  function FailedCode(s: string): Option<int> {
    if |s| > |FailedPrefix| + 1 && s[..|FailedPrefix|] == FailedPrefix && s[|s| - 1] == ')' then
      Atoi(s[|FailedPrefix|..|s| - 1])
    else None
  }

  /** Each of the four texts is produced by exactly one class of record, and a
      failure text gives back its exit status: the running flag dominates,
      exit 0 is a success even for an interrupted run, and only a non-zero
      interrupted run reads "Interrupted". */
  lemma StatusClasses(run: RunInfo)
    requires InInt64(run.exitStatus)
    ensures StatusString(run) == "Running" <==> run.isRunning
    ensures StatusString(run) == "Success" <==> !run.isRunning && run.exitStatus == 0
    ensures StatusString(run) == "Interrupted" <==> !run.isRunning && run.exitStatus != 0 && run.interrupted
    ensures FailedCode(StatusString(run)).Some? <==> !run.isRunning && run.exitStatus != 0 && !run.interrupted
    ensures FailedCode(StatusString(run)).Some? ==> FailedCode(StatusString(run)).value == run.exitStatus
  {
    var s := StatusString(run);
    if !run.isRunning && run.exitStatus != 0 && !run.interrupted {
      var digits := Itoa(run.exitStatus);
      assert s[..|FailedPrefix|] == FailedPrefix;
      assert s[|FailedPrefix|..|s| - 1] == digits;
      AtoiItoa(run.exitStatus);
      Distinct(s);
    } else {
      assert FailedCode("Running") == None;
      assert FailedCode("Success") == None;
      assert FailedCode("Interrupted") == None;
    }
  }

  /** A failure text is none of the other three. */
  lemma Distinct(s: string)
    requires HasPrefix(s, FailedPrefix)
    ensures s != "Running" && s != "Success" && s != "Interrupted"
  {
    assert s[0] == 'F';
  }
}
