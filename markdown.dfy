/** The older revision of the run-record reader: the same labels and fence
    rule as the current one, but zone-less "2006-01-02T15:04:05" timestamps and
    an "Execution time" line whose text is kept verbatim. */
module Markdown {
  import opened Wrappers
  import opened Strings
  import opened Decimal
  import opened Clock
  import Summary

  /** RunInfo of the older revision: it also carries the duration text. */
  datatype RunInfo = RunInfo(
    directory: string, file: string, command: string,
    startTime: DateTime, endTime: DateTime, duration: string,
    exitStatus: int, isRunning: bool,
    branch: string, commitHash: string, interrupted: bool)

  /** parseDateTime */
  function ParseDateTime(s: string): (r: Option<DateTime>)
    ensures r.Some? ==> ValidCivil(r.value) && r.value.offset == 0
  {
    ParsePlain(s)
  }

  function Initial(path: string): RunInfo {
    var parts := Summary.SplitPath(path);
    RunInfo(parts.0, parts.1, "", ZeroTime, ZeroTime, "", 0, true, "", "", false)
  }

  /** A line that carries none of the labels this revision reads. */
  predicate Unlabelled(line: string) {
    Summary.Unlabelled(line) && !HasPrefix(line, Summary.DurationLabel)
  }

  /** One line read outside a fenced block. */
  function Step(info: RunInfo, line: string): Result<RunInfo> {
    if HasPrefix(line, Summary.StartLabel) then
      match ParseDateTime(line[|Summary.StartLabel|..])
      case None => Err("failed to parse start time")
      case Some(t) => Ok(info.(startTime := t))
    else if HasPrefix(line, Summary.BranchLabel) then
      match Summary.TrimBackticks(line[|Summary.BranchLabel|..])
      case Err(e) => Err("failed to parse branch: " + e)
      case Ok(b) => Ok(info.(branch := b))
    else if HasPrefix(line, Summary.HashLabel) then
      match Summary.TrimBackticks(line[|Summary.HashLabel|..])
      case Err(e) => Err("failed to parse commit hash: " + e)
      case Ok(h) => Ok(info.(commitHash := h))
    else if HasPrefix(line, Summary.CommandLabel) then
      match Summary.TrimBackticks(line[|Summary.CommandLabel|..])
      case Err(e) => Err("failed to parse command: " + e)
      case Ok(c) => Ok(info.(command := c))
    else if HasPrefix(line, Summary.ExitLabel) then
      match Atoi(line[|Summary.ExitLabel|..])
      case None => Err("failed to parse exit status")
      case Some(n) => Ok(info.(isRunning := false, exitStatus := n))
    else if HasPrefix(line, Summary.FinishedLabel) then
      match ParseDateTime(line[|Summary.FinishedLabel|..])
      case None => Err("failed to parse end time")
      case Some(t) => Ok(info.(endTime := t))
    else if HasPrefix(line, Summary.DurationLabel) then Ok(info.(duration := line[|Summary.DurationLabel|..]))
    else if Contains(line, Summary.TerminatedMark) then Ok(info.(interrupted := true))
    else Ok(info)
  }

  function Scan(lines: seq<string>, info: RunInfo, within: bool): Result<RunInfo>
    decreases |lines|
  {
    if lines == [] then Ok(info)
    else
      var w := Summary.Toggle(lines[0], within);
      if w then Scan(lines[1..], info, w)
      else
        var next :- Step(info, lines[0]);
        Scan(lines[1..], next, w)
  }

  /** ParseRunInfo on the file at `path`, whose content is the text or the
      error opening it gave. */
  function ParseSummary(path: string, content: Result<string>): (r: Result<RunInfo>)
    ensures content.Err? ==> r.Err? && HasPrefix(r.msg, "failed to open summary file")
  {
    match content
    case Err(e) => Err("failed to open summary file: " + e)
    case Ok(text) => Scan(Scanned(text), Initial(path), false)
  }

  method ParseRunInfo(path: string, content: Result<string>) returns (r: Result<RunInfo>)
    ensures r == ParseSummary(path, content)
  {
    if content.Err? {
      return Err("failed to open summary file: " + content.msg);
    }
    var lines := Scanned(content.value);
    var info := Initial(path);
    var within := false;
    var i := 0;
    while i < |lines|
      invariant 0 <= i <= |lines|
      invariant Scan(lines[i..], info, within) == ParseSummary(path, content)
    {
      var line := lines[i];
      assert lines[i..][1..] == lines[i + 1..];
      if HasPrefix(line, Summary.Fence) {
        within := !within;
      }
      if !within {
        var step := Step(info, line);
        if step.Err? {
          return Err(step.msg);
        }
        info := step.value;
      }
      i := i + 1;
    }
    return Ok(info);
  }

  // ---------------------------------------------------------------------
  // The lines the scanner acts on

  function Apply(ls: seq<string>, info: RunInfo): Result<RunInfo>
    decreases |ls|
  {
    if ls == [] then Ok(info)
    else
      var next :- Step(info, ls[0]);
      Apply(ls[1..], next)
  }

  lemma ApplyCons(line: string, rest: seq<string>, info: RunInfo)
    ensures Apply([line] + rest, info) == (var next :- Step(info, line); Apply(rest, next))
  {
    assert ([line] + rest)[0] == line && ([line] + rest)[1..] == rest;
  }

  lemma {:induction false} ScanIsApply(lines: seq<string>, info: RunInfo, within: bool)
    ensures Scan(lines, info, within) == Apply(Summary.Visible(lines, within), info)
    decreases |lines|
  {
    if lines != [] {
      var w := Summary.Toggle(lines[0], within);
      var rest := Summary.Visible(lines[1..], w);
      if w {
        assert Summary.Visible(lines, within) == rest;
        ScanIsApply(lines[1..], info, w);
      } else {
        var s := Step(info, lines[0]);
        assert Summary.Visible(lines, within) == [lines[0]] + rest;
        ApplyCons(lines[0], rest, info);
        if s.Ok? {
          ScanIsApply(lines[1..], s.value, w);
        }
      }
    }
  }

  lemma {:induction false} ApplyAppend(a: seq<string>, b: seq<string>, info: RunInfo)
    ensures Apply(a + b, info) == (var mid :- Apply(a, info); Apply(b, mid))
    decreases |a|
  {
    if a == [] {
      assert a + b == b;
    } else {
      assert (a + b)[0] == a[0] && (a + b)[1..] == a[1..] + b;
      var s := Step(info, a[0]);
      if s.Ok? {
        ApplyAppend(a[1..], b, s.value);
      }
    }
  }

  /** A line this revision accepts: each label's value has the form its field needs. */
  predicate LineOk(line: string) {
    if HasPrefix(line, Summary.StartLabel) then ParseDateTime(line[|Summary.StartLabel|..]).Some?
    else if HasPrefix(line, Summary.BranchLabel) then Summary.Backticked(line[|Summary.BranchLabel|..])
    else if HasPrefix(line, Summary.HashLabel) then Summary.Backticked(line[|Summary.HashLabel|..])
    else if HasPrefix(line, Summary.CommandLabel) then Summary.Backticked(line[|Summary.CommandLabel|..])
    else if HasPrefix(line, Summary.ExitLabel) then Atoi(line[|Summary.ExitLabel|..]).Some?
    else if HasPrefix(line, Summary.FinishedLabel) then ParseDateTime(line[|Summary.FinishedLabel|..]).Some?
    else true
  }

  /** The text of a duration line that the scanner takes as the duration. */
  predicate DurationLine(line: string) {
    Summary.Unlabelled(line) && HasPrefix(line, Summary.DurationLabel)
  }

  lemma StepEffect(info: RunInfo, line: string)
    ensures Step(info, line).Ok? <==> LineOk(line)
    ensures Step(info, line).Ok? ==>
      var n := Step(info, line).value;
      n.directory == info.directory && n.file == info.file
      && n.isRunning == (info.isRunning && !HasPrefix(line, Summary.ExitLabel))
      && n.interrupted == (info.interrupted || (Unlabelled(line) && Contains(line, Summary.TerminatedMark)))
      && n.duration == (if DurationLine(line) then line[|Summary.DurationLabel|..] else info.duration)
  {
    if HasPrefix(line, Summary.ExitLabel) {
      Summary.ExitLabelExclusive(line);
    } else if !Summary.Unlabelled(line) {
      assert !DurationLine(line) && !Unlabelled(line);
    } else if HasPrefix(line, Summary.DurationLabel) {
      assert DurationLine(line);
    }
  }

  /** What a list of lines does: it is accepted iff every line is; the record
      stays running iff no line carries the exit status label; it is
      interrupted iff an unlabelled line carries the mark; and its duration is
      the verbatim text of the last duration line, if there is one. */
  lemma {:induction false} ApplyEffect(ls: seq<string>, info: RunInfo)
    ensures Apply(ls, info).Ok? <==> forall l | l in ls :: LineOk(l)
    ensures Apply(ls, info).Ok? ==>
      var r := Apply(ls, info).value;
      r.directory == info.directory && r.file == info.file
      && (r.isRunning <==> info.isRunning && forall l | l in ls :: !HasPrefix(l, Summary.ExitLabel))
      && (r.interrupted <==>
            (info.interrupted || exists l | l in ls :: Unlabelled(l) && Contains(l, Summary.TerminatedMark)))
      && ((forall l | l in ls :: !DurationLine(l)) ==> r.duration == info.duration)
      && (forall i | 0 <= i < |ls| && DurationLine(ls[i]) && (forall j | i < j < |ls| :: !DurationLine(ls[j]))
            :: r.duration == ls[i][|Summary.DurationLabel|..])
    decreases |ls|
  {
    if ls != [] {
      StepEffect(info, ls[0]);
      assert forall l | l in ls :: l == ls[0] || l in ls[1..];
      var s := Step(info, ls[0]);
      if s.Ok? {
        ApplyEffect(ls[1..], s.value);
        if Apply(ls, info).Ok? {
          var r := Apply(ls, info).value;
          forall i | 0 <= i < |ls| && DurationLine(ls[i]) && (forall j | i < j < |ls| :: !DurationLine(ls[j]))
            ensures r.duration == ls[i][|Summary.DurationLabel|..]
          {
            if i == 0 {
              assert forall l | l in ls[1..] :: !DurationLine(l) by {
                forall l | l in ls[1..] ensures !DurationLine(l) {
                  var k :| 0 <= k < |ls[1..]| && ls[1..][k] == l;
                  assert ls[k + 1] == l;
                }
              }
            } else {
              assert ls[1..][i - 1] == ls[i];
              assert forall j | i - 1 < j < |ls[1..]| :: !DurationLine(ls[1..][j]) by {
                forall j | i - 1 < j < |ls[1..]| ensures !DurationLine(ls[1..][j]) {
                  assert ls[1..][j] == ls[j + 1];
                }
              }
            }
          }
        }
      }
    }
  }

  /** The parse fails exactly when a line the scanner reads, outside the
      fenced blocks, has a badly formed value. */
  lemma ParseFails(path: string, text: string)
    ensures ParseSummary(path, Ok(text)).Err? <==>
      exists l | l in Summary.Visible(Scanned(text), false) :: !LineOk(l)
  {
    ScanIsApply(Scanned(text), Initial(path), false);
    ApplyEffect(Summary.Visible(Scanned(text), false), Initial(path));
  }

  /** A record reads as running until an exit status line outside the fenced blocks is seen. */
  lemma RunningUntilExitLine(path: string, text: string)
    requires ParseSummary(path, Ok(text)).Ok?
    ensures ParseSummary(path, Ok(text)).value.isRunning <==>
      forall l | l in Summary.Visible(Scanned(text), false) :: !HasPrefix(l, Summary.ExitLabel)
  {
    ScanIsApply(Scanned(text), Initial(path), false);
    ApplyEffect(Summary.Visible(Scanned(text), false), Initial(path));
  }

  /** The duration is the text after the label on the last duration line
      outside the fenced blocks, copied without any check. */
  lemma DurationVerbatim(path: string, text: string, i: nat)
    requires ParseSummary(path, Ok(text)).Ok?
    requires var vs := Summary.Visible(Scanned(text), false);
      i < |vs| && DurationLine(vs[i]) && forall j | i < j < |vs| :: !DurationLine(vs[j])
    ensures ParseSummary(path, Ok(text)).value.duration
         == Summary.Visible(Scanned(text), false)[i][|Summary.DurationLabel|..]
  {
    ScanIsApply(Scanned(text), Initial(path), false);
    ApplyEffect(Summary.Visible(Scanned(text), false), Initial(path));
  }

  /** A line of 64 KiB or more stops the scanner, whose error is not
      checked: the file reads as if it ended before that line. */
  lemma {:induction false} LongLineHidesRest(path: string, before: string, long: string, rest: string)
    requires before == [] || before[|before| - 1] == '\n'
    requires '\n' !in long && |long| >= MaxTokenSize
    ensures ParseSummary(path, Ok(before + long + rest)) == ParseSummary(path, Ok(before))
  {
    assert Scanned(before + long + rest) == Scanned(before) by {
      assert before + long + rest == before + (long + rest);
      ScanLinesAppend(before, long + rest);
      ScanTooLong(long, rest);
    }
  }

  /** Fence opacity: what lies inside a fenced block (with no fence of its own)
      does not change the result, whatever it says. */
  lemma FencedBodyIrrelevant(info: RunInfo, before: seq<string>, open: string, body1: seq<string>,
                             body2: seq<string>, close: string, after: seq<string>)
    requires Summary.FenceState(before, false) == false
    requires HasPrefix(open, Summary.Fence) && HasPrefix(close, Summary.Fence)
    requires Summary.FenceFree(body1) && Summary.FenceFree(body2)
    ensures Scan(before + ([open] + body1 + [close]) + after, info, false)
         == Scan(before + ([open] + body2 + [close]) + after, info, false)
  {
    var b1 := [open] + body1 + [close];
    var b2 := [open] + body2 + [close];
    Summary.FencedBlock(open, body1, close);
    Summary.FencedBlock(open, body2, close);
    ScanIsApply(before + b1 + after, info, false);
    ScanIsApply(before + b2 + after, info, false);
    Summary.VisibleAppend(before + b1, after, false);
    Summary.VisibleAppend(before + b2, after, false);
    Summary.VisibleAppend(before, b1, false);
    Summary.VisibleAppend(before, b2, false);
    Summary.FenceStateAppend(before, b1, false);
    Summary.FenceStateAppend(before, b2, false);
  }

  // ---------------------------------------------------------------------
  // The results block of a finished run

  /** The labelled lines of an "Execution Results" block: finish time,
      duration text, exit status and, for an interrupted run, the mark. */
  function ResultFields(finished: DateTime, duration: string, code: int, interrupted: bool): seq<string> {
    [Summary.FinishedLabel + FormatPlain(finished), Summary.DurationLabel + duration, Summary.ExitLabel + Itoa(code)]
    + (if interrupted then [Summary.TerminatedLine] else [])
  }

  lemma StepFinished(info: RunInfo, t: DateTime)
    requires Valid(t)
    ensures Step(info, Summary.FinishedLabel + FormatPlain(t)) == Ok(info.(endTime := t.(nanos := 0, offset := 0)))
  {
    Summary.StartsWith(Summary.FinishedLabel, FormatPlain(t));
    Summary.FinishedLabelExclusive(Summary.FinishedLabel + FormatPlain(t));
    PlainRoundTrip(t);
  }

  lemma StepDuration(info: RunInfo, d: string)
    ensures Step(info, Summary.DurationLabel + d) == Ok(info.(duration := d))
  {
    Summary.StartsWith(Summary.DurationLabel, d);
    Summary.DurationLabelExclusive(Summary.DurationLabel + d);
  }

  lemma StepExit(info: RunInfo, n: int)
    requires InInt64(n)
    ensures Step(info, Summary.ExitLabel + Itoa(n)) == Ok(info.(isRunning := false, exitStatus := n))
  {
    Summary.StartsWith(Summary.ExitLabel, Itoa(n));
    Summary.ExitLabelExclusive(Summary.ExitLabel + Itoa(n));
    AtoiItoa(n);
  }

  lemma StepTerminated(info: RunInfo)
    ensures Step(info, Summary.TerminatedLine) == Ok(info.(interrupted := true))
  {
    Summary.StepTerminated(Summary.Initial(""));
  }

  /** A results block read in order sets the finish time (zone-less, so in
      UTC), the duration text as written, the exit status, the end of the
      run, and the interruption flag when the mark is present. */
  lemma ReadsResultFields(info: RunInfo, finished: DateTime, duration: string, code: int, interrupted: bool)
    requires Valid(finished) && InInt64(code)
    ensures Apply(ResultFields(finished, duration, code, interrupted), info)
         == Ok(info.(endTime := finished.(nanos := 0, offset := 0), duration := duration,
                     isRunning := false, exitStatus := code, interrupted := info.interrupted || interrupted))
  {
    var ls := ResultFields(finished, duration, code, interrupted);
    var i1 := info.(endTime := finished.(nanos := 0, offset := 0));
    var i2 := i1.(duration := duration);
    var i3 := i2.(isRunning := false, exitStatus := code);
    StepFinished(info, finished);
    StepDuration(i1, duration);
    StepExit(i2, code);
    StepTerminated(i3);
    ApplyCons(ls[0], ls[1..], info);
    ApplyCons(ls[1], ls[2..], i1);
    ApplyCons(ls[2], ls[3..], i2);
    assert ls == [ls[0]] + ls[1..] && ls[1..] == [ls[1]] + ls[2..] && ls[2..] == [ls[2]] + ls[3..];
    if interrupted {
      ApplyCons(ls[3], [], i3);
      assert ls[3..] == [ls[3]] + [];
    } else {
      assert ls[3..] == [];
    }
  }
}
