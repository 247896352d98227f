# moco run records, run directories and run lifecycle in Dafny

moco is a command-line experiment tracker. `moco run` executes a command inside a fresh directory named
`<start time>_<sanitised branch>_<short hash>` under a base directory. Before the command starts it writes a
Markdown summary (`summary.md`) holding the repository state and the command line; after the command ends it
appends a results block. `moco list`, `moco status` and `moco archive` find those directories again and read the
summaries back. This project models that core:

- the run-record codec: the summary text built by the writers (`internal/utils/summary.go`,
  `internal/experiment/run.go`) and the four readers that parse it (`internal/utils/summary.go`,
  `internal/utils/markdown.go`, `internal/experiment/list.go`, `internal/status/status.go`), together with the exit
  pattern of `internal/archive/archive.go`;
- run-directory naming (`SanitizeBranchName`, `sanitizeName`, the millisecond timestamp) and a hand-written
  recogniser for the run-directory pattern;
- the query pipeline of `moco list` (both generations): discovery, filters, `<N>[dhm]` spans, comparator sorts with a
  reverse flag, the limit;
- the project statistics of `moco status` (a `Collector` class whose methods update the counters during the walk)
  and the integer part of `formatSize`;
- archive selection, the archive index and the archive decision flow;
- the run lifecycle of `internal/run/run.go` and `internal/experiment/run.go` as staged methods. Each method returns
  the error and the trace of file-system and process effects. The outcome of every outside call (git, mkdir, file
  creation, start, wait, signal) is a field of an input `World` value.

Modules, leaf first: `Wrappers` (Option/Result), `Strings` (lines, search, trimming), `Decimal` (Itoa/Atoi),
`Clock` (civil times and the three time layouts used), `Durations` (formatDuration, `<N>[dhm]` spans), `Repo`,
`RunDir`, `Summary` and `Markdown` (the newer codec and its older zone-less reader), `Table`, `Seqs`, `Sorting`,
`ListRuns`, `ExperimentList`, `Status`, `Archive`, `ExperimentRun`, `RunCommand`.

Each loop of the source is a method proved equal to a specification function, and the properties are lemmas about
that function. Examples are the scanner loops, the collection loops, the status walk, the sorts and the `formatSize` loop.
Where two generations of the code duplicate a pure helper (`trimBackticks`, `formatDuration`,
`formatGitStatus`, `parseDuration`), it is defined once and cited at one of its copies.

Behaviour worth knowing:

- `moco list` (`internal/list/list.go:233-236`) sorts by start time ascending by default, not newest first.
- `internal/experiment/list.go:341-348` puts running experiments last, despite its comment; see Findings.
- Every summary reader scans with `bufio.Scanner` and its default 64 KiB token limit. A line of 64 KiB or more stops the scan. Only `internal/experiment/list.go:207` returns the scanner's error, and its caller then records the command as "Unknown". The other readers treat the file as if it ended before that line.
- `Time.Sub` saturates at the bounds of a 64-bit Duration. A run without an end time has the zero Time as its end, so all such runs compare equal under `--sort duration` and keep the order they were found in.
- A span is a `time.Duration` product and negated as an int64, so both wrap. "140737488355328d" is exactly -2^63 ns, which negates to itself. `--since` with it keeps every run and experiment of the last 292 years, and `--older-than` with it archives none of them.
- `updateArchiveIndex` (`internal/archive/archive.go:434-482`) truncates `archive_index.md` with `os.Create` before it writes the new text. When the write then fails, the earlier rows are gone, and `moco archive` only prints a warning.
- `parseDurationToSeconds` (`internal/experiment/list.go:211-241`) is a function over the three unit matches. The
  source's accumulation into `total` carries no state between the matches.

## Model

| member | source | states |
|---|---|---|
| Strings.Find | internal/status/status.go:184-188 | the search behind the backtick cut of `strings.SplitN` (and the newline search of the line scanner): the index of the first occurrence of a character, or the length when there is none; every earlier character differs |
| Strings.LinesOfUnlines | internal/utils/summary.go:226-230 | lines with no newline and no trailing carriage return, each written with a newline, split back into exactly those lines (the scanner's view of a file with no long line, by Strings.ScanLinesSpec) |
| Strings.ScanLinesSpec | internal/utils/summary.go:226-230 | the scanner yields a prefix of the text's lines: every line before the first raw line of 64 KiB or more, and all of them when there is no such line; the scan stops short exactly when such a line exists |
| Strings.ScanLinesAppend | internal/utils/summary.go:226-230 | a newline-ended text followed by more is scanned as the two one after the other, unless a long line in the first stops the scanner, which then never reads the rest |
| Strings.ScanTooLong | internal/utils/summary.go:226-230 | a text whose first line is 64 KiB or longer yields no line at all |
| Strings.ScanOfUnlines | internal/utils/summary.go:226-230 | lines with no newline, no trailing carriage return and fewer than 64 KiB characters, each written with a newline, are scanned back as exactly those lines |
| Strings.AfterFirstSplit | internal/status/status.go:196-199 | when the text before a separator holds none, the part after the first split is everything following that separator, further separators included |
| Decimal.DecimalValue | internal/utils/summary.go:271 | reading back the decimal digits of a natural number gives the number |
| Decimal.AtoiItoa | internal/utils/summary.go:178 | an exit code in the 64-bit range printed with %d and read with strconv.Atoi comes back unchanged |
| Clock.ParseRFC3339 | internal/utils/summary.go:244-247 | a parsed RFC 3339 timestamp is a valid civil date and time with a whole-minute zone offset; malformed text gives no time |
| Clock.RFC3339RoundTrip | internal/utils/summary.go:88 | a valid time formatted in RFC 3339 parses back to the same time without its sub-second part |
| Clock.ParsePlain | internal/utils/markdown.go:114-116 | the zone-less layout yields a valid time in UTC or nothing |
| Clock.PlainRoundTrip | internal/utils/markdown.go:114-116 | a time formatted in the zone-less layout parses back to the same wall-clock time, in UTC, without sub-seconds |
| Clock.ParseMillis | internal/list/list.go:80 | the directory-name timestamp layout with milliseconds yields a valid UTC time or nothing |
| Clock.MillisRoundTrip | internal/run/run.go:47-48 | a start time formatted with milliseconds parses back to the same wall-clock time truncated to the millisecond, in UTC |
| Clock.Saturate | internal/list/list.go:231 | a nanosecond count is clamped into the 64-bit Duration range, unchanged when it fits, and keeps its sign |
| Clock.Sub | internal/list/list.go:231 | `Time.Sub` is the difference of the instants when it fits a Duration and the nearer bound otherwise; it is negative exactly when the first time is before the second, and zero exactly when both are the same instant |
| Clock.SubFromZeroSaturates | internal/list/list.go:231 | the zero Time minus a valid time from year 300 on is the smallest Duration |
| Durations.RoundToSecondNearest | internal/utils/summary.go:195 | rounding a duration to the second lands on a whole second at most half a second away, halves rounding away from zero |
| Durations.FieldsSum | internal/utils/summary.go:194-207 | for a non-negative duration the hours, minutes and seconds printed are non-negative, minutes and seconds below 60, and 3600h + 60m + s is the rounded number of seconds |
| Durations.FormatDurationExclude | internal/utils/summary.go:201-206 | a formatted duration holds only digits, signs, spaces and the unit letters h, m, s |
| Durations.ParseSpanAccepts | internal/list/list.go:179-204 | a since-spec is accepted exactly when it is digits followed by d, h or m (and the number fits an int), and its value is the number times 24h, 1h or 1m wrapped to an int64, so exact when the product fits |
| Durations.ParseSpanOfText | internal/list/list.go:186-203 | the text of a number followed by a unit parses to that number of units |
| Durations.ParseSpanWraps | internal/list/list.go:186-203 | any count that fits an int, followed by a unit, parses to the count times the unit wrapped to an int64, as `time.Duration` multiplication does |
| Durations.SpanWrapsToMin | internal/list/list.go:186-203 | "140737488355328d" parses to the smallest Duration, -2^63 ns |
| Durations.Neg64 | internal/list/list.go:129 | `-duration` negates exactly, except that the smallest Duration negates to itself |
| Repo.BranchOf | internal/utils/repo.go:44-48 | the branch is the head's short name on a branch and the sentinel detached-HEAD otherwise |
| Repo.Describe | internal/utils/repo.go:35-74 | the status of an opened repository is valid, dirty iff the worktree is not clean, carries the full hash, a 7-character short hash that is its prefix, and the branch name |
| Repo.CommandOutput | internal/utils/repo.go:88-97 | a failed git query is an error whose message is the failure text followed by the query's error; a successful one yields its output, or exactly the placeholder when the output is empty, so never empty text |
| Repo.CommitDetails | internal/utils/repo.go:81-98 | empty `git show` output becomes "[No commit details]", other output is kept, and a failure is "failed to run git show: " and its error |
| Repo.UncommittedChanges | internal/utils/repo.go:101-118 | empty `git diff` output becomes "[No uncommitted changes]" and a newline, other output is kept, and a failure is "failed to run git diff: " and its error |
| Repo.SanitizeBranchName | internal/utils/repo.go:121-124 | same length as the input, each '/' becomes '-' and every other character is kept |
| Repo.SanitizeBranchNameProperties | internal/utils/repo.go:121-124 | the result holds no '/', names without '/' are unchanged, and sanitising twice equals sanitising once |
| Repo.SanitizeBranchNameExamples | internal/utils/repo_test.go:12-22 | "main" stays "main" and "foo/bar" becomes "foo-bar" |
| Repo.FormatGitStatus | internal/utils/summary.go:146-163 | an invalid repository gives "Not a valid git repository"; otherwise the text starts with "On branch <b>" and ends with the dirty text or with "nothing to commit, working tree clean" |
| Table.StatusClasses | internal/utils/table.go:38-48 | "Running" iff running; "Success" iff finished with exit 0 (interrupted or not); "Interrupted" iff finished, non-zero and interrupted; "Failed (exit: N)" with the exit status otherwise |
| Seqs.FilterSpec | internal/list/list.go:143-173 | filtering keeps an order-preserving subsequence holding exactly the elements that pass |
| Seqs.Limit | internal/list/list.go:51-53 | the limited list is a prefix of the input, exactly `limit` long when 0 < limit < length, and the whole input otherwise |
| RunDir.MatchRunDirIff | internal/list/list.go:80 | a name stamp_branch_hash is recognised with those three groups exactly when the stamp fits the millisecond layout, the branch is a non-empty line and the hash is seven lower-case hex digits |
| RunDir.MatchRunDirSplits | internal/list/list.go:99-102 | a recognised name is its stamp, '_', branch, '_', hash, with a 23-character stamp and a non-empty branch |
| RunDir.FormatMillisFits | internal/run/run.go:47 | every valid start time formats to text that fits the stamp group of the directory pattern |
| RunDir.DirNameRoundTrip | internal/run/run.go:47-49 | the directory name built from a start time, a non-empty branch and a short hash is recognised, giving back the stamp, the sanitised branch and the hash, and the stamp reads back as the start time to the millisecond |
| Summary.SplitPath | internal/utils/summary.go:211 | the directory part and the file part concatenate to the path, the file part holds no '/', and the directory part is empty or ends in '/' |
| Summary.TrimBackticks | internal/utils/summary.go:293-298 | succeeds iff the value is at least two characters long and starts and ends with a backtick, giving the interior; otherwise the error "string is not enclosed in backticks" |
| Summary.TrimBackticksQuote | internal/utils/summary.go:293-298 | unwrapping a backtick-quoted value gives the value back, whatever backticks it holds |
| Summary.ParseSummary | internal/utils/summary.go:210-223 | a summary file that cannot be opened yields an error starting with "failed to open summary file" |
| Summary.ParseRunInfo | internal/utils/summary.go:210-290 | the scanner loop, with its fence flag and early error returns, yields exactly the record of the line-by-line specification over the lines the scanner yields, which stop silently before a line of 64 KiB or more |
| Summary.ScanIsApply | internal/utils/summary.go:229-240 | scanning with the fence flag equals applying the field updates to the lines outside fenced blocks only |
| Summary.FencedBlock | internal/utils/summary.go:232-240 | of an opening fence, a fence-free body and a closing fence only the closing line is seen outside a block, and the flag is off again after it |
| Summary.FencedBodyIrrelevant | internal/utils/summary.go:232-240 | replacing the body of a fenced block by any other fence-free body leaves the parse result unchanged, so labels inside fences never change the record |
| Summary.ExitLabelExclusive | internal/utils/summary.go:242-268 | an exit-status line carries none of the earlier labels, so the label chain always reaches the exit-status branch for it |
| Summary.StepEffect | internal/utils/summary.go:242-286 | one visible line fails exactly when its label's value is malformed; otherwise it keeps directory and file, clears the running flag iff it is an exit-status line, and sets the interrupted flag iff it is unlabelled and contains the terminated mark |
| Summary.ApplyEffect | internal/utils/summary.go:229-287 | over all visible lines: the parse succeeds iff every line is well formed; the record is running iff no line starts with the exit-status label; interrupted iff some unlabelled line contains the terminated mark |
| Summary.ParseFails | internal/utils/summary.go:242-282 | the parse is an error exactly when some line the scanner reads outside fences has a start or finish time that is not RFC 3339, a branch, hash or command not in backticks, or an exit status that is not an integer |
| Summary.RunningUntilExitLine | internal/utils/summary.go:212-216 | a parsed record is running iff no line the scanner reads outside fences begins with "- **Exit status**: " |
| Summary.InterruptedIffMark | internal/utils/summary.go:283-286 | a parsed record is interrupted iff some unlabelled line the scanner reads outside fences contains "**Terminated by user**" |
| Summary.FenceStateAppend | internal/utils/summary.go:232-235 | the fence flag after two runs of lines is the flag after the second run started from the flag the first left |
| Summary.EndBlock | internal/utils/summary.go:174-184 | the results block scans as its lines, of which exactly one (the fifth) begins with the exit-status label and holds the printed code, and the terminated line is present iff the run was interrupted |
| Summary.InitLines | internal/utils/summary.go:84-117 | the metadata block scans as the metadata lines followed by the four fenced sections when no field holds a newline |
| Summary.DocumentLines | internal/utils/summary.go:84-117 | the metadata block followed by the results block scans as the concatenation of their lines |
| Summary.ReadsDocument | internal/utils/summary.go:229-287 | the lines of a whole summary update a fresh record to the written start time, branch, hash, command, finish time, exit code and interrupted flag, leaving it finished |
| Summary.RoundTrip | internal/utils/summary.go:49-191 | a summary written by the start and end writers parses back to the written directory, file, joined command, start and finish time to the second, exit code, branch, full hash and interrupted flag, finished; this holds when no field holds a newline, the hostname and path hold no '*', the fenced sections hold no line starting with three backticks, and no line is 64 KiB or longer |
| Summary.LongLineHidesRest | internal/utils/summary.go:226-290 | the scanner's error goes unchecked: a newline-ended text followed by a line of 64 KiB or more parses as the text alone, whatever follows the long line |
| Summary.RecordedDuration | internal/utils/summary.go:33-47 | a finished record read back shows the duration between its whole-second timestamps (the instants less the fractions the text lost), clamped to the Duration range |
| Summary.RunDurationExample | internal/utils/summary_test.go:50-58 | the sample run from 00:34:51 to 00:34:56 at +01:00 shows "5s" |
| Markdown.ParseDateTime | internal/utils/markdown.go:114-116 | the zone-less layout yields a valid civil time in UTC or nothing |
| Markdown.ParseSummary | internal/utils/markdown.go:29-42 | a summary file that cannot be opened yields an error starting with "failed to open summary file" |
| Markdown.ParseRunInfo | internal/utils/markdown.go:29-112 | the older scanner loop yields exactly the record of its line-by-line specification over the lines the scanner yields, which stop silently before a line of 64 KiB or more |
| Markdown.ScanIsApply | internal/utils/markdown.go:48-59 | scanning with the fence flag equals applying the field updates to the lines outside fenced blocks only |
| Markdown.StepEffect | internal/utils/markdown.go:61-108 | one visible line fails exactly when its value is malformed; it clears the running flag iff it is an exit-status line, sets the interrupted flag iff it is unlabelled and holds the terminated mark, and an execution-time line sets the duration to its value |
| Markdown.ApplyEffect | internal/utils/markdown.go:48-109 | over all visible lines: success iff all are well formed; running iff no exit-status line; interrupted iff some unlabelled line holds the mark; the duration is the value of the last execution-time line, or unchanged when there is none |
| Markdown.ParseFails | internal/utils/markdown.go:61-101 | the parse is an error exactly when some line the scanner reads outside fences has a malformed time, a value not in backticks or a non-integer exit status |
| Markdown.LongLineHidesRest | internal/utils/markdown.go:45-112 | a newline-ended text followed by a line of 64 KiB or more parses as the text alone: the scanner's error goes unchecked |
| Markdown.RunningUntilExitLine | internal/utils/markdown.go:87-88 | a parsed record is running iff no line the scanner reads outside fences begins with "- **Exit status**: " |
| Markdown.DurationVerbatim | internal/utils/markdown.go:102-104 | the duration of a parsed record is the text after the label of the last execution-time line the scanner reads, copied verbatim |
| Markdown.FencedBodyIrrelevant | internal/utils/markdown.go:51-59 | replacing a fenced block's body by another fence-free body leaves the parse unchanged |
| Markdown.ReadsResultFields | internal/utils/markdown.go:87-108 | a results block in the zone-less format sets the finish time, the verbatim duration, the exit status, clears the running flag and sets the interrupted flag iff the terminated line is present |
| ListRuns.FindRuns | internal/list/list.go:71-116 | the loop over directory entries yields exactly the specification: an empty list for a missing base directory, the read error for an unreadable one, otherwise the records of the recognised directories in read order or the first parse error |
| ListRuns.CollectStep | internal/list/list.go:92-113 | one entry: a non-directory or unrecognised name is skipped, a summary that fails to parse aborts the whole listing with "failed to parse summary file: ", a parsed one is kept in front of the rest |
| ListRuns.Candidates | internal/list/list.go:93-102 | the entries considered are directories whose name the run-directory pattern recognises |
| ListRuns.CollectOk | internal/list/list.go:104-110 | the listing succeeds iff every recognised run directory's summary parses |
| ListRuns.CollectValues | internal/list/list.go:92-115 | on success there is one record per recognised directory, in read order, each the parse of that directory's summary |
| ListRuns.FilterRuns | internal/list/list.go:119-176 | the filter loop yields exactly the specification: errors for a bad since-spec or command pattern, otherwise the runs that pass every filter, in order; the since cutoff is now plus the span negated as an int64 |
| ListRuns.SinceWrapKeepsRecent | internal/list/list.go:125-130 | a since-spec that parses to the smallest Duration puts the cutoff 2^63 ns before now, and the runs kept are then exactly those kept with no since-spec, for every run started after that cutoff |
| ListRuns.SelectRuns | internal/list/list.go:143-173 | the kept runs are exactly the order-preserving filter of the input by the branch, status, since and command tests |
| ListRuns.StatusPartition | internal/list/list.go:150-160 | the "success", "failure" and "running" classes are pairwise disjoint and cover every run, and an empty or other status keeps everything |
| ListRuns.FilterErrors | internal/list/list.go:122-140 | filtering fails iff the since-spec is set and malformed or the command pattern is set and does not compile, and that error does not depend on the runs |
| ListRuns.CompareInt | internal/list/list.go:251-260 | the comparison answers -1, 0 or 1 |
| ListRuns.CompareTime | internal/list/list.go:273-282 | the comparison answers -1, 0 or 1 |
| ListRuns.CompareStrings | internal/list/list.go:212-215 | strings.Compare answers -1, 0 or 1 |
| ListRuns.CompareHelpers | internal/list/list.go:251-282 | compareInt and compareTime are antisymmetric and answer 0 exactly on equal integers or equal instants |
| ListRuns.CompareStringsAnti | internal/list/list.go:212-215 | lexicographic comparison is antisymmetric and answers 0 exactly on equal strings |
| ListRuns.CompareStringsTrans | internal/list/list.go:212-215 | lexicographic comparison is transitive |
| ListRuns.ComparePreorder | internal/list/list.go:211-237 | each of the branch, status, duration and date comparators is a total preorder |
| ListRuns.ComparatorPreorder | internal/list/list.go:239-245 | the comparator stays a total preorder when negated for reverse |
| ListRuns.SortRuns | internal/list/list.go:207-249 | sorting the slice in place leaves the stable insertion sort of its old contents under the chosen comparator, whose duration key is the saturating `Time.Sub` |
| ListRuns.SortRunsSpec | internal/list/list.go:207-249 | the sorted list is a permutation of the input, sorted by the comparator (durations compared after saturation), and runs comparing equal keep their input order |
| ListRuns.RunningRunsTie | internal/list/list.go:230-231 | two runs with the zero Time as end and valid starts from year 300 on compare equal under the duration key, in either direction |
| ListRuns.RunningRunsKeepOrder | internal/list/list.go:230-248 | runs with no end time, sorted by duration with or without reverse, come out in the order they were found |
| ListRuns.ReverseIsNotBackwards | internal/list/list.go:240-248 | two tied runs stay in input order both with and without reverse, so reverse is not the backwards list when ties exist |
| ListRuns.List | internal/list/list.go:21-68 | the list command yields exactly the specification: find, stop with nothing on no runs, filter, stop on no matches, sort, keep the first Limit, reject an unknown output format; the since cutoff negates the span as an int64 |
| ListRuns.SortedLimited | internal/list/list.go:47-53 | the sorted, limited list is at most Limit long, sorted by the comparator (durations compared after saturation), and every element passes the filters |
| ListRuns.ListSpecProperties | internal/list/list.go:21-68 | every list the command prints is at most Limit long when Limit is positive, sorted by the comparator (durations compared after saturation), and holds only runs passing the filters |
| Sorting.SortStable | internal/list/list.go:248 | the in-place insertion sort leaves the array equal to the insertion sort of its old contents |
| Sorting.InsertLast | internal/list/list.go:248 | one pass moves the element at i into its place among the sorted prefix and leaves the suffix alone |
| Sorting.InsertPermutation | internal/list/list.go:248 | inserting adds exactly that element to the multiset |
| Sorting.SortPermutation | internal/list/list.go:248 | the sorted list is a permutation of the input |
| Sorting.InsertSorted | internal/list/list.go:248 | inserting into a sorted list under a total preorder keeps it sorted |
| Sorting.SortSorted | internal/list/list.go:248 | the insertion sort under a total preorder is sorted |
| Sorting.SortStableTies | internal/list/list.go:248 | the elements tied with any given element appear in the same order before and after sorting (stability) |
| Sorting.AllTiedKeepOrder | internal/list/list.go:248 | a list whose elements all compare equal comes out of the stable sort unchanged |
| Sorting.NegatePreorder | internal/list/list.go:240-245 | the negation of a total preorder is a total preorder |
| Sorting.ReverseKeepsTies | internal/list/list.go:240-248 | two tied elements keep their order under a comparator and under its negation |
| ExperimentList.UnitDigitsHit | internal/experiment/list.go:213-215 | digits directly followed by the unit letter are the leftmost match of `(\d+)u` |
| ExperimentList.SecondsOfFormatDuration | internal/experiment/list.go:211-241 | parsing the text formatDuration writes ("Ss", "Mm Ss" or "Hh Mm Ss") gives back the rounded number of seconds |
| ExperimentList.HoursLayout | internal/experiment/list.go:220-238 | in "Hh Mm Ss" the hours, minutes and seconds patterns each find their own number |
| ExperimentList.MinutesLayout | internal/experiment/list.go:220-238 | in "Mm Ss" the hours pattern finds nothing and the minutes and seconds patterns find their numbers |
| ExperimentList.SecondsLayout | internal/experiment/list.go:220-238 | in "Ss" only the seconds pattern finds a number |
| ExperimentList.SecondsAfterNoise | internal/experiment/list.go:211-241 | a leading character that is neither a digit nor a unit letter does not change the total seconds |
| ExperimentList.ParseSummary | internal/experiment/list.go:158-208 | the scanner loop reads the fields of exactly the lines the scanner yields, and fails exactly when a line of 64 KiB or more stopped the scanner |
| ExperimentList.ReadLine | internal/experiment/list.go:169-204 | one line applies the command, exit-status, execution-time and terminated checks in that order, exactly as specified |
| ExperimentList.StepEffect | internal/experiment/list.go:172-204 | a line clears the running flag iff it contains `**Exit status:**`, sets the interrupted flag iff it contains the terminated mark, and never changes path, directory, timestamp, branch or hash |
| ExperimentList.ScanEffect | internal/experiment/list.go:168-205 | after the whole file the experiment is running iff no line contains `**Exit status:**`, interrupted iff some line holds the mark, and its directory-derived fields are unchanged |
| ExperimentList.ExitStatusLost | internal/experiment/list.go:180-189 | for the exit line the older writer produces, the text after the first ':' starts with "**", so the exit status is never set although the line marks the run finished |
| ExperimentList.ExitTextNotNumber | internal/experiment/list.go:182-186 | the text after the first ':' of a written exit line is "** " and the code, which is not an integer |
| ExperimentList.AfterMarkAt | internal/experiment/list.go:180-189 | the text after the first occurrence of a marker is everything following that occurrence |
| ExperimentList.ExitValueCorrectedReads | internal/experiment/list.go:180-189 | taking the value after the `**Exit status:**` marker instead of after the first ':' reads back every written exit code |
| ExperimentList.FindExperiments | internal/experiment/list.go:95-155 | the loop over directory entries yields exactly the specification: nothing for a missing base directory, the read error for an unreadable one, else the loaded experiments in read order |
| ExperimentList.FoundStep | internal/experiment/list.go:116-152 | an entry that does not load is skipped and one that loads is appended, keeping read order |
| ExperimentList.LoadEntry | internal/experiment/list.go:117-151 | loading one entry yields exactly the specification of one directory |
| ExperimentList.FoundSpec | internal/experiment/list.go:116-154 | every loaded entry is listed, every listed experiment comes from some entry, and no more than the entries are listed |
| ExperimentList.LoadSpec | internal/experiment/list.go:117-151 | an entry loads iff it is a directory whose name is recognised and whose stamp parses; the experiment takes directory, branch, hash and timestamp from the name; a summary that cannot be opened leaves command "Unknown", running, exit 0, and one with a line too long for the scanner also gives command "Unknown" |
| ExperimentList.FilterExperiments | internal/experiment/list.go:244-301 | the filter loop yields exactly the specification: errors for a bad since-spec or pattern, else the experiments passing every filter, in order; the since cutoff is now plus the span negated as an int64 |
| ExperimentList.SinceWrapKeepsRecent | internal/experiment/list.go:250-255 | a since-spec that parses to the smallest Duration puts the cutoff 2^63 ns before now, and the experiments kept are then exactly those kept with no since-spec, for every experiment stamped after that cutoff |
| ExperimentList.KeepExperiments | internal/experiment/list.go:268-298 | the kept experiments are exactly the order-preserving filter of the input |
| ExperimentList.SortExperiments | internal/experiment/list.go:332-369 | sorting the slice in place leaves a sort of its old contents by the less-function order |
| ExperimentList.LessPreorder | internal/experiment/list.go:336-357 | each less-function without reverse induces a total preorder |
| ExperimentList.SortExperimentsSpec | internal/experiment/list.go:332-369 | the result is a permutation of the input and, without reverse, no later element is less than an earlier one |
| ExperimentList.OrderMeaning | internal/experiment/list.go:336-357 | in sorted order the default is newest first, duration ascending by seconds, status with finished runs before running ones and then ascending exit status |
| ExperimentList.StatusRunningLast | internal/experiment/list.go:341-348 | sorting a running and a finished experiment by status puts the running one last, contrary to the comment "Running experiments first" |
| ExperimentList.StatusRunningFirstCorrected | internal/experiment/list.go:341-348 | with the comparison turned round, the status sort is a permutation with every running experiment before every finished one |
| ExperimentList.List | internal/experiment/list.go:49-92 | the older list command yields exactly the specification: find, stop on none, filter, stop on no matches, sort, keep the first Limit; the since cutoff negates the span as an int64 |
| ExperimentList.SortedLimited | internal/experiment/list.go:76-81 | the sorted, limited list is at most Limit long and holds only experiments passing the filters |
| ExperimentList.ListSpecProperties | internal/experiment/list.go:49-92 | every list the command prints is at most Limit long when Limit is positive and holds only experiments passing the filters |
| Status.ParseRunInfo | internal/status/status.go:152-228 | the scanner loop, with its command-found flag, yields exactly the specification of parseRunInfo over the lines the scanner yields, which stop silently before a line of 64 KiB or more |
| Status.ScanLine | internal/status/status.go:182-220 | one line applies the command, exit-status, finish-time and execution-time checks in that order, exactly as specified |
| Status.BacktickCut | internal/status/status.go:184-188 | a command value is taken iff the line holds a backtick |
| Status.StepEffect | internal/status/status.go:182-220 | a line clears the running flag iff it contains `**Exit status:**`, records the command iff it contains `**Command:**` and a backtick, and keeps directory, branch, hash and start time |
| Status.ScanEffect | internal/status/status.go:179-221 | after all lines the record is running iff no line contains `**Exit status:**`, and a command was found iff some line holds `**Command:**` and a backtick |
| Status.ParseRunInfoProperties | internal/status/status.go:152-228 | parsing succeeds iff the directory stamp parses, the summary opens and some line the scanner reads holds a command; the record then takes directory, branch, hash and start time from the name and is running iff no line the scanner reads holds the exit-status marker |
| Status.LongLineHidesRest | internal/status/status.go:176-227 | a newline-ended text followed by a line of 64 KiB or more parses as the text alone: the scanner's error goes unchecked |
| Status.FinishedTimeLost | internal/status/status.go:204-212 | for the finish line the older writer produces, the text after the first ':' starts with "**", so the finish time is never read |
| Status.ExitCodeLost | internal/status/status.go:192-201 | for the written exit line only the running flag changes; the exit status is never read |
| Status.StarsNotTime | internal/status/status.go:207 | text starting with "** " never parses as a zone-less time |
| Status.FinishedTimeCorrected | internal/status/status.go:204-212 | cutting after the `**Execution finished:**` marker reads back every written finish time |
| Status.ExitCodeCorrected | internal/status/status.go:192-201 | cutting after the `**Exit status:**` marker reads back every written exit code |
| Status.Pow1024 | internal/status/status.go:236-240 | every power of 1024 is at least 1 |
| Status.FormatSize | internal/status/status.go:231-242 | the division loop yields exactly the specified size: the byte count below 1024, else the divisor and unit index |
| Status.StepsBounds | internal/status/status.go:237-240 | for a positive count the loop's number of steps k satisfies 1024^k <= n < 1024^(k+1) |
| Status.SizeOfBounds | internal/status/status.go:231-242 | from 1024 bytes on, div <= bytes < 1024 div, the integer part of the shown value lies in 1..1023, and the unit index is inside "KMGTPE" |
| Status.Collector.constructor | internal/status/status.go:77-79 | fresh statistics are all zero with no recent runs |
| Status.Collector.Visit | internal/status/status.go:91-138 | the walk callback updates the counters and answers continue or skip-dir exactly as specified |
| Status.Collector.CountRun | internal/status/status.go:111-137 | a recognised run directory updates the counters and answers exactly as specified |
| Status.Collector.RecordRun | internal/status/status.go:123-134 | a parsed run increments exactly one of running, success and failure and is appended to the recent runs while fewer than five are held |
| Status.Collector.Walk | internal/status/status.go:91-138 | the walk over a directory tree in the order filepath.Walk visits it yields the specified statistics, or the walk's error |
| Status.GetProjectStats | internal/status/status.go:76-149 | the statistics are exactly the specification: all zero for a missing base directory, else the walk's counts and the formatted size |
| Status.VisitCounts | internal/status/status.go:97-137 | one visit adds 1 to the total iff the directory is recognised and then exactly one of the three classes grows; an unparsable summary counts as running, adds no recent run and continues into the directory |
| Status.CountCounts | internal/status/status.go:111-137 | a recognised directory adds one to the total and to one class; a parsed one adds no bytes and is skipped, an unparsed one is running and continues |
| Status.TalliedCounts | internal/status/status.go:116-137 | the same for the outcome of parsing: an error counts as running, a record by its class |
| Status.RecordCounts | internal/status/status.go:123-134 | recording keeps total = success + failure + running and at most five recent runs, which are the first five recorded |
| Status.VisitRecent | internal/status/status.go:131-134 | a visit appends the parsed run to the recent list only when requested and under the limit |
| Status.Take5 | internal/status/status.go:132 | the kept runs are a prefix of at most five |
| Status.WalkNodeCounted | internal/status/status.go:91-138 | a walk keeps total = success + failure + running and the recent limit |
| Status.WalkAllCounted | internal/status/status.go:91-138 | walking a list of siblings keeps total = success + failure + running and the recent limit |
| Status.WalkNodeBytes | internal/status/status.go:96-101 | the disk usage is the sum of the sizes of the files not inside successfully parsed run directories |
| Status.WalkAllBytes | internal/status/status.go:96-101 | over siblings, the disk usage grows by the sizes of the files the walk reaches |
| Status.WalkNodeRecent | internal/status/status.go:131-134 | the recent runs are the first five parsed runs in walk order, or none when not requested |
| Status.WalkAllRecent | internal/status/status.go:131-134 | over siblings, the recent runs are the first five parsed runs in walk order |
| Status.StatsProperties | internal/status/status.go:76-149 | a missing base directory gives zero statistics; otherwise total = success + failure + running, the recent runs are the first five parsed in walk order (none unless requested), and the disk usage counts the files outside parsed run directories |
| Status.DefaultSummaryUnseen | internal/status/status.go:115 | a run directory whose summary has the default name "summary.md" is counted as running and walked into, whatever its summary says, because the callback opens "Summary.md" |
| Status.ConfiguredSummaryRead | internal/status/status.go:115 | reading the configured summary name instead records such a run by its parsed outcome and skips its directory |
| Archive.ParseCutoffAccepts | internal/archive/archive.go:244-279 | the cutoff spec (the configured default when the argument is empty) is accepted iff it is digits followed by d, h or m and the number fits an int; malformed text gives "invalid duration format: ... (expected 30d, 12h, etc.)"; the cutoff is now plus the span negated as an int64 |
| Archive.OlderThanWrapSkipsRecent | internal/archive/archive.go:244-279 | a cutoff spec that parses to the smallest Duration puts the cutoff 2^63 ns before now, and no directory stamped after it is chosen for archiving |
| Archive.NoneEligible | internal/archive/archive.go:154-176 | a listing none of whose entries is a directory matching the pattern whose stamp parses and lies before the cutoff yields no record |
| Archive.FindExit | internal/archive/archive.go:228-229 | a match of the exit-status regular expression yields a non-empty digit group |
| Archive.FindExitLeftmost | internal/archive/archive.go:228-229 | there is no match iff the pattern matches at no position, and a match is the one at the leftmost matching position |
| Archive.ParseExperimentStatusSpec | internal/archive/archive.go:215-241 | only the finished flag and exit status change; an unreadable summary leaves not finished and -1; a readable one is finished iff the pattern matches somewhere, with the digits as the status when they fit an int |
| Archive.OlderExitLineRead | internal/archive/archive.go:228-238 | the exit line the older writer produces is matched and its code read |
| Archive.NewerExitLineUnseen | internal/archive/archive.go:228 | a line of the newer writer's form "- **Exit status**: ..." is never matched |
| Archive.NewerSummaryLooksRunning | internal/archive/archive.go:228-238 | a summary holding the newer writer's exit line is reported as not finished with status -1, whatever the code |
| Archive.FindExitCorrected | internal/archive/archive.go:228 | a match of the pattern accepting both label forms yields a non-empty digit group |
| Archive.CorrectedReadsBothWriters | internal/archive/archive.go:228-238 | accepting both `**Exit status:**` and `**Exit status**:` reports the runs of both writers as finished with their exit codes |
| Archive.StatusFilterCases | internal/archive/archive.go:195-206 | "success" keeps finished runs with exit 0, "failure" finished runs with non-zero exit, "running" unfinished ones, and anything else keeps all |
| Archive.ExaminedKeeps | internal/archive/archive.go:154-208 | a chosen entry is a recognised directory strictly before the cutoff, with name, path, branch, hash and timestamp from its name, passing the status filter; an unreadable summary is chosen only under "" or "all", as not finished with status -1 |
| Archive.ExaminedAll | internal/archive/archive.go:186-206 | under "" or "all" every eligible entry is chosen; under a specific filter an unreadable summary excludes the entry; an ineligible entry is never chosen |
| Archive.FindExperimentsToArchive | internal/archive/archive.go:136-212 | the loop over directory entries yields exactly the specification: nothing for a missing base directory, the read error for an unreadable one, else the chosen entries in read order |
| Archive.ChosenStep | internal/archive/archive.go:154-208 | each entry appends its experiment when chosen and nothing otherwise |
| Archive.ChosenAppend | internal/archive/archive.go:154-208 | choosing from two runs of entries is choosing from each in turn |
| Archive.ChosenMembers | internal/archive/archive.go:154-208 | an experiment is chosen iff some entry yields it |
| Archive.UpdateIndex | internal/archive/archive.go:419-483 | the index content built row by row is exactly the specified text |
| Archive.IndexRowsStep | internal/archive/archive.go:450-478 | each experiment appends its own row after those already built |
| Archive.IndexKeepsExisting | internal/archive/archive.go:441-478 | existing index content is kept as a prefix followed by the new rows; an empty index gets the header followed by the rows |
| Archive.IndexRowsAppend | internal/archive/archive.go:450-478 | the rows of two lists of experiments are the rows of each in turn |
| Archive.HeaderOnce | internal/archive/archive.go:441-445 | updating an index a second time appends only rows: the header is written once |
| Archive.StatusTextCases | internal/archive/archive.go:451-464 | the row status is "Running" iff unfinished, "Success" iff finished with exit 0, "Failed (n)" otherwise, and the deletion markers differ |
| Archive.PackEach | internal/archive/archive.go:109-124 | the per-experiment loop yields exactly the specified effects and first error |
| Archive.UpdateArchiveIndex | internal/archive/archive.go:419-483 | the index update returns the read, create or write error and yields exactly the specified effects: nothing when the index cannot be read or created, the create alone when the write fails, else the create and the write of the old text (or the header) plus the new rows |
| Archive.IndexUpdateLeaves | internal/archive/archive.go:419-483 | the update succeeds iff reading, creating and writing all succeed; archive_index.md then holds its old text (or the header) followed by the new rows; it is untouched when it cannot be read or created, and left empty when the write fails after os.Create |
| Archive.Finish | internal/archive/archive.go:108-132 | archiving every experiment and then updating the index yields exactly the specification, including a failed index read, create or write; an index failure is only a warning |
| Archive.Run | internal/archive/archive.go:42-133 | the archive command yields exactly the specified error and effects for every outcome of the steps, the index read, create and write included; the cutoff negates the span as an int64 |
| Archive.RunIgnoresIndexFailure | internal/archive/archive.go:126-132 | the command's error is the same whatever the index read, create and write do: their failure is only a warning |
| Archive.PackAllOrder | internal/archive/archive.go:109-124 | each removal directly follows the archive of the same directory, there are no removals without Delete, and every archive goes to destDir/(name + "." + format) |
| Archive.PackAllComplete | internal/archive/archive.go:109-124 | when no step failed every experiment was archived, and deleted when Delete is set |
| Archive.RunRejectsFormat | internal/archive/archive.go:46-52 | a format other than "tar.gz" or "zip" is rejected with "unsupported archive format: " before any effect |
| Archive.RunDryRun | internal/archive/archive.go:66-100 | a dry run has no effect at all |
| Archive.RunDeclined | internal/archive/archive.go:102-106 | when the confirmation is declined the only possible effect is creating the destination directory |
| Archive.FinishOrder | internal/archive/archive.go:108-124 | during archiving no original is deleted before its own archive was made, and none without Delete |
| Archive.RunRemovesAfterPack | internal/archive/archive.go:42-133 | over the whole command, every deletion follows the successful archive of the same directory, and there is none without Delete |
| Archive.RunArchivesAll | internal/archive/archive.go:42-133 | a confirmed, non-dry, successful run archives every experiment the selection found |
| ExperimentRun.SanitizeName | internal/experiment/run.go:163-169 | same length as the input; each of / \ : * ? " < > \| and space becomes '_', every other character is kept |
| ExperimentRun.SanitizeNameProperties | internal/experiment/run.go:163-169 | the result holds none of the replaced characters, names without them are unchanged, and sanitising is idempotent |
| ExperimentRun.FormatPlainExclude | internal/experiment/run.go:304 | a zone-less timestamp holds only digits, '-', ':' and 'T' |
| ExperimentRun.ResultsBlock | internal/experiment/run.go:298-312 | the appended results block scans as its lines: blank, heading, finished, time, exit and, when interrupted, the terminated line |
| ExperimentRun.ResultsTerminated | internal/experiment/run.go:309-312 | the results block holds the `- **Terminated by user**` line iff the run was interrupted |
| ExperimentRun.ResultLinesPlain | internal/experiment/run.go:298-312 | every line of the results block comes back from the scanner unchanged |
| ExperimentRun.CommandRoundTrip | internal/experiment/run.go:188-227 | a command without backticks, written on the `- **Command:**` line, is read back exactly by the older list reader |
| ExperimentRun.TimeLineMarks | internal/experiment/run.go:301 | the execution-time line carries the time marker and none of the command, exit or terminated markers |
| ExperimentRun.ExitLineMarks | internal/experiment/run.go:302 | the exit line carries none of the command, time or terminated markers |
| ExperimentRun.FinishedLineUnmarked | internal/experiment/run.go:300 | the finished line carries none of the markers the list reader looks for |
| ExperimentRun.StepTime | internal/experiment/run.go:301 | the older list reader stores the execution time with a leading "** " (the text after the first ':') and its seconds total |
| ExperimentRun.SecondsOfTimeValue | internal/experiment/run.go:295-301 | despite the "** " prefix, the seconds total of a written execution time is the rounded duration in seconds |
| ExperimentRun.StepExit | internal/experiment/run.go:302 | the older list reader marks the run finished on the written exit line and leaves the exit status as it was |
| ExperimentRun.ResultsRead | internal/experiment/run.go:298-312 | reading the results block with the older list reader finishes the run, stores the "** "-prefixed duration and its seconds, and sets interrupted iff the run was interrupted |
| ExperimentRun.PrepareSpec | internal/experiment/run.go:33-62 | the preparation succeeds only with a readable repository that is not blocked by the clean-tree rule, and then yields the experiment directory under the base directory |
| ExperimentRun.Prepare | internal/experiment/run.go:33-62 | the repository checks and the two directories are made exactly as specified |
| ExperimentRun.Launch | internal/experiment/run.go:69-109 | summary, output files and start happen exactly as specified, each failure returning its own message |
| ExperimentRun.End | internal/experiment/run.go:111-159 | forwarding, appending, cleanup and the returned error happen exactly as specified |
| ExperimentRun.Run | internal/experiment/run.go:29-160 | the whole lifecycle yields exactly the specified error and effects for every outcome of the outside calls |
| ExperimentRun.RunChangesNothing | internal/experiment/run.go:34-53 | nothing is changed iff the repository query fails, the tree is dirty without Force while RequireClean is set, or the base directory cannot be made; the dirty case returns its message |
| ExperimentRun.RunAfterStart | internal/experiment/run.go:112-159 | once started, the exit code is 0 on success, the exit error's code, 1 for another wait error, 130 after a signal, and an error "command failed with exit code N" is returned iff it is non-zero |
| ExperimentRun.PrepareMakesDirs | internal/experiment/run.go:51-62 | preparation only makes the base and experiment directories |
| ExperimentRun.LaunchWritesFiles | internal/experiment/run.go:69-109 | launching only creates and writes files and starts the child, and a failure starts nothing |
| ExperimentRun.EndEffects | internal/experiment/run.go:128-153 | the signal is forwarded iff one arrived; the results are appended unless appending fails; the directory is removed iff the code is non-zero and CleanupOnFail is set, and removal is the last effect |
| ExperimentRun.RunSpecStarted | internal/experiment/run.go:29-160 | a started run's effects are the effects before the end followed by those of the end, and the former forward nothing and remove nothing |
| ExperimentRun.BeforeEndQuiet | internal/experiment/run.go:29-109 | no effect before the end forwards a signal or removes a directory |
| ExperimentRun.RunForwardsSignal | internal/experiment/run.go:128-136 | a started run forwards a signal iff one arrived, without any liveness probe |
| ExperimentRun.RunAppendsResults | internal/experiment/run.go:142-147 | a started run whose append succeeds appends the results with the end time, the elapsed time, the exit code and the interrupted flag |
| ExperimentRun.RunRemovesOnFailure | internal/experiment/run.go:149-153 | a started run removes its directory iff the exit code is non-zero and CleanupOnFail is set, and only as its last effect, after the append |
| ExperimentRun.RunFailsBeforeStart | internal/experiment/run.go:33-109 | a run that never starts returns an error and neither starts, forwards, appends nor removes anything, so a failed start leaves its directory behind |
| ExperimentRun.RunWritesSummary | internal/experiment/run.go:69-74 | a started run has written the summary block of its start time, repository, command and directory |
| ExperimentRun.DirNameRecognised | internal/experiment/run.go:56-57 | the directory name this writer builds is recognised by the run-directory pattern and gives back the stamp, the sanitised branch and the short hash |
| RunCommand.PrepareSpec | internal/run/run.go:24-54 | preparation succeeds only with a readable repository, a clean tree or Force, and a non-empty base directory, and then yields the experiment directory under it |
| RunCommand.Prepare | internal/run/run.go:24-54 | the repository checks and the two directories are made exactly as specified |
| RunCommand.Launch | internal/run/run.go:61-103 | summary, output files, start and the cleanup after a failed start happen exactly as specified |
| RunCommand.Finish | internal/run/run.go:105-165 | forwarding, the results append, cleanup and the returned error happen exactly as specified |
| RunCommand.Execute | internal/run/run.go:20-166 | the whole lifecycle yields exactly the specified error and effects for every outcome of the outside calls |
| RunCommand.MainChangesNothing | internal/run/run.go:24-44 | nothing is changed iff the repository query fails, the tree is dirty without Force, the base directory is empty or cannot be made; the dirty and empty-base cases return their messages |
| RunCommand.StartFailureCleansUp | internal/run/run.go:98-103 | a failed start returns "failed to start command: ..." and its last effect removes the experiment directory; nothing was started and no results were appended |
| RunCommand.MainAfterStart | internal/run/run.go:113-165 | once started, the exit code is 0 on success, the exit error's code, 1 for another wait error, 130 after a signal; an error is returned iff the results cannot be written or the code is non-zero, and then it names the code |
| RunCommand.PrepareMakesDirs | internal/run/run.go:41-54 | preparation only makes the base and experiment directories |
| RunCommand.LaunchKinds | internal/run/run.go:61-103 | launching only creates and writes files, starts the child or removes the directory; a failure starts nothing and a success removes nothing |
| RunCommand.MainSpecStarted | internal/run/run.go:20-166 | a started run's effects are those before the end followed by those of the end, and the former forward, append and remove nothing |
| RunCommand.BeforeEndQuiet | internal/run/run.go:20-103 | no effect before the end forwards a signal, appends results or removes a directory |
| RunCommand.EndForwards | internal/run/run.go:122-142 | the end forwards a signal iff one arrived while the child was still alive |
| RunCommand.EndAppends | internal/run/run.go:150-154 | the end appends the results with start, end, exit code and interrupted flag iff the summary can be opened and written |
| RunCommand.EndRemoves | internal/run/run.go:156-159 | the end removes the experiment directory iff the results were written, the code is non-zero and CleanupOnFail is set, and removal is its last effect |
| RunCommand.AfterQuietSteps | internal/run/run.go:20-166 | when the effects before the end forward, append and remove nothing, every such effect of the run comes from the end and a removal stays last |
| RunCommand.ForwardsOnlyToLiving | internal/run/run.go:126-138 | a started run forwards a signal iff one arrived and the liveness probe found the child running |
| RunCommand.AppendsResults | internal/run/run.go:150-154 | a started run appends its results iff the summary can be opened and written, with the start, end, exit code and interrupted flag |
| RunCommand.RemovesOnFailure | internal/run/run.go:150-159 | a started run removes its directory iff the results were written, the code is non-zero and CleanupOnFail is set, only as its last effect; a failed results write returns before any cleanup |
| RunCommand.ReplayAppend | internal/run/run.go:20-166 | replaying effects on a file is compositional over concatenation |
| RunCommand.ReplayLaunch | internal/utils/summary.go:119-131 | after launching, the summary file holds exactly the metadata block when the output files are named differently |
| RunCommand.ReplayEnd | internal/utils/summary.go:165-191 | the end adds the results block to the summary file, or removes it together with the directory on a cleaned-up failure |
| RunCommand.LaunchStarted | internal/run/run.go:61-103 | a successful launch creates the summary, writes the metadata, creates stdout and stderr and starts the command, in the directory unless NoPushd |
| RunCommand.SummaryFileAfterRun | internal/run/run.go:61-159 | after a started run whose results were written, the summary file holds the metadata block followed by the results block, unless the failure cleanup removed it |
| RunCommand.SummaryReadsBack | internal/utils/summary.go:49-191 | the metadata and results this writer produces parse back into the run's directory, command, times at second precision, exit code, branch, hash and interrupted flag, when no line of the file is 64 KiB or longer |

## Left out

- Process execution, output duplication and the completion-versus-signal race are not modelled. The race's outcome (completed with a wait result, or signalled) is an input event, and so is the liveness probe's answer.
- File-system effects are not performed. Directory creation, file creation, appends and removal are effects in a returned trace; directory listings and file contents are inputs.
- Paths are joined with "/"; `filepath.Join`'s cleaning of `.`/`..` and duplicate separators is not modelled.
- A failed append, and a failed write of the archive index, are modelled as writing nothing; a partial write is not modelled.
- git, `git show`, `git diff`, `uname -a` and the hostname lookup are inputs; only their fallback and placeholder strings are modelled.
- Clock reads (`time.Now`, `time.Since` for running runs) are parameters. Of Go's time parser and formatter only the three layouts the core uses are modelled.
- The user's command regular expression is an input predicate together with an "invalid pattern" flag.
- Floating point is left out: `percentOrZero`, the one-decimal fraction of `formatSize`, and the float type of `DurationSecs`, which is an integer here.
- JSON, CSV, tabwriter, lipgloss, glamour and pager output are not modelled; only the status classification that the tables print is modelled.
- Configuration loading (TOML, environment, defaults) and the cobra command wiring are not modelled. The configuration is a parameter, so the mixed field names of the source revisions need no reconciling.
- Archive creation with tar/gzip/zip is an effect whose success or failure is an input.
- The interactive confirmation of `moco archive` is a boolean input.
- Logging and console messages are not modelled.
- `sort.Slice` in `internal/experiment/list.go` does not promise any order for ties. The model sorts with a stable insertion sort and claims only the permutation and, without reverse, sortedness.
- RunCommand.Execute and ExperimentRun.Run require a non-empty command; the source indexes `commands[0]` and would panic on an empty one.
- Strings.ScanLinesSpec: line lengths are counted in characters; bufio counts bytes, so the 64 KiB limit matches the source only for ASCII text.
- Clock.Sub: Go subtracts two `time.Now` readings by their monotonic clock; the model subtracts wall-clock instants.
- Summary.Step, Markdown.Step: the parse errors for the start time, exit status and end time stop at the fixed message. The source appends ": " and the text of the `time.Parse` or `strconv.Atoi` error. The model's parsers return no error value to append.
- Status.ParseRunInfoSpec: "unable to parse timestamp" and "failed to open summary file" likewise omit the wrapped error's text.
- Status.FileBytes: the total size is an unbounded sum. The source adds into an int64 that would wrap past 2^63-1 bytes, and Status.SizeOfBounds accordingly requires a size that fits.
- Status.Collector.Walk: a listed child whose `lstat` fails is not modelled. `filepath.Walk` would hand its error to the callback, which returns it and ends the walk. A node is a file or a directory here, and only a directory's own read error is an input.
- Status.GetProjectStats: inherits the two lines above. Its size is the unbounded sum, and a failed child `lstat` is not among its outcomes.
- The internal/show package, the CLI and `main.go` are not part of this model.

## Findings

| source | as written | input that shows it | evidently intended | confidence | as-written member | corrected member |
|---|---|---|---|---|---|---|
| internal/experiment/list.go:180-189 | the exit status is taken from the text after the first ':' of the line | `- **Exit status:** 3`, as written by internal/experiment/run.go:302: the text is `** 3`, so the status stays 0 | take the value after the `**Exit status:**` marker | not executed | ExperimentList.ExitStatusLost | ExperimentList.ExitValueCorrectedReads |
| internal/experiment/list.go:341-348 | `!a.IsRunning && b.IsRunning` as "less" puts finished experiments first | a running and a finished experiment sorted by status: the running one comes last | running experiments first, as the comment says | not executed | ExperimentList.StatusRunningLast | ExperimentList.StatusRunningFirstCorrected |
| internal/status/status.go:192-201 | the exit code is taken from the text after the first ':' | `- **Exit status:** 3`: the text is `** 3`, so the exit code stays 0 | take the value after the `**Exit status:**` marker | not executed | Status.ExitCodeLost | Status.ExitCodeCorrected |
| internal/status/status.go:204-212 | the finish time is taken from the text after the first ':' | `- **Execution finished:** 2024-01-02T03:04:05`: the text starts with `**`, so the time never parses | take the value after the `**Execution finished:**` marker | not executed | Status.FinishedTimeLost | Status.FinishedTimeCorrected |
| internal/status/status.go:115 | the walk callback opens "Summary.md" | a run whose summary is the default "summary.md" on a case-sensitive file system is counted as running and walked into | open the configured summary file name | not executed | Status.DefaultSummaryUnseen | Status.ConfiguredSummaryRead |
| internal/archive/archive.go:228-238 | the exit pattern only accepts `**Exit status:**` | a summary ending `- **Exit status**: 0`, as written by internal/utils/summary.go:178, is reported unfinished with status -1 | accept both label forms | not executed | Archive.NewerSummaryLooksRunning | Archive.CorrectedReadsBothWriters |
