# Schedulers, scanners and script graphs of dd-trace-js tooling

This project models the tooling of the repository that is hardest to get right by reading it, and proves what that
tooling is for. The command to verify it is `dafny verify dfyconfig.toml`.

**The parallel mocha runner** (`RunnerLines`, `RunnerModel`, `RunnerSafety`, `RunnerOutput`, `RunnerTheorems`,
`RunnerResolution`, `RunnerVerdict`, `RunnerLiveness`, `RunnerProgram`). Child processes run in a bounded number of
slots while their output is re-sequenced, so that the terminal shows one file after the other. `RunnerModel` has one
function per handler and folds any list of `data`, `end`, `error`, `exit` and signal events; `RunnerProgram` is the
program with its entries and variables updated in place, each handler proved to do what its function does. What is
shown, which files are listed as failed and the exit status are then told by the events alone. An event list is one the
environment can deliver when every event comes from a child that exists and arrives before the run resolves; the
completeness theorems also use that no data follows the end of a stream or an `error` that reports a failed spawn, and
that a child with such an `error` left no half line.

**The two-phase HTTP load generator** (`HttpClient`): requests, retry timers, the switch from warmup to measured phase,
and the deadline, over every interleaving.

**Scanners and their grammars.** `BoundedJson` is the byte scanner, for arbitrary bytes; `JsonGrammar` is RFC 8259
(sections 2 to 7) and what the scan measures on every JSON text. `BalancedEnd` is the bracket matcher with string and
template literals, `AndChain` the `&&` splitter, and `ShellWords` the word splitter and the globstar finder over one
quote automaton; each is exact for a grammar that is written without the automaton.

**Graphs and worklists.** `PackageScripts`, `PackageFailure` and `PackageExpansion` expand package scripts with a stack
and a budget. `StepEvents` flattens composite actions with a cycle guard, `CoverageUploads` is the upload check over the
result, and `ScriptGraph` holds the three loops over the script graph; `CoverageCheck` puts the three together.
`YarnLicenses` is the lockfile worklist.

Regular-expression tests, glob matching, file resolution and text substitution are function-valued parameters (`Tests`,
`Shell`, `World`, `Expressions`, `Substitution`, `Graph`): the theorems hold for all of them.

## Where the code does less than one would expect

- The runner may resolve on an `exit` before the streams have ended. Then the terminal has every shown line if and
  only if behind every file whose child was not over no later file had a line to show, where a child was over when it
  never spawned, both its streams ended, or it was reported by `error` (`ResolvedPrints`). `ResolvedTooEarly` is a run
  of two files that loses a line. The flush after the run (`scripts/mocha-parallel-files.js:670`) never writes anything
  (`FinalFlushIsNoOp`).
- A spawn failure of the first file leaves the active index behind the finished prefix (`SpawnFailureLags`) until the
  first handler that ends a stream or settles an entry. These are all the moments at which it lags (`SyncedIff`).
- The load generator can always go on if and only if both counts and the concurrency are positive (`NeverStuckIff`);
  otherwise only the 30-second deadline is left. With positive parameters only requests that fail for ever can keep it
  from a normal stop (`StopsUnlessFailing`).
- Retry timers of the warmup survive the phase switch, so the measured phase can hold `2 * concurrency - 1` requests and
  timers, and some run does (`MaxLoadIsReached`).
- The Yarn worklist keys visited patterns by `name@range`. Two patterns can share a key and have different names; only
  the first gives its name (`SharedKeyLosesName`). Whichever request of a key comes first, all names are added if and
  only if every reachable pattern has its name on some key that is requested under no other name (`AllNamesAddedIff`);
  names in npm's own form meet that (`GoodNamesOwnKeys`). For the order of the worklist itself the condition is that
  every name leads some key (`NamesOfWorklistIff`).

## Model

| member | source | states |
|---|---|---|
| RunnerLines.SplitKeepsText | scripts/mocha-parallel-files.js:58-62 | The lines followed by the carry are the text; each line ends in its only newline and the carry has none |
| RunnerLines.SplitInChunks | scripts/mocha-parallel-files.js:58-62 | Feeding a text in two chunks, handing the carry on, gives the lines and carry of feeding it at once |
| RunnerLines.ChunkingIsIrrelevant | scripts/mocha-parallel-files.js:456-461 | Any number of chunks gives the same lines and carry as their concatenation |
| RunnerLines.EveryLineOnce | scripts/mocha-parallel-files.js:438-478 | As multisets, the lines that arrived are the shown lines, the failure report and the error lines together: nothing lost or doubled |
| RunnerLines.RoutingByStream | scripts/mocha-parallel-files.js:438-450 | However stdout and stderr interleave, the failure report is the suffix of the stdout lines from the first failure start and the shown stdout lines are the rest |
| RunnerSafety.FlushIsNoOp | scripts/mocha-parallel-files.js:405-419 | When the active entry holds nothing back, flushing changes nothing |
| RunnerSafety.AdvanceKeeps | scripts/mocha-parallel-files.js:421-432 | Advancing keeps the core invariant, changes only output buffers, log and active index, and ends with the active index at the longest prefix of finished entries |
| RunnerSafety.SettleKeeps | scripts/mocha-parallel-files.js:389-400 | Settling an entry that had not exited frees exactly one slot, records a bad exit exactly once, and keeps the core invariant |
| RunnerSafety.LaunchLoopKeeps | scripts/mocha-parallel-files.js:509-664 | Launching starts the next entries in order, leaves earlier entries and the output alone, and stops only when no slot is free, no file is left or the run is interrupted |
| RunnerSafety.StepKeeps | scripts/mocha-parallel-files.js:612-660 | Every event keeps the invariant; after every `end`, and every `error` or `exit` that does not return early, the active index is the length of the longest prefix of entries that exited with both streams ended |
| RunnerSafety.EveryRunKeepsInvariant | scripts/mocha-parallel-files.js:347-664 | After every run: `running` counts started entries that have not exited and is at most `jobs`; `failures` is the length of the failure list, which holds each badly exited entry once; log indices never decrease; the active entry holds nothing back; free slots are used; the run has resolved exactly when nothing runs and all files were launched or it was interrupted |
| RunnerSafety.SettledOnce | scripts/mocha-parallel-files.js:634-660 | An exited entry keeps its exit under every event, and a second `error` or `exit` for it changes nothing at all |
| RunnerOutput.EveryRunAccounts | scripts/mocha-parallel-files.js:402-489 | In every run, what an entry has logged followed by its buffer is its pre-failure stdout lines and stderr warnings in arrival order; its failure and error buffers hold exactly its other lines; its carries are its unfinished lines |
| RunnerOutput.HearIsText | scripts/mocha-parallel-files.js:612-628 | The lines heard on a stream depend on its text alone; a last line without a newline gets one when the stream ends |
| RunnerOutput.ErrorsByStream | scripts/mocha-parallel-files.js:467-478 | The error lines are the stderr lines that are not warnings, in order |
| RunnerOutput.WarningsByStream | scripts/mocha-parallel-files.js:467-478 | The shown stderr lines are the stderr lines that are warnings, in order |
| RunnerOutput.RoutingIgnoresChunking | scripts/mocha-parallel-files.js:438-489 | After any run, the failure report, the shown stdout lines, the shown warnings and the error lines of an entry are functions of the text of its two streams, for every chunking and interleaving |
| RunnerTheorems.EveryRunDrains | scripts/mocha-parallel-files.js:405-432 | In every run whose children keep to their streams, a passed entry has an empty buffer and an ended stream has no half line |
| RunnerTheorems.PrintedByEntry | scripts/mocha-parallel-files.js:402-489 | At any moment an entry up to the active one has printed all its shown lines and a later one none; the rest waits in its buffer |
| RunnerTheorems.TheLogIsInFileOrder | scripts/mocha-parallel-files.js:366-369 | The terminal shows the shown lines of file 0, then of file 1, and so on up to the active file, each in arrival order, never interleaved |
| RunnerTheorems.SyncedIff | scripts/mocha-parallel-files.js:421-432 | In every run, the active index is the length of the longest prefix of finished entries if and only if there is no file, the first file spawned, or some handler has ended a stream or settled an entry |
| RunnerTheorems.SpawnFailureLags | scripts/mocha-parallel-files.js:562-582 | When the first file fails to spawn at the first launch, its entry has finished and is still the active one |
| RunnerTheorems.AllFinishedAllPrinted | scripts/mocha-parallel-files.js:421-432 | Once every entry has finished, every buffer is empty and every shown line is on the terminal |
| RunnerResolution.OutcomeTold | scripts/mocha-parallel-files.js:612-660 | From the events alone: an entry has the exit of its first `error` or `exit`, code 1 without a signal for an `error`, and none before; a stream has ended when its `end` came or that first event was an `error` |
| RunnerResolution.EveryRunOutcome | scripts/mocha-parallel-files.js:389-400 | In every run the exit and the ended streams of each entry are those its events tell, or those of a failed spawn from its launch on |
| RunnerVerdict.ExitIsKept | scripts/mocha-parallel-files.js:634-650 | In every run an entry holds the code and signal its first `exit` reported, code 1 without a signal after an `error` or a failed spawn, and nothing before |
| RunnerVerdict.ListFromExits | scripts/mocha-parallel-files.js:394-400 | The failure list holds a file if and only if it failed to spawn, its child failed, or the child ended with a code other than 0 or by a signal; each such file once, with its name and that exit |
| RunnerVerdict.EveryRunSignal | scripts/mocha-parallel-files.js:282-298 | In every run the first signal has interrupted it and set the exit status to 130 for SIGINT and 143 for SIGTERM, whatever fails before or after |
| RunnerVerdict.VerdictTold | scripts/mocha-parallel-files.js:644-655 | After every run the failure list is the one the events tell, and the exit status is that of the first signal; without a signal it is 1 if and only if some file failed, and unset otherwise |
| RunnerVerdict.InterruptedStartsNothing | scripts/mocha-parallel-files.js:511 | Once a signal has interrupted a run, no list of further events starts another file |
| RunnerResolution.ResolvedPrints | scripts/mocha-parallel-files.js:493-497 | When the run resolves, everything shown is on the terminal if and only if, for every file whose child was not over, no later file had a line to show; a child was over when it never spawned, both its streams ended, or its first `error` or `exit` was an `error` |
| RunnerLiveness.RunRemaining | scripts/mocha-parallel-files.js:509-664 | Along any run, live entries plus files to launch never grow, and shrink with every event that settles an entry |
| RunnerLiveness.LiveChild | scripts/mocha-parallel-files.js:493-497 | Until the run resolves, some child that exists has not exited |
| RunnerLiveness.ResolvesUnlessHanging | scripts/mocha-parallel-files.js:493-664 | From every reachable state: at most as many events settle an entry as there are live entries and files to launch, after that many the run has resolved, until then some event can settle an entry, and exits alone can resolve the run |
| RunnerTheorems.ResolvedTooEarly | scripts/mocha-parallel-files.js:644-660 | A run of two files that resolves with a line of the second still in its buffer |
| RunnerTheorems.FinalFlushIsNoOp | scripts/mocha-parallel-files.js:669-670 | In every run the flush after the run changes nothing |
| RunnerProgram.Entry.constructor | scripts/mocha-parallel-files.js:358-379 | A new entry has not started and holds nothing |
| RunnerProgram.Runner.constructor | scripts/mocha-parallel-files.js:347-379 | The runner begins with distinct fresh entries and the first launch done |
| RunnerProgram.Runner.FlushActiveBuffers | scripts/mocha-parallel-files.js:405-419 | Writes the buffer of the active entry in order and empties it; no other entry changes |
| RunnerProgram.Runner.MaybeAdvanceActive | scripts/mocha-parallel-files.js:421-432 | The loop does what `AdvanceActive` does, about which `AdvanceKeeps` speaks |
| RunnerProgram.Runner.HandleStdoutLine | scripts/mocha-parallel-files.js:438-450 | Routes one stdout line as the routing function does: failure buffer, terminal or output buffer |
| RunnerProgram.Runner.HandleStdoutChunk | scripts/mocha-parallel-files.js:456-461 | Cuts a chunk and routes its lines in order |
| RunnerProgram.Runner.HandleStderrLine | scripts/mocha-parallel-files.js:467-478 | Routes one stderr line: warnings to terminal or output buffer, others to the error buffer |
| RunnerProgram.Runner.HandleStderrChunk | scripts/mocha-parallel-files.js:484-489 | Cuts a chunk and routes its lines in order |
| RunnerProgram.Runner.RecordSpawnFailure | scripts/mocha-parallel-files.js:389-400 | Marks an entry that has not exited as failed with code 1, both streams ended, releases its slot and lists its file; otherwise nothing |
| RunnerProgram.Runner.CheckDone | scripts/mocha-parallel-files.js:493-497 | Resolves exactly when nothing runs and all files were launched or the run was interrupted |
| RunnerProgram.Runner.LaunchNext | scripts/mocha-parallel-files.js:509-664 | The launch loop and the check after it do what the launch function does |
| RunnerProgram.Runner.LaunchEntry | scripts/mocha-parallel-files.js:512-589 | Takes the next file and a slot, and gives the slot back when no child with both pipes comes of it |
| RunnerProgram.Runner.OnStdoutEnd | scripts/mocha-parallel-files.js:612-619 | The `end` handler of stdout: completes the last line, marks the stream, advances |
| RunnerProgram.Runner.OnStderrEnd | scripts/mocha-parallel-files.js:621-628 | The `end` handler of stderr: completes the last line, marks the stream, advances |
| RunnerProgram.Runner.OnError | scripts/mocha-parallel-files.js:634-642 | The `error` handler: nothing for an exited entry, else a recorded failure, a launch, an advance and the check |
| RunnerProgram.Runner.OnExit | scripts/mocha-parallel-files.js:644-660 | The `exit` handler: nothing for an exited entry, else its code and signal recorded, a launch, an advance and the check; what this means for every run is `VerdictTold` |
| RunnerProgram.Runner.OnSignal | scripts/mocha-parallel-files.js:282-298 | The first signal interrupts the run and sets the exit status 130 or 143; later ones do nothing |
| HttpClient.StepKeeps | benchmark/sirun/http-client.js:34-96 | Every callback keeps the invariant: started minus completed is the number of unsettled requests, unsettled requests belong to the current phase, and the load is bounded above and, until a stop, below |
| HttpClient.EveryRunKeepsInvariant | benchmark/sirun/http-client.js:17-99 | The invariant holds after every interleaving: requests in flight plus retry timers never exceed `concurrency` in warmup and `2 * concurrency - 1` in the measured phase |
| HttpClient.NormalStop | benchmark/sirun/http-client.js:66-74 | A stop without a timeout comes after exactly `warmupCount` warmup and `measuredCount` measured completions, with nothing in flight |
| HttpClient.SwitchIsClean | benchmark/sirun/http-client.js:67-70 | At the phase switch every earlier request is a settled warmup request, exactly `warmupCount` succeeded, and exactly min(concurrency, measuredCount) measured requests are started |
| HttpClient.SettledOnce | benchmark/sirun/http-client.js:43-65 | A settled request never changes again, and `end`, `aborted` or `error` for it does nothing |
| HttpClient.StopIsFinal | benchmark/sirun/http-client.js:34-61 | After a stop no callback changes anything but the number of timers left |
| HttpClient.TimeoutIff | benchmark/sirun/http-client.js:27-32 | The exit status is that of a timeout if and only if the deadline came before any stop; it has then stopped |
| HttpClient.LastErrorTold | benchmark/sirun/http-client.js:48 | In every run the last error is the message of the last failure that counts and has one; a failure counts when its request is in flight and nothing has stopped the run |
| HttpClient.NeverStuckIff | benchmark/sirun/http-client.js:88-98 | In every run a request or a timer is pending until a stop, if and only if both counts and the concurrency are positive |
| HttpClient.NoMeasuredRequests | benchmark/sirun/http-client.js:88-96 | With no measured requests, answering the warmup leaves the protocol stuck |
| HttpClient.RunWorks | benchmark/sirun/http-client.js:43-78 | Along any continuation, every answer and every fired timer takes one from the completions and timers left, and every failure adds one |
| HttpClient.StopsUnlessFailing | benchmark/sirun/http-client.js:34-98 | From every reachable state with positive parameters and no timeout: any continuation has at most as many events as the work left and twice its failures, it is not a dead end, and a failure-free continuation to a normal stop exists |
| HttpClient.MaxLoadIsReached | benchmark/sirun/http-client.js:43-51 | For every positive concurrency some run reaches a load of `2 * concurrency - 1` in the measured phase |
| HttpClient.RequestRunner.constructor | benchmark/sirun/http-client.js:17-25 | The program begins in the first state of the model, with the warmup started |
| HttpClient.RequestRunner.Start | benchmark/sirun/http-client.js:34-38 | Starts a request unless stopped or the phase has all it needs |
| HttpClient.RequestRunner.RetryRequest | benchmark/sirun/http-client.js:43-51 | Settles a failed request once, gives its count back, keeps the last error and leaves one retry timer |
| HttpClient.RequestRunner.OnResponseEnd | benchmark/sirun/http-client.js:60-78 | Counts a completion once and starts a request, the measured phase, or the stop |
| HttpClient.RequestRunner.StartPhaseRequests | benchmark/sirun/http-client.js:88-96 | Resets the counters and starts min(concurrency, count) requests |
| HttpClient.RequestRunner.OnRetryTimer | benchmark/sirun/http-client.js:50 | A timer that fires is gone and may start a request |
| HttpClient.RequestRunner.OnDeadline | benchmark/sirun/http-client.js:27-32 | The deadline stops the run and marks it as timed out |
| BoundedJson.ScanJson | ci/test-optimization-validation/bounded-json.js:40-95 | For arbitrary bytes: succeeds if and only if the unbounded scanner stays within the three limits, then returns its count; a failure names a limit first broken at some byte; no array access is out of range |
| BoundedJson.BoundedScanner.ScanByte | ci/test-optimization-validation/bounded-json.js:49-93 | One byte: the two fixed arrays and flags represent the next state of the unbounded scanner, or a limit is broken |
| BoundedJson.BoundedScanner.ScanInString | ci/test-optimization-validation/bounded-json.js:50-63 | One byte inside a string, or the string limit is broken |
| BoundedJson.BoundedScanner.ScanStructure | ci/test-optimization-validation/bounded-json.js:79-92 | One structural byte, or the nesting or entry limit is broken |
| BoundedJson.BoundedScanner.MarkPendingEntry | ci/test-optimization-validation/bounded-json.js:97-102 | Counts the entry an array is waiting for, unless that exceeds the limit |
| BoundedJson.BoundedScanner.AddEntry | ci/test-optimization-validation/bounded-json.js:104-109 | Counts one entry and says whether the total is within the limit |
| BoundedJson.RunGrows | ci/test-optimization-validation/bounded-json.js:49-93 | Reading more bytes never lowers the count, the deepest nesting or the longest string |
| BoundedJson.RunPrefixGrows | ci/test-optimization-validation/bounded-json.js:49-93 | The measurements on a prefix are at most those on the whole input, so a limit once broken stays broken |
| BoundedJson.AcceptanceIsMonotone | ci/test-optimization-validation/bounded-json.js:18-31 | An input accepted under some limits is accepted, with all its prefixes, under larger ones |
| JsonGrammar.ScanString | ci/test-optimization-validation/bounded-json.js:50-69 | Any string text, escapes included, scans to one measured length: its encoded bytes plus the closing quote |
| JsonGrammar.ScanElements | ci/test-optimization-validation/bounded-json.js:73-89 | The text of any list of array elements adds one entry per element plus the sizes inside them |
| JsonGrammar.ScanMembers | ci/test-optimization-validation/bounded-json.js:90-91 | The text of any list of object members adds one entry per member plus the sizes inside them |
| JsonGrammar.ScanValue | ci/test-optimization-validation/bounded-json.js:49-93 | The text of any JSON value, with any whitespace, adds exactly the sizes of its tree and restores the stack |
| JsonGrammar.DocumentSizes | ci/test-optimization-validation/bounded-json.js:40-95 | On a whole document the scanner ends outside all containers with the entries, nesting and longest string of the tree |
| JsonGrammar.DocumentVerdict | ci/test-optimization-validation/bounded-json.js:33-95 | A document is accepted if and only if nesting, longest string and total entries of its tree are within the limits, and the count is array elements plus object members |
| BalancedEnd.CloseFrom | scripts/generate-config-types.js:75-93 | Any result other than -1 lies after the start and not beyond the end of the text |
| BalancedEnd.QuoteEnd | scripts/generate-config-types.js:95-109 | The end of a literal is not before the place it is read from, and at most one past the text |
| BalancedEnd.BalancedEnd | scripts/generate-config-types.js:75-93 | The loop terminates on every input, together with `SkipQuoted`, and returns the index of the recursive reading |
| BalancedEnd.SkipQuoted | scripts/generate-config-types.js:95-109 | The loop terminates on every input and returns the end of the literal |
| BalancedEnd.SkipCode | scripts/generate-config-types.js:75-93 | Reading over any valid code keeps the bracket depth |
| BalancedEnd.SkipParts | scripts/generate-config-types.js:95-109 | Reading the inside of any literal, with escapes and nested template holes, ends right after its closing quote |
| BalancedEnd.CloseOneFirst | scripts/generate-config-types.js:79-87 | Closing several brackets is closing one and then the others |
| BalancedEnd.ParseCode | scripts/generate-config-types.js:75-93 | Whenever the matcher finds a close, the text before it is valid code of the grammar |
| BalancedEnd.ParseParts | scripts/generate-config-types.js:95-109 | Whenever a literal ends before the end of the text, its inside is valid for the grammar |
| BalancedEnd.CloseFromIsExact | scripts/generate-config-types.js:73-93 | The matcher returns `r` if and only if the text up to `r` is code nested in any way, with any literals, followed by the matching close |
| AndChain.TrimCuts | ci/test-optimization-validation/ci-package-scripts.js:101 | Trimming removes white space at both ends and nothing else |
| AndChain.SplitLiteralAndChain | ci/test-optimization-validation/ci-package-scripts.js:100-135 | The index loop returns the segments of the recursive reading, or refuses exactly when that does; `SplitIsExact` says when and which |
| AndChain.SplitGivesSegments | ci/test-optimization-validation/ci-package-scripts.js:94-135 | Every segment returned is a non-empty literal text of the grammar and splits to exactly itself |
| AndChain.WalkAcross | ci/test-optimization-validation/ci-package-scripts.js:106-129 | The automaton crosses a complete segment and stops at the `&&` after it, even when a trailing backslash escapes the space |
| AndChain.JoinSplits | ci/test-optimization-validation/ci-package-scripts.js:100-135 | Joining any non-empty list of segments with ` && ` splits back into that list |
| AndChain.SplitJoin | ci/test-optimization-validation/ci-package-scripts.js:100-135 | A list is the result of some split if and only if it is a non-empty list of segments, and re-splitting the joined list gives it back |
| AndChain.SplitIsExact | ci/test-optimization-validation/ci-package-scripts.js:6-135 | A command splits into `segments` if and only if its trimmed text has no `$`, backtick, line break, `%name%` or `!name!` and is texts joined by `&&` that trim to them, none empty, each written with plain characters (outside quotes no semicolon, ampersand, pipe or parenthesis), backslash pairs and quoted texts, and a lone backslash at the very end at most |
| PackageScripts.StackGrows | ci/test-optimization-validation/ci-package-scripts.js:74-76 | Each nested expansion leaves fewer scripts off the stack, so the recursion ends without the 16-command budget |
| PackageScripts.CallIsPhases | ci/test-optimization-validation/ci-package-scripts.js:62-78 | The phases the loop goes through are those of the call: under npm and bun the pre-script if the table has it, the script with a space and its non-empty arguments, the post-script if the table has it; under other managers the script alone |
| PackageScripts.OthersOfCall | ci/test-optimization-validation/ci-package-scripts.js:62-66 | The lifecycle scripts a call notes are its phases other than the script, in order |
| PackageScripts.TraceCounts | ci/test-optimization-validation/ci-package-scripts.js:40 | The trace of a tree starts exactly as many commands as the tree has |
| PackageScripts.InlineSound | ci/test-optimization-validation/ci-package-scripts.js:39-92 | A successful expansion is the full recursive inlining of the command, with no script below itself, and its trace is that of the tree |
| PackageScripts.InlineComplete | ci/test-optimization-validation/ci-package-scripts.js:39-92 | Every full inlining without a repeated script on the stack is found |
| PackageScripts.InlineIsExpansion | ci/test-optimization-validation/ci-package-scripts.js:39-92 | Without the budget, expansion returns a tree if and only if it is the full inlining and no script runs below itself |
| PackageScripts.CalleeIsSmaller | ci/test-optimization-validation/ci-package-scripts.js:68-89 | What a command calls, hooks included, has a full inlining with fewer commands |
| PackageScripts.SegmentsUnique | ci/test-optimization-validation/ci-package-scripts.js:47-90 | A command has at most one full inlining |
| PackageScripts.ExpansionIsAcyclic | ci/test-optimization-validation/ci-package-scripts.js:59-61 | When expansion succeeds, no command reachable from it reaches itself |
| PackageFailure.FailureHalts | ci/test-optimization-validation/ci-package-scripts.js:44-88 | Every failure of the expansion is at a place: all segments and phases before it have full inlinings, and there the text is no chain, a segment is stateful, a script is missing, or one is on the stack |
| PackageFailure.HaltFails | ci/test-optimization-validation/ci-package-scripts.js:44-88 | At every such place the expansion fails with its error, having started the commands and noted the lifecycle scripts before it, in order |
| PackageFailure.FailureIffHalt | ci/test-optimization-validation/ci-package-scripts.js:39-92 | Without the budget, expansion fails if and only if there is such a place, with its error and its notes |
| PackageExpansion.StoppedIff | ci/test-optimization-validation/ci-package-scripts.js:40-42 | The limit stops an expansion if and only if its trace has more commands than are left of 16, and then at the 17th |
| PackageExpansion.TallyMentions | ci/test-optimization-validation/ci-package-scripts.js:66 | The lifecycle scripts kept are those met before the 17th command, each once, in the order in which they are first met |
| PackageExpansion.CountOfExpansion | ci/test-optimization-validation/ci-package-scripts.js:40 | The commands counted for a full inlining are those of its tree and the command itself |
| PackageExpansion.ExpansionState.Add | ci/test-optimization-validation/ci-package-scripts.js:66 | Adds lifecycle scripts in order of first mention |
| PackageExpansion.ExpandCommand | ci/test-optimization-validation/ci-package-scripts.js:39-92 | Leaves the count and the lifecycle scripts exactly as the trace of the unlimited expansion does when cut at the first command over the limit; returns the budget error when cut, else the leaves in order with their paths, or the error |
| PackageExpansion.ExpandSegments | ci/test-optimization-validation/ci-package-scripts.js:46-91 | The loop over the segments of a command, in the same sense |
| PackageExpansion.ExpandSegment | ci/test-optimization-validation/ci-package-scripts.js:48-66 | One segment in the same sense: stateful syntax, a plain command, a missing script, a cycle, or a call |
| PackageExpansion.ExpandPhases | ci/test-optimization-validation/ci-package-scripts.js:68-89 | The loop over the phases of a call, which `CallIsPhases` names, in the same sense |
| PackageExpansion.ExpandPhase | ci/test-optimization-validation/ci-package-scripts.js:73-88 | One phase in the same sense, refused when it is on the stack |
| PackageExpansion.ExpandLocalPackageScripts | ci/test-optimization-validation/ci-package-scripts.js:29-37 | A command has a full inlining without cycles or a place at which it fails; up to 16 commands its leaves are returned, or the error of that place; beyond, the error of the limit; in every case with the lifecycle scripts met within the limit, each once and in order |
| Wrappers.OneFewer | scripts/verify-exercised-tests.js:617-622 | Visiting one more member leaves fewer to visit: the measure by which the traversal of actions, the script walks and the lockfile worklist end |
| StepEvents.StepCollector.CollectStepEvents | scripts/verify-exercised-tests.js:582-633 | Returns the guarded flattening of a step and leaves the set of actions being expanded as it found it |
| StepEvents.StepCollector.CollectNested | scripts/verify-exercised-tests.js:624-629 | The same for a list of steps, in order |
| StepEvents.NothingBelow | scripts/verify-exercised-tests.js:610 | Below a use that re-enters an action nothing is kept |
| StepEvents.FlattenSelects | scripts/verify-exercised-tests.js:582-633 | The guarded flattening is, in order, the unguarded unfolding without the events reached by re-entering an action being expanded; the unfolding takes a step for its command or that of the retry wrapper, run in the environment of the step, an upload for the two coverage actions, the steps of a local action, or nothing |
| StepEvents.FlattenStepsSelects | scripts/verify-exercised-tests.js:624-632 | The same for a list of steps |
| StepEvents.JobEvents | scripts/verify-exercised-tests.js:809-814 | The events of a job are the in-order inlining in which only back edges vanish, for any unfolding depth from the number of actions on |
| CoverageUploads.CollectLegs | scripts/verify-exercised-tests.js:834-850 | One run per combination that gives a new command or environment, in order |
| CoverageUploads.CollectJob | scripts/verify-exercised-tests.js:818-851 | The runs of a job with their positions, the position of its last upload, and its opaque actions |
| CoverageUploads.CollectWorkflowRuns | scripts/verify-exercised-tests.js:777-857 | All runs in order, and tables that hold the last upload and the opaque actions of exactly the jobs that have any |
| CoverageUploads.LegsMembers | scripts/verify-exercised-tests.js:838-850 | Dropping repeated legs loses no run |
| CoverageUploads.JobRunsMembers | scripts/verify-exercised-tests.js:818-851 | The runs of a job are exactly its run events under its combinations |
| CoverageUploads.JobRunsListed | scripts/verify-exercised-tests.js:818-851 | The runs collected for a job are each of its run events in each combination, with command and environment expanded, each different run once, in the order of the events and then of the first combination that gives it |
| CoverageUploads.AllRunsListed | scripts/verify-exercised-tests.js:785-857 | The runs collected are the lists of the jobs, job after job |
| CoverageUploads.AllRunsMembers | scripts/verify-exercised-tests.js:785-857 | The runs collected are exactly those of all jobs |
| CoverageUploads.LastUploadIsLast | scripts/verify-exercised-tests.js:819-822 | The recorded position is that of an upload after which there is none; no position means no upload |
| CoverageUploads.BlameIsLoss | scripts/verify-exercised-tests.js:1129-1142 | The errors of the loop over runs name a job if and only if some of its coverage is never uploaded, as never uploaded when it has no upload and as too late otherwise, and name listed jobs only |
| CoverageUploads.CheckUploads | scripts/verify-exercised-tests.js:1128-1148 | "Does not upload" names exactly the jobs with a coverage-producing run event and no upload; "after its last upload" exactly those with uploads of which none follows some such event; an action is reported exactly when it could not be inspected; no other job is named |
| CoverageCheck.CollectJobs | scripts/verify-exercised-tests.js:809-814 | The events of each job are its unfolding without the uses that re-enter an action |
| CoverageCheck.LosesMatches | scripts/verify-exercised-tests.js:681-686 | The loss the upload check reports, with the test built from the found scripts, is the loss in terms of the unfolding and of reachable collectors |
| CoverageCheck.CheckCoverage | scripts/verify-exercised-tests.js:1125-1148 | From steps, actions and scripts: "does not upload" names exactly the jobs that run a command from which a collector is reachable and never upload; "after its last upload" exactly those that upload, with such a command after every upload; an action is reported exactly when the unfolding meets it and it cannot be inspected |
| ScriptGraph.CoversIsLeast | scripts/verify-exercised-tests.js:662-665 | Reaching a collector is the least set closed under the rule of the loop |
| ScriptGraph.CoverageRound | scripts/verify-exercised-tests.js:658-670 | A round adds only scripts that reach a collector; one that adds nothing ends at a fixpoint |
| ScriptGraph.FindCoverageScripts | scripts/verify-exercised-tests.js:653-673 | For every order of the entries, returns exactly the scripts from which a collecting script is reachable, in at most one round more than it finds, hence at most scripts + 1 |
| ScriptGraph.ClosedReaches | scripts/verify-exercised-tests.js:1159-1166 | A set closed under calls holds everything its members reach |
| ScriptGraph.MatchGlobs | scripts/verify-exercised-tests.js:458-470 | Appends the globs of a command and adds exactly the files of those that can be parsed |
| ScriptGraph.ExpandScript | scripts/verify-exercised-tests.js:454-475 | What one visited name adds: its globs, files and calls, or nothing when there is no such script |
| ScriptGraph.ExpandInvokedScript | scripts/verify-exercised-tests.js:438-479 | Visits exactly the scripts reachable from the root, each once, and returns exactly the globs and files of the visited commands |
| ScriptGraph.Enqueue | scripts/verify-exercised-tests.js:1161-1166 | The calls not known before join the set and the queue, and nothing else does |
| ScriptGraph.CloseInvoked | scripts/verify-exercised-tests.js:1154-1167 | Returns exactly the scripts reachable from some invoked script |
| ScriptGraph.CloseAndExpand | scripts/verify-exercised-tests.js:1150-1167 | Run on the same invoked scripts, the closure loop returns the union of what the expansions visit |
| ShellWords.ShellSplit | scripts/verify-exercised-tests.js:51-97 | The loop returns the words the quote automaton reads |
| ShellWords.WordsOfScript | scripts/verify-exercised-tests.js:46-97 | A script of words written with bare, single-quoted and double-quoted parts in any way, between any white space, splits into the values of its words |
| ShellWords.ParseScript | scripts/verify-exercised-tests.js:56-95 | Every text that ends outside quotes is such a rendering of some words |
| ShellWords.SplitIsExact | scripts/verify-exercised-tests.js:46-97 | The texts with closed quotes are exactly the renderings of words, and each splits into the values of its words |
| ShellWords.UnclosedQuote | scripts/verify-exercised-tests.js:95 | A text that ends inside a quote splits as if the quote were closed at its end, a backslash left over standing for itself, so its words too are those of a rendering |
| ShellWords.QuotedValue | scripts/verify-exercised-tests.js:67-75 | Double quotes with escaped quotes and backslashes write any word |
| ShellWords.QuotingRoundTrip | scripts/verify-exercised-tests.js:51-97 | Every list of non-empty words survives quoting, joining by any white space and splitting |
| ShellWords.SameAutomaton | scripts/verify-exercised-tests.js:267-288 | At every character the splitter and the globstar finder are in the same quote mode |
| ShellWords.FindUnquotedGlobstar | scripts/verify-exercised-tests.js:267-302 | Reports exactly the non-overlapping `**` outside quotes, in order, each with its surroundings |
| YarnLicenses.AliasTarget | scripts/check_licenses.js:244-250 | An `npm:` alias stands for its target, scoped or not, with or without a version; any other range leaves the name |
| YarnLicenses.WantedIsAsked | scripts/check_licenses.js:205-217 | A manifest asks for exactly its optional dependencies and the plain ones whose names no optional one has |
| YarnLicenses.AddDependencyPatterns | scripts/check_licenses.js:205-217 | Appends, in order, the plain dependencies whose names no optional one has, then all optional ones |
| YarnLicenses.VisitPattern | scripts/check_licenses.js:79-90 | One turn: a known key is skipped, one without an entry fails and is named, any other is visited, gives its name, and its requests are appended |
| YarnLicenses.CompleteFinishes | scripts/check_licenses.js:76-90 | With a complete lock the worklist lists exactly the reachable patterns, and the first requests of their keys are one for each reachable key |
| YarnLicenses.AddYarnProductionDependencies | scripts/check_licenses.js:70-91 | Fails if and only if some reachable pattern has no entry in the lock, naming such a key; otherwise adds exactly the normalized name of the first request of each reachable key, where the requests are what the root and then each first request adds, in that order; terminates by unvisited entries, then remaining patterns |
| YarnLicenses.KeyTellsPattern | scripts/check_licenses.js:81 | For names with an `@` at most in front, equal keys mean equal patterns |
| YarnLicenses.GoodNamesOwnKeys | scripts/check_licenses.js:81 | With such names every reachable pattern has a key that is requested under its name only |
| YarnLicenses.AllNamesAddedIff | scripts/check_licenses.js:70-91 | The names added are exactly the normalized names of the reachable patterns, whichever request of a key comes first, if and only if every reachable pattern has its name on some key requested under no other name |
| YarnLicenses.OwnKeysAddAll | scripts/check_licenses.js:79-90 | Under that condition one pick per key gives exactly the normalized names of the reachable patterns |
| YarnLicenses.NamesOfWorklistIff | scripts/check_licenses.js:79-90 | In the order of the worklist, the names added are exactly those of the reachable patterns if and only if each of them is, on some key, not behind another name |
| YarnLicenses.EveryPickLosesName | scripts/check_licenses.js:81-82 | For one manifest and one lock, every choice of one request per key misses a reachable name |
| YarnLicenses.SharedKeyLosesName | scripts/check_licenses.js:81-88 | For these the lock is complete, and the names the worklist adds lack one of two reachable names |

## Left out

- CheckUploads: needs distinct job keys, which the file path and the job id of a workflow give.
- NamesOfWorklistIff: its condition reads the order in which the worklist meets the requests; `AllNamesAddedIff` is the condition without an order.
- CollectWorkflowRuns: takes the flattened events of each job; `CoverageCheck.CheckCoverage` starts from the steps. The combinations of a matrix are given in both.
- CloseAndExpand: the source expands only the `test:` scripts among the invoked ones, each with its own environment; which scripts are visited does not depend on that.
- RunnerProgram.Runner.OnSignal: the signal passed on to the live children, and the kill and exit one second later, are not modelled.
- AddYarnProductionDependencies: says nothing of the names added before a failure, because the script then ends with the error.
- Runner: spawning, killing and pipes are events; the broken-pipe and forced-kill exits, the exception branch around a launch, the diagnostic lines of the runner itself, the `message` events with test statistics, the printed error section, the summary and the merging of JUnit files are not modelled. `jobs` is at least 1, as the program makes it.
- Runner: events after the run has resolved are not followed, because the program then prints its summary and exits without returning to the event loop.
- HttpClient: sockets, the agent, real time and the refreshing of the deadline; the settled flag of each request is kept in one sequence.
- BoundedJson: the default limits and the call of `JSON.parse`; `JsonGrammar` accepts any byte of 0x20 and above inside strings, so its texts include all valid UTF-8 and more.
- Strings: JavaScript strings are sequences of UTF-16 code units; here they are sequences of characters, so a column or a context window counts a character outside the basic plane once, not twice.
- BalancedEnd: the search for properties with computed defaults around the matcher (`scripts/generate-config-types.js:111-132`) is text matching by regular expressions.
- PackageScripts: `getPackageScriptInvocation` and `hasStatefulShellSemantics` are parameters, including the second use of the splitter inside the former.
- StepEvents: parsing YAML files, finding the file of a local action, inline assignments, and turning environment values into strings are parameters or done beforehand.
- CoverageUploads: the matrix combinations and the expressions in them are parameters; workflow files and job ids are already joined into one key. A run and its environment are compared as values where the source compares one text made of both.
- ScriptGraph: tokenizing and normalizing globs and extracting script calls are parameters.
- YarnLicenses: parsing the lock file; the Bun and npm collectors, whose contexts depend on which parent found a package first; the comparison with the vendored list.
- The type generator, the approval, remediation and discovery steps of the validation tool, and the other benchmarks: decision cascades, text building and statistics.
