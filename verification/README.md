# TestHub, verified

TestHub is a test daemon: it reads specifications, runs their scenarios on a pool of runner processes,
keeps a history, fires schedules, and speaks HTTP and WebSocket with parsers and codecs of its own.
This project models its core in Dafny and proves what the parts promise. `dafny verify dfyconfig.toml`
checks everything.

Code that works step by step is imperative here too: classes with the source's fields and loops with
the source's order of work, each method proved against a specification function, and the properties
proved of that function. A `std::string` is a `string` whose characters stand for bytes. Exceptions
and error returns are `None`, `Fail` or an error value; error texts are dropped, except those of a
test that decide its final state.

| files | what they are about |
|---|---|
| `Text` | character classes, trimming, where a sequence occurs in another |
| `TagFilter`, `TagBalance` | the tag expression parser, the joining of filters, and when it is exact |
| `Concepts`, `StepText` | concept expansion against an environment semantics; the text of steps |
| `Steps`, `Runs` | steps, retries, scenarios; counting, aggregation, the final state |
| `Sequential`, `Parallel`, `Streams`, `ParallelRun` | the two ways to run a test, and exactly when they agree |
| `Pool`, `PoolRuns`, `RunnerBridge` | the runner pool as a transition system and as an object |
| `Json`, `JsonRoundTrip`, `JsonNormal`, `JsonText` | JSON printing and reading |
| `WebSocket`, `WebSocketReader` | frames and the reassembly of messages |
| `Http`, `HttpConnection` | where one request ends and the next begins |
| `Calendar`, `Cron`, `CronNext` | cron expressions and their next match |
| `History`, `Records` | the engine's records |
| `Schedules`, `ScheduleRuns`, `Scheduler` | schedules, the tests they submit, and the clock |
| `Base64` | encoding and decoding |

Concurrent parts are transition systems whose steps are the critical sections under the source's
mutexes. A thread that waits is a step that is not enabled yet. In the pool, the engine's records and
the scheduler the methods of the class are these steps, and each one's contract says which step it is;
the scheduler also carries its history, which is a run from the first start, and its `Tick` lets other
threads in between any two of its own steps. In the parallel engine a loop picks any stream that can go
on, so its contract holds for every interleaving.

All that decides how a test goes is an input, `Runs.Test`: what the hooks answer on each stream and
for each specification, whether a cancel or the deadline may come, the outcome `exec` of each
scenario and data row of a specification, and the outcome `late` if a cancel or the deadline hits
while it runs. All that is asked of the outcomes is what `Steps.Execution.ExecuteScenario`
guarantees: a result for that scenario and row that is PASSED only if no step of it went wrong.
`Runs.Undisturbed` is a condition on these inputs: no cancel and no deadline, no outcome that would
stop a fail-fast test, no failing hook before the suite or before a specification, and no text of a
hook after the suite that names the hook before it. A run of undisturbed inputs is called quiet. Hooks
after a specification are free to fail. What holds of every test, undisturbed or not, is stated with
`Runs.Told`: what may be reported of a scenario, given which flags are up.

## Main results

- Joined tag filters are a conjunction, and joining accepts exactly the lists of valid filters if
  each filter is balanced: `TagFilter.AllIsConjunction`, `TagBalance.JoiningIsExactIff`.
- Expanding concepts keeps the meaning of steps, and cuts off exactly what leads into a cycle:
  `Concepts.ExpansionMeaning`, `Concepts.CutOffIffCycle`.
- Written steps read back, exactly under a condition on backslashes: `StepText.StepReadBackIff`.
- Every interleaving of the parallel streams reports each scenario once and in order, and agrees
  with the sequential mode exactly under a stated condition: `ParallelRun.ExecuteParallel`,
  `ParallelRun.SameEitherWay`.
- A skipped scenario has its reason, and PASSED is green and tells every outcome, whatever the inputs:
  `Runs.PassedIsGreen`, `Sequential.RunSequentially`, `ParallelRun.RunInParallel`, `ParallelRun.PassedAlike`.
- The runner pool is safe in every reachable state: `PoolRuns.ReachableIsSafe`, `PoolRuns.ChoiceIsGood`.
- JSON reads back, exactly for finite numbers: `JsonRoundTrip.RoundTripIff`,
  `JsonRoundTrip.PrintAlikeIff`, `JsonNormal.ReadPrintReadIff`.
- WebSocket messages are put together again from any frames, and requests on one connection are
  told apart under any splitting of the bytes: `WebSocketReader.Reassembly`,
  `HttpConnection.SameRequests`, `Http.HeadLimit`.
- The cron search finds the next match, and always finds one exactly under a condition on the fields:
  `CronNext.NextAfter`, `CronNext.NeverZeroIff`, `CronNext.RareMatchIff`.
- A skipping schedule never has two tests at once, and fires twice in a minute only if disturbed:
  `Schedules.AtMostOneActive`, `Schedules.DueAgainIff`, `Schedules.NoMinuteTwice`,
  `Schedules.OneTurnEach`.
- The engine's records, listing and takers agree in every reachable state: `History.ReachableInv`.

## Where the code does not do what one might expect

- `TagFilter::all` accepts some filters that are rejected alone, such as `a)|(b`
  (`TagFilter.JoiningAcceptsUnbalanced`); exactly those with unbalanced parentheses
  (`TagBalance.JoiningIsExactIff`).
- A test with more streams than the pool has usable slots waits for good on an otherwise idle pool,
  as long as at least one slot is usable (`PoolRuns.WaitsForGood`, `PoolRuns.WaitsOnAnIdlePool`).
- The limit on the size of a request head depends on how the bytes arrive, within one read's length
  (`Http.HeadLimit`).
- A cron expression whose dates are missing from some years has times with no next run within the
  window (`CronNext.NeverZeroIff`, `CronNext.RareMatchIff`).
- A backslash at the end of literal text takes away the meaning of the quote or bracket behind it
  (`StepText.StepReadBackIff`).
- A schedule may fire twice in one minute: a tick reads the clock once, so a firing by hand in the
  next minute can come between (`ScheduleRuns.StaleTick`), and a text is compared as it was typed
  with one that was trimmed (`ScheduleRuns.RespelledFiresAgain`). There is no other way
  (`Schedules.TwiceOnlyIfDisturbed`).
- A failed `after_spec` hook makes a specification an error on parallel streams only
  (`ParallelRun.AfterSpecDiffers`); exactly then the two modes differ (`ParallelRun.SameEitherWay`).
- A number such as `1e400` is accepted as infinity and printed as null (`JsonNormal.OverflowIsLost`).

## Model

| member | source | states |
|---|---|---|
| `TagFilter.AllIsConjunction` | src/engine/tag_filter.h:44-53 | filters that each parse alone parse when joined as text, and the joined filter matches a tag list exactly if every single one does |
| `TagBalance.JoiningIsExactIff` | src/engine/tag_filter.h:44-53 | if the joined text is valid, then every filter is valid by itself exactly if in every one, trimmed, the parentheses match; so all filters are valid exactly if the joined text is and they are balanced |
| `TagBalance.ValidIsBalanced` | src/engine/tag_filter.h:115-184 | a valid filter has matching parentheses |
| `TagBalance.BalancedJoinIsValid` | src/engine/tag_filter.h:44-53 | a balanced filter that is part of a valid joined text is valid: its part of the parse ends where the filter ends |
| `TagFilter.JoiningAcceptsUnbalanced` | src/engine/tag_filter.h:44-53 | the input that fails: `a)|(b` is rejected alone and accepted by `all` |
| `TagFilter.OrLocal` | src/engine/tag_filter.h:115-131 | an expression inside parentheses is parsed to the same tree, and stops at the same place, as by itself |
| `TagFilter.AndLocal` | src/engine/tag_filter.h:133-149 | the same for conjunctions |
| `TagFilter.UnaryLocal` | src/engine/tag_filter.h:151-184 | the same for negations, groups and tags |
| `TagFilter.ConsumeLocal` | src/engine/tag_filter.h:100-113 | the same for one token, the boundary of a keyword included |
| `TagFilter.JoinedParses` | src/engine/tag_filter.h:44-53 | the joined text parses to the conjunction of the trees, to its very end |
| `TagFilter.Parser.Skip` | src/engine/tag_filter.h:98-98 | white space is skipped to the first other character |
| `TagFilter.Parser.Consume` | src/engine/tag_filter.h:100-113 | the reader consumes a token exactly where the grammar does |
| `TagFilter.Parser.Or` | src/engine/tag_filter.h:115-131 | the loop that rebuilds `left` returns the tree and the end that the grammar gives |
| `TagFilter.Parser.AndExpr` | src/engine/tag_filter.h:133-149 | the same for conjunctions |
| `TagFilter.Parser.Unary` | src/engine/tag_filter.h:151-184 | the same for negations, groups and tags |
| `TagFilter.ParseExpression` | src/engine/tag_filter.h:25-39 | blank text matches everything, text with anything left over is invalid, and otherwise the tree is the grammar's |
| `TagFilter.All` | src/engine/tag_filter.h:44-53 | the accumulating loop is the parse of the joined text |
| `Concepts.ExpansionMeaning` | src/spec/spec_parser.cpp:330-354 | the calls of the expanded tree, resolved against a data row, are those of an environment semantics in which parameters are bound to arguments evaluated in the caller's scope |
| `Concepts.BodyMeaning` | src/spec/spec_parser.cpp:343-353 | the same for the steps of a concept under any binding that agrees with the environment |
| `Concepts.SubstituteThenResolve` | src/spec/spec_parser.cpp:345-350 | substituting and then resolving is evaluating: no name is captured between levels |
| `Concepts.CompleteIff` | src/spec/spec_parser.cpp:330-333 | nothing is left unexpanded exactly if concepts nest at most 17 deep |
| `Concepts.ExpansionIsBounded` | src/spec/spec_parser.cpp:330-333 | the expanded tree is never higher than the bound, for cyclic dictionaries too |
| `Concepts.CutOffIffCycle` | src/spec/spec_parser.cpp:330-333 | a concept is cut off at every depth exactly if it leads into a cycle of concepts, of whatever length |
| `Concepts.BindingMeaning` | src/spec/spec_parser.cpp:338-341 | a parameter means the argument at the last position of its name |
| `Concepts.OnlyParamsBound` | src/spec/spec_parser.cpp:338-341 | nothing but the parameters is bound |
| `Concepts.ExpandConcept` | src/spec/spec_parser.cpp:330-354 | the recursive rewriting builds the expansion that the meaning is proved of |
| `Concepts.ExpandSteps` | src/spec/spec_parser.cpp:343-353 | the loop over the inner steps builds the expanded body in order |
| `Concepts.BindParams` | src/spec/spec_parser.cpp:338-341 | the loop stops at the shorter of parameters and arguments |
| `Concepts.Substitute` | src/spec/spec_parser.cpp:344-350 | only dynamic arguments with a bound name change |
| `Concepts.ResolveArgs` | src/engine/execution_engine.cpp:665-702 | every argument is resolved in place, independently of the others |
| `StepText.StepReadBackIff` | src/spec/spec_parser.cpp:109-199 | a written step is read as it was meant exactly if no parameter holds a ">" and no literal text ends in a backslash directly before the quote or the bracket of the next piece |
| `StepText.StepReadBack` | src/spec/spec_parser.cpp:109-199 | reading such a step gives back exactly its values and parameters, whatever characters the values hold; a blank step is refused |
| `StepText.MatchedAlike` | src/spec/spec_parser.cpp:182-198 | steps with the same literal text are matched by the same text, whatever their values |
| `StepText.QuotedReadBack` | src/spec/spec_parser.cpp:126-143 | a quoted value reads back to itself up to its own closing quote |
| `StepText.AngleReadBack` | src/spec/spec_parser.cpp:156-178 | a parameter reads back to the argument of its kind |
| `StepText.LiteralReadBack` | src/spec/spec_parser.cpp:117-124 | literal text comes through, escaped quotes and brackets and other backslashes included, unless it ends in a backslash before a quote or a bracket |
| `StepText.ReadValue` | src/spec/spec_parser.cpp:126-143 | the scan of a quoted value, unclosed quotes reported |
| `StepText.FoldedIsWords` | src/spec/spec_parser.cpp:183-198 | the matching text is the words of the text joined by single spaces: no other white space is left, no two spaces are adjacent and none is at an end |
| `StepText.WordsAreWords` | src/spec/spec_parser.cpp:183-198 | the words hold no white space, and together they are the other characters in order |
| `StepText.FoldSpace` | src/spec/spec_parser.cpp:183-198 | the scanning loop, trimmed, gives those words joined by single spaces |
| `StepText.Parse` | src/spec/spec_parser.cpp:109-199 | the whole scan is the reader that the round trip is proved of |
| `Steps.Execution.ExecuteStep` | src/engine/execution_engine.cpp:1353-1460 | a step that does not stop its scenario is clean at every concept depth, counts at most one run more than the retries, and made exactly the calls of its meaning; it stops exactly if its state is failed, erred or cancelled |
| `Steps.Execution.ExecuteConcept` | src/engine/execution_engine.cpp:1381-1403 | the same for a concept, whose later steps are skipped after a stop |
| `Steps.Execution.ExecuteLeaf` | src/engine/execution_engine.cpp:1404-1460 | the same for the retry loop: the result is the last answer of the runner and the attempts are its answers, all but the last failures; undisturbed, the last is no failure or one more than the retries have been made |
| `Steps.RunsAreFixed` | src/engine/execution_engine.cpp:1441-1455 | so, undisturbed, what the runner would answer decides how often a step runs |
| `Steps.Execution.RunOrSkip` | src/engine/execution_engine.cpp:1295-1313 | after a stop the state stays and the step is skipped; a stop leaves an error state if the step or an earlier one erred |
| `Steps.Execution.RunSteps` | src/engine/execution_engine.cpp:1294-1314 | a list stops exactly with an unclean result, and an undisturbed list without a stop made all its calls in order |
| `Steps.Execution.ExecuteScenario` | src/engine/execution_engine.cpp:1253-1351 | given what its hooks answer: PASSED hides no failed hook and no failed, erred or cancelled step at any depth; undisturbed, a scenario passes exactly if its hooks succeed and all its steps are clean, and then it made all calls in order |
| `Runs.Outcome` | src/engine/execution_engine.cpp:1239-1351 | what `executeScenario` returns is all that is asked of the outcomes of a test: a result for its cell that hides no bad step behind PASSED |
| `Steps.EffectiveRetry` | src/engine/execution_engine.cpp:78-83 | the retry count is the larger of the two requests, held within 0 and 5 |
| `Runs.PassedIsGreen` | src/engine/execution_engine.cpp:793-820 | a test that ends PASSED was not cancelled, timed out or without its suite hook; no scenario failed or erred, some passed, and none that passed hides a bad step |
| `Runs.SummarySound` | src/engine/execution_engine.cpp:85-91 | a specification that is not failed or erred has no bad scenario, and a passed one has a passed scenario |
| `Runs.Summarize` | src/engine/execution_engine.cpp:1104-1134 | the counting switch and the state it leads to, the same for both modes |
| `Runs.ProgressGrows` | src/engine/execution_engine.cpp:632-635 | one more scenario never lowers the progress, and it never exceeds 1 |
| `Runs.Run.ApplyScenarioOutcome` | src/engine/execution_engine.cpp:623-640 | every result is counted once: executed = passed + failed, executed + skipped stays within the total, and progress does not fall |
| `Runs.Run.Finish` | src/engine/execution_engine.cpp:788-820 | the final state, from the flags as they are last read, the states of the specifications, and whether some error text mentions "before_suite" |
| `Runs.FaultShows` | src/engine/execution_engine.cpp:1120-1134 | a hook error changes the report of a specification exactly if it has a selected scenario and is not an error anyway |
| `Runs.CountsAddUp` | src/engine/execution_engine.cpp:1105-1117 | every scenario falls under exactly one of the four counters |
| `Runs.NoBadScenario` | src/engine/execution_engine.cpp:797-801 | without a failed or erred specification no scenario is counted as failed |
| `Sequential.CountScenarios` | src/engine/execution_engine.cpp:737-743 | the total announced is the number of cells that will be processed |
| `Sequential.ExecuteSpec` | src/engine/execution_engine.cpp:1158-1237 | every selected scenario is reported once per data row, row by row, and in a quiet run the result is the reference; no hook error is left behind |
| `Sequential.RunCell` | src/engine/execution_engine.cpp:1192-1223 | a scenario is skipped if its hook failed or a flag is up before it; its report is its outcome, or its outcome when a cancel or the deadline hit it and then one of these has come, or skipped and then a flag is up or its hook failed, or cancelled and then a cancel has come |
| `Sequential.RunRow` | src/engine/execution_engine.cpp:1188-1226 | the scenarios of one data row in order |
| `Sequential.ExecuteSequential` | src/engine/execution_engine.cpp:884-945 | whatever stops the test: every specification is told with all its scenarios, each of them as `RunCell` may report it by the end, or as skipped for a stop or the hook before the suite, or as an error because it did not parse; the counters are the sums; a quiet run gives the reference |
| `Sequential.RunSequentially` | src/engine/execution_engine.cpp:704-820 | PASSED means green, everything parsed, and every scenario told with its outcome, whatever the inputs; on undisturbed inputs, results and final state are the reference |
| `Sequential.PassedTellsAll` | src/engine/execution_engine.cpp:793-945 | a green report in a test that nothing stopped is the reference, since a failed hook would have shown |
| `Parallel.BuildItems` | src/engine/execution_engine.cpp:957-991 | one item per selected scenario and data row, numbered in row-major order |
| `Parallel.LayoutOfItems` | src/engine/execution_engine.cpp:957-991 | the items of a specification are exactly one stretch of numbers, one per cell, in order |
| `Parallel.Deal` | src/engine/execution_engine.cpp:993-995 | item k goes to stream k mod n, every item to exactly one place, and each stream keeps the order |
| `Parallel.GroupBySpec` | src/engine/execution_engine.cpp:1016-1018 | grouping a stream's items by specification leaves their order as it was |
| `Parallel.ExecuteKeepsInv` | src/engine/execution_engine.cpp:1050-1073 | a stream that runs its next item keeps: each item runs once, and its outcome is where it belongs |
| `Parallel.HandInKeepsInv` | src/engine/execution_engine.cpp:1074-1076 | a stream that hands in a result keeps: every collected entry is one item's outcome, and none is collected twice |
| `Streams.Pool.BeforeSpec` | src/engine/execution_engine.cpp:1043-1049 | `before_spec` runs when a stream comes to a specification and has not run for these two before; the answer is remembered for the stream's items and, if bad, as an error of the specification |
| `Streams.OpensOnce` | src/engine/execution_engine.cpp:1043-1049 | on no stream does a specification begin twice |
| `Streams.ErrorsAtEnd` | src/engine/execution_engine.cpp:1043-1082 | in the end a specification has a hook error exactly if on some stream a `before_spec` of it or an `after_spec` of it failed |
| `Streams.Pool.Decide` | src/engine/execution_engine.cpp:1050-1063 | an item goes on exactly if the hooks before it succeeded on its stream and no flag is up; else it is cancelled if a cancel has come and the hook before the suite succeeded, and skipped otherwise |
| `Streams.Pool.Execute` | src/engine/execution_engine.cpp:1064-1073 | the outcome is counted exactly once, a skipped item is told as it was decided, and every outcome so far is one that the test may report by now |
| `Streams.Pool.HandIn` | src/engine/execution_engine.cpp:1074-1082 | results are handed in in whatever order the streams come; `after_spec` runs after the stream's last item of a specification, and its failure becomes an error of that specification |
| `Streams.Pool.Join` | src/engine/execution_engine.cpp:1003-1095 | every interleaving of the streams ends, with every item run and handed in |
| `ParallelRun.SortByOrder` | src/engine/execution_engine.cpp:1103-1104 | the entries come back sorted by number, none lost and none added |
| `ParallelRun.SortedSlice` | src/engine/execution_engine.cpp:1103-1118 | the sorted entries of a specification are its outcomes, cell by cell |
| `ParallelRun.Collect` | src/engine/execution_engine.cpp:1099-1134 | the results of a specification, complete and in order, with its hook error |
| `ParallelRun.FaultsAtEnd` | src/engine/execution_engine.cpp:1043-1082 | when all is done, a specification has a hook error exactly if a hook of it failed on a stream that one of its scenarios was dealt to and that passed the hook before the suite |
| `ParallelRun.ExecuteParallel` | src/engine/execution_engine.cpp:947-1156 | for every number of streams and every interleaving, under cancel, timeout, fail-fast and failed hooks too, every scenario of every parsed specification is reported exactly once and in order, each with its outcome or skipped for a reason on its own stream, with the state and the hook error that follow; processed equals total; a quiet run gives the reference |
| `ParallelRun.RunInParallel` | src/engine/execution_engine.cpp:704-820 | PASSED means green, everything parsed, and every scenario told with its outcome, whatever the inputs; on undisturbed inputs, results and final state are the reference with the hook errors of the inputs |
| `ParallelRun.PassedTellsAll` | src/engine/execution_engine.cpp:793-1156 | a green report in a test that nothing stopped is the reference, on every stream |
| `ParallelRun.PassedAlike` | src/engine/execution_engine.cpp:704-1156 | a sequential and a parallel run of one test that both end PASSED give the same results, whatever came in between |
| `ParallelRun.SameEitherWay` | src/engine/execution_engine.cpp:884-1156 | on undisturbed inputs, a sequential run and a run on n streams report a specification alike exactly if no `after_spec` of it fails on a stream that runs one of its scenarios, or it is an error anyway; if they report all alike, they end alike |
| `ParallelRun.ModesAgreeIff` | src/engine/execution_engine.cpp:884-1156 | the references of the two modes differ on a specification exactly if a hook of it fails on such a stream and it is no error anyway, and then only in the state |
| `ParallelRun.AfterSpecDiffers` | src/engine/execution_engine.cpp:1074-1082 | the input that fails: an undisturbed test of two scenarios that pass, which ends PASSED in one stream and as an error in two, because of one failed `after_spec` |
| `PoolRuns.ReachableIsSafe` | src/runner/runner_bridge.cpp:207-591 | in every reachable state: one session at most per slot in exclusive mode, users in all equal to open reservations, no session while runners are stopped and started, one start at most in flight per slot, automatic restarts within the budget |
| `PoolRuns.StepKeepsInv` | src/runner/runner_bridge.cpp:207-591 | every critical section keeps the invariant behind it |
| `PoolRuns.RunKeepsInv` | src/runner/runner_bridge.cpp:207-591 | so does every run |
| `PoolRuns.ChoiceIsGood` | src/runner/runner_bridge.cpp:399-445 | a grant in exclusive mode has as many slots as asked, all free and different, all connected if enough connected ones are free, and all usable if any slot is |
| `PoolRuns.GrantedWhenIdle` | src/runner/runner_bridge.cpp:399-445 | on an idle pool a request is granted exactly if it asks for no more than the usable slots or none is usable; one slot is always granted |
| `PoolRuns.WaitsForGood` | src/runner/runner_bridge.cpp:409-443 | a request for more slots than are usable is never granted while some slot is usable and nobody restarts the pool |
| `PoolRuns.WaitsOnAnIdlePool` | src/runner/runner_bridge.cpp:409-443 | such a pool is reachable: a start of two whose second runner fails, without automatic restarts |
| `PoolRuns.UsableShrinks` | src/runner/runner_bridge.cpp:406-408 | sessions never make a slot usable again |
| `PoolRuns.DrainEnds` | src/runner/runner_bridge.cpp:335-342 | the drain goes on once all reservations are given back |
| `PoolRuns.SessionsExclude` | src/runner/runner_bridge.cpp:374-445 | two open sessions are never on one slot in exclusive mode |
| `PoolRuns.HeldSumIsOpen` | src/runner/runner_bridge.cpp:374-382 | counted slot by slot or session by session, the users are the same |
| `RunnerBridge.Bridge.ReserveSlots` | src/runner/runner_bridge.cpp:399-445 | all or nothing: either the granted slots are taken in one step or the state is untouched |
| `RunnerBridge.Bridge.ChooseSlots` | src/runner/runner_bridge.cpp:409-441 | the loop that builds the three lists chooses what the grant is proved of |
| `RunnerBridge.Bridge.Occupy` | src/runner/runner_bridge.cpp:443-443 | exactly the chosen slots get their one user |
| `RunnerBridge.Bridge.ReleaseSlot` | src/runner/runner_bridge.cpp:374-382 | one user less on that slot, and the session is over |
| `RunnerBridge.Bridge.EnsureAlive` | src/runner/runner_bridge.cpp:559-591 | the restart budget is checked before it is spent, and a launch is under way exactly if it says so |
| `RunnerBridge.Bridge.Begin` | src/runner/runner_bridge.cpp:207-214 | a start leaves a connected pool alone, and a stop or restart an empty one |
| `RunnerBridge.Bridge.IsIdle` | src/runner/runner_bridge.cpp:335-342 | no users and no launch on any slot |
| `RunnerBridge.Bridge.Reset` | src/runner/runner_bridge.cpp:217-225 | fresh slots, between 1 and 64 of them, in exclusive mode |
| `RunnerBridge.Bridge.StopAllSlots` | src/runner/runner_bridge.cpp:311-323 | every slot loses its runner |
| `JsonRoundTrip.RoundTrip` | src/util/json.h:187-512 | for compact and every indented form, reading a printed value of finite numbers gives it back exactly if it is nested at most 512 deep, and is refused otherwise |
| `JsonRoundTrip.RoundTripIff` | src/util/json.h:187-512 | for any numbers: the value comes back exactly if it is nested at most 512 deep and every number in it is finite |
| `JsonRoundTrip.ReadsNulled` | src/util/json.h:264-512 | in general the value comes back with null for every number that is not finite |
| `JsonRoundTrip.ValueReadBack` | src/util/json.h:264-512 | the same inside any text, before whatever ends the value, at any depth |
| `JsonRoundTrip.PrintAlikeIff` | src/util/json.h:264-313 | two values print alike exactly if they are the same but for numbers that are not finite, which print as null, however deep they are nested |
| `JsonRoundTrip.ExactExists` | src/util/json.h:268-277 | what is asked of the C library can be met |
| `JsonRoundTrip.StringReadBack` | src/util/json.h:187-212 | escaped strings read back, control characters included |
| `JsonRoundTrip.DecimalIsToken` | src/util/json.h:271-274 | printed integers are number tokens and name their integer |
| `JsonRoundTrip.PutNext` | src/util/json.h:501-501 | reading fields in ascending order rebuilds the object |
| `JsonNormal.ReadPrintReadIff` | src/util/json.h:223-512 | a text that is accepted prints to a text that reads the same exactly if every number that was read is finite, which is so if no number token in the text overflows |
| `JsonNormal.OverflowIsLost` | src/util/json.h:268-277 | the input that fails: `1e400` is read as infinity and printed as null |
| `JsonNormal.ReadIsProper` | src/util/json.h:331-512 | what is read is well formed, has ascending keys and is nested at most 512 deep |
| `JsonNormal.PutAscends` | src/util/json.h:501-501 | a repeated key replaces, a new one is put in its place, and keys stay sorted |
| `JsonNormal.TokenRead` | src/util/json.h:358-381 | the text of a number that was read is a number by itself |
| `JsonText.EscapeString` | src/util/json.h:187-212 | the loop prints the escaped form |
| `JsonText.DumpTo` | src/util/json.h:264-313 | the output grows by exactly the printed value |
| `JsonText.DumpArray` | src/util/json.h:283-293 | the same for arrays, separators and indentation included |
| `JsonText.DumpObject` | src/util/json.h:295-310 | the same for objects |
| `JsonText.Parser.SkipSpace` | src/util/json.h:321-327 | white space is skipped and nothing else |
| `JsonText.Parser.ParseNumber` | src/util/json.h:358-381 | exactly the number tokens of the grammar are accepted |
| `JsonText.Parser.ReadHex4` | src/util/json.h:401-413 | four hexadecimal digits of either case |
| `JsonText.Parser.ReadUnicode` | src/util/json.h:432-447 | one escape or a surrogate pair, and nothing unpaired |
| `JsonText.Parser.ParseString` | src/util/json.h:415-461 | the string that the grammar reads, or the error |
| `JsonText.Parser.ParseValue` | src/util/json.h:331-348 | value, position and depth are those of the grammar |
| `JsonText.Parser.ParseArray` | src/util/json.h:463-484 | the same for arrays |
| `JsonText.Parser.ParseObject` | src/util/json.h:486-510 | the same for objects |
| `JsonText.ParseText` | src/util/json.h:223-230 | the reader as a whole, trailing characters refused |
| `WebSocketReader.Reassembly` | src/server/websocket_server.cpp:182-241 | whatever was pending: from any messages cut into any parts of at most 4 MiB, masked or not, with pings and pongs anywhere, exactly the text messages are delivered, whole and in order, and every ping is answered with its payload |
| `WebSocketReader.BytesAreFrames` | src/server/websocket_server.cpp:182-212 | bytes are answered as the frames they carry, in whichever length class and with whichever mask |
| `WebSocketReader.ConversationAnswers` | src/server/websocket_server.cpp:214-241 | frames of whole messages are answered message by message |
| `WebSocketReader.ChunkStep` | src/server/websocket_server.cpp:214-241 | in the middle of a message the reader holds exactly the parts so far and the kind |
| `WebSocket.EncodeReadBack` | src/server/websocket_server.cpp:87-103 | an encoded frame reads back with opcode and payload in all three length classes, exactly up to 4 MiB |
| `WebSocket.WireReadBack` | src/server/websocket_server.cpp:186-212 | a client frame in any length class that fits, masked or not, is read back or refused for its length |
| `WebSocket.BigEndianReadBack` | src/server/websocket_server.cpp:195-204 | length bytes give the length |
| `WebSocket.MaskedTwice` | src/server/websocket_server.cpp:210-212 | masking is undone by masking |
| `WebSocketReader.Unmask` | src/server/websocket_server.cpp:210-212 | every byte of the payload is unmasked in place |
| `WebSocketReader.EncodeFrame` | src/server/websocket_server.cpp:87-103 | the pushed bytes are the encoded frame, the eight length bytes most significant first |
| `WebSocketReader.Reader.RecvLength` | src/server/websocket_server.cpp:194-204 | the length from seven bits, two bytes or eight |
| `WebSocketReader.Reader.RecvFrame` | src/server/websocket_server.cpp:186-212 | one frame, or the end of the connection |
| `WebSocketReader.Reader.Dispatch` | src/server/websocket_server.cpp:214-241 | the switch over the opcode |
| `WebSocketReader.Reader.Loop` | src/server/websocket_server.cpp:182-241 | the loop's outputs are those that reassembly is proved of |
| `HttpConnection.SameRequests` | src/server/http_server.cpp:377-472 | two splittings of the same bytes give the same requests and the same final error code |
| `HttpConnection.Connection.Serve` | src/server/http_server.cpp:501-520 | a connection serves exactly the requests in its bytes, up to the one after which it is not kept, and ends with the error code of the first that cannot be read |
| `HttpConnection.Connection.ReadRequest` | src/server/http_server.cpp:377-472 | the answer depends on the bytes alone; received bytes are consumed or left over, none lost |
| `HttpConnection.Connection.FillHead` | src/server/http_server.cpp:383-408 | the loop over the head, its error codes included |
| `HttpConnection.Connection.FillBody` | src/server/http_server.cpp:447-466 | the loop over the body |
| `Http.PipelineReadBack` | src/server/http_server.cpp:410-472 | well-formed pipelined requests are told apart exactly as they were put together |
| `Http.HeadLimit` | src/server/http_server.cpp:402-407 | whatever is left over from before and whatever follows: a head is accepted under every splitting exactly if all but its last byte may arrive without it, refused under every one exactly if it ends beyond that by more than one read, and in between it depends on the splitting |
| `Http.ReadHeadFits` | src/server/http_server.cpp:383-408 | a head that fits is found at the same place under every splitting |
| `Http.ReadBodyFinds` | src/server/http_server.cpp:447-466 | the body is complete exactly if the bytes are there |
| `CronNext.NextAfter` | src/util/cron.h:72-82 | the least matching minute strictly after the given one within 366 days, or none |
| `CronNext.NeverZeroIff` | src/util/cron.h:72-82 | the search succeeds from every time exactly if the days are not restricted to dates alone or one of the dates exists in every year |
| `CronNext.RareMatchIff` | src/util/cron.h:72-82 | otherwise it succeeds from exactly those times that have a leap day near, between its first time and its last, and from none if 29 February is not among the dates |
| `CronNext.WindowIsTight` | src/util/cron.h:76-76 | the 527040 minutes are needed: a match can be the very last one |
| `CronNext.MatchesText` | src/util/cron.h:53-64 | a minute matches exactly if the five fields of the text have its values, under the day-or-weekday rule |
| `CronNext.ParsedIsProper` | src/util/cron.h:25-46 | every parsed expression has a value within bounds in each field |
| `Cron.Parse` | src/util/cron.h:25-46 | exactly the well-formed expressions are accepted, and the sets are what their text denotes, 0 and 7 both Sunday |
| `Cron.ParseField` | src/util/cron.h:183-224 | the set of a list of values, ranges and steps, or an error exactly if an item is malformed |
| `Cron.SetBits` | src/util/cron.h:218-218 | the stepping loop sets exactly the values a whole number of steps from the first |
| `Cron.ParseNumber` | src/util/cron.h:166-181 | numbers within bounds, however many digits |
| `Cron.ParseInt` | src/util/cron.h:159-181 | a name in any case or a number |
| `Cron.ParseRange` | src/util/cron.h:203-217 | everything, a range that is not reversed, or a single value |
| `Calendar.DateReadBack` | src/util/cron.h:226-234 | the day of a date that exists has that date |
| `Calendar.DateSplit` | src/util/cron.h:226-234 | every day has a date that exists, and is the day of that date |
| `History.StepKeepsInv` | src/engine/execution_engine.cpp:195-521 | the listing has no repetition and lists exactly the records, and a test has one taker exactly while it is active |
| `History.ReachableInv` | src/engine/execution_engine.cpp:195-521 | so it is in every state reachable from a start with finished tests only |
| `History.DoneStays` | src/engine/execution_engine.cpp:251-289 | a finished test stays as it finished until its record goes |
| `History.ActiveStays` | src/engine/execution_engine.cpp:465-521 | an active test never loses its record |
| `History.ActiveWasActive` | src/engine/execution_engine.cpp:195-250 | only a submission makes a test active |
| `History.TrimCuts` | src/engine/execution_engine.cpp:498-521 | trimming drops the oldest finished tests, as many as there are too many records or all, and keeps the rest in order |
| `History.DropSize` | src/engine/execution_engine.cpp:498-521 | how many records trimming leaves |
| `Records.Engine.Submit` | src/engine/execution_engine.cpp:222-239 | a new record, queued, at the end of the listing |
| `Records.Engine.CancelQueued` | src/engine/execution_engine.cpp:261-289 | a test taken out of the queue is cancelled and counted once |
| `Records.Engine.RaiseFlag` | src/engine/execution_engine.cpp:255-297 | any other active test only gets its flag raised |
| `Records.Engine.Finish` | src/engine/execution_engine.cpp:831-858 | a finished test is counted under exactly one of four heads, so completed stays their sum |
| `Records.Engine.RemoveTest` | src/engine/execution_engine.cpp:465-476 | only finished tests can be removed |
| `Records.Engine.TrimHistory` | src/engine/execution_engine.cpp:498-521 | the loop that erases the oldest finished record again and again |
| `Records.Engine.Proceed` | src/engine/execution_engine.cpp:195-597 | every step of the transition system is one of the methods |
| `Records.Engine.ClearHistory` | src/engine/execution_engine.cpp:478-496 | exactly the active tests stay |
| `Schedules.AtMostOneActive` | src/engine/scheduler.cpp:342-383 | at every point of every run a schedule that has skipped since it was created has at most one test queued or running, those fired by hand included |
| `Schedules.DueAgainIff` | src/engine/scheduler.cpp:83-107 | after a firing in minute m, by a tick or by hand, an enabled schedule that matches m is due in m again exactly if in between it was fired in another minute or its text was changed; ticks may hold an old minute |
| `Schedules.TwiceOnlyIfDisturbed` | src/engine/scheduler.cpp:83-107 | a tick fires a schedule in a minute in which it has fired only if one of these came in between, and only if its text matches that minute |
| `Schedules.NoMinuteTwice` | src/engine/scheduler.cpp:83-107 | with callers that fire no schedule by hand in a later minute while a tick is under way and save no differing text, a tick fires only in later minutes than all firings before, restarts included |
| `ScheduleRuns.StaleTick` | src/engine/scheduler.cpp:83-107 | a run that fires a minute twice: a tick reads minute 0, a firing by hand follows in minute 1, the tick fires for minute 0 late, and the next one fires minute 1 again |
| `ScheduleRuns.RespelledFiresAgain` | src/engine/scheduler.cpp:146-150 | a run that fires a minute twice: `0 0 * * *` is saved again as ` 0 0 * * *` between two ticks |
| `Schedules.RemembersIff` | src/engine/scheduler.cpp:342-383 | what a schedule remembers of its last firing in a minute, over a whole run |
| `Schedules.OneTurnEach` | src/engine/scheduler.cpp:83-107 | whatever comes in between, a tick gives each schedule it has listed exactly one turn and no other schedule any, and after its turn a schedule is not due in the minute of the tick |
| `Schedules.TrimmedParses` | src/engine/scheduler.cpp:109-150 | the trimmed text that is stored is parsed to the expression of the text that was given |
| `Schedules.ReachableParsed` | src/engine/scheduler.cpp:109-161 | at every point of every run each expression is that of its stored text |
| `Schedules.ReachableInv` | src/engine/scheduler.cpp:83-202 | the invariant of schedules, tests and ticks in every state reachable from the first start |
| `Schedules.FiredKeepsInv` | src/engine/scheduler.cpp:342-383 | a firing keeps it, whatever comes of the submission |
| `Scheduler.Plans.Tick` | src/engine/scheduler.cpp:83-107 | whatever other threads do in between, the steps taken are one whole tick, the history of the object is a run from the first start, and the number returned is that of the schedules fired |
| `Scheduler.Plans.TakeTurn` | src/engine/scheduler.cpp:93-105 | one turn: a schedule is fired exactly if it is still there and due in the minute of the tick |
| `Scheduler.Plans.FireLocked` | src/engine/scheduler.cpp:342-383 | every attempt is counted as exactly one fire, skip or error |
| `Scheduler.Plans.FireByHand` | src/engine/scheduler.cpp:193-202 | a manual firing uses up its minute |
| `Scheduler.Plans.CreateSchedule` | src/engine/scheduler.cpp:109-133 | exactly a text that parses, under no id or under a new one that is safe as a file name, creates a schedule; nothing changes otherwise |
| `Scheduler.Plans.GenerateId` | src/engine/scheduler.cpp:330-340 | a generated id is new and safe, and the search for it ends if one of the thousand of this second is left |
| `Scheduler.Plans.UpdateSchedule` | src/engine/scheduler.cpp:135-161 | the new text is compared as given with the stored one, and only if it differs is the minute forgotten |
| `Scheduler.Plans.DeleteSchedule` | src/engine/scheduler.cpp:163-173 | the schedule and its file go |
| `Scheduler.Plans.LoadAll` | src/engine/scheduler.cpp:271-306 | after a restart the schedules are those that were saved |
| `Base64.RoundTrip` | src/util/base64.h:15-67 | decoding an encoded byte string gives it back, although the accumulator wraps around |
| `Base64.Shape` | src/util/base64.h:15-37 | four letters for every three bytes begun, and padding exactly at the end of the last group |
| `Base64.EncodeBytes` | src/util/base64.h:15-37 | the loop over groups is the encoding |
| `Base64.DecodeText` | src/util/base64.h:43-67 | the loop over characters is the decoding, foreign characters skipped |

## Left out

- JsonRoundTrip.RoundTrip: `strtod`, `%.17g` and the set of doubles are a parameter; asked of them is that a double which is printed reads back as itself, and that a number token is read as a double or as infinity. Negative zero is zero.
- JsonText.Parser.ParseNumber: `strtod` is given the token that was scanned, and its answer for other texts does not matter.
- Http.HeadLimit: says when a head is accepted; which bytes are then head and body is `HttpConnection.Connection.ReadRequest`.
- Schedules.NoMinuteTwice: schedule files are written without failure, and a restart falls between two critical sections.
- PoolRuns.WaitsForGood: one direction, because a wait ends again once no slot at all is usable.
- Scheduler.Plans.GenerateId: the id counter is kept below 1000; its wrap at 2^32 is not modelled.
- Concepts.ResolveArgs: what `<file:>` and `<table:>` arguments hold is the parameter `files`.
- Changing the pool's configuration while a reservation waits: mode and size are read when the request is granted.
- Pool steps that set one or two fields of a slot (the start and the end of a launch, a death that is seen, the restart counts) have no row, but `PoolRuns.StepKeepsInv` covers them.
- Test ids supplied by the submitter, and the exact ids that are generated; a new test's id is any that no record has.
- The contents and the priority order of the test queue: `test_queue.h` is not part of this model, and the queue gives a test to one taker.
- What the head of an HTTP request says about its body and whether the connection is kept after it are parameters; routes, handlers, upgrades, the stopping of the server and `100 Continue` are left out.
- The parsing of specification and concept files, and the selection of scenarios by name (a parameter).
- The list of steps that a sequential test adds to the report of a skipped scenario, each of them skipped.
- The number of the stream in the text of a failed hook around the suite.
- Durations, timestamps, events, logs, and the order in which hooks of different streams run.
- The text of a time-out among the errors of a test, which does not mention a suite hook.
- `sort` is an insertion sort.
- Counters per schedule (`runCount`, `skipCount`) and the names, requests and times that schedules carry.
- Sockets, processes, threads, the file system, `gmtime`, SHA-1, authentication, trends, reports, REST routes, the web interface and the command line.
