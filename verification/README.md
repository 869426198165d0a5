# SwarmX runtime: a verified model

This project models the scheduling, gating and bookkeeping logic of SwarmX in Dafny and proves what it guarantees.
Replies of language models, dispatcher and tool bodies, critique verdicts, clocks, digests and file-system luck are
parameters: every statement holds for all of them.

| file | models |
|---|---|
| `DependencyGraphs`, `KahnLevels` | dependency graphs, and Kahn's algorithm grouping them into levels |
| `TaskResults`, `TaskGraphs` | the task graph object, its concurrent execution, and the recursive result it must return |
| `JsonMerge`, `EvolutionGate`, `StrategyCounters` | configuration merging, the gate in front of unattended patches, the strategy counters |
| `ToolDispatch`, `ToolTraces` | the rate limiter and circuit breaker around tools, and runs of overlapping calls |
| `MessageWindow`, `ToolTurns`, `StepRuns`, `StepExecution` | the tool-call loop of a step, its message window, and the retry loop around it |
| `PlanExecutor` | executing a plan task by task with a refinement budget |
| `MemoryLog`, `MemoryGraph` | the compacting memory file, and the memory graph's counters |
| `ManifestSanitizer`, `VideoRequest` | the bridge's projection of manifests and its validation of requests |
| `PyLists` | options and list operations shared by the others |

Code that changes state is a class or a method with loops, proved against a function of its inputs and old state; the
properties are then proved about that function. Overlapping tool calls are sequences of two atomic steps, begin and
finish. The calls of one scheduler level may start and finish in any order.

`dafny verify dfyconfig.toml` checks everything.

## Where code and documentation differ

The model follows the code.

- The comment on message pruning says that the delegation is always kept. The code keeps the first message, which is the
  context summary when memory has been compressed; `ToolTurns.WindowOfACall` says exactly when the delegation is lost
  (with the default window of 12, at the seventh call of an attempt).
- The circuit breaker's comment speaks of a half-open state with one probe. Expiry resets the failure count and closes the
  circuit, so calls are let through until a full threshold of failures has been recorded again:
  `ToolTraces.ExpiryEndsStreak`, `ToolTraces.OpenAfterFullThreshold`, `ToolTraces.TwoProbes`.
- The cycle error speaks of the nodes in a cycle. The nodes listed are those and all that depend on them:
  `KahnLevels.TopologicalLevels`.
- Locked fields are described as impossible to auto-apply. Their values cannot be changed, but a patch can delete one by
  overwriting a dictionary around it: `EvolutionGate.LockedFieldsSurvive`, `EvolutionGate.LockedFieldCanVanish`.
- The window is described as a bound on the messages. With a setting of zero the list grows instead:
  `MessageWindow.PruneIsBounded`, `MessageWindow.ZeroWindowGrows`.
- `since_ts` is meant for replaying the recent past. If the clock ran backwards, compaction can drop a record that such a
  reader would still ask for: `MemoryLog.InvisibleIffNoneNewer`, `MemoryLog.BackwardClockHides`.
- A BLOCK or APPROVAL_REQUIRED envelope marks the step as failed, but the retry loop goes on and the step can still
  complete: `StepRuns.BlockEndsOnlyTheLastAttempt`, `StepRuns.BlockedThenComplete`.

## Model

| member | source | states |
|---|---|---|
| DependencyGraphs.RankIsDepth | brain/graph.py:118-121 | A rank that drops along every dependency, and by exactly one along some, is the length of the longest dependency chain starting at the node |
| DependencyGraphs.StuckReachesCycle | brain/graph.py:149-156 | Nodes that each wait for another one of them reach a cycle (pigeonhole on a chain longer than the set) |
| DependencyGraphs.RankedIsSafe | brain/graph.py:149-156 | A node that got a level neither lies on a cycle nor depends on one |
| DependencyGraphs.DependencyIsShallower | brain/graph.py:118-121 | In an acyclic graph every dependency is strictly shallower than its dependant |
| KahnLevels.IndexNode | brain/graph.py:126-129 | Indexing one node raises its in-degree by the length of its dependency list and adds one child entry per occurrence |
| KahnLevels.IndexDependencies | brain/graph.py:123-129 | The two tables: in-degree is the length of the dependency list, repetitions and self-references included, and `children` holds one entry per occurrence |
| KahnLevels.ReleaseChildren | brain/graph.py:142-145 | Processing a node keeps every in-degree equal to the number of unprocessed dependency entries, and releases exactly the nodes whose count reaches zero, one level further on |
| KahnLevels.DrainLevel | brain/graph.py:137-145 | The inner loop turns the queue into the level as it stands and collects the whole next level |
| KahnLevels.RunLevel | brain/graph.py:136-147 | The state between levels is kept by one turn of the outer loop, and a level makes progress |
| KahnLevels.TopologicalLevels | brain/graph.py:114-158 | For every valid graph: levels are returned exactly when there is no cycle, each level then holding exactly the nodes of that longest-chain depth, once; otherwise the nodes reported are, in insertion order, exactly those on a cycle or depending on one |
| KahnLevels.UnrankedAreCyclic | brain/graph.py:149-156 | When the queue runs dry the nodes left over are exactly those that reach a cycle |
| KahnLevels.AcyclicIffNoCyclicNodes | brain/graph.py:149-156 | A graph is acyclic exactly when no node reaches a cycle |
| KahnLevels.Verdict | brain/graph.py:149-158 | Comparing the scheduled total with the number of nodes decides between the two outcomes, and positive in-degree identifies the nodes to report |
| KahnLevels.SelectKeepsOrder | brain/graph.py:149-156 | The nodes reported are picked from the insertion order, which they keep, and none that belongs is left out |
| KahnLevels.LevelComesAfterDependencies | brain/graph.py:118-121 | Everything a node depends on lies in strictly earlier levels, and no node is in two levels |
| KahnLevels.LevelsCover | brain/graph.py:118-121 | The levels together hold every node |
| TaskGraphs.TaskGraph.constructor | brain/graph.py:100-101 | The node dictionary of a list: a later node replaces an earlier one with the same id and keeps its place |
| TaskGraphs.IdsInOrder | brain/graph.py:100-101 | The ids are in the order of the first positions at which the list has them |
| TaskGraphs.IdsCover | brain/graph.py:100-101 | Every id of the list is there |
| TaskGraphs.LastNodeCounts | brain/graph.py:100-101 | Under every id the dictionary has the last node of the list that bears it |
| TaskGraphs.NoOtherNodes | brain/graph.py:100-101 | And it has no ids but those of the list |
| TaskGraphs.TaskGraph.ValidateIds | brain/graph.py:105-112 | Accepts exactly the graphs whose dependencies all exist; otherwise names the first unknown dependency, in the order of the nodes and of their lists |
| TaskGraphs.Build | brain/graph.py:100-103 | Construction succeeds exactly for valid acyclic node lists; otherwise it raises for the first unknown dependency, or, if all are known, for exactly the nodes that reach a cycle, in insertion order |
| TaskGraphs.FirstDanglingUnique | brain/graph.py:105-112 | A graph has at most one first unknown dependency, so the node list determines the error |
| TaskGraphs.TaskGraph.RunOne | brain/graph.py:212-230 | One dispatcher call gives a complete result with the value it returned, or a failed one with the type and message it raised, under the id of the node, and recorded on it |
| TaskGraphs.TaskGraph.Gather | brain/graph.py:232-238 | For every interleaving of starts and completions of a batch: the same results, the same records, and each call started and finished once |
| TaskGraphs.TaskGraph.PlanLevel | brain/graph.py:180-206 | The planning pass records exactly the nodes whose expected result is a skip and queues exactly the others |
| TaskGraphs.TaskGraph.PlanNode | brain/graph.py:184-206 | One node of the planning pass: skipped with the notes on its failed dependencies, in list order, or queued |
| TaskGraphs.TaskGraph.ExecuteLevel | brain/graph.py:180-238 | A level takes results, records and dispatch log from "everything before it done" to "everything up to it done" |
| TaskGraphs.TaskGraph.Execute | brain/graph.py:160-240 | For every order of completion: every node has a result under its own id, complete with the value its call returned, failed with what it raised, or skipped with one note for each dependency, in list order, that did not complete; the map equals a recursive definition over dependencies alone; node records equal the results; every node that is not skipped is dispatched once, after all its dependencies have results |
| TaskResults.SettleNode | brain/graph.py:187-206 | Results of the dependencies determine the result of a node, whatever else has been recorded |
| TaskResults.SettledTell | brain/graph.py:187-230 | Settled results tell how the calls ended, and a skip quotes the errors of exactly the dependencies that did not complete, in list order |
| TaskResults.NotesInOrder | brain/graph.py:189-206 | The notes of a skip: one for each list entry that did not complete, in order, with its error |
| TaskResults.StatusClosedForm | brain/graph.py:189-230 | With skipping on, a node is skipped exactly when some transitive dependency raises; otherwise its own outcome decides; with skipping off it always does |
| TaskResults.SkippedHasFailedAncestor | brain/graph.py:189-206 | From every skipped node a chain of dependencies leads to another node, one that failed |
| TaskGraphs.CountsPartition | brain/graph.py:274-287 | Completed, failed and skipped counts add up to the total, and success means that all completed |
| TaskGraphs.SummaryOfExecution | brain/graph.py:274-287 | The summary of an execution reports success exactly when no dispatcher call raises |
| TaskGraphs.CountsOfExecution | brain/graph.py:274-287 | It counts as skipped the nodes with a raising ancestor, if skipping is on, as failed the others whose calls raise, and as completed the rest |
| TaskGraphs.ErrorsOfExecution | brain/graph.py:274-287 | It lists exactly the failed nodes, with the type and message their calls raised |
| JsonMerge.DeepMerge | orchestration/tools.py:1082-1093 | The merge of the json_merge tool computes the recursive merge of any two JSON values |
| JsonMerge.MergeDicts | src/swarmx/evolver.py:626-633 | Both `_merge_dicts` copies, although they recurse only into pairs of dictionaries, compute the same merge on all dictionaries |
| JsonMerge.MergeAtPath | src/swarmx/evolver.py:626-633 | What the merge has at any path: the overlay wins, else the base shows through unless the overlay cuts the path off |
| JsonMerge.MergeIdempotent | src/swarmx/config.py:64-71 | Applying the same overlay twice is applying it once |
| JsonMerge.ReplacesIffCovers | src/swarmx/evolver.py:626-633 | An overlay erases a base completely exactly when it covers it key by key |
| JsonMerge.MergeAssociative | src/swarmx/config.py:64-71 | Three layers can be regrouped if and only if wherever the middle one replaces an object of the first by something else and the last restores an object, the last covers the first |
| JsonMerge.MergeNotAssociative | src/swarmx/config.py:64-71 | Three concrete dictionaries for which the grouping matters |
| EvolutionGate.Walk | src/swarmx/evolver.py:84-105 | The recursive walk accumulates exactly the locked names used as keys |
| EvolutionGate.LockedKeysAreReachable | src/swarmx/evolver.py:84-105 | A locked name is found exactly when some dictionary path of the patch ends in it, at any depth |
| EvolutionGate.EvolutionRuntime.ApplyRuntimePatch | src/swarmx/evolver.py:636-646 | The stored configuration becomes the merge of what was there, or of nothing, with the patch |
| EvolutionGate.PatchAtPath | src/swarmx/evolver.py:636-646 | After one applied patch, every path the patch touches holds its value, or a dictionary where it has one, or nothing if the patch cuts it off; every other path holds what the file had |
| EvolutionGate.PatchesAtPath | src/swarmx/evolver.py:636-646 | After any patches, every path holds what the last of them to touch it says, and otherwise what the file had at first |
| EvolutionGate.PatchesAtRoot | src/swarmx/evolver.py:636-646 | The file is a dictionary once some patch is a non-empty dictionary, and otherwise stays exactly as it was |
| EvolutionGate.EvolutionRuntime.Consider | src/swarmx/evolver.py:785-882 | One proposal is applied exactly when it is automatic, low risk, touches no locked field and is approved; what is blocked and rejected, and the configuration afterwards |
| EvolutionGate.EvolutionRuntime.ApplyProposals | src/swarmx/evolver.py:737-882 | One result per proposal in input order with its applied, rejected and blocked marks, and the final configuration is the left fold of the merge over exactly the applied patches |
| EvolutionGate.CallAtPath | src/swarmx/evolver.py:785-882 | After a call, every path holds what the last applied proposal to touch it says, and otherwise what the file had |
| EvolutionGate.RunAtPath | src/swarmx/evolver.py:785-860 | The same over any number of calls |
| EvolutionGate.RunIsOneFold | src/swarmx/evolver.py:785-860 | Any number of calls is one fold over the applied patches, none of which contains a locked key |
| EvolutionGate.LockedFieldsSurvive | src/swarmx/evolver.py:785-860 | Over any run, the value at a path ending in a locked key never changes and none appears; such a path disappears if and only if an applied patch overwrites a dictionary around it by something else |
| EvolutionGate.LockedFieldCanVanish | src/swarmx/evolver.py:785-860 | A concrete call whose one proposal passes every gate, names no locked key, and deletes a locked field |
| StrategyCounters.StrategyRegistry.RecordIslandResult | src/swarmx/evolver.py:234-251 | One recorded round updates the two dictionaries as the step function says; other labels change nothing |
| StrategyCounters.StrategyRegistry.GetDominantIsland | src/swarmx/evolver.py:254-266 | None exactly when nobody has reached the threshold; otherwise the first island, in insertion order, with the most wins |
| StrategyCounters.RunIsValid | src/swarmx/evolver.py:234-251 | Over any history wins are never negative |
| StrategyCounters.LossesAreTheStreak | src/swarmx/evolver.py:243-251 | Over any history the loss counter is the current losing streak |
| StrategyCounters.RoundCounts | src/swarmx/evolver.py:239-251 | Over any history a win adds one to the wins of its island, a third or later loss in a row takes one away unless none is left, and nothing else changes them |
| StrategyCounters.RoundJoins | src/swarmx/evolver.py:239-251 | An island joins the win dictionary, at its end, with its first win or its first third loss in a row |
| StrategyCounters.HybridRoundsLeaveNoTrace | src/swarmx/evolver.py:239-242 | Rounds of labels other than A, B and C can be dropped from a history |
| StrategyCounters.CostOfAStreak | src/swarmx/evolver.py:247-251 | After a win or at the start, k losses, however interleaved with other islands, leave max(0, w - max(0, k - 2)) of w wins |
| ToolDispatch.ToolDispatcher.SetPerToolRateLimit | orchestration/tools.py:124-129 | The effective limit of the tool becomes the requested one or, if that is below one, one; the limits of all other tools and the thresholds stay as they were |
| ToolDispatch.ToolDispatcher.SetCircuitBreakerThresholds | orchestration/tools.py:131-148 | Thresholds set through the interface are at least one failure and one second; omitted ones stay |
| ToolDispatch.ToolDispatcher.CbCheck | orchestration/tools.py:150-173 | The check in place agrees with its functional form, expiry included |
| ToolDispatch.ToolDispatcher.CbRecord | orchestration/tools.py:176-193 | The recording in place agrees with its functional form |
| ToolDispatch.ToolDispatcher.CheckRateLimit | orchestration/tools.py:224-234 | The pruning loop and the admission agree with their functional form |
| ToolDispatch.ToolDispatcher.BeginDispatch | orchestration/tools.py:237-258 | The atomic first half of a dispatch; a call refused by an open circuit or an unknown tool consumes no quota |
| ToolDispatch.ToolDispatcher.FinishDispatch | orchestration/tools.py:264-280 | The atomic second half: what each ending records |
| ToolTraces.OpenIffThresholdReached | orchestration/tools.py:150-193 | In every state of every run of overlapping calls, the failure count is the number of timeouts and exceptions since the tool last returned or was let through again, and the circuit is open exactly when that number has reached the threshold, since the moment it did |
| ToolTraces.NoStartWithinReset | orchestration/tools.py:150-173 | No call starts within the reset time of the failures that reached the threshold unless a call already in flight then has returned since |
| ToolTraces.RefusedIffTooEarly | orchestration/tools.py:150-173 | A call of a known tool is refused by its circuit if and only if its failures in a row have reached the threshold and the reset time has not passed since |
| ToolTraces.ExpiryEndsStreak | orchestration/tools.py:166-173 | A call let through after the reset time leaves the circuit closed and the failure count at zero |
| ToolTraces.OpenAfterFullThreshold | orchestration/tools.py:170-193 | While nothing returns and nothing is let through again, the circuit is open if and only if the failures recorded anew complete a full threshold; after an expiry that takes the whole threshold |
| ToolTraces.TwoProbes | orchestration/tools.py:166-173 | A concrete run in which two overlapping calls are let through after one opening |
| ToolTraces.VerdictOnEveryCall | orchestration/tools.py:150-258 | The verdict on every call of every run: unknown tool, then circuit open exactly when it comes too early after a full row of failures, then rate limited exactly when at least the limit of admissions of that tool are at most 60 seconds old, otherwise admitted |
| ToolTraces.RateInvariantHolds | orchestration/tools.py:224-234 | In every state of every run the admissions respect the limit and the deque is the pruned history |
| ToolTraces.AtMostLimitPerWindow | orchestration/tools.py:224-234 | Every closed 60-second interval of every run holds at most the limit of admissions of a tool |
| ToolTraces.DequeIsRecentHistory | orchestration/tools.py:224-234 | The deque is the suffix of the full admission history that was at most 60 seconds old at the last check |
| ToolTraces.PruneIsRecentSuffix | orchestration/tools.py:229-230 | Popping from the front cuts an ordered history exactly between what is too old and what is not |
| MessageWindow.PruneShape | orchestration/orchestrator.py:1163-1167 | For a positive window pruning keeps the first message, is the last `keep` of the others, and so never leaves more than `keep` + 1 |
| MessageWindow.PruneAppend | orchestration/orchestrator.py:1163-1170 | Pruning, appending and pruning again is appending and pruning once |
| MessageWindow.PruningIsOneShot | orchestration/orchestrator.py:1158-1170 | For a positive window, pruning at the top of every turn shows the model exactly what pruning the whole history once would |
| MessageWindow.ZeroWindowGrows | orchestration/orchestrator.py:1163-1167 | With a zero window the slice keeps everything: any list of two or more messages is pruned to itself with its first message in front |
| MessageWindow.PruneIsBounded | orchestration/orchestrator.py:1163-1167 | For every integer setting and every list with a message, pruning leaves at most `keep` + 1 messages if and only if the setting is positive, or zero and there is just one message |
| ToolTurns.TurnCountLaw | orchestration/orchestrator.py:1169-1300 | An attempt takes at most its budget of turns, only its last reply can stop it, and without a stop it takes them all |
| ToolTurns.CallRecordsState | orchestration/orchestrator.py:1169-1175 | Call i of an attempt is the one made in the loop state after i turns |
| ToolTurns.EscalationSticks | orchestration/orchestrator.py:1241-1257 | Once a reply escalates, every later call of the attempt goes to the reasoner without a schema; until then model and schema stay |
| ToolTurns.AttemptLaw | orchestration/orchestrator.py:1169-1300 | The whole of an attempt: at most a budget of calls, stopped by its last reply only, or without a result when none stops it |
| ToolTurns.WindowOfACall | orchestration/orchestrator.py:1130-1170 | What the model sees at call i: the unpruned history pruned once, at most `keep` + 1 messages, always beginning with the first one; with a context summary the delegation is seen only while 2i < keep |
| ToolTurns.CallsAreLawful | orchestration/orchestrator.py:1169-1257 | Every call of every attempt obeys the model, schema and window rules |
| ToolTurns.DispatchesAreAskedFor | orchestration/orchestrator.py:1259-1266 | The tools dispatched are, in order, those of exactly the replies that are tool calls and no envelopes |
| ToolTurns.EnvelopesAreReceived | orchestration/orchestrator.py:1190-1199 | The envelopes recorded are, in order, exactly those among the replies |
| ToolTurns.NextCallSeesReply | orchestration/orchestrator.py:1177-1296 | With a window of two or more, the call after a reply sees at its end the text of that reply and an answer of the kind it calls for |
| StepExecution.Orchestrator.Handle | orchestration/orchestrator.py:1177-1296 | What one reply does to the step, the escalations and the loop, branch by branch: a tool call is counted and dispatched and nothing else is, an envelope is recorded and nothing else is, and a clarification whose question cannot be sliced raises |
| StepExecution.Orchestrator.Turn | orchestration/orchestrator.py:1169-1296 | One turn: prune, ask, react, append |
| StepExecution.Orchestrator.ToolLoop | orchestration/orchestrator.py:1140-1300 | The loop in place does to the step and the trace what the functional form says, for every stream of replies |
| StepExecution.Orchestrator.Judge | orchestration/orchestrator.py:1337-1366 | How the retry loop records the end of an attempt |
| StepExecution.Orchestrator.Attempt | orchestration/orchestrator.py:1321-1375 | One attempt: compression, tool loop, verdict |
| StepExecution.Orchestrator.Retry | orchestration/orchestrator.py:1321-1379 | The retry loop agrees with its functional form |
| StepExecution.Orchestrator.ExecuteStep | orchestration/orchestrator.py:1302-1379 | The step agrees with its functional form, obeys the laws of a step, dispatches and counts exactly the tools its replies ask for, records exactly their envelopes, and stays within its settings |
| StepRuns.AttemptIsLawful | orchestration/orchestrator.py:1321-1375 | Every attempt: at most a budget of lawful calls, tools counted; won, lost for good or left by an exception exactly as its last reply says, or left by an exception when memory compression raises; otherwise merely lost |
| StepRuns.RunOfLawfulAttempts | orchestration/orchestrator.py:1321-1379 | A retry loop over any lawful attempts obeys the laws of a step |
| StepRuns.StepRunIsLawful | orchestration/orchestrator.py:1302-1379 | Every step: at most retries times (tool calls + 1) model calls; tool_calls_made grows by the dispatches performed; no reply but the last one finishes the step, and if it does, it decides: True with it as the output if it completes the step, an exception if it crashes, False if it reports an unrecoverable error; if it does not, the step returns False after failing every attempt, and an exception escapes exactly when memory compression raises before that |
| StepRuns.StepObeys | orchestration/orchestrator.py:1302-1379 | Of every step: the tools dispatched, tool_calls_made and the envelopes are those of the replies received, in order; at most MAX_RETRIES times (tool calls + 1) model calls; and it gives up only after MAX_RETRIES failed attempts |
| StepRuns.AttemptTakesItsTurns | orchestration/orchestrator.py:1169-1300 | An attempt makes no call if memory compression fails; otherwise it goes on until a reply ends it or the tool calls allowed, and one more, are used up |
| StepRuns.FirstCall | orchestration/orchestrator.py:1140-1175 | The first call of an attempt goes to the model of the step, with a schema unless the agent is the reasoner or the critic, and sees the delegation, after the context summary if memory has been compressed |
| StepRuns.AttemptRecords | orchestration/orchestrator.py:1321-1375 | The errors and the status every attempt leaves on the step, in terms of its last reply |
| StepRuns.BlockEndsOnlyTheLastAttempt | orchestration/orchestrator.py:1200-1211 | A BLOCK or APPROVAL_REQUIRED reply, in whatever attempt and after whatever replies: the step ends there if and only if it was the last attempt allowed, and then returns False; otherwise the next attempt begins |
| StepRuns.BlockedThenComplete | orchestration/orchestrator.py:1321-1379 | A BLOCK followed by a terminal reply: with two attempts allowed the step returns True |
| PlanExecutor.Executor.FinishTask | src/swarmx/executor.py:310-346 | Draft, review, refine: answers and reviews alternate, every review but the last asked for more, the last did not or the budget was spent; the task is marked done with its evidence |
| PlanExecutor.Executor.AnswerAndReview | src/swarmx/executor.py:310-311 | Two consecutive model calls give an answer and its review, or the run is over |
| PlanExecutor.Executor.HandleTask | src/swarmx/executor.py:281-346 | One task: held exactly when its risk requires approval, and then untouched; otherwise finished |
| PlanExecutor.Executor.RunTasks | src/swarmx/executor.py:281-346 | One artifact per task in plan order, held exactly when approval is required and otherwise finished; held tasks are not modified |
| PlanExecutor.Executor.RefineRun | src/swarmx/executor.py:370-385 | One refinement artifact per pass, numbered from one, from consecutive replies |
| PlanExecutor.Executor.Conclude | src/swarmx/executor.py:390-406 | Test artifact, blocked list, status and confidence of a run |
| PlanExecutor.Executor.ExecutePlan | src/swarmx/executor.py:254-443 | The whole record of a completed run: artifacts, evidence, blocked list, status success exactly when nothing is blocked, confidence HIGH exactly then and LOW exactly from five held tasks on or with one held task and failing tests, and the exact number of model calls |
| PlanExecutor.RecordIsLawful | src/swarmx/executor.py:215-443 | The artifact list of a record falls apart again into one artifact per task, the refinement passes and the tests, each lawful, whatever they are |
| PlanExecutor.AnswersOfATask | src/swarmx/executor.py:310-329 | Every task that is not held has fewer than max(1, min(iterations, evaluator passes)) refinements in an active run, the iterations capped at 1 or 2 under critical or high memory pressure, and none in an inactive one; if it has fewer than it may, its last review did not ask for more |
| PlanExecutor.PassesOfARun | src/swarmx/executor.py:366-371 | The exact number of refinement passes: max(0, min(capped iterations, configured iterations, evaluator passes)), and at most one in an inactive run |
| PlanExecutor.FirstCritiqueIsHeeded | src/swarmx/executor.py:314-329 | If a second answer is allowed and the review of the first asks for it, the task is refined |
| PlanExecutor.NeverContent | src/swarmx/executor.py:314-371 | With three iterations throughout and a critic who is never content, a task has two refinements and the run three passes |
| PlanExecutor.LastArtifacts | src/swarmx/executor.py:370-398 | After the artifacts of the tasks come those of the passes, numbered from one and made from the last replies, and then the test run; nothing else |
| PlanExecutor.BlockedOfARun | src/swarmx/executor.py:281-406 | The run is blocked by the titles of exactly the tasks that need approval, in plan order, and then by failed tests; success and confidence follow from their number |
| PlanExecutor.EvidenceOfARun | src/swarmx/executor.py:281-398 | The evidence is the draft, review and final answer of every finished task in plan order, the outputs of the passes, and what the tests printed |
| PlanExecutor.ArtifactOfTask | src/swarmx/executor.py:281-346 | Task i of the plan has artifact i, made from the replies after those of the earlier tasks |
| PlanExecutor.CallsBound | src/swarmx/executor.py:314-328 | At most two model calls per answer allowed to a task, and none for a held one |
| PlanExecutor.RunCost | src/swarmx/executor.py:230-251 | Bound on the model calls of a run, and what critical and high memory pressure reduce it to |
| MemoryLog.Memory.MaybeCompact | brain/memory.py:124-145 | Compaction keeps the last MAX_ENTRIES lines, or nothing happens |
| MemoryLog.Memory.Store | brain/memory.py:81-108 | One record with its parts cut to size is appended and the file compacted, each file operation possibly failing |
| MemoryLog.RecordIsAbout | brain/memory.py:93-101 | Every part of a record is the beginning of the part it is about, 500, 1000, 500 characters or 10 tags at most; an empty improvement counts as none |
| MemoryLog.NewestIsLast | brain/memory.py:103-108 | A record that could be appended is the last line of the file |
| MemoryLog.NothingRecentIsLost | brain/memory.py:81-145 | Whatever file operations fail, the file holds the end of what was ever appended and at least the last MAX_ENTRIES lines of it |
| MemoryLog.FileIsLastRecords | brain/memory.py:81-145 | After any history, one successful call leaves exactly the last MAX_ENTRIES lines ever appended, or all of them if there are fewer |
| MemoryLog.ZeroMaximumKeepsAll | brain/memory.py:134-137 | With MAX_ENTRIES zero nothing is ever dropped |
| MemoryLog.Memory.LoadAll | brain/memory.py:148-177 | The newest records that are recent enough, newest first, at most max(1, limit), unreadable lines skipped |
| MemoryLog.LoadedAreNewest | brain/memory.py:148-177 | What is returned: of the readable lines that are not older than `since_ts`, the last max(1, limit) or all of them, from the last one backwards |
| MemoryLog.Memory.MentionsAny | brain/memory.py:199-200 | A record is a hit exactly when it mentions some keyword |
| MemoryLog.Memory.Search | brain/memory.py:180-204 | The newest top_k relevant records among the newest 200, newest first; without keywords the newest top_k |
| MemoryLog.RelevantMatch | brain/memory.py:180-204 | The records found relevant are those that mention a keyword and are not older than the time to live, if there is one, in their order |
| MemoryLog.ReaderIsUnaffectedIff | brain/memory.py:124-177 | Whatever file operations failed and whatever else is in the file: the newest `limit` records, of all or since a given time, are those of everything ever appended if and only if the file holds `limit` such records or nothing that was dropped is one |
| MemoryLog.InvisibleIffAllOutdated | brain/memory.py:124-177 | In every state: no reader of at most MAX_ENTRIES records, with whatever `since_ts`, notices compaction if and only if the file holds, for every dropped record, MAX_ENTRIES records that are not older |
| MemoryLog.InvisibleIffNoneNewer | brain/memory.py:124-177 | Right after a successful call, for a file of readable records: no such reader notices compaction if and only if no dropped record is newer than a kept one |
| MemoryLog.CompactionIsInvisible | brain/memory.py:124-177 | Hence, from a file of readable records on, a reader of at most MAX_ENTRIES records never notices compaction without a `since_ts`, nor with one if the clock never ran backwards |
| MemoryLog.BackwardClockHides | brain/memory.py:81-177 | Two calls of `store` with MAX_ENTRIES one and decreasing times, after which a reader with a `since_ts` misses a record |
| MemoryGraph.IdsAreDistinct | src/swarmx/memory_graph.py:41-83 | Different nodes have different ids, whatever their names |
| MemoryGraph.IncidentSplit | src/swarmx/memory_graph.py:35-38 | The incident weight of a node is a sum in which any edge can be taken first |
| MemoryGraph.LinkBalances | src/swarmx/memory_graph.py:32-38 | One connection keeps node counts equal to incident weights plus rows |
| MemoryGraph.GraphIsSound | src/swarmx/memory_graph.py:25-83 | For any rows: every node count is its incident edge weight plus the rows standing for it, node counts total twice the edges plus the rows, the kind, tag and workflow counters equal the counts of their nodes, and edges lead out of row nodes |
| MemoryGraph.RowIsSound | src/swarmx/memory_graph.py:40-83 | A row of any kind keeps the counters sound |
| MemoryGraph.RowAddsEdges | src/swarmx/memory_graph.py:40-83 | Every row adds to the weight of every edge just the connections it makes: to its kind, its tags that are not blank, its first 10, 12 or 5 tokens, its run, workflow and risk, with their defaults; and to no edge of another node |
| MemoryGraph.RowHasItsNode | src/swarmx/memory_graph.py:40-83 | The node of a row is the one whose id is made of its kind and name |
| MemoryGraph.LinkTallies | src/swarmx/memory_graph.py:43-48 | A connection keeps the kind, tag and workflow counters equal to the counts of their nodes |
| MemoryGraph.EndsAreNodes | src/swarmx/memory_graph.py:35-83 | Both ends of every edge are different nodes counted at least as often as the edge weighs |
| MemoryGraph.GraphBuilder.Touch | src/swarmx/memory_graph.py:32-33 | `touch` in place: the total grows by one, the node is counted once more, and every other count stays |
| MemoryGraph.GraphBuilder.Connect | src/swarmx/memory_graph.py:35-38 | `connect` in place: one more unit of the edge, one more touch of each end |
| MemoryGraph.GraphBuilder.ConnectAll | src/swarmx/memory_graph.py:46-51 | The loops over tags and tokens connect each of them once |
| MemoryGraph.GraphBuilder.ConnectAndCount | src/swarmx/memory_graph.py:35-38 | `connect` with the counter increment that goes with it |
| MemoryGraph.GraphBuilder.AddMemory | src/swarmx/memory_graph.py:40-53 | What a memory row adds |
| MemoryGraph.GraphBuilder.AddRun | src/swarmx/memory_graph.py:55-62 | What a run row adds |
| MemoryGraph.GraphBuilder.AddMission | src/swarmx/memory_graph.py:64-73 | What a mission row adds |
| MemoryGraph.GraphBuilder.AddEvent | src/swarmx/memory_graph.py:75-83 | What an event row adds |
| MemoryGraph.GraphBuilder.Build | src/swarmx/memory_graph.py:25-83 | The builder fed with all rows holds the counters the specification gives |
| ManifestSanitizer.SanitizeManifestValue | integrations/openclaw/swarmx-bridge.ts:485-499 | The recursive projection in place agrees with its functional form |
| ManifestSanitizer.SanitizedIsClean | integrations/openclaw/swarmx-bridge.ts:485-499 | Whatever is left of a value satisfies every limit, recursively |
| ManifestSanitizer.WhatIsLeft | integrations/openclaw/swarmx-bridge.ts:485-499 | What becomes of a value: strings are cut to 512, finite numbers, booleans and null stay, arrays and objects stay arrays and objects, the rest and everything below the fifth level is dropped |
| ManifestSanitizer.ArrayKeeps | integrations/openclaw/swarmx-bridge.ts:490 | Of an array the first 40 items are projected one by one, and those of which something is left are kept in order |
| ManifestSanitizer.ObjectKeeps | integrations/openclaw/swarmx-bridge.ts:492-498 | Of an object the first 60 entries count, and under every key there is what the last of them to leave something under it leaves |
| ManifestSanitizer.ExcludedWherever | integrations/openclaw/swarmx-bridge.ts:494 | A key with one of the excluded words anywhere in it is excluded |
| ManifestSanitizer.CaseDoesNotMatter | integrations/openclaw/swarmx-bridge.ts:494 | In any case of its letters |
| ManifestSanitizer.CleanIsKept | integrations/openclaw/swarmx-bridge.ts:485-499 | A value that satisfies every limit is kept as it is, order of entries included |
| ManifestSanitizer.CleanIffFixed | integrations/openclaw/swarmx-bridge.ts:485-499 | The clean values of a depth are exactly those the projection leaves unchanged |
| ManifestSanitizer.Idempotent | integrations/openclaw/swarmx-bridge.ts:485-499 | Projecting twice is projecting once, at every depth |
| ManifestSanitizer.BoundedEverywhere | integrations/openclaw/swarmx-bridge.ts:485-499 | Every part of a projected manifest, at any depth, is nested at most five deep and within the limits on strings, arrays, objects and keys, and no key matches the excluded pattern |
| ManifestSanitizer.CutKeyIsKept | integrations/openclaw/swarmx-bridge.ts:494-496 | Cutting a key cannot make it match the excluded pattern |
| ManifestSanitizer.CollisionsTakeTheLast | integrations/openclaw/swarmx-bridge.ts:493-497 | When cut keys collide the last entry that leaves something wins |
| VideoRequest.ValidIff | integrations/openclaw/swarmx-bridge.ts:264-314 | An input is accepted exactly when it is an object with no unexpected key, every field given meets its rule and is given if required, the two names of the template do not contradict each other, and the id, if given, is acceptable |
| VideoRequest.RequestMeetsRules | integrations/openclaw/swarmx-bridge.ts:264-314 | Every field of an accepted request is stored exactly when it is given, as its rule reads it, and meets that rule; an id that meets its rule is always there |
| VideoRequest.RequestHoldsWhatIsGiven | integrations/openclaw/swarmx-bridge.ts:264-314 | A validated request holds, for every field, exactly what the input gives for it, the template by either name and `listicle-countdown` as `list/countdown`, and besides these only the id |
| VideoRequest.IdIsKeptOrDerived | integrations/openclaw/swarmx-bridge.ts:305-312 | An id that is given is kept; if none is, it is `openclaw-` and the first 48 characters of the digest of the canonical request without an id |
| VideoRequest.DerivedFromSorted | integrations/openclaw/swarmx-bridge.ts:259-312 | Where the comparison orders the keys in use, that is the digest of the one list of its entries in order |
| VideoRequest.RefusalNamesTheFirst | integrations/openclaw/swarmx-bridge.ts:264-314 | A refusal names the first key that is not allowed, else the first field that is not fine, else the id |
| VideoRequest.AllowedKeys | integrations/openclaw/swarmx-bridge.ts:249-253 | The keys an input may have |
| VideoRequest.PromptIsEnough | integrations/openclaw/swarmx-bridge.ts:264-314 | A concrete input, the prompt alone, is accepted, and gets its id from the digest of the prompt |
| VideoRequest.Fill | integrations/openclaw/swarmx-bridge.ts:270-303 | The checks, one after another, store what is accepted and stop at the first refusal |
| VideoRequest.ValidateVideoJobRequest | integrations/openclaw/swarmx-bridge.ts:264-314 | The whole validation: object, keys, fields, id, in this order, refusals included |
| VideoRequest.CanonicalIgnoresOrder | integrations/openclaw/swarmx-bridge.ts:259-261 | Canonical JSON does not depend on the order of the entries, provided the comparison orders the keys that occur |
| VideoRequest.TiedKeysShowTheirOrder | integrations/openclaw/swarmx-bridge.ts:259-261 | Two entries whose keys the comparison takes for equal stay in the order they came in, so there canonical JSON does depend on it |
| VideoRequest.DerivedIdIgnoresOrder | integrations/openclaw/swarmx-bridge.ts:304-312 | Under the same proviso the derived clientRequestId does not depend on the order in which the fields are stored |
| VideoRequest.OnlyFieldsMatter | integrations/openclaw/swarmx-bridge.ts:264-314 | Inputs with the same fields are both refused or give the same request and the same clientRequestId |
| VideoRequest.EitherNameWillDo | integrations/openclaw/swarmx-bridge.ts:277-287 | The same template under `template`, under `templateFamily` or under both: both inputs are refused or both give the same request |
| VideoRequest.RevalidationChangesNothing | integrations/openclaw/swarmx-bridge.ts:264-314 | A validated request is validated again unchanged, its id included |

## Left out

- Cancellation and other exceptions outside `Exception` during graph execution, durations, `execute_sync`, and the order of nodes inside a level.
- `build_graph_from_plan`: parsing of plan dictionaries; note that it drops dependencies that are falsy, step id 0 among them.
- The list of locked fields: taken as a parameter, since nothing depends on which names it holds.
- Dictionary insertion order of merged configurations, the YAML copy of the configuration, and the files written beside it.
- The critique pipeline, skill synthesis, memories and telemetry of `apply_proposals`.
- Changes of limits and thresholds during a run of tool calls: fixed per run, as they are set at startup.
- Result truncation, timing and auditing in `dispatch_tool`; a tool that returns an error status counts as a success there, as in the code.
- Message texts in the tool-call loop: a message is its role and topic. Token estimates, latency figures and back-off times are not modelled.
- `extract_json` and envelope recognition: a reply arrives classified. Whether memory compression is needed is an input of each attempt.
- Status changes outside `_execute_step`, such as the synthesis phase.
- Prompts, checkpoints, events, island winners and summaries in `execute_plan`; which words ask for refinement and which risks need approval are parameters.
- PlanExecutor.Executor.ExecutePlan: does not state how far a run got when a model call raises, since the code keeps no record then.
- Lines of the memory file holding JSON that is not an object, partial writes, locking between threads, and `stats`.
- MemoryGraph.GraphBuilder.Build: does not model the order and truncation of the node and edge lists, and takes texts already split into tokens.
- ManifestSanitizer.SanitizeManifestValue: takes strings as sequences of characters rather than UTF-16 units, and does not track the prototype that a `__proto__` entry would set.
- VideoRequest.ValidateVideoJobRequest: the digest and the locale order are parameters; error messages are reduced to the field they name; the checks, written one after another in the source, are taken from a table.
- HTTP, model calls, SQLite, vector stores, event publishing, dashboards, command-line wrappers, floating-point scores and keyword heuristics.
