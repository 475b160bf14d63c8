# Klaudio: a verified model of the task scheduler and its neighbours

Klaudio runs a plan of subtasks, a directed acyclic graph, on a bounded pool of agent
containers. This project models the parts of it that carry state or an algorithm, in
Dafny 4.11, and proves what they keep.

`dafny verify dfyconfig.toml` checks everything.

| file | what it models |
|---|---|
| `Basics.dfy`, `Plans.dfy` | shared vocabulary; subtasks, statuses, plan validation |
| `Graphs.dfy` | dependency relations: paths, cycles, dependency orders |
| `Dependency.dfy` | the `DependencyGraph` class: readiness, failure propagation, cycle search, topological sort |
| `FileLocks.dfy` | the all-or-nothing file locks |
| `Scheduler.dfy`, `SchedulerRuns.dfy` | the DAG scheduler as a step system, and the theorems about all its runs |
| `Orchestrator.dfy` | the event loop of `Run`, shown to perform exactly such runs |
| `Pool.dfy` | the agent pool under interleaved spawns |
| `Protocol.dfy`, `Collaborative.dfy` | the manager/worker protocol as a step system, and the loop that performs it |
| `Comms.dfy`, `RespawnFormat.dfy` | polling the message log with a cursor; parsing respawn messages |
| `Layering.dfy`, `PlanView.dfy` | the plan view: longest-path columns, node grid, edges |
| `RingBuffers.dfy`, `Hub.dfy` | the output ring buffer and the hub's buffer registry |
| `DockerFrames.dfy` | undoing Docker's multiplexed stream framing |
| `Executor.dfy` | sequential execution with pause and resume |
| `LogRotate.dfy` | the size-based log rotator |

How the pieces are stated:

- What the environment decides (pool answers, completion order, cancellation, map
  iteration order, which database write is lost on a cancelled context) is a
  nondeterministic choice or an arbitrary parameter, so a contract holds whatever is chosen.
- The two orchestrators keep a ghost sequence of events. Their contracts say that this
  sequence is a run of the step system and that the concrete state is where it leads;
  the theorems about all runs then speak about the code's loops.
- A setting fixes, per subtask, whether its completion event reports success (`wins`), and
  the limits of the pool shared with other tasks. A failure includes the one reported for
  an agent that was gone before anyone waited for it (`Wait` in `Pool.dfy`).
- The scheduler's invariant and its end states are stated for every plan, whatever
  statuses it comes with; a fresh plan, with unique ids, closed dependencies and no status
  but "" or "pending", is the special case `FreshReachable`, `FreshOutcome`.

Where the code departs from what its names or documentation suggest, the model follows
the code:

- `ReadAll` returns nothing when exactly `size` bytes have been written; it is right in
  every other state, and only there (`RingBuffer.ReadAll`, `FullBufferReadsEmpty`).
- `HasFailures` always returns false, and a normal end of `Run` does not mean that all
  subtasks completed: `FinalStatus` says what each one ends in.
- The pool can exceed `max_agents`: with k spawns in flight its bound is
  `maxAgents - 1 + k`, and that is reached (`PoolBound`, `BoundIsReached`); likewise the
  limit per task (`TaskBoundIsReached`). `PoolLimitExactlyWhen` and `TaskLimitExactlyWhen`
  say when each limit is respected by every run.
- A lock taken before a refused spawn stays held until the subtask has run (`LockedExactlyWhen`).
  This cannot deadlock (`NoDeadlock`).
- "skipped" is never written to the plan (`PlanSound`), and a subtask that a plan shows
  as running from the start never ends (`StaleRunningNeverEnds`). So a stored plan settles
  whatever the outcomes exactly if it shows nothing as running and no pending subtask
  waits for a failed, skipped or unknown one (`SettlesExactlyWhen`); an interrupted run
  leaves such a plan exactly if nothing was running or skipped by then
  (`InterruptedSettlesExactlyWhen`).
- With `maxFiles` below one the log rotator still keeps one old file (`AtMostMaxFiles`).
- The plan view hangs on some plans that validation accepts, those with a cycle that has a
  root below it, and only on those (`EndsExactlyWhen`, `NeverEnds`).
- Fewer than eight bytes after the last Docker frame are dropped, unless nothing else
  came out (`StripMeaning`).

## Model

| member | source | states |
|---|---|---|
| Plans.ValidatePlan | internal/task/plan.go:97-139 | accepts exactly the plans with a known strategy, at least one subtask, unique non-empty ids, names, prompts and closed dependencies; a rejection names a defect the plan really has |
| Plans.ValidMeansFlawless | internal/task/plan.go:97-139 | the accepted plans are exactly those in which none of the defects a rejection can name is present |
| Graphs.OrderExcludesCycles | internal/task/dependency.go:142-183 | a list of all ids with dependencies first rules out every cycle |
| Graphs.AcyclicIffOrdered | internal/task/dependency.go:185-214 | a finite dependency relation is acyclic exactly when its ids can be listed dependencies first |
| Dependency.ValidPlanCloses | internal/task/plan.go:129-136 | the graph of a validated plan names no unknown id |
| Dependency.NothingLeftToSkip | internal/task/dependency.go:103-115 | once no live node depends on the failed one or on a skipped one, no live path to the failed one is left |
| Dependency.SkippingFacts | internal/task/dependency.go:103-115 | after skipping, no live node depends on the failed node or on anything whose status changed |
| Dependency.ScheduleListsPlan | internal/task/dependency.go:185-214 | a schedule of the nodes of a plan with unique ids is a permutation of the plan's subtasks |
| Dependency.SortPlan | internal/task/dependency.go:186-214 | sorting a validated acyclic plan gives each of its subtasks exactly once, every dependency before its dependents |
| Dependency.DependencyGraph.BuildGraph | internal/task/dependency.go:20-37 | under each id the dependencies and the status of the last subtask with it, an empty status read as pending, and nothing else |
| Dependency.DependencyGraph.AllDepsCompleted | internal/task/dependency.go:218-225 | true exactly when every dependency, known or not, shows completed |
| Dependency.DependencyGraph.GetReady | internal/task/dependency.go:48-62 | each pending node with all dependencies completed, once, and nothing else |
| Dependency.DependencyGraph.MarkRunning | internal/task/dependency.go:65-69 | changes one status only |
| Dependency.DependencyGraph.Complete | internal/task/dependency.go:72-89 | changes one status and returns exactly the nodes ready afterwards |
| Dependency.DependencyGraph.Fail | internal/task/dependency.go:92-99 | marks the node failed and skips exactly the pending or running nodes that reach it through pending or running nodes |
| Dependency.DependencyGraph.SkipDependents | internal/task/dependency.go:103-115 | the recursion terminates on any graph, cyclic or not, and skips exactly the live nodes that reach the given one, in any iteration order |
| Dependency.DependencyGraph.AllCompleted | internal/task/dependency.go:119-128 | true exactly when nothing is pending or running |
| Dependency.DependencyGraph.HasFailures | internal/task/dependency.go:131-140 | as written, never true; so its answer is right exactly if no status is failed |
| Dependency.UnseenFailure | internal/task/dependency.go:131-140 | a graph with a failed subtask for which it answers no |
| Dependency.DependencyGraph.HasCycles | internal/task/dependency.go:143-183 | true exactly when the dependency relation has a cycle; terminates with unknown ids too |
| Dependency.DependencyGraph.Dfs | internal/task/dependency.go:158-173 | reports only real cycles, and otherwise finishes the id after all its dependencies |
| Dependency.DependencyGraph.TopologicalSort | internal/task/dependency.go:186-214 | an error exactly for cyclic graphs; otherwise every id once, dependencies first, and for closed graphs exactly the nodes |
| Dependency.DependencyGraph.Visit | internal/task/dependency.go:197-207 | on an acyclic graph lists the id after all its dependencies and keeps what was listed |
| FileLocks.FileLockService.TryLock | internal/task/filelock.go:23-43 | grants all the files or none, exactly when no file is held by another subtask; granted, all the files are held and no other lock has changed |
| FileLocks.FileLockService.Release | internal/task/filelock.go:46-55 | drops exactly the locks of one subtask and keeps all others |
| FileLocks.ReleaseUndoesAcquire | internal/task/filelock.go:23-55 | releasing restores the locks that were there before a grant |
| Scheduler.OnlyWaitingSkipped | internal/task/dependency.go:103-115 | a failure skips only subtasks that still wait for a dependency, so never one that an agent works on |
| Scheduler.FailingMoves | internal/task/dependency.go:92-115 | a failure moves one running subtask to failed and other live ones only to skipped, each with a lost dependency |
| Scheduler.StepKeepsStatuses | internal/task/orchestrator.go:138-147 | every event keeps, for any plan: a status is as at the start, or earned with all dependencies completed and the outcome told truly, or skipped because a dependency was lost; and nothing live has lost one |
| Scheduler.StepKeepsRunning | internal/task/orchestrator.go:150-152 | every event keeps the running map a bijection onto the subtasks this run has started and not ended |
| Scheduler.StepKeepsLocks | internal/task/orchestrator.go:95-102 | every event keeps: a lock holder has an agent or is ready, holds all its files and no others, and every agent's subtask holds all its files |
| Scheduler.StepKeepsPlan | internal/task/orchestrator.go:240-245 | every event keeps the plan's status column equal to the graph's, but for skips |
| Scheduler.ReachableSound | internal/task/orchestrator.go:92-286 | all of these hold in every reachable state of every plan |
| SchedulerRuns.FileExclusion | internal/task/filelock.go:5-7 | in every reachable state two running agents share no involved file |
| SchedulerRuns.LockedExactlyWhen | internal/task/orchestrator.go:95-207 | in every reachable state a file is locked for a subtask exactly if the subtask involves it, was started or refused, and none of its agents has ended since; so a refusal keeps the locks and an end frees them |
| SchedulerRuns.RefusedExcludes | internal/task/orchestrator.go:97-101 | until an agent of a refused subtask ends, no other subtask that shares a file with it can start |
| SchedulerRuns.TerminalIsFinal | internal/task/orchestrator.go:209-286 | completed, failed and skipped are never undone in any run |
| SchedulerRuns.FreshReachable | internal/task/orchestrator.go:92-286 | in every reachable state of a fresh plan: what started has its dependencies completed, a pending subtask has lost none, skipped is exactly what neither is live nor has them completed |
| SchedulerRuns.StoppedConcludes | internal/task/orchestrator.go:180-194 | when nothing runs and nothing is ready, every status is the one its dependencies' statuses, the plan and the outcomes call for |
| SchedulerRuns.ConclusionUnique | internal/task/orchestrator.go:58-62 | an acyclic plan and the outcomes admit only one such assignment of statuses, whatever the pool |
| SchedulerRuns.FreshConclusion | internal/task/orchestrator.go:209-256 | for a fresh plan it is: completed iff the subtask and all it depends on succeed, failed iff it alone fails after its dependencies completed, skipped otherwise |
| SchedulerRuns.FreshOutcome | internal/task/orchestrator.go:180-207 | so every run of a fresh plan that stops ends in exactly these statuses, with nothing pending or running |
| SchedulerRuns.RunOutcome | internal/task/orchestrator.go:180-207 | any run that stops has concluded, with no agent running, no lock held, and the plan's column as the graph but for skips |
| SchedulerRuns.ScheduleIndependence | internal/task/orchestrator.go:92-286 | any two stopped runs of a plan, fresh or not, with the same outcomes end alike, whatever the order, the pool, its refusals and the lock conflicts |
| SchedulerRuns.LocksCannotDeadlock | internal/task/orchestrator.go:97-101 | if nothing runs and something is ready, something ready can take all its locks |
| SchedulerRuns.ResumableSettles | internal/task/orchestrator.go:185-194 | a resumable plan has nothing pending or running left when its run stops |
| SchedulerRuns.NoDeadlock | internal/task/orchestrator.go:185-194 | while anything of a resumable plan is unfinished and nothing runs, some ready subtask can take all its locks |
| SchedulerRuns.FinishesBounded | internal/task/orchestrator.go:180-201 | completions handled plus unfinished subtasks never exceed the number of subtasks |
| SchedulerRuns.StaleRunningNeverEnds | internal/task/dependency.go:30-34 | a subtask shown as running when the graph is built never completes or fails |
| SchedulerRuns.FreshIsResumable | internal/task/plan.go:129-136 | fresh plans are resumable |
| SchedulerRuns.SettlesExactlyWhen | internal/task/dependency.go:26-34 | a stored acyclic plan settles under all outcomes and schedules exactly if it shows nothing as running and no pending subtask waits for a failed, skipped or unknown one |
| SchedulerRuns.SettledByLuck | internal/task/dependency.go:103-115 | a three-subtask plan that is not resumable and yet settles when one subtask fails, so the condition is about all outcomes, not one |
| SchedulerRuns.InterruptedSettlesExactlyWhen | internal/task/orchestrator.go:138-147 | the plan that an interrupted run leaves behind settles in that sense exactly if nothing was running or skipped at the interruption |
| Orchestration.ExecutionPlan.Mark | internal/task/orchestrator.go:141-147 | the first subtask with the id shows the status; no other subtask and nothing else of it has changed |
| Orchestration.Orchestrator.TrySpawn | internal/task/orchestrator.go:95-152 | deferred exactly on a lock conflict; at a limit exactly if the agents in the pool do not admit one more; unless it is deferred, all files are held afterwards, even if the pool has refused, and no other lock has changed; a spawn performs the step's whole change |
| Orchestration.Orchestrator.SpawnReady | internal/task/orchestrator.go:92-172 | performs spawns only, stopping at the first refusal; a full sweep leaves nothing that could still start, whatever is running; a limit leaves something ready, and starves the task exactly if it leaves nothing running |
| Orchestration.Orchestrator.OnCompletion | internal/task/orchestrator.go:201-279 | extends the run by exactly one completion, of an agent that was running, and brings the loop closer to its end |
| Orchestration.Orchestrator.EventLoop | internal/task/orchestrator.go:180-286 | terminates, extends the run it is given and keeps the account of Run |
| Orchestration.Orchestrator.Run | internal/task/orchestrator.go:50-306 | rejects exactly the cyclic plans; otherwise, for any plan, performs a run of the step system, handles at most one completion per subtask, ends normally only where the plan and the outcomes determine, fails only on a spawn error, stops early only when cancelled, and is left waiting with nothing running exactly if agents of other tasks filled the pool when it had none |
| Orchestration.StarvedNext | internal/task/orchestrator.go:130-133 | an event starves a task exactly if it is a limit refusal while none of its agents runs |
| Orchestration.StarvedRun | internal/task/orchestrator.go:180-194 | a plan, a pool and a run of one refusal after which the loop waits |
| AgentPool.PoolBound | internal/agent/pool.go:107-124 | with at most k spawns in flight, active plus in-flight agents stay within maxAgents - 1 + k, and within maxPerTask - 1 + k per task; active and waiters have the same keys |
| AgentPool.LoneSpawnerRespectsLimits | internal/agent/pool.go:107-124 | one spawn at a time respects both configured limits |
| AgentPool.IdleRefusal | internal/agent/pool.go:109-123 | a task without agents is refused exactly when other tasks' agents fill the pool; this is what a waiting Run reports |
| AgentPool.BoundIsReached | internal/agent/pool.go:199-204 | for every k a run reaches maxAgents - 1 + k active agents |
| AgentPool.TaskBound | internal/agent/pool.go:113-123 | one task never has more than min(maxAgents, maxPerTask) - 1 + k active agents |
| AgentPool.TaskBoundIsReached | internal/agent/pool.go:113-123 | for every k a run reaches that number |
| AgentPool.PoolLimitExactlyWhen | internal/agent/pool.go:107-111 | every run respects maxAgents exactly if at most one spawn is in flight at a time |
| AgentPool.TaskLimitExactlyWhen | internal/agent/pool.go:113-123 | every run respects maxPerTask for every task exactly if min(maxAgents, maxPerTask) - 1 + k does |
| AgentPool.Pool.BeginSpawn | internal/agent/pool.go:107-126 | refuses exactly at the limits and otherwise leaves one more spawn in flight |
| AgentPool.Pool.FinishSpawn | internal/agent/pool.go:128-211 | registers the agent with a fresh empty result channel of its own, or leaves no trace of it |
| AgentPool.Pool.ContainerExited | internal/agent/pool.go:242-266 | removes the agent from both maps; its own channel, empty and open until then, carries exactly the one result and is closed, once |
| AgentPool.Pool.Wait | internal/agent/pool.go:364-375 | the agent's own channel while it is active, and a closed channel holding a failure afterwards |
| Protocol.ManagerAloneMeansDone | internal/task/collaborative.go:193-212 | when only the manager runs after the first wave, every subtask is completed or failed |
| Protocol.ReachableSound | internal/task/collaborative.go:98-330 | in every reachable state launched workers have ended or have an agent, at most one manager runs, and every ALL_WORKERS_DONE sent listed only completed and failed workers |
| Protocol.AnnouncedWhenDone | internal/task/collaborative.go:223-231 | at every ALL_WORKERS_DONE of a run exactly the manager runs and every subtask has ended; the message, which stays in its place, lists the status each subtask has then |
| Protocol.StatusTold | internal/task/collaborative.go:487-524 | in every reachable state a subtask shows what the last event about it said, running for a launch or respawn, completed or failed as its agent ended, and what it showed at the start if there was none; nothing else of it changes |
| Protocol.SignalsTold | internal/task/collaborative.go:455-543 | WORKER_COMPLETED has been sent for a subtask once for every agent of it that ended with success, WORKER_FAILED once for every other, MANAGER_EXITED once for every end of the manager that is told, each respawn report as often as it was made |
| Protocol.SignalsStay | internal/task/collaborative.go:455-543 | what has been sent by any prefix of a run comes first in what the run sends |
| Protocol.SpawnsConserved | internal/task/collaborative.go:472-543 | worker spawns equal WORKER_COMPLETED plus WORKER_FAILED plus running workers, in every reachable state |
| Protocol.NothingRunning | internal/task/collaborative.go:204-207 | with nothing running, every spawn has been reported and every launched subtask has ended |
| Collaborative.CollaborativeRun.HandleCompletion | internal/task/collaborative.go:442-544 | the protocol's step: for the manager MANAGER_EXITED and an unchanged plan; for a worker WORKER_COMPLETED and completed exactly if it succeeded, otherwise WORKER_FAILED and failed, all other subtasks unchanged |
| Collaborative.CollaborativeRun.LaunchAll | internal/task/collaborative.go:98-174 | launches every subtask once, in plan order; after a refusal at the pool's limit, and only then, one completion is handled before the launch is tried again; it ends early only on cancellation or with a spawn that failed for good, and never waits with nothing running |
| Collaborative.SomebodyRuns | internal/task/collaborative.go:133-137 | at every refusal of the first wave the manager or a worker runs, so that the completion awaited then will come |
| Collaborative.CollaborativeRun.AwaitWorkers | internal/task/collaborative.go:189-221 | handles completions only, and returns with nobody running, with the manager alone, or cancelled |
| Collaborative.CollaborativeRun.WaitForManagerDecision | internal/task/collaborative.go:548-595 | takes one turn of the environment after the other: polls while nothing is found, and stops at the first respawn message, when the manager leaves, on cancellation, or when no turn is left |
| Collaborative.CollaborativeRun.RespawnWorkers | internal/task/collaborative.go:249-322 | answers each request for a known subtask, in order, with one fix worker or one RESPAWN_FAILED, then reports; when cancelled, it has answered a first part of them so |
| Collaborative.CollaborativeRun.Consult | internal/task/collaborative.go:223-322 | one ALL_WORKERS_DONE, then the manager's leaving, or the answers to the next respawn message and their report |
| Collaborative.CollaborativeRun.Rounds | internal/task/collaborative.go:186-330 | the run is a sequence of rounds, one per respawn message taken up, in order, each the completions, the announcement, the answers to that message and the report of their number; then one of the ways to end, the manager's leaving, a cancellation or the want of turns being what the turns used tell |
| Collaborative.RunCollaborative | internal/task/collaborative.go:24-355 | the run is the manager, a first wave in which somebody runs at every refusal, and these rounds; the log is what the turns used have written, each respawn message found in it is taken up exactly once and answered in its own round, one announcement per round; it fails only with a failed spawn, is suspended only when every turn is used, and an uncancelled finish leaves nothing running and every subtask ended |
| Comms.ParseRespawnContent | internal/task/comms.go:228-257 | the requests on the lines after the first marker; none without a marker |
| Comms.ListAfterIs | internal/db/queries.go:785-808 | rows after a cursor that has read n messages are exactly the rest of the log |
| Comms.CheckRespawnRequests | internal/task/comms.go:189-221 | stops right after the first respawn message behind the cursor or reads to the end; what it returns comes from a message of the manager's that holds the marker; the cursor is the id of the last row read, never falls back and skips nothing |
| Comms.OnlyManagerAsks | internal/task/comms.go:202-212 | a message of another sender, of another type or without the marker makes no request, whatever it contains |
| Comms.OthersLeaveNoTrace | internal/task/comms.go:202-212 | such a row may be left out of the log without changing the requests found |
| Comms.PollSession | internal/task/comms.go:187-221 | after any interleaving of new rows and polls, failed ones included, what has been delivered is exactly the respawn messages among the rows read, each once, in order; the rows read are told by the interleaving |
| Comms.PollProgress | internal/task/comms.go:195-217 | each successful poll delivers one more message, or has delivered and read everything |
| Comms.EnoughPollsDrain | internal/task/comms.go:187-221 | as many successful polls as messages are outstanding deliver them all, and one more leaves nothing unread |
| Comms.CursorNeverFalls | internal/task/comms.go:196-199 | the cursor never falls back during a session |
| RespawnFormat.RespawnRoundTrip | internal/task/comms.go:223-257 | a respawn message in the documented format, after any text without the marker, is parsed back into its requests |
| RespawnFormat.EveryLine | internal/task/comms.go:236-251 | a line without a colon, or with only white space before its first one, says nothing; every other makes one request of what stands before and after it, white space around them cut off |
| RespawnFormat.SpacedRequest | internal/task/comms.go:236-254 | a request is read back from its line whatever white space stands around its parts, and without instructions too |
| RespawnFormat.MessageMeaning | internal/task/comms.go:228-257 | a message says what its lines from the marker on say, one after the other; cutting white space off the whole body loses nothing |
| Layering.DepthBounded | web/src/lib/components/DependencyGraph.svelte:31-44 | without rooted cycles, cycles with a root below them, depths stay below the number of ids |
| Layering.RaisingUsesSlack | web/src/lib/components/DependencyGraph.svelte:38-41 | every raised depth uses up part of a finite slack |
| Layering.StepsWork | web/src/lib/components/DependencyGraph.svelte:23-44 | after every step, on any plan: depths are lengths of real paths to roots, and all edges but those into queued ids are relaxed |
| Layering.EndsExactlyWhen | web/src/lib/components/DependencyGraph.svelte:31-44 | on any plan, with repeated ids, unknown dependencies or cycles, the worklist ends exactly if there is no rooted cycle |
| Layering.NeverEnds | web/src/lib/components/DependencyGraph.svelte:31-44 | a plan of three subtasks that validation accepts and on which it never ends |
| Layering.CyclicButEnds | web/src/lib/components/DependencyGraph.svelte:31-44 | a cyclic plan on which it ends |
| Layering.FixedPointIsDeepest | web/src/lib/components/DependencyGraph.svelte:31-44 | an empty worklist means that exactly the ids above some root are visited, each at the length of its longest path to a root |
| Layering.FixedPointIsLongest | web/src/lib/components/DependencyGraph.svelte:31-44 | in a closed acyclic graph that is the length of its longest dependency path of all |
| Layering.LongestUnique | web/src/lib/components/DependencyGraph.svelte:19-44 | that length is unique |
| Layering.DeepestIncreases | web/src/lib/components/DependencyGraph.svelte:13 | a subtask lies strictly deeper than each of its dependencies that has a root below it |
| Layering.MergedUnique | web/src/lib/components/DependencyGraph.svelte:31-44 | for unique ids the graph the view works on is the plan's dependency relation |
| Layering.ComputeDepths | web/src/lib/components/DependencyGraph.svelte:19-49 | terminates on every plan without rooted cycles; each subtask gets the length of its longest path to a root, or zero if there is none; with closed dependencies and no cycles, of its longest path of all |
| PlanView.GroupByLayer | web/src/lib/components/DependencyGraph.svelte:51-57 | one layer per depth, in plan order |
| PlanView.PositionNodes | web/src/lib/components/DependencyGraph.svelte:62-79 | draws every grid cell exactly once at its place |
| PlanView.DifferentCellsApart | web/src/lib/components/DependencyGraph.svelte:65-78 | nodes of different cells are at least a gap apart |
| PlanView.BuildEdges | web/src/lib/components/DependencyGraph.svelte:81-100 | for every dependency between drawn nodes as many lines as it is declared, and no others; each joins the middle of one node's right side to the middle of the other's left side |
| PlanView.ComputeLayout | web/src/lib/components/DependencyGraph.svelte:14-106 | for every plan without rooted cycles: each subtask drawn in the column of its depth, with unique ids only once and in plan order downwards, no overlaps, the canvas is the smallest that holds them; lines join the middles of facing sides, and one runs left to right across a gap if a root lies below its source; closed plans have one line per declared dependency, acyclic ones all of them forward |
| RingBuffers.ShortWriteMirrors | internal/stream/buffer.go:48-58 | a wrapping write shifts every kept byte by the bytes written |
| RingBuffers.ReadsLast | internal/stream/buffer.go:119-127 | reading backwards from the write position yields the end of the history |
| RingBuffers.RingBuffer.Write | internal/stream/buffer.go:31-60 | appends to the history, for writes of any size |
| RingBuffers.RingBuffer.ReadAll | internal/stream/buffer.go:64-89 | the whole history while shorter than the buffer, its last size bytes when longer, and nothing when exactly as long |
| RingBuffers.RingBuffer.ReadFrom | internal/stream/buffer.go:93-128 | the history from an offset that is still kept, from the oldest kept byte for an earlier one, nothing for an offset at or past the end; the second clamp is unreachable |
| RingBuffers.RingBuffer.Len | internal/stream/buffer.go:131-139 | the number of bytes kept |
| RingBuffers.WriteAll | internal/stream/buffer.go:7-16 | after any sequence of writes the history is their concatenation |
| RingBuffers.FullBufferReadsEmpty | internal/stream/buffer.go:73-80 | a two-byte buffer that received two bytes keeps two and reads as empty |
| HubRegistry.Hub.RegisterAgent | internal/stream/hub.go:127-143 | a fresh empty buffer for the agent; all others as before |
| HubRegistry.Hub.UnregisterAgent | internal/stream/hub.go:198-220 | moves the buffer to the finished ones; what a reader sees of any agent, and of all agents with their tasks, is unchanged |
| HubRegistry.Hub.GetFullBuffer | internal/stream/hub.go:340-351 | what reading the agent's buffer gives, active before finished |
| HubRegistry.Hub.GetBackfill | internal/stream/hub.go:302-337 | one agent's buffer, or the task's buffers each once, active ones first; with no agent both active and finished these are all the task's agents |
| HubRegistry.BackfillsAgree | internal/stream/hub.go:318-336 | two backfills of a task over the same views list the same agents the same number of times |
| DockerFrames.StripDockerLogHeaders | internal/task/planner.go:432-461 | terminates on every byte string and computes the specified result; output that no header starts is returned as it is |
| DockerFrames.WireFormat | internal/task/planner.go:443-449 | an encoded frame is its stream, three zero bytes, the length in four bytes with the high one first, and the payload |
| DockerFrames.StripUndoesEncode | internal/task/planner.go:430-461 | the encoding of any frames is stripped to their concatenated payloads |
| DockerFrames.Decompose | internal/task/planner.go:443-456 | every byte string is some frames followed by a rest that is short, raw or cut off |
| DockerFrames.StripMeaning | internal/task/planner.go:432-461 | what is returned for frames followed by any rest |
| DockerFrames.StripEveryString | internal/task/planner.go:432-461 | so the meaning covers every input |
| Execution.DependenciesMet | internal/task/executor.go:368-385 | every dependency is met as `DepMetFirst` says; an unknown one is not |
| Execution.DepMetFirst | internal/task/executor.go:368-385 | a dependency is met exactly if the first subtask with its id is completed |
| Execution.SnapshotDeps | internal/task/executor.go:99-106 | on any persisted snapshot the check means: all dependencies are listed earlier |
| Execution.FinalFromAnywhere | internal/task/executor.go:93-97 | resuming from any achievable prefix leads to the same final statuses |
| Execution.FinalStops | internal/task/executor.go:79-143 | the final statuses in closed form: completed up to the first failing or unmet subtask, untouched after it |
| Execution.RunSubtask | internal/task/executor.go:111-133 | the subtask is executed once and ends completed or failed; the row shows it unless a write was lost to cancellation |
| Execution.Execute | internal/task/executor.go:54-144 | the row always shows a completed prefix that only grows; exactly the subtasks from its end on are executed, in order, each with its dependencies completed, and at most the last of them does not count as completed afterwards; uncancelled it reaches the final statuses and stops only at a failure or an unmet dependency; the outcome is told by the plan, the row and the environment; the result, of a cancelled call too, lists the first subtasks as completed, as far as they were found so or executed, and an error names exactly the next one, executed last or with an unmet dependency |
| Execution.Lifecycle | internal/task/executor.go:79-143 | any number of pausable executions and one uninterrupted one, each taking up the row the one before left, end as one uninterrupted execution would, with its result; nothing shown as completed is ever executed again; each pause costs at most one repeated subtask |
| Execution.RepeatsExactlyWhen | internal/task/executor.go:93-97 | a call repeats a subtask of the one before exactly if that had started one the row does not show as completed, and this call gets to it; then it is that one |
| Execution.OnePauseRepeats | internal/task/executor.go:108-134 | two executions, the first paused while its subtask runs and with its last write lost, that execute the subtask twice |
| LogRotation.DiskIsSuffix | internal/service/logrotate.go:50-85 | after any writes the files from oldest to newest are a suffix of everything written |
| LogRotation.FilesBounded | internal/service/logrotate.go:10-12 | each file is within maxSize, untouched, or one single write; there are at most maxFiles old ones, or one |
| LogRotation.NothingLostYet | internal/service/logrotate.go:70-85 | with fewer than maxFiles old files, or none, the files hold everything written |
| LogRotation.NeighboursAlwaysExceed | internal/service/logrotate.go:55-60 | two neighbouring files always hold more than maxSize bytes together |
| LogRotation.Retention | internal/service/logrotate.go:10-12 | either everything written is kept, or at least the last (maxFiles + 1) / 2 * (maxSize + 1) bytes |
| LogRotation.AtMostMaxFiles | internal/service/logrotate.go:10-12 | at most maxFiles old files for every history exactly when maxFiles is at least one |
| LogRotation.RotatingWriter.DoRotate | internal/service/logrotate.go:67-85 | the directory after rotating is the list shifted by one and cut at the limit |
| LogRotation.RotatingWriter.Write | internal/service/logrotate.go:51-65 | appends to the current file, rotating first exactly when the file would exceed maxSize |
| LogRotation.WriteAllTo | internal/service/logrotate.go:50-85 | the directory after any writes into an empty one holds exactly the specified files |

## Left out

- Docker, git, HTTP, WebSocket, SQLite and the file system: their outcomes are choices, parameters, maps or lists.
- Prompts, role hints, summaries as text, events and logging: text with no invariant; `AllWorkersDone` carries the status column only.
- The pointers from graph nodes into the plan's subtask slice: nodes are values, since the graph reads only ids, dependencies and files through them, which never change.
- Status strings other than the five the scheduler uses and the empty one.
- Goroutines, channels and mutexes as such: completions arrive in any order and critical sections are atomic steps.
- Agent ids are numbers that never repeat instead of UUIDs.
- The reviewer agent that follows a run.
- The pool's agents when the manager or a fix worker is spawned: such a spawn succeeds or fails freely.
- The real-time branch of waiting for the manager's decision: it subscribes after the signal is sent and its channels drop messages, so it promises no delivery; the polling branch is modelled.
- Collaborative.RunCollaborative: needs unique subtask ids none of which is "manager", because the source tells the manager by that id; it ends as Suspended when the environment's finite script is used up, since fix rounds have no limit.
- Orchestration.Orchestrator.Run: takes it that nothing else spawns agents for the task while it runs, so that the pool holds only agents of it that the loop still counts as running.
- Execution.Execute: database writes are lost only on a cancelled context; other write failures, checkpoints and autosave are not modelled.
- The output pump and fan-out to clients: slow clients lose frames. Re-registering an agent id, which UUIDs exclude, is allowed in the registry but its effect on a whole task's backfill is not stated.
- Overflow of the ring buffer's byte counter and of 64-bit sizes, and nil as distinct from an empty slice.
- I/O errors in the log rotator, and starting it in a directory with old files.
- Colours, icons and edge curves of the plan view; how often it draws a subtask that a plan lists twice.
- Task lifecycle, JSON and regex parsing, repository analysis, configuration, service installers, rate limits, API handlers: thin, or without an invariant to prove.
