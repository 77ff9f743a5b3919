# Verified model of the autonomy core

This project models the core of an autonomous computer-operator runtime in Dafny and proves what
its parts keep over whole runs. `dafny verify dfyconfig.toml` checks everything.

## What is modelled

* **Task graphs and the engine** (`task_model`, `scheduling`, `engine_model`, `engine_theorems`,
  `task_graph`, `task_engine`, `task_runner`): a dependency graph with cycle detection, bounded
  retries and recursive blocking, the greedy resource-aware scheduler, the batch loop of
  `run_graph`, and missions that are saved and resumed. What an execution returns and which locks
  others hold are arbitrary functions of the round, so the theorems cover every run.
* **Resource locks** (`resource_locks`): any number of frames that acquire sorted resources one by
  one, as a step system; `engine_locks` puts them under the engine.
* **The event bus** (`event_queue`, `event_bus_model`, `event_dedupe`, `event_delivery`, `event_bus`), the
  **sliding-window limiter** (`resource_limiter`) and the **runtime event bus with its store**
  (`runtime_events`, `runtime_event_bus`): each bounded structure is proved against the full log.
* **Delegated authority** (`leases`, `lease_grants`, `permissions`, `agent_model`, `agent_theorems`,
  `agent_tree`, `agent_authority`, `agent_lifecycle`, `agent_manager`), **mission budgets** (`governor`,
  `governor_bound`), the **autonomy mode** (`mode_policy`) and the **gates of `ActionRuntime.perform`**
  (`executor_model`, `executor`), which put them together.
* **Snapshot detectors** (`filesystem_detector`, `snapshot_detector`) and **screen grounding**
  (`grounding`).

Code that works step by step is a class or a method here too. Its contract equates the new state
with a function of the old one, and the theorems are lemmas about that function; what a function
decides is also stated by lemmas in terms of the inputs alone (`RunsExactly`, `EvaluatesExactly`,
`RoutingDelivers`, `BatchServesPriority`, `ReportsExactly` and their like). Clocks
(`clocks`) are functions from the number of readings to times; identifiers are fresh by construction
(agents, leases) or given (actions, tasks).

## Where the code and its promises differ

* `next_tasks` tests the limit for equality after it has taken a task, so a limit of zero or less
  bounds nothing: `Scheduling.LimitRespectedExactly` says exactly when the limit holds. `run_graph`
  always passes at least one.
* `release_agent` is described as cleanup after an agent that died, but while the agent's frame is
  still inside it breaks mutual exclusion: `ResourceLocks.ReleaseAgentSafeExactly`,
  `ResourceLocks.ReleaseAgentBreaksExclusionExactly`, `ResourceLocks.ReleaseAgentBreaksExclusion`.
* Where the governor asks for approval the autonomy mode is not consulted, so a paused, taken-over
  or observing runtime still runs a risky tool of a mission once the handler approves:
  `ExecutorModel.DenyingModeRunsExactly`, `ExecutorModel.PausedRuntimeRunsRiskyTool`.
* `end_action` is not told which action ends, so an end that belongs to no action in flight lowers the
  count of the others and lets more than the limit run at once: `ResourceLimiter.CounterRightExactly`,
  `ResourceLimiter.StrayEndBreaksLimit`. `AgentActionExecutor` pairs the two calls.
* An action identity is meant to be used once and every action to be charged to its budget, but a
  perform that an exception leaves after its tool has run (a verifier that raises, a cancellation) records
  nothing, and the same action runs its tool again: `ExecutorModel.InvokedOnceExactly`,
  `ExecutorModel.RunsWithinBudget`, `ExecutorModel.EscapeRunsToolTwice`.
* Where two elements tie for the anchor of a query, the order of the elements decides whether a target is
  found: `Grounding.AnswerIgnoresOrder`, `Grounding.TieChangesAnswer`.
* The data of a snapshot detector's events flattens key, value and previous value into one
  dictionary and can lose each of them: `SnapshotDetector.ReadableExactly` says for which readers it
  does not, and `SnapshotDetector.IdEntryHidesKey`, `SnapshotDetector.PlainLooksLikeFields` and
  `SnapshotDetector.ChangeHidesPreviousEntry` are collisions.
* Under a permission in approval mode, an approval given with `approve_once` before an action is
  performed never helps that action: the runtime's own check uses it up and the manager's check then
  refuses (`ExecutorModel.ApprovalModeRunsExactly`, `ExecutorModel.PriorApprovalIsWasted`).
* Revoking a permission does not reach those it was passed on to
  (`AgentAuthority.HierarchyKeptExactly`); containment in the root's permissions holds regardless.
* The numbering of runtime events survives a restart only if both the bus and its store retain
  something (`RuntimeEvents.NumberingKeptExactly`, `RuntimeEvents.RestartKeepsCounterExactly`); a bus
  without persistence starts again at one (`RuntimeEvents.RestartReusesNumber`).
* An ordinal below -1 indexes from the end of the list, one further than it says, and may raise
  (`Grounding.OrdinalPicksReadingOrder`, `Grounding.FailsExactlyBelowList`,
  `Grounding.SingleElementFails`).

## Model

| member | source | states |
|---|---|---|
| `EngineTheorems.RunSettles` | app/autonomy/task_engine.py:103-126 | From a sound acyclic graph with nothing running, whatever the executions return and whatever locks are held meanwhile, a run ends with every task completed, failed or blocked exactly when no task is left runnable; each task left runnable needs a resource held at the last poll, so a run always settles when none is held; and then the blocked tasks are exactly those with a failed transitive dependency |
| `EngineTheorems.BlockedExactly` | app/autonomy/task_graph.py:77-91 | In a settled sound graph a task is blocked if and only if some task it transitively depends on failed, and its error names such a task |
| `EngineTheorems.UnsettledMeansRunnable` | app/autonomy/task_graph.py:70-72 | In a sound acyclic graph with nothing running, some task is unsettled if and only if some task is runnable: there is always a next step |
| `EngineTheorems.RunKeepsSound` | app/autonomy/task_engine.py:103-126 | Every run keeps the invariant of the graph: nothing pending waits behind a failed or blocked task, nothing ran before its dependencies completed, every blocked task has a failed one to blame, and no task is left running |
| `EngineTheorems.FreshIsSound` | app/autonomy/task_engine.py:92-103 | A graph of pending tasks whose dependencies are all present has the invariant, so the theorems apply to every graph that validates |
| `EngineTheorems.RoundKeepsSound` | app/autonomy/task_engine.py:104-126 | One round, whatever the outcomes of its batch, keeps that invariant and hands back every task it started |
| `EngineTheorems.FinalFailureKeepsSound` | app/autonomy/task_graph.py:83-91 | A final failure together with its recursive blocking keeps the invariant |
| `EngineTheorems.RunStopsIdle` | app/autonomy/task_engine.py:103 | The loop ends only at a poll where the scheduler has nothing to hand out |
| `EngineTheorems.IdleGraph` | app/autonomy/task_engine.py:103-126 | What an empty poll says of a sound acyclic graph: settled unless runnable tasks all conflict with held resources |
| `EngineTheorems.StartsArePaidFor` | app/autonomy/task_graph.py:77-85 | In every run a task is started at most as often as its retry budget (remaining retries plus one while unsettled) falls |
| `EngineTheorems.RoundsBounded` | app/autonomy/task_engine.py:103-126 | The number of rounds is at most the fall of the total retry budget: the loop ends |
| `EngineModel.RoundSpendsBudget` | app/autonomy/task_engine.py:104-125 | Every round with a non-empty batch strictly lowers the total budget and leaves a graph of the same tasks |
| `EngineModel.RoundEffect` | app/autonomy/task_engine.py:104-125 | What one round does to each task: members of the batch complete, go back to pending with one retry less, or fail; others change only from pending to blocked, and not at all when everything they depend on has completed |
| `EngineTheorems.OnlyPendingTasksChange` | app/autonomy/task_graph.py:70-91 | A task that is not pending when a run begins is never started and keeps its state to the end |
| `EngineTheorems.CompletedExactly` | app/autonomy/task_engine.py:124 | `completed` lists exactly the tasks that the run turned from not completed to completed |
| `EngineTheorems.CompletedIsTopological` | app/autonomy/task_engine.py:118-126 | `completed` has no duplicates, and every dependency of a listed task was complete before the run or is listed earlier |
| `TaskEngine.ReportIsHonest` | app/autonomy/task_engine.py:127-137 | About a settled graph the report says verified exactly when no criterion is unmet and every task completed, and blocked exactly when some task has a failed transitive dependency, and then its reason names a failed task that another depends on |
| `TaskEngine.ReportsExactly` | app/autonomy/task_engine.py:92-137 | The report and the journal of a run, read off the graphs before and after it: completed and verified exactly when no criterion is unmet and every task completed; otherwise blocked exactly when some task is blocked, partially completed exactly when none is and the run completed some task, failed exactly when none is and it completed none; it lists what the run completed, the unmet criteria, and as reason the error of the first blocked task in insertion order, or else of the first failed one, or else that the criteria were not met |
| `TaskEngine.AutonomousTaskEngine.RunGraph` | app/autonomy/task_engine.py:90-137 | The method leaves the graph, the report and the journal that the run of the specification has: the opening, for every round the starts of its batch and then its outcomes in order, and the closing entry; a graph that does not validate is refused untouched, and a dry run executes nothing |
| `TaskEngine.AutonomousTaskEngine.RunRounds` | app/autonomy/task_engine.py:100-126 | The loop terminates and refines the recursive run: same final graph, same completed list, and every journal entry of every round |
| `TaskEngine.AutonomousTaskEngine.RunRound` | app/autonomy/task_engine.py:104-126 | One iteration of the loop is one round of the specification |
| `TaskEngine.AutonomousTaskEngine.StartBatch` | app/autonomy/task_engine.py:104-106 | Every node of the batch is marked running and journalled in order, and no other node changes |
| `TaskEngine.AutonomousTaskEngine.SettleBatch` | app/autonomy/task_engine.py:119-125 | The outcomes are handed to the graph and journalled in batch order |
| `TaskEngine.AutonomousTaskEngine.Conclusion` | app/autonomy/task_engine.py:127-137 | The report computed from the final graph; what it says of that graph is `ReportsExactly` |
| `TaskEngine.JournalTellsStarts` | app/autonomy/task_engine.py:104-125 | The start entries of the journal, in order, are exactly the tasks that the run starts |
| `TaskEngine.JournalTellsCompletions` | app/autonomy/task_engine.py:119-125 | The completion entries of the journal, in order, are exactly the tasks that the run completes |
| `EngineLocks.RunSettlesWhenFramesFinish` | app/autonomy/task_engine.py:103-126 | If the resources held at the last poll are those of a lock manager all of whose frames have finished, the run has settled and the blocked tasks are exactly those with a failed transitive dependency |
| `EngineLocks.RunSettlesAfterFrames` | app/autonomy/resources.py:18-33 | So it is after every interleaving in which the frames make all their steps, from any safe state |
| `Scheduling.NextTasksCharacterized` | app/autonomy/task_graph.py:117-127 | A selection is what the scheduler returns if and only if it obeys the rules: runnable tasks in rank order, free of held resources and of each other, at most `limit` when `limit` is positive, every omitted one conflicting with held resources or an earlier-ranked pick or coming after a full batch. The insertion order of the tasks plays no part |
| `Scheduling.BatchServesPriority` | app/autonomy/task_graph.py:117-127 | A batch, by status, dependencies, resources, priority, deadline and id of its tasks: pending with every dependency completed, nothing held and nothing shared, highest priority first, among equals the earlier deadline with none standing for the last instant, then the smaller id, and no longer than a positive limit |
| `Scheduling.LeftOutForPriority` | app/autonomy/task_graph.py:119-127 | A ready task that is left out needs something held, or something that a pick of no lower priority needs, or the batch is full with picks of no lower priority |
| `Ordering.StrLeqExactly` | app/autonomy/task_graph.py:121 | Identifiers are compared at the first place where they differ, and a prefix comes first |
| `Scheduling.GreedyIsUnique` | app/autonomy/task_graph.py:121-126 | No other selection obeys the rules |
| `Scheduling.GreedySelects` | app/autonomy/task_graph.py:121-126 | The greedy loop obeys the rules |
| `Scheduling.IdleExactly` | app/autonomy/task_graph.py:117-127 | The scheduler returns nothing if and only if every runnable task needs a held resource |
| `Scheduling.LimitRespectedExactly` | app/autonomy/task_graph.py:125-126 | A batch keeps within `limit` if and only if `limit` is positive, or it is zero and nothing can be taken: the test for equality comes after the append |
| `Scheduling.LimitZeroTakesATask` | app/autonomy/task_graph.py:123-126 | A concrete case: limit zero on one free task selects it |
| `Scheduling.RankLeqIsTotalOrder` | app/autonomy/task_graph.py:121 | The sort key (descending priority, deadline or the last instant, id) is a total order |
| `TaskEngine.TaskScheduler.NextTasks` | app/autonomy/task_graph.py:117-127 | The method returns the tasks of the specified batch, or the error of `validate`; what a batch looks like is `BatchServesPriority` |
| `TaskEngine.TaskScheduler.Select` | app/autonomy/task_graph.py:119-127 | The loop that grows `selected` and `reserved` computes the greedy selection |
| `TaskGraphs.TaskGraph.Validate` | app/autonomy/task_graph.py:51-68 | Returns normally if and only if every dependency names a task of the graph and the dependency relation has no cycle; otherwise says which of the two fails |
| `TaskGraphs.TaskGraph.Visit` | app/autonomy/task_graph.py:58-66 | The depth-first search terminates; it fails only when a task depends on itself, and otherwise extends a list in which dependencies come first |
| `TaskGraphs.PostOrderedMeansAcyclic` | app/autonomy/task_graph.py:58-68 | A list of all tasks with dependencies first rules out every cycle |
| `TaskGraphs.RevisitIsCycle` | app/autonomy/task_graph.py:59-60 | Meeting a task that is being visited exhibits a cycle |
| `TaskGraphs.TaskGraph.Add` | app/autonomy/task_graph.py:44-49 | A duplicate id or a self-dependency is refused and changes nothing; any other task is added |
| `TaskGraphs.TaskGraph.Runnable` | app/autonomy/task_graph.py:70-72 | Exactly the pending tasks whose dependencies are complete, once each, in insertion order |
| `TaskGraphs.RunnableInExactly` | app/autonomy/task_graph.py:70-72 | Filtering the insertion order gives every runnable task once |
| `TaskGraphs.TaskGraph.Complete` | app/autonomy/task_graph.py:74-75 | Completes one task and touches no other |
| `TaskGraphs.TaskGraph.Fail` | app/autonomy/task_graph.py:77-85 | A failure within the retry limit returns the task to pending; the last one fails it and blocks its dependents |
| `TaskGraphs.TaskGraph.Cancel` | app/autonomy/task_graph.py:101-103 | Cancels a task and blocks its dependents |
| `TaskGraphs.TaskGraph.BlockDependents` | app/autonomy/task_graph.py:87-91 | The recursion blocks exactly the tasks that reach the given one through pending tasks, each with the given reason, and terminates |
| `TaskModel.PendingPathIsDependency` | app/autonomy/task_graph.py:87-91 | Everything that the recursion blocks depends transitively on the task it started from |
| `TaskModel.DependentsClosed` | app/autonomy/task_graph.py:87-91 | No pending task is left behind a blocked one |
| `TaskModel.MinimalMember` | app/autonomy/task_graph.py:51-68 | In an acyclic relation every non-empty set of tasks has a member that depends on no other member |
| `TaskRunner.RestoreUndoesSerialize` | app/autonomy/task_runner.py:28-39 | Restoring onto any state of the same tasks what was saved gives back status, retries and error of every task |
| `TaskRunner.StatusRoundTrip` | app/autonomy/task_runner.py:30-31 | Reading and writing status values are inverse, and no other string is a status |
| `TaskRunner.RestoresExactly` | app/autonomy/task_runner.py:28-33 | Restoring overwrites status, retries and error of exactly the tasks saved with the value of a status; a missing retry count is zero |
| `TaskRunner.SerializesExactly` | app/autonomy/task_runner.py:35-39 | A saved node has objective, status, retries and error of its task, and its dependencies once each in ascending order |
| `TaskRunner.TotalStartsBounded` | app/autonomy/task_runner.py:16-22 | Over any number of resumed runs that return normally, a task is started in all at most as often as its first restored state allows |
| `TaskRunner.FreshMissionStarts` | app/autonomy/task_runner.py:16-22 | From a fresh mission, the starts of a task over all runs, each of which returns normally, never exceed `max_retries` plus one |
| `TaskRunner.OnlyPendingTasksResume` | app/autonomy/task_runner.py:28-33 | A task that was not saved as pending is never started again and keeps its state through all later runs |
| `TaskRunner.ResumedOrderIsTopological` | app/autonomy/task_runner.py:16-25 | The completions of all runs put together have no duplicates and respect the dependencies; nothing completed before is completed again |
| `TaskRunner.ResumeKeepsSound` | app/autonomy/task_runner.py:16-39 | Whatever was saved after any number of runs restores to a graph with the invariant and with nothing running |
| `TaskRunner.NoRunningTaskIsSaved` | app/autonomy/task_runner.py:35-39 | No save after a fresh mission carries the status "running" |
| `TaskRunner.TaskEngineMissionRunner.Call` | app/autonomy/task_runner.py:16-25 | The method restores from the checkpoint or else the mission, runs, saves the final graph in both places, and maps the outcome to a mission status |
| `TaskRunner.MissionEndsExactly` | app/autonomy/task_runner.py:16-25 | The status of a mission, read off what the call saved: completed exactly when no criterion is unmet and every saved task is "completed"; otherwise blocked exactly when some is "blocked", partially completed exactly when none is and the call completed some task, failed exactly when none is and it completed none |
| `TaskRunner.TaskEngineMissionRunner.RestoreGraph` | app/autonomy/task_runner.py:28-33 | Only tasks of the graph with a known status value are overwritten; other saved entries are ignored |
| `TaskRunner.TaskEngineMissionRunner.SerializeGraph` | app/autonomy/task_runner.py:36-39 | One entry for each task, dependencies sorted |
| `ResourceLocks.RunsAreSafe` | app/autonomy/resources.py:18-33 | In every run of any number of frames without `release_agent`, no resource is held by two frames, what is held is locked and owned by the holder's agent, and nothing else is locked or owned |
| `ResourceLocks.RunsFromInitialAreSafe` | app/autonomy/resources.py:15-33 | In particular in every such run from the manager as it is created |
| `ResourceLocks.FinishExactly` | app/autonomy/resources.py:30-33 | A frame that leaves or gives up part-way releases exactly the locks that it holds and removes exactly its own entries |
| `ResourceLocks.FinishKeepsOthers` | app/autonomy/resources.py:30-33 | In any state, a frame that leaves or gives up takes no entry away from another agent |
| `ResourceLocks.NoDeadlock` | app/autonomy/resources.py:20-29 | In every safe state, if some frame has not finished then some frame can take its next lock or leave, without a timeout |
| `ResourceLocks.ClimbToProgress` | app/autonomy/resources.py:20-28 | From a waiting frame the holders of the awaited resources climb in the sorted order to a frame that can move |
| `ResourceLocks.EveryFrameFinishes` | app/autonomy/resources.py:20-33 | Without timeouts and new frames, whatever the interleaving, a run that cannot be continued has one fixed length, and exactly the runs of that length finish every frame |
| `ResourceLocks.FinishedFramesHoldNothing` | app/autonomy/resources.py:29-33 | When every frame has finished, no resource is locked and none is owned |
| `ResourceLocks.StepKeepsSafe` | app/autonomy/resources.py:18-33 | Each single step keeps mutual exclusion and the agreement of locks, owners and holders |
| `ResourceLocks.ReleaseAgentSafeExactly` | app/autonomy/resources.py:35-41 | In a safe state `release_agent` leaves a safe state if and only if the agent owns nothing |
| `ResourceLocks.ReleaseAgentBreaksExclusionExactly` | app/autonomy/resources.py:22-41 | In a safe state `release_agent` opens the way to two holders of one resource if and only if the agent owns something: then a new frame of any agent can take the freed lock at once, and otherwise every run without another `release_agent` keeps exclusion |
| `ResourceLocks.ReleaseAgentBreaksExclusion` | app/autonomy/resources.py:31-41 | A concrete run: the agent's lock is released while its frame is inside, a second agent takes it, the first frame's exit releases it again, and a third agent enters beside the second |
| `ResourceLocks.ResourceLockManager.OpenFrame` | app/autonomy/resources.py:20 | A frame begins with its resources sorted and nothing acquired |
| `ResourceLocks.ResourceLockManager.TakeNext` | app/autonomy/resources.py:22-28 | Taking the next lock of a frame is the step of the model |
| `ResourceLocks.ResourceLockManager.LeaveContext` | app/autonomy/resources.py:29-33 | Leaving the context is the finishing step |
| `ResourceLocks.ResourceLockManager.GiveUp` | app/autonomy/resources.py:26-33 | A timeout part-way is the finishing step and reports the resource waited for |
| `ResourceLocks.ResourceLockManager.ReleaseAcquired` | app/autonomy/resources.py:31-33 | The reverse release loop computes the released tables |
| `ResourceLocks.ResourceLockManager.ReleaseAllOf` | app/autonomy/resources.py:35-41 | `release_agent` releases every resource that the agent owns and returns them |
| `EventBusModel.RunsConserve` | app/event_system/bus.py:30-61 | Over every run of publishing, replaying, pausing, resuming and (un)subscribing, the accepted and replayed events are exactly the routed and pending ones, as multisets, and only a paused bus has any pending |
| `EventBusModel.ApplyBalances` | app/event_system/bus.py:30-61 | One operation takes exactly the events it adds, and keeps them |
| `EventBusModel.ResumeRoutesStableSort` | app/event_system/bus.py:40-61 | A backlog built up while paused, by publishing and replaying, is routed on resume as its stable sort by descending priority, each event once, and nothing stays pending |
| `EventQueue.StableSortIsUnique` | app/event_system/bus.py:40-44 | A list has only one stable sort by descending priority |
| `EventQueue.PutHolds` | app/event_system/bus.py:40 | Putting an event with the next sequence number keeps the queue the stable sort of the backlog |
| `EventBusModel.RoutingDrains` | app/event_system/bus.py:41-51 | Routing empties the queue of a bus that is not paused, in queue order, and leaves everything else of the bus alone |
| `EventBusModel.HistoryIsLatestAccepted` | app/event_system/bus.py:13-18 | Over every run the bounded history holds the latest accepted events; replays add nothing to it |
| `EventBusModel.HistoryIsTail` | app/event_system/bus.py:13-15 | It is the end of the accepted events, as long as the limit allows and at least one event long |
| `EventBusModel.SelectsExactly` | app/event_system/bus.py:16-17 | Replaying selects in order exactly the retained events of the type, or of every type, from the given time on |
| `EventBusModel.ReplayRoutesSelected` | app/event_system/bus.py:53-58 | On a running bus the selected events are routed at once, as their stable sort by descending priority |
| `EventDedupe.DecisionIsExact` | app/event_system/bus.py:30-36 | After any run with a non-decreasing clock, `publish` accepts an event if and only if no event with its fingerprint was accepted within the last `dedupe_seconds`, however often the table was pruned |
| `EventDedupe.PublishesExactly` | app/event_system/bus.py:30-41 | After any run, publishing an event seen within `dedupe_seconds` changes nothing; any other is accepted, and a running bus has routed it on return while a paused one keeps it and routes nothing |
| `EventDedupe.PruningIsInvisible` | app/event_system/bus.py:35-36 | A bus whose table is never pruned reaches the same state, apart from the table, in every run and decides every event alike |
| `EventDedupe.AcceptedEventsAreSpaced` | app/event_system/bus.py:32-34 | Accepted events with one fingerprint are at least `dedupe_seconds` apart |
| `EventDedupe.RunsSpaceDeliveries` | app/event_system/bus.py:45-51 | Over every run, deliveries of one event type to one subscriber are at least the larger of its debounce and throttle intervals apart |
| `EventDelivery.RoutingDelivers` | app/event_system/bus.py:44-51 | Routing an event appends to the log of deliveries, in subscription order, one delivery of it for exactly the subscriptions whose filter matches and whose deliveries of that event type, as logged, are at least the debounce and the throttle interval ago |
| `EventDelivery.RunsStayDelivering` | app/event_system/bus.py:24-61 | That holds for every routing step of every run: the table of last deliveries agrees with the log, and subscriber ids are distinct |
| `EventDelivery.UnthrottledReceivesAll` | app/event_system/bus.py:44-51 | Over every run, a subscriber without intervals receives exactly the routed events that match its filter, in routing order, as long as its subscription stands |
| `EventBus.EventBus.Publish` | app/event_system/bus.py:30-40 | The method accepts exactly as specified and leaves the specified bus |
| `EventBus.EventBus.RouteAll` | app/event_system/bus.py:41-51 | The drain loop computes the specified routing |
| `EventBus.EventBus.DeliverTo` | app/event_system/bus.py:45-51 | The loop over the subscriptions delivers and records as specified; who receives what is `RoutingDelivers` |
| `EventBus.EventBus.Replay` | app/event_system/bus.py:53-58 | Replaying requeues the selected retained events, routes, and returns their number |
| `EventBus.EventBus.Resume` | app/event_system/bus.py:61 | Resuming clears the pause and routes |
| `EventBus.EventBus.Pause` | app/event_system/bus.py:60 | Pausing only sets the flag |
| `EventBus.EventBus.Subscribe` | app/event_system/bus.py:27-28 | A subscription under a known id takes its place, any other goes last |
| `EventBus.EventBus.Unsubscribe` | app/event_system/bus.py:29 | Removes the subscription with the id, if any |
| `EventBus.EventHistory.Replay` | app/event_system/bus.py:16-17 | The events of the history that match the type and the time, in order; no type and an empty one match all |
| `EventBus.EventHistory.Append` | app/event_system/bus.py:14-15 | A full history loses its oldest event |
| `ResourceLimiter.BucketIsRecentLog` | app/event_system/building_blocks.py:80-86 | With a non-decreasing clock and a fixed limit the pruned bucket is exactly the admissions of the last sixty seconds in the full log |
| `ResourceLimiter.DecisionsAgree` | app/event_system/building_blocks.py:83-84 | A call is admitted if and only if the full log holds fewer than `limit` admissions of the last sixty seconds |
| `ResourceLimiter.MinuteHoldsAtMostLimit` | app/event_system/building_blocks.py:80-86 | Every half-open minute, wherever it begins, holds fewer than `limit` plus one admissions |
| `ResourceLimiter.AdmissionsSpaced` | app/event_system/building_blocks.py:83-86 | Admissions less than sixty seconds apart number fewer than `limit` plus one |
| `ResourceLimiter.ActionsInFlight` | app/event_system/building_blocks.py:92-103 | In every run the counter is never negative, never above the number of actions in flight and within the concurrency limit; the actions in flight exceed it by at most the number of ends that belonged to no action in flight while another one was |
| `ResourceLimiter.CounterRightExactly` | app/event_system/building_blocks.py:92-103 | The counter is the number of actions in flight at every point of a run if and only if every end that belongs to no action in flight comes while nothing is in flight |
| `ResourceLimiter.StrayEndBreaksLimit` | app/event_system/building_blocks.py:96-103 | A concrete run under the limit one: the end of an action that never began lets a second action in beside the first |
| `ResourceLimiter.BeginsExactly` | app/event_system/building_blocks.py:92-100 | After any run whose calls come in order, an action may begin exactly when its agent's run time is not over, the counter is below the concurrency limit, and fewer actions than the rate limit began in the last sixty seconds by the full log; a limit that is not set limits nothing |
| `ResourceLimiter.AgentResourceLimiter.Admits` | app/event_system/building_blocks.py:81-86 | The loop over the deque computes the specified decision and bucket |
| `ResourceLimiter.AgentResourceLimiter.AllowEvent` | app/event_system/building_blocks.py:88-90 | Without a limit always, otherwise as the window decides; no other agent is affected |
| `ResourceLimiter.AgentResourceLimiter.StartAction` | app/event_system/building_blocks.py:92-100 | Run time, concurrency and rate are tested in this order; only an admitted action counts as active |
| `ResourceLimiter.AgentResourceLimiter.FinishAction` | app/event_system/building_blocks.py:102-103 | Ends one action of one agent, never below zero |
| `RuntimeEvents.RunsStayConsistent` | app/autonomy/events.py:38-60 | With a store or without one, however publishing, restarting and reading interleave, the retained history is the end of the published sequence, with consecutive numbers ending at the counter, and a store holds its latest events; restarts after the first event need a bus and a store that retain something, and runs without a restart need nothing |
| `RuntimeEvents.NumberingKeptExactly` | app/autonomy/events.py:38-54 | The counter is the number of events published at every point of a run if and only if every restart of the run comes before the first event or has a bus and a store that retain something |
| `RuntimeEvents.RestartReusesNumber` | app/autonomy/events.py:38-54 | A concrete run: an event, a restart without anything stored, and the second event is number one again |
| `RuntimeEvents.PageIsLogSlice` | app/autonomy/events.py:58-60 | A page is the stretch of the published sequence after the later of the last event seen and the last one evicted, cut to the page size |
| `RuntimeEvents.ReaderAccounts` | app/autonomy/events.py:58-60 | With a store or without one, a reader that asks for what follows its last event gets each event at most once, in order, as published; every number up to the last seen was read or counted as skipped. Restarts after the first event need a bus and a store that retain something |
| `RuntimeEvents.SkipsExactlyEvicted` | app/autonomy/events.py:58-60 | A poll skips numbers if and only if an unread event was evicted and page size and retention are positive, and makes progress if and only if something is unread and both are positive |
| `RuntimeEvents.GaplessExactly` | app/autonomy/events.py:58-60 | The reader holds the whole published sequence up to the last event seen if and only if nothing was skipped |
| `RuntimeEvents.NoGapWithoutEviction` | app/autonomy/events.py:58-60 | While histories, and the store if there is one, have room for all that is published, the reader never misses an event, restarts included |
| `RuntimeEvents.RestartKeepsCounterExactly` | app/autonomy/events.py:40-44 | A restart keeps the numbering if and only if nothing was published yet or both the new bus and the store retain something; otherwise it starts again at zero |
| `RuntimeEvents.TrimKeepsNewest` | app/autonomy/event_store.py:14-17 | Trimming the table keeps exactly the newest rows; a negative retention keeps all |
| `RuntimeEvents.RecentIsTail` | app/autonomy/event_store.py:18-21 | `recent` returns the newest rows in ascending order |
| `RuntimeEventBus.AutonomousEventBus.constructor` | app/autonomy/events.py:38-45 | A new bus takes history and numbering from the store |
| `RuntimeEventBus.AutonomousEventBus.Publish` | app/autonomy/events.py:47-54 | Numbers the event, appends it to the bounded history and stores it |
| `RuntimeEventBus.AutonomousEventBus.Replay` | app/autonomy/events.py:58-60 | The filter and the slice compute the page |
| `RuntimeEventBus.EventStore.StoreEvent` | app/autonomy/event_store.py:14-17 | Inserts or replaces the row and trims the table |
| `RuntimeEventBus.EventStore.Latest` | app/autonomy/event_store.py:18-21 | Returns the newest rows in ascending order |
| `Leases.PermitsSearchesLog` | app/safety/leases.py:39-43 | After any interleaving of grants, questions, listings and revocations, with a non-decreasing clock, `permits` says yes only if a matching unrevoked lease of the full log is unexpired when the call begins, and says yes if one is unexpired when it ends |
| `Leases.ActiveListsLog` | app/safety/leases.py:45-48 | `active` lists only unrevoked leases that were unexpired when the call began, and all that are unexpired when it ends |
| `Leases.RunsAgree` | app/safety/leases.py:30-55 | The pruned dictionary always holds every unrevoked unexpired lease of the log and only granted unrevoked ones |
| `Leases.LeasesAreBounded` | app/safety/leases.py:30-37 | No lease lasts less than a second or more than a day from its grant, nor lacks a task |
| `LeaseGrants.PermitsWhatWasGranted` | app/safety/leases.py:30-52 | After any interleaving of calls, `permits` says yes only if some call granted exactly this permission to this agent for this task, for a number of seconds not over when `permits` begins, and no later call revoked it; and it says yes if that time is not over when it ends |
| `LeaseGrants.EveryLeaseIsGranted` | app/safety/leases.py:30-37 | Every lease of the log has agent, permission and task of a call that granted it, and expires its number of seconds after that call read the clock |
| `Leases.CapabilityLeaseRegistry.GrantLease` | app/safety/leases.py:30-37 | An empty task or a duration outside one second to one day is refused; otherwise a fresh lease is recorded |
| `Leases.CapabilityLeaseRegistry.IsPermitted` | app/safety/leases.py:39-43 | Prunes, then searches until a matching lease is active |
| `Leases.CapabilityLeaseRegistry.Active` | app/safety/leases.py:45-48 | Prunes and lists what is left |
| `Leases.CapabilityLeaseRegistry.RevokeLease` | app/safety/leases.py:50-52 | Removes the lease with the identifier, if any |
| `Leases.CapabilityLeaseRegistry.DropExpired` | app/safety/leases.py:54-55 | Keeps each lease that is active at its own reading of the clock |
| `Permissions.PassesExactly` | app/safety/permissions.py:63-71 | In approval mode a check passes if and only if an approval was given since the pair was last checked |
| `Permissions.ChecksExactly` | app/safety/permissions.py:63-71 | After any run, a denied permission is denied, an automatic one or one not configured passes, and one in approval mode passes exactly after an unspent approval and otherwise asks |
| `Permissions.ApprovalsConserved` | app/safety/permissions.py:59-71 | Passed checks, and an approval still open, never outnumber the approvals given |
| `Permissions.PermissionPolicy.CheckAccess` | app/safety/permissions.py:63-71 | Denial, approval and consumption as the mode says |
| `Permissions.PermissionPolicy.ApproveNext` | app/safety/permissions.py:59-61 | Records a one-shot approval |
| `AgentTheorems.RunsAreContained` | app/agents/manager.py:30-136 | Over every run of manager operations there is at most one root, parent links and child lists form a tree, and every permission held, leased or used to invoke a tool is one of the root's |
| `AgentTheorems.RootNeverChanges` | app/agents/manager.py:30-36 | Once created, the root keeps exactly its permissions through every later operation |
| `AgentTheorems.ApplyKeeps` | app/agents/manager.py:30-253 | Each single operation, refused or not, keeps the tree, the containment and the root |
| `AgentTheorems.RetriesWithinLimit` | app/agents/manager.py:172-179 | Over every run no agent is retried more often than the limit allows |
| `AgentLifecycle.DelegatesExactly` | app/agents/manager.py:30-148 | Creating, assigning, granting, revoking and leasing are accepted exactly for the owner, within its permissions, for registered tools that fit, for the current task and within bounds, as the call says, and a refused call changes no agent |
| `AgentLifecycle.DelegationEffect` | app/agents/manager.py:30-148 | An accepted one changes exactly the field that it is about, of the one agent that it names |
| `AgentLifecycle.ControlsExactly` | app/agents/manager.py:154-199 | Starting, retrying, pausing, resuming and terminating are accepted exactly for the owner and in the statuses that allow it, and move only the status, the retry count and the executors of that agent |
| `AgentLifecycle.EndsExactly` | app/agents/manager.py:238-253 | A returned executor leaves a running agent completed, unless it was terminated, a raised one failed, a cancelled one terminated |
| `AgentLifecycle.RootNeverRuns` | app/agents/manager.py:30-259 | Over every run nothing starts the root or gives it a tool or a task |
| `AgentTree.TreeVisitsDescendants` | app/agents/manager.py:96-99 | `get_agent_tree` visits an agent if and only if following parent links from it leads to the agent asked for |
| `AgentTree.TreeVisitsOnce` | app/agents/manager.py:96-99 | It ends, and visits no agent twice |
| `AgentAuthority.InvocationsAreAuthorized` | app/agents/manager.py:210-229 | After any run, a tool runs only for a running agent that was granted it, only if the policy admits the call and each required permission is held by the agent or leased to it for its current task by a grant that is neither revoked nor expired; and then it does run, unless a lease expires before the call ends |
| `AgentAuthority.ExecuteBracketed` | app/agents/manager.py:210-229 | The same in every state whose leases agree with their log: the call succeeds only with authority when it begins, and always with authority when it ends. The policy admits a call that needs nothing denied and asks for each permission in approval mode once, with an approval |
| `AgentAuthority.InvocationsWithinApprovals` | app/agents/manager.py:218-226 | Over every run, the invocations by an agent of tools that need a permission in approval mode never outnumber the approvals given to that agent for it |
| `AgentAuthority.HierarchyKeptExactly` | app/agents/manager.py:112-124 | An operation keeps every agent within its own parent's permissions if and only if it is not a revocation from an agent that has passed the permission on |
| `AgentAuthority.RevocationLeavesGrandchild` | app/agents/manager.py:121-124 | A concrete run in which a revoked permission stays with a grandchild |
| `AgentManagers.AgentManager.CreateRoot` | app/agents/manager.py:30-36 | Refused when there is a root; keeps the object's invariant |
| `AgentManagers.AgentManager.CreateAgent` | app/agents/manager.py:38-66 | Refused when permissions exceed the parent's or a tool needs more than was requested; otherwise the child is linked |
| `AgentManagers.AgentManager.AssignTask` | app/agents/manager.py:101-110 | Refused for a stranger or a terminated agent; otherwise sets task and status |
| `AgentManagers.AgentManager.GrantPermission` | app/agents/manager.py:112-119 | Only to a direct child and only what the parent has |
| `AgentManagers.AgentManager.RevokePermission` | app/agents/manager.py:121-124 | Takes a permission from a direct child |
| `AgentManagers.AgentManager.LeasePermission` | app/agents/manager.py:126-136 | Only what the parent has, for the child's current task, within the registry's bounds |
| `AgentManagers.AgentManager.GrantTool` | app/agents/manager.py:138-148 | Only a registered tool whose permissions the child holds |
| `AgentManagers.AgentManager.StartAgent` | app/agents/manager.py:154-163 | Refused for terminated and paused agents; otherwise the agent runs |
| `AgentManagers.AgentManager.RetryAgent` | app/agents/manager.py:172-179 | Only failed agents, up to the retry limit |
| `AgentManagers.AgentManager.EndAgent` | app/agents/manager.py:238-253 | How an executor's end sets the status, also after a termination |
| `AgentManagers.AgentManager.PauseAgent` | app/agents/manager.py:181-185 | Pauses a running child |
| `AgentManagers.AgentManager.ResumeAgent` | app/agents/manager.py:187-191 | Makes a paused child ready |
| `AgentManagers.AgentManager.TerminateAgent` | app/agents/manager.py:193-199 | Terminates a child |
| `AgentManagers.AgentManager.ExecuteTool` | app/agents/manager.py:210-236 | The staged checks and the permission loop decide as specified; only an authorized call invokes the tool |
| `AgentManagers.AgentManager.AuthorizeAll` | app/agents/manager.py:218-226 | The permission loop, with the leases and approvals that it uses up |
| `AgentManagers.AgentManager.CheckOwned` | app/agents/manager.py:255-259 | Unknown agents first, then agents that are no direct child |
| `AgentManagers.AgentManager.GetAgentTree` | app/agents/manager.py:96-99 | Builds the tree of a known agent |
| `Governor.PassesWithinBudget` | app/autonomy/governor.py:61-89 | For a fixed contract with at most `k` of its actions in flight, however judging and recording interleave, the actions let past never exceed `max_actions` + k - 1, and those of them that fail never exceed `max_failures` + k - 1 |
| `GovernorBound.BoundIsAttained` | app/autonomy/governor.py:61-89 | For every budget and every positive `k` a run lets `max_actions` + k - 1 actions past: no smaller bound holds |
| `GovernorBound.FailureBoundIsAttained` | app/autonomy/governor.py:61-89 | For every budget with a positive failure budget and every positive `k`, a run lets the smaller of the two budgets plus k - 1 actions past, and all of them fail: no smaller bound holds for failures |
| `Governor.ExhaustedForever` | app/autonomy/governor.py:73-74 | Once a budget is exhausted, every later evaluation for the mission denies |
| `Governor.EvaluatesExactly` | app/autonomy/governor.py:61-79 | For a task of a mission, by the fields of its contract: denied exactly when the action is forbidden, or outside the tools or permissions where any are named, or a budget is used up; otherwise a human is asked exactly when the confidence is too low or the tool is risky; anything else, and any task of no mission, is allowed |
| `Governor.RegistersExactly` | app/autonomy/governor.py:50-59 | Refused exactly for budgets or thresholds out of range; otherwise the mission has the contract and its tasks, others keep theirs, and a known mission keeps its usage |
| `Governor.RecordsExactly` | app/autonomy/governor.py:81-89 | A result counts one action for the mission of its task, and one failure exactly when it is no success |
| `Governor.RunsAccount` | app/autonomy/governor.py:81-89 | Every action let past is still in flight or counted against the budget of its mission |
| `Governor.AutonomyGovernor.Enroll` | app/autonomy/governor.py:50-59 | Invalid budgets and thresholds are refused; a mission registered again keeps its usage |
| `Governor.AutonomyGovernor.Judge` | app/autonomy/governor.py:61-79 | The decision of the governor, gate by gate; when it denies, asks and allows is `EvaluatesExactly` |
| `Governor.AutonomyGovernor.Count` | app/autonomy/governor.py:81-89 | Counts a result for the task's mission, if it has one |
| `ModePolicies.ModePolicy.Decision` | app/autonomy/mode_policy.py:7-12 | The early returns compute the decision of the mode; `DecidesExactly` says what that is |
| `ModePolicies.DecidesExactly` | app/autonomy/mode_policy.py:7-12 | Four modes deny every tool; of the tools of medium or high risk or marked destructive, watching denies all and supervision asks about all; everything else is allowed |
| `ExecutorModel.RunsOnlyThroughGates` | app/autonomy/executor.py:92-165 | A tool runs only for a new action of a registered tool with a permission it requires, that neither mission nor contract nor policy denies, nor the mode when the governor allows, approved by a human wherever one was asked, by a running agent that was granted it |
| `ExecutorModel.RunsExactly` | app/autonomy/executor.py:92-165 | A tool runs if and only if its action is new, the tool is registered and needs the permission, the contract of the task's mission permits tool and permission and has a budget left, mode and handler agree, the action contract is met, the permission is not denied and in approval mode approved on the spot and not before, the locks are had, and the manager executes it; all by the fields of mission, mode, risk and policy |
| `ExecutorModel.RunsWithinMissions` | app/autonomy/executor.py:106-109 | Over every run no tool ran for a task of a mission against its forbidden actions or outside the tools and permissions that it names |
| `ExecutorModel.ScreenPassesExactly` | app/autonomy/executor.py:100-135 | When the gates before the policy let an action through, by the same fields |
| `ExecutorModel.RunsOnlyWithAuthority` | app/autonomy/executor.py:92-165 | Behind every run each required permission is held by the agent or leased to it for its current task by a live grant |
| `ExecutorModel.DenyingModeRunsExactly` | app/autonomy/executor.py:106-125 | In a mode that denies the tool the action passes the gates before the policy if and only if the tool is registered and requires the permission, the governor asks for approval, the handler approves, and the contract, if any, is met; and it runs if and only if it is also new and policy and manager let it. The mode is not consulted once the governor asks |
| `ExecutorModel.RiskyToolsNeedHuman` | app/autonomy/executor.py:106-124 | A tool of high risk or marked destructive runs without the approval of the handler only in the autonomous mode and for a task of no mission |
| `ExecutorModel.PausedRuntimeRunsRiskyTool` | app/autonomy/executor.py:110 | A concrete runtime in paused mode, whose agent was created and started by the manager, runs a risky tool of a mission once the handler approves |
| `ExecutorModel.ApprovalModeRunsExactly` | app/autonomy/executor.py:136-165 | The policy is asked once by the runtime and again by the manager, so under a permission in approval mode an action that passes the other gates runs if and only if no approval was given beforehand, the handler gives one on the spot, and with it the manager executes the tool, whatever other permissions it needs |
| `ExecutorModel.SinglePermissionRunsExactly` | app/autonomy/executor.py:136-165 | For a tool that needs just that permission, the manager executes it exactly when the agent is running, was granted the tool and holds the permission |
| `ExecutorModel.PriorApprovalIsWasted` | app/autonomy/executor.py:136-173 | An approval given in advance is used up without the tool running |
| `ExecutorModel.OneResultPerAction` | app/autonomy/executor.py:92-197 | An action with a result changes nothing and returns it. Any other is recorded exactly once, in the results, the governor and the audit, unless the perform leaves by an exception: then nothing is recorded. Where no handler, observation or verifier raises and nobody cancels, none leaves so |
| `ExecutorModel.ResultExactly` | app/autonomy/executor.py:186-247 | The result of a new action: a success exactly when the tool ran, nothing failed and it was verified, and without an error code exactly then; VERIFICATION_FAILED when it ran and was not verified, the code of its failure when it failed; recorded, and charged to the mission as one action and, unless a success, one failure |
| `ExecutorModel.GateAnswers` | app/autonomy/executor.py:100-135 | The error code, or the exception, with which each gate before the policy ends a new action |
| `ExecutorModel.LaterAnswers` | app/autonomy/executor.py:136-184 | The error code, or the exception, with which policy, locks and manager end it |
| `ExecutorModel.InvokedOnceExactly` | app/autonomy/executor.py:92-197 | In every run of performs one after another, no action runs its tool twice if and only if no perform runs the tool of an action of which an earlier perform left by an exception after its tool had run |
| `ExecutorModel.NoEscapeRunsOnce` | app/autonomy/executor.py:95-96 | In particular when no perform leaves by an exception after its tool has run |
| `ExecutorModel.EscapeRunsToolTwice` | app/autonomy/executor.py:95-197 | A concrete run: an action performed twice, each time left by an exception after the tool, runs its tool twice under a mission with a budget of one action, and neither results nor budget change |
| `ExecutorModel.RunsContained` | app/autonomy/executor.py:154-165 | Whatever is performed and managed in between, no tool runs beyond the permissions of the root agent |
| `ExecutorModel.RunsAgree` | app/autonomy/executor.py:154-165 | The condition on the leases under which that is stated holds after every run of performs, manager operations and mode changes from any state where it holds |
| `ExecutorModel.RunsWithinBudget` | app/autonomy/executor.py:106-109 | One action at a time, a mission runs at most `max_actions` tools and as many more as performs leave by an exception after their tool has run |
| `Executor.ActionRuntime.PerformAction` | app/autonomy/executor.py:92-197 | The staged early returns compute the specified result and state, exits by an exception included; which result that is say `ResultExactly`, `GateAnswers` and `LaterAnswers` |
| `Executor.ActionRuntime.CheckGates` | app/autonomy/executor.py:100-135 | The gates before the policy, in order, with their error codes, and where they let an exception through |
| `Executor.ActionRuntime.AskPolicy` | app/autonomy/executor.py:136-152 | The policy check and the human approval that may stand in for it |
| `Executor.ActionRuntime.InvokeTool` | app/autonomy/executor.py:136-184 | Policy, locks, manager, in order; whether the locks are obtained is an answer of the world |
| `Executor.ActionRuntime.FinishAction` | app/autonomy/executor.py:230-247 | Stores the result, counts it and audits it |
| `FilesystemDetector.PollIsPatch` | app/event_system/detectors.py:18-38 | Replaying the created, moved, renamed, changed and deleted events of a poll over the previous view gives exactly the current one, also when paths share an inode |
| `FilesystemDetector.SilentExactlyWhenUnchanged` | app/event_system/detectors.py:18-38 | A poll emits nothing if and only if the two snapshots are equal, inodes included |
| `FilesystemDetector.PollsRebuildLastSnapshot` | app/event_system/detectors.py:11-38 | From the events of any sequence of polls one can rebuild what the last one saw |
| `FilesystemDetector.EventsAreTrue` | app/event_system/detectors.py:24-37 | Every event says what happened to its path: created, renamed within a directory, moved between directories, changed in size or otherwise, or deleted, with the facts of the current snapshot |
| `FilesystemDetector.MovesJoinSameInode` | app/event_system/detectors.py:19-23 | A move joins an added path to a removed one with the same inode, which is not zero |
| `FilesystemDetector.LastRemovedWins` | app/event_system/detectors.py:21 | Of several removed paths with one inode the last one is taken as the origin |
| `FilesystemDetector.Detector.Poll` | app/event_system/detectors.py:11-38 | The method emits the specified events, remembers the current snapshot, and its events are a patch |
| `FilesystemDetector.Detector.FindMoves` | app/event_system/detectors.py:19-23 | The loop and the comprehension correlate renames as specified |
| `FilesystemDetector.Detector.ListCurrent` | app/event_system/detectors.py:24-35 | The loop over the current paths |
| `FilesystemDetector.Detector.ListDeleted` | app/event_system/detectors.py:36-37 | The loop over the previous paths |
| `SnapshotDetector.PollIsReversiblePatch` | app/event_system/detectors.py:141-148 | Replaying the changes that a poll finds gives what the detector sees now, and undoing them in reverse order gives back what it saw before |
| `SnapshotDetector.EmitsExactly` | app/event_system/detectors.py:141-150 | A poll emits exactly the announcements of the keys that appeared, changed their value or disappeared, each under its event type and with the data that says so |
| `SnapshotDetector.DataIsReversiblePatch` | app/event_system/detectors.py:141-150 | The same of the data of the emitted events, for a reader whose keys and values are separated: the changes can be read off the data |
| `SnapshotDetector.ReadableExactly` | app/event_system/detectors.py:149-150 | For a reader with two keys and three values, the events tell all its changes apart if and only if created and removed types differ, keys differ as text, no value has an "id" entry, values differ outside "previous" and from what a plain value looks like, and no change can be taken for another event |
| `SnapshotDetector.NetworkEventsAreSeparated` | app/event_system/detectors.py:152-170 | The readings of network interfaces meet that condition |
| `SnapshotDetector.IdEntryHidesKey` | app/event_system/detectors.py:149-150 | A concrete collision: an "id" entry of the value replaces the key, so two keys give the same events |
| `SnapshotDetector.PlainLooksLikeFields` | app/event_system/detectors.py:149-150 | A concrete collision: 1 and a dictionary whose "value" entry is 1 give the same events |
| `SnapshotDetector.ChangeHidesPreviousEntry` | app/event_system/detectors.py:145-150 | A concrete collision: the previous value replaces the new value's own "previous" entry |
| `SnapshotDetector.SilentExactlyWhenUnchanged` | app/event_system/detectors.py:141-148 | A poll emits nothing if and only if nothing changed |
| `SnapshotDetector.Detector.Poll` | app/event_system/detectors.py:141-150 | The method emits the specified events, flattened data included, and remembers the current snapshot |
| `Grounding.ResolvesExactlyToWinner` | app/perception/grounding.py:28-49 | Without an ordinal a query yields a target if and only if some eligible element beats every other by at least 0.05, and then it yields that one |
| `Grounding.TargetIsGenuine` | app/perception/grounding.py:28-53 | A target is one of the elements, visible, enabled and of the role asked for, scores at least the minimum, and is pointed at in the middle of its bounds |
| `Grounding.ClearTargetIsFound` | app/perception/grounding.py:28-49 | Without an ordinal, an element that stands once on the screen, can be meant and scores at least the minimum and 0.05 more than every other such element is the target |
| `Grounding.ScoreWeighs` | app/perception/grounding.py:69-77 | The score in sixtieths: 33 for the share of the query's terms, 21 for the confidence, one for each step of source priority, 12 more or 24 less for the relation to the anchor |
| `Grounding.SourcesRank` | app/perception/grounding.py:22-23 | The order of the sources by trust; any other counts nothing |
| `Grounding.RelatedExactly` | app/perception/grounding.py:95-106 | Each relation by the bounds of element and anchor |
| `Grounding.AnswerIgnoresOrder` | app/perception/grounding.py:28-49 | Without an ordinal every ordering of the elements gives the same answer, if the query relates to no anchor or one element shares more terms with the name of the anchor than every other |
| `Grounding.SameAnchorSameAnswer` | app/perception/grounding.py:28-49 | When several elements tie, it is enough that both orderings put the same one of them first |
| `Grounding.TieChangesAnswer` | app/perception/grounding.py:33-49 | A concrete tie: two labels with the same text above and below a button, and whether "the button below it" is found depends on which label comes first |
| `Grounding.OrdinalPicksReadingOrder` | app/perception/grounding.py:40-45 | With an ordinal the answer is the k-th eligible element in reading order, the last one for -1, the third from the end for -2, the fourth for -3 and so on; below the list an index error, beyond it nothing |
| `Grounding.ReadsTopDown` | app/perception/grounding.py:91-93 | Reading order is from top to bottom and in a row from left to right; what has no bounds comes last |
| `Grounding.OrdinalPlaceIgnoresOrder` | app/perception/grounding.py:40-45 | With an ordinal every ordering of the elements gives an answer at the same place of the screen, or the same lack of one, if no other element ties for the anchor or both orderings put the same one first |
| `Grounding.FailsExactlyBelowList` | app/perception/grounding.py:42-44 | Resolution raises an index error if and only if the ordinal is below -1 and reaches beyond a non-empty list |
| `Grounding.SingleElementFails` | app/perception/grounding.py:42-44 | A concrete case: one element and the ordinal -2 |
| `Grounding.TargetIsRelated` | app/perception/grounding.py:69-77 | With the default minimum confidence, a query that relates to an anchor never yields an element that is not so related, whatever its text, confidence and source |
| `Grounding.TargetSharesTerms` | app/perception/grounding.py:69-77 | With the default minimum confidence, a query without a relation, or whose anchor is not found, never yields an element that shares no term with it |
| `Grounding.BestAnchorIsFirstMaximum` | app/perception/grounding.py:85-89 | The anchor is the first of the elements that share most terms with its name |
| `Grounding.AnchorSharesMost` | app/perception/grounding.py:85-89 | The same, by the terms of caption and text |
| `Grounding.WinnerIsUnique` | app/perception/grounding.py:46-49 | There is never more than one clear winner |
| `Grounding.ScoresAreConfidences` | app/perception/grounding.py:69-77 | Every score lies between zero and one |
| `Grounding.ResolveTarget` | app/perception/grounding.py:25-53 | The method that fills, sorts and re-sorts its local list computes the specified resolution |
| `Grounding.ScoreAll` | app/perception/grounding.py:29-34 | The candidates that reach the minimum, with their scores, in the order given |
| `Grounding.PickTarget` | app/perception/grounding.py:35-49 | The choice among the ranked candidates |

## Left out

- The recursion depth limit of the Python interpreter, in `validate`, `_block_dependents` and `get_agent_tree`.
- `TaskGraph.pause`, `resume` and `replan`: `resume` can put a pending task behind a failed one, where the blocking invariant does not hold.
- `run_graph`: checkpoints, the team builder, executions that raise something other than `Exception` and acceptance criteria that raise; the verdict of the criteria is a parameter.
- `TaskRunner.TotalStartsBounded`: for runs that return; a run that a criterion or a cancellation ends by an exception leaves the mission unsaved, and the next run starts its tasks again.
- `TaskRunner.FreshMissionStarts`: for runs that return, likewise.
- `graph_for` and `decider_for` of the mission runner are parameters; `int(...)` of a saved retry count that is no number raises in the source and is not modelled; a checkpoint or saved entry of another shape neither.
- Comparing time-zone-aware with naive deadlines raises in the source; deadlines are instants here.
- Resource locks: taking a lock and recording its owner are one step, since nothing awaits in between; any waiting frame may take a free lock, although asyncio serves waiters in order; one frame does not open another.
- Event bus: handlers that raise, await or publish back into the bus; the conditions of a subscription's filter are one predicate; collisions of the fingerprint digest.
- `EventHistory.clear`, `EventManager` and the polling loop.
- Runtime event bus: the wake-up queue with its back-pressure, redaction (a function parameter), JSON and SQL encoding, and writers to the store other than the bus.
- Resource limits are fixed during a run.
- Leases: thread locking; identifiers are places in the log of grants instead of UUIDs.
- `AgentManager`: agents are values inside the manager, so callers that keep and change an agent object are not modelled; events, audit, names, context and resource limits; resolved task ids are parameters; the executor is seen through its start and its end; tools are registered beforehand.
- `TERMINATED` is not absorbing in the source (a failing executor overwrites it), and nothing here says it is.
- `Governor.PassesWithinBudget`: for missions whose contract and tasks stay registered as they are, since registering them anew moves later results to another budget.
- `ActionRuntime.perform`: one perform at a time; two concurrent performs of one action id both pass the test at the top. World state, predictions, journals and the proposal validator; audit stores and journals that raise; `run_loop` and recovery.
- `ExecutorModel.OneResultPerAction`: for an unknown agent the source raises after recording the result and before the audit entry, and only the record is modelled.
- `Executor.ActionRuntime.InvokeTool`: lock acquisition is one answer of the world; the steps of the locks are in `ResourceLocks`, and no joint state of runtime and locks is modelled.
- The objective and agent id in journal entries, and events published beside them.
- Detectors that keep their own polling logic, such as the window detector; the readers of the snapshot detectors, whose results are parameters.
- Filesystem detector: walking the directories, the limit of entries and paths that vanish while being read; the parent of a path is a parameter.
- Screen grounding: splitting text into terms, case folding and parsing of query text are parameters or absent; scores are reals, not floating-point numbers.
- Browser, voice, learning loop, dashboard, memory stores, planner and platform adapters.
