/**
 `TaskScheduler.next_tasks` and `AutonomousTaskEngine.run_graph`, loop for loop, proved to
 compute the run of EngineModel.
 */
module TaskEngine {
  import opened Wrappers
  import opened Ordering
  import opened TaskModel
  import opened Scheduling
  import opened EngineModel
  import opened EngineTheorems
  import opened TaskGraphs

  ghost predicate WellFormed(g: Graph) {
    DependenciesPresent(g) && Acyclic(Dependencies(g))
  }

  /** The objects of a graph under the given ids. */
  ghost predicate TasksOf(graph: TaskGraph, tasks: seq<GraphTask>, ids: seq<TaskId>)
    reads graph
  {
    && TaskIds(tasks) == ids
    && forall i | 0 <= i < |tasks| :: tasks[i].taskId in graph.tasks && tasks[i] == graph.tasks[tasks[i].taskId]
  }

  class TaskScheduler {
    constructor () {}

    method NextTasks(graph: TaskGraph, heldResources: set<Resource>, limit: int)
      returns (r: Result<seq<GraphTask>, GraphError>)
      requires graph.Valid()
      ensures r.Ok? <==> WellFormed(graph.Value())
      ensures r.Ok? ==> TasksOf(graph, r.value, Scheduling.NextTasks(graph.Value(), heldResources, limit))
    {
      hide RankedRunnable, Greedy, TasksOf, TaskGraph.Valid, TaskGraph.Value, Acyclic, DependenciesPresent;
      var valid := graph.Validate();
      if valid.Err? {
        return Err(valid.error);
      }
      var sorted := Sorted(graph);
      var selected := Select(graph, sorted, heldResources, limit);
      return Ok(selected);
    }

    /** The runnable tasks in scheduling order. */
    method Sorted(graph: TaskGraph) returns (sorted: seq<Rank>)
      requires graph.Valid() && DependenciesPresent(graph.Value())
      ensures sorted == RankedRunnable(graph.Value()) && forall r | r in sorted :: r.id in graph.Value()
    {
      hide RankedRunnable, RankLeq, DependsOn;
      ghost var g := graph.Value();
      var runnable := graph.Runnable();
      var ranks := seq(|runnable|, i requires 0 <= i < |runnable| => RankOf(runnable[i].taskId, runnable[i].spec));
      assert forall i | 0 <= i < |ranks| :: ranks[i].id == runnable[i].taskId && g[ranks[i].id] == runnable[i].Value();
      forall n | n in RunnableSet(g) ensures exists i | 0 <= i < |ranks| :: ranks[i].id == n {
        var i :| 0 <= i < |runnable| && runnable[i].taskId == n;
        assert ranks[i].id == n;
      }
      RanksOfRunnable(g, ranks);
      sorted := Sort(ranks, RankLeq);
    }

    method Select(graph: TaskGraph, sorted: seq<Rank>, heldResources: set<Resource>, limit: int)
      returns (selected: seq<GraphTask>)
      requires graph.Valid() && forall r | r in sorted :: r.id in graph.Value()
      ensures TasksOf(graph, selected, Greedy(graph.Value(), sorted, heldResources, limit))
    {
      ghost var g := graph.Value();
      PicksFollowGreedy(g, sorted, 0, heldResources, [], limit);
      assert sorted[0..] == sorted;
      assert [] + Greedy(g, sorted, heldResources, limit) == Greedy(g, sorted, heldResources, limit);
      hide *;
      selected := Pick(graph, sorted, heldResources, limit);
    }

    /** The loop of `next_tasks`. */
    method Pick(graph: TaskGraph, sorted: seq<Rank>, heldResources: set<Resource>, limit: int)
      returns (selected: seq<GraphTask>)
      requires graph.Valid() && forall r | r in sorted :: r.id in graph.Value()
      ensures TasksOf(graph, selected, Picks(graph.Value(), sorted, 0, heldResources, [], limit))
    {
      ghost var g := graph.Value();
      ghost var taken: seq<TaskId> := [];
      selected := [];
      var reserved := heldResources;
      NothingTaken(graph);
      hide Greedy, DependsOn, Overlap, TaskGraph.Valid, TaskGraph.Value, TasksOf, TaskIds, Picks;
      for i := 0 to |sorted|
        invariant TasksOf(graph, selected, taken) && |taken| == |selected|
        invariant Picks(g, sorted, i, reserved, taken, limit) == Picks(g, sorted, 0, heldResources, [], limit)
      {
        assert sorted[i] in sorted;
        RankedTask(graph, sorted[i].id);
        PicksStep(g, sorted, i, reserved, taken, limit);
        var task := graph.tasks[sorted[i].id];
        if !Overlap(task.spec.resources, reserved) {
          TasksOfAppend(graph, selected, taken, task);
          selected, taken := selected + [task], taken + [task.taskId];
          reserved := reserved + task.spec.resources;
          if |selected| == limit {
            return;
          }
        }
      }
      PicksEnd(g, sorted, reserved, taken, limit);
    }
  }

  lemma NothingTaken(graph: TaskGraph)
    ensures TasksOf(graph, [], [])
  {
  }

  lemma RankedTask(graph: TaskGraph, id: TaskId)
    requires graph.Valid() && id in graph.Value()
    ensures id in graph.tasks && graph.tasks[id].taskId == id && graph.Value()[id].spec == graph.tasks[id].spec
  {
  }

  lemma PicksStep(g: Graph, ranked: seq<Rank>, i: nat, reserved: set<Resource>, taken: seq<TaskId>, limit: int)
    requires i < |ranked| && forall r | r in ranked :: r.id in g
    ensures ranked[i].id in g
    ensures
      var id := ranked[i].id;
      var needs := g[id].spec.resources;
      Picks(g, ranked, i, reserved, taken, limit) ==
        if Overlap(needs, reserved) then Picks(g, ranked, i + 1, reserved, taken, limit)
        else if |taken| + 1 == limit then taken + [id]
        else Picks(g, ranked, i + 1, reserved + needs, taken + [id], limit)
  {
    assert ranked[i] in ranked;
  }

  lemma PicksEnd(g: Graph, ranked: seq<Rank>, reserved: set<Resource>, taken: seq<TaskId>, limit: int)
    requires forall r | r in ranked :: r.id in g
    ensures Picks(g, ranked, |ranked|, reserved, taken, limit) == taken
  {
  }

  /** The scheduler's loop from position `i`, with what it has taken so far. */
  ghost function Picks(g: Graph, ranked: seq<Rank>, i: nat, reserved: set<Resource>, taken: seq<TaskId>, limit: int)
    : seq<TaskId>
    requires i <= |ranked| && forall r | r in ranked :: r.id in g
    decreases |ranked| - i
  {
    if i == |ranked| then taken
    else
      assert ranked[i] in ranked;
      var id := ranked[i].id;
      if Overlap(g[id].spec.resources, reserved) then Picks(g, ranked, i + 1, reserved, taken, limit)
      else if |taken + [id]| == limit then taken + [id]
      else Picks(g, ranked, i + 1, reserved + g[id].spec.resources, taken + [id], limit)
  }

  lemma {:induction false} PicksFollowGreedy(g: Graph, ranked: seq<Rank>, i: nat, reserved: set<Resource>,
                                             taken: seq<TaskId>, limit: int)
    requires i <= |ranked| && forall r | r in ranked :: r.id in g
    requires |taken| < limit || limit <= 0
    ensures Picks(g, ranked, i, reserved, taken, limit) == taken + Greedy(g, ranked[i..], reserved, limit - |taken|)
    decreases |ranked| - i
  {
    if i < |ranked| {
      assert ranked[i] in ranked && ranked[i..][0] == ranked[i] && ranked[i..][1..] == ranked[i + 1..];
      var id := ranked[i].id;
      if Overlap(g[id].spec.resources, reserved) {
        PicksFollowGreedy(g, ranked, i + 1, reserved, taken, limit);
      } else if |taken| + 1 != limit {
        PicksFollowGreedy(g, ranked, i + 1, reserved + g[id].spec.resources, taken + [id], limit);
        var rest := Greedy(g, ranked[i + 1..], reserved + g[id].spec.resources, limit - |taken| - 1);
        assert taken + ([id] + rest) == taken + [id] + rest;
      }
    }
  }

  lemma TasksOfAppend(graph: TaskGraph, tasks: seq<GraphTask>, ids: seq<TaskId>, task: GraphTask)
    requires TasksOf(graph, tasks, ids) && task.taskId in graph.tasks && task == graph.tasks[task.taskId]
    ensures TasksOf(graph, tasks + [task], ids + [task.taskId])
  {
  }

  lemma RanksOfRunnable(g: Graph, ranks: seq<Rank>)
    requires DependenciesPresent(g)
    requires forall i | 0 <= i < |ranks| ::
               ranks[i].id in RunnableSet(g) && ranks[i] == RankOf(ranks[i].id, g[ranks[i].id].spec)
    requires forall i, j | 0 <= i < j < |ranks| :: ranks[i].id != ranks[j].id
    requires forall n | n in RunnableSet(g) :: exists i | 0 <= i < |ranks| :: ranks[i].id == n
    ensures Sort(ranks, RankLeq) == RankedRunnable(g)
    ensures forall r | r in RankedRunnable(g) :: r.id in g
  {
    RankLeqIsTotalOrder();
    SortIsSortedSet(ranks, set n | n in RunnableSet(g) :: RankOf(n, g[n].spec), RankLeq);
  }

  // ---- The engine ----------------------------------------------------

  datatype TaskOutcome =
    | OutcomeCompleted
    | OutcomePartiallyCompleted
    | OutcomeFailed
    | OutcomeBlocked
    | OutcomeCancelled

  datatype TaskResult = TaskResult(
    outcome: TaskOutcome,
    verified: bool,
    unmetCriteria: seq<string>,
    completedTasks: seq<TaskId>,
    blockedReason: Option<string>)

  datatype JournalEntry =
    | GoalCreated
    | PlanCreated(tasks: set<TaskId>)
    | TaskCreated(node: TaskId)
    | TaskFailed(node: TaskId, error: string)
    | TaskCompleted(node: TaskId)
    | GoalCompleted(completed: seq<TaskId>)
    | GoalVerificationFailed(unmet: seq<string>, reason: Option<string>)

  /** The nodes that journal entries report as started. */
  function StartsIn(journal: seq<JournalEntry>): seq<TaskId> {
    if journal == [] then []
    else StartsIn(journal[..|journal| - 1])
         + (if journal[|journal| - 1].TaskCreated? then [journal[|journal| - 1].node] else [])
  }

  function StartEntries(ids: seq<TaskId>): seq<JournalEntry> {
    if ids == [] then [] else StartEntries(ids[..|ids| - 1]) + [TaskCreated(ids[|ids| - 1])]
  }

  function OutcomeEntry(id: TaskId, o: Outcome): JournalEntry {
    match o
    case Raised(message) => TaskFailed(id, message)
    case Succeeded => TaskCompleted(id)
  }

  function OutcomeEntries(ids: seq<TaskId>, env: Environment, round: nat): seq<JournalEntry> {
    if ids == [] then []
    else
      var last := ids[|ids| - 1];
      OutcomeEntries(ids[..|ids| - 1], env, round) + [OutcomeEntry(last, env.outcome(round, last))]
  }

  lemma StartEntriesAppend(ids: seq<TaskId>, i: nat)
    requires i < |ids|
    ensures StartEntries(ids[..i + 1]) == StartEntries(ids[..i]) + [TaskCreated(ids[i])]
  {
    assert ids[..i + 1][..i] == ids[..i];
  }

  lemma OutcomeEntriesAppend(ids: seq<TaskId>, i: nat, env: Environment, round: nat)
    requires i < |ids|
    ensures OutcomeEntries(ids[..i + 1], env, round)
         == OutcomeEntries(ids[..i], env, round) + [OutcomeEntry(ids[i], env.outcome(round, ids[i]))]
  {
    assert ids[..i + 1][..i] == ids[..i];
  }

  function RoundJournal(ids: seq<TaskId>, env: Environment, round: nat): seq<JournalEntry> {
    StartEntries(ids) + OutcomeEntries(ids, env, round)
  }

  /** What the loop writes: for each round the starts of its batch and then the outcomes, in batch order. */
  ghost function RunJournal(g: Graph, env: Environment, round: nat): seq<JournalEntry>
    requires DependenciesPresent(g)
    decreases TotalBudget(g, g.Keys)
  {
    var batch := Scheduling.NextTasks(g, env.held(round), env.limit);
    NextTasksIsBatch(g, env.held(round), env.limit);
    if batch == [] then [] else
      RoundSpendsBudget(g, batch, env, round);
      RoundJournal(batch, env, round) + RunJournal(Round(g, batch, env, round), env, round + 1)
  }

  lemma {:induction false} StartsInConcat(a: seq<JournalEntry>, b: seq<JournalEntry>)
    ensures StartsIn(a + b) == StartsIn(a) + StartsIn(b)
  {
    if b == [] {
      assert a + b == a;
    } else {
      var rest, last := b[..|b| - 1], b[|b| - 1];
      StartsInConcat(a, rest);
      assert b == rest + [last] && a + b == (a + rest) + [last];
      StartsInAppend(a + rest, last);
    }
  }

  lemma {:induction false} StartsInEntries(ids: seq<TaskId>, env: Environment, round: nat)
    ensures StartsIn(StartEntries(ids)) == ids && StartsIn(OutcomeEntries(ids, env, round)) == []
  {
    assert StartsIn([]) == [];
    hide StartsIn, OutcomeEntry;
    if ids != [] {
      var rest, last := ids[..|ids| - 1], ids[|ids| - 1];
      StartsInEntries(rest, env, round);
      StartsInAppend(StartEntries(rest), TaskCreated(last));
      OutcomeStartsNothing(OutcomeEntries(rest, env, round), last, env.outcome(round, last));
      assert ids == rest + [last];
    }
  }

  lemma OutcomeStartsNothing(journal: seq<JournalEntry>, id: TaskId, o: Outcome)
    ensures StartsIn(journal + [OutcomeEntry(id, o)]) == StartsIn(journal)
  {
    StartsInAppend(journal, OutcomeEntry(id, o));
  }

  /** The journal of a run tells its starts. */
  lemma {:induction false} JournalTellsStarts(g: Graph, env: Environment, round: nat)
    requires DependenciesPresent(g)
    ensures StartsIn(RunJournal(g, env, round)) == Run(g, env, round).started
    decreases TotalBudget(g, g.Keys)
  {
    hide Round, Scheduling.NextTasks, Succeeding, StartsIn;
    var batch := Scheduling.NextTasks(g, env.held(round), env.limit);
    NextTasksIsBatch(g, env.held(round), env.limit);
    if batch != [] {
      RoundSpendsBudget(g, batch, env, round);
      var g' := Round(g, batch, env, round);
      JournalTellsStarts(g', env, round + 1);
      StartsInEntries(batch, env, round);
      StartsInConcat(StartEntries(batch), OutcomeEntries(batch, env, round));
      StartsInConcat(RoundJournal(batch, env, round), RunJournal(g', env, round + 1));
    } else {
      StartsInEntries([], env, round);
      assert StartEntries([]) == [];
    }
  }

  /** The nodes that journal entries report as completed. */
  function CompletionsIn(journal: seq<JournalEntry>): seq<TaskId> {
    if journal == [] then []
    else
      var last := journal[|journal| - 1];
      CompletionsIn(journal[..|journal| - 1]) + (if last.TaskCompleted? then [last.node] else [])
  }

  lemma CompletionsInAppend(journal: seq<JournalEntry>, entry: JournalEntry)
    ensures CompletionsIn(journal + [entry])
         == CompletionsIn(journal) + (if entry.TaskCompleted? then [entry.node] else [])
  {
    assert (journal + [entry])[..|journal|] == journal;
  }

  lemma {:induction false} CompletionsInConcat(a: seq<JournalEntry>, b: seq<JournalEntry>)
    ensures CompletionsIn(a + b) == CompletionsIn(a) + CompletionsIn(b)
  {
    if b == [] {
      assert a + b == a;
    } else {
      var rest, last := b[..|b| - 1], b[|b| - 1];
      CompletionsInConcat(a, rest);
      assert b == rest + [last] && a + b == (a + rest) + [last];
      CompletionsInAppend(a + rest, last);
      CompletionsInAppend(rest, last);
    }
  }

  lemma {:induction false} CompletionsInEntries(ids: seq<TaskId>, env: Environment, round: nat)
    ensures CompletionsIn(StartEntries(ids)) == []
    ensures CompletionsIn(OutcomeEntries(ids, env, round)) == Succeeding(ids, env, round)
  {
    assert CompletionsIn([]) == [];
    hide CompletionsIn, Succeeding, OutcomeEntry;
    if ids != [] {
      var rest, last := ids[..|ids| - 1], ids[|ids| - 1];
      CompletionsInEntries(rest, env, round);
      CompletionsInAppend(StartEntries(rest), TaskCreated(last));
      OutcomeCompletes(OutcomeEntries(rest, env, round), last, env.outcome(round, last));
      assert ids == rest + [last];
      SucceedingAppend(rest, last, env, round);
    } else {
      NobodySucceeds(env, round);
    }
  }

  lemma OutcomeCompletes(journal: seq<JournalEntry>, id: TaskId, o: Outcome)
    ensures CompletionsIn(journal + [OutcomeEntry(id, o)])
         == CompletionsIn(journal) + (if o.Succeeded? then [id] else [])
  {
    CompletionsInAppend(journal, OutcomeEntry(id, o));
  }

  lemma NobodySucceeds(env: Environment, round: nat)
    ensures Succeeding([], env, round) == []
  {
  }

  /** The journal of a run tells its completions. */
  lemma {:induction false} JournalTellsCompletions(g: Graph, env: Environment, round: nat)
    requires DependenciesPresent(g)
    ensures CompletionsIn(RunJournal(g, env, round)) == Run(g, env, round).completed
    decreases TotalBudget(g, g.Keys)
  {
    hide Round, Scheduling.NextTasks, Succeeding, CompletionsIn;
    var batch := Scheduling.NextTasks(g, env.held(round), env.limit);
    NextTasksIsBatch(g, env.held(round), env.limit);
    if batch != [] {
      RoundSpendsBudget(g, batch, env, round);
      var g' := Round(g, batch, env, round);
      JournalTellsCompletions(g', env, round + 1);
      CompletionsInEntries(batch, env, round);
      CompletionsInConcat(StartEntries(batch), OutcomeEntries(batch, env, round));
      CompletionsInConcat(RoundJournal(batch, env, round), RunJournal(g', env, round + 1));
    } else {
      CompletionsInEntries([], env, round);
      assert StartEntries([]) == [];
    }
  }

  function FirstWith(g: Graph, order: seq<TaskId>, status: Status): Option<TaskId>
    requires forall n | n in order :: n in g
  {
    if order == [] then None
    else if g[order[0]].status == status then Some(order[0])
    else FirstWith(g, order[1..], status)
  }

  function Opening(g: Graph): seq<JournalEntry> {
    [GoalCreated, PlanCreated(g.Keys)]
  }

  function Closing(r: TaskResult): JournalEntry {
    if r.verified then GoalCompleted(r.completedTasks) else GoalVerificationFailed(r.unmetCriteria, r.blockedReason)
  }

  predicate AllCompleted(g: Graph) {
    forall n | n in g :: g[n].status.Completed?
  }

  /** What `run_graph` reports about a finished graph. */
  function Conclude(g: Graph, order: seq<TaskId>, unmet: seq<string>, completed: seq<TaskId>): TaskResult
    requires forall n | n in order :: n in g
  {
    if unmet == [] && AllCompleted(g) then
      TaskResult(OutcomeCompleted, true, [], completed, None)
    else
      var blocked, failed := FirstWith(g, order, Blocked), FirstWith(g, order, Failed);
      FirstWithIsIn(g, order, Blocked);
      FirstWithIsIn(g, order, Failed);
      TaskResult(
        if blocked.Some? then OutcomeBlocked else if completed != [] then OutcomePartiallyCompleted else OutcomeFailed,
        false, unmet, completed,
        if blocked.Some? then g[blocked.value].error
        else if failed.Some? then g[failed.value].error
        else Some("Acceptance criteria were not met"))
  }

  lemma {:induction false} FirstWithIsIn(g: Graph, order: seq<TaskId>, status: Status)
    requires forall n | n in order :: n in g
    ensures FirstWith(g, order, status).Some? ==>
              FirstWith(g, order, status).value in order && g[FirstWith(g, order, status).value].status == status
    ensures FirstWith(g, order, status).None? ==> forall n | n in order :: g[n].status != status
  {
    if order != [] {
      FirstWithIsIn(g, order[1..], status);
      assert order == [order[0]] + order[1..];
    }
  }

  /**
   What the report means when the run settled: verified exactly when the criteria hold and every
   task completed; blocked exactly when some task depends on a failed one, and then the reason
   names a failed task that the reported task depends on.
   */
  lemma ReportIsHonest(g: Graph, order: seq<TaskId>, unmet: seq<string>, completed: seq<TaskId>)
    requires Sound(g) && Settled(g) && forall n :: n in order <==> n in g
    ensures
      var r := Conclude(g, order, unmet, completed);
      && (r.verified <==> r.outcome.OutcomeCompleted?)
      && (r.verified <==> unmet == [] && forall n | n in g :: g[n].status.Completed?)
      && (r.outcome.OutcomeBlocked? <==> exists n :: n in g && HasFailedDependency(g, n))
      && (r.outcome.OutcomeBlocked? ==>
            exists n, f :: n in g && f in g && g[f].status.Failed? && DependsOn(Dependencies(g), n, f)
                           && r.blockedReason == Some("Dependency " + f + " failed"))
  {
    FirstWithIsIn(g, order, Blocked);
    forall n | n in g ensures g[n].status.Blocked? <==> HasFailedDependency(g, n) {
      BlockedExactly(g, n);
    }
    var blocked := FirstWith(g, order, Blocked);
    if blocked.Some? {
      BlockedExactly(g, blocked.value);
      var f :| Blames(g, blocked.value, f);
    }
  }

  /**
   A whole run of `g`: the rounds from 0, the report about the graph they leave, and the journal
   after the opening, every round and the report.
   */
  ghost predicate Finishes(g: Graph, order: seq<TaskId>, unmet: seq<string>, env: Environment, final: Graph,
                           result: TaskResult, before: seq<JournalEntry>, after: seq<JournalEntry>)
  {
    && DependenciesPresent(g)
    && var t := Run(g, env, 0);
    && final == t.final
    && (forall n :: n in order <==> n in final)
    && result == Conclude(final, order, unmet, t.completed)
    && after == before + Opening(g) + RunJournal(g, env, 0) + [Closing(result)]
  }

  /** The task comes first in `order` among those with this status. */
  ghost predicate FirstOf(g: Graph, order: seq<TaskId>, status: Status, n: TaskId) {
    && n in g && g[n].status == status
    && exists k | 0 <= k < |order| ::
         order[k] == n && forall j | 0 <= j < k :: order[j] in g && g[order[j]].status != status
  }

  lemma {:induction false} FirstWithIsFirst(g: Graph, order: seq<TaskId>, status: Status)
    requires forall n | n in order :: n in g
    ensures FirstWith(g, order, status).Some? ==> FirstOf(g, order, status, FirstWith(g, order, status).value)
    ensures FirstWith(g, order, status).None? ==> forall n | n in order :: g[n].status != status
  {
    if order != [] {
      var rest := order[1..];
      assert order == [order[0]] + rest;
      FirstWithIsFirst(g, rest, status);
      if g[order[0]].status != status && FirstWith(g, rest, status).Some? {
        var n := FirstWith(g, rest, status).value;
        var k :| 0 <= k < |rest| && rest[k] == n
                 && forall j | 0 <= j < k :: rest[j] in g && g[rest[j]].status != status;
        assert order[k + 1] == n;
        assert forall j | 0 <= j < k + 1 :: j == 0 || order[j] == rest[j - 1];
      }
    }
  }

  ghost predicate SomeTask(g: Graph, status: Status) {
    exists n :: n in g && g[n].status == status
  }

  ghost predicate EveryTask(g: Graph, status: Status) {
    forall n | n in g :: g[n].status == status
  }

  /** Some task was completed by the run that led from `g` to `final`. */
  ghost predicate CompletedSome(g: Graph, final: Graph) {
    exists n :: n in g && n in final && final[n].status == Completed && g[n].status != Completed
  }

  /** Why a run is not verified: the error of the first blocked task, or else of the first failed one. */
  ghost predicate ReasonIs(final: Graph, order: seq<TaskId>, reason: Option<string>) {
    if SomeTask(final, Blocked) then exists n :: FirstOf(final, order, Blocked, n) && reason == final[n].error
    else if SomeTask(final, Failed) then exists n :: FirstOf(final, order, Failed, n) && reason == final[n].error
    else reason == Some("Acceptance criteria were not met")
  }

  lemma FirstWithExactly(g: Graph, order: seq<TaskId>, status: Status)
    requires forall n :: n in order <==> n in g
    ensures FirstWith(g, order, status).Some? <==> SomeTask(g, status)
    ensures FirstWith(g, order, status).Some? ==> FirstOf(g, order, status, FirstWith(g, order, status).value)
  {
    FirstWithIsFirst(g, order, status);
    hide FirstWith;
  }

  lemma ConcludesExactly(final: Graph, order: seq<TaskId>, unmet: seq<string>, completed: seq<TaskId>)
    requires forall n :: n in order <==> n in final
    ensures
      var r, verified := Conclude(final, order, unmet, completed), unmet == [] && EveryTask(final, Completed);
      && r.verified == verified && r.completedTasks == completed
      && r.unmetCriteria == (if verified then [] else unmet)
      && r.outcome == (if verified then OutcomeCompleted
                       else if SomeTask(final, Blocked) then OutcomeBlocked
                       else if completed != [] then OutcomePartiallyCompleted
                       else OutcomeFailed)
      && (if verified then r.blockedReason == None else ReasonIs(final, order, r.blockedReason))
  {
    FirstWithExactly(final, order, Blocked);
    FirstWithExactly(final, order, Failed);
    assert EveryTask(final, Completed) <==> AllCompleted(final);
    hide FirstOf, FirstWith, SomeTask, EveryTask, AllCompleted;
  }

  /**
   The report of a run, read off the graph before and after it: completed and verified exactly when no
   criterion is unmet and every task is completed; otherwise blocked exactly when some task is blocked,
   partially completed exactly when none is and the run completed some task, failed exactly when none is and
   it completed none. It lists what the run completed and, unless verified, the unmet criteria and the reason.
   */
  lemma ReportsExactly(g: Graph, order: seq<TaskId>, unmet: seq<string>, env: Environment, final: Graph,
                       result: TaskResult, before: seq<JournalEntry>, after: seq<JournalEntry>)
    requires Finishes(g, order, unmet, env, final, result, before, after)
    ensures result.verified <==> unmet == [] && EveryTask(final, Completed)
    ensures result.outcome ==
              if result.verified then OutcomeCompleted
              else if SomeTask(final, Blocked) then OutcomeBlocked
              else if CompletedSome(g, final) then OutcomePartiallyCompleted
              else OutcomeFailed
    ensures forall n :: n in result.completedTasks <==>
              n in g && n in final && final[n].status == Completed && g[n].status != Completed
    ensures result.unmetCriteria == if result.verified then [] else unmet
    ensures
      var opening := before + [GoalCreated, PlanCreated(g.Keys)];
      && opening <= after && |opening| < |after|
      && after[|after| - 1] ==
           if result.verified then GoalCompleted(result.completedTasks)
           else GoalVerificationFailed(result.unmetCriteria, result.blockedReason)
    ensures if result.verified then result.blockedReason == None else ReasonIs(final, order, result.blockedReason)
  {
    hide Run, RunJournal, Conclude, ReasonIs, EveryTask, SomeTask;
    var completed := Run(g, env, 0).completed;
    RunCompletes(g, env, completed);
    ConcludesExactly(final, order, unmet, completed);
    if completed != [] {
      assert completed[0] in completed;
    }
  }

  lemma RunCompletes(g: Graph, env: Environment, completed: seq<TaskId>)
    requires DependenciesPresent(g) && completed == Run(g, env, 0).completed
    ensures
      var final := Run(g, env, 0).final;
      forall n :: n in completed <==> n in g && n in final && final[n].status == Completed && g[n].status != Completed
  {
    RunNamesTasks(g, env, 0);
    forall n | n in g ensures n in completed <==>
        Run(g, env, 0).final[n].status == Completed && g[n].status != Completed
    {
      CompletedExactly(g, env, 0, n);
    }
    hide Run;
  }

  class AutonomousTaskEngine {
    const scheduler: TaskScheduler
    const maxParallelAgents: int
    var journal: seq<JournalEntry>

    constructor (scheduler: TaskScheduler, maxParallelAgents: int)
      ensures this.scheduler == scheduler && this.maxParallelAgents == maxParallelAgents && journal == []
    {
      this.scheduler := scheduler;
      this.maxParallelAgents := maxParallelAgents;
      journal := [];
    }

    function Limit(): int {
      if maxParallelAgents < 1 then 1 else maxParallelAgents
    }

    /**
     Runs the graph until the scheduler is idle. `outcome` and `held` stand for the executions and
     the locks; `unmet` is what the acceptance criteria report afterwards.
     */
    method RunGraph(graph: TaskGraph, outcome: (nat, TaskId) -> Outcome, held: nat -> set<Resource>,
                    unmet: seq<string>, dryRun: bool)
      returns (r: Result<TaskResult, GraphError>)
      requires graph.Valid()
      modifies this, graph.nodes
      ensures graph.Valid()
      ensures r.Ok? <==> WellFormed(old(graph.Value()))
      ensures r.Err? || dryRun ==> graph.Value() == old(graph.Value())
      ensures r.Err? ==> journal == old(journal)
      ensures r.Ok? && dryRun ==>
        && r.value == TaskResult(OutcomeBlocked, false, [], [], Some("dry_run"))
        && journal == old(journal) + Opening(old(graph.Value()))
      ensures r.Ok? && !dryRun ==>
        Finishes(old(graph.Value()), graph.order, unmet, Environment(outcome, held, Limit()),
                 graph.Value(), r.value, old(journal), journal)
    {
      KeysOfValue(graph);
      hide Finishes, DependenciesPresent, Acyclic, TaskGraph.Valid, TaskGraph.Value;
      var valid := graph.Validate();
      if valid.Err? {
        return Err(valid.error);
      }
      journal := journal + [GoalCreated, PlanCreated(graph.tasks.Keys)];
      if dryRun {
        return Ok(TaskResult(OutcomeBlocked, false, [], [], Some("dry_run")));
      }
      var result := RunAndReport(graph, Environment(outcome, held, Limit()), unmet, old(journal));
      return Ok(result);
    }

    /** What `run_graph` does once the plan is journalled. */
    method RunAndReport(graph: TaskGraph, env: Environment, unmet: seq<string>, ghost before: seq<JournalEntry>)
      returns (result: TaskResult)
      requires graph.Valid() && WellFormed(graph.Value())
      requires journal == before + Opening(graph.Value())
      modifies this, graph.nodes
      ensures graph.Valid()
      ensures Finishes(old(graph.Value()), graph.order, unmet, env, graph.Value(), result, before, journal)
    {
      hide TaskGraph.Valid, TaskGraph.Value, Acyclic, Opening, Closing, Conclude, Run, RunJournal;
      var completed := RunRounds(graph, env);
      KeysOfValue(graph);
      result := Report(graph, unmet, completed);
    }

    /** The loop of `run_graph`. */
    method RunRounds(graph: TaskGraph, env: Environment) returns (completed: seq<TaskId>)
      requires graph.Valid() && WellFormed(graph.Value())
      modifies this, graph.nodes
      ensures graph.Valid()
      ensures
        var t := Run(old(graph.Value()), env, 0);
        && graph.Value() == t.final && completed == t.completed
        && journal == old(journal) + RunJournal(old(graph.Value()), env, 0)
    {
      hide Run, RunJournal, Round, Scheduling.NextTasks, TotalBudget, Succeeding, Acyclic, RoundJournal, Continues,
        SameTasks, TaskGraph.Valid, TaskGraph.Value;
      ghost var g := graph.Value();
      ghost var whole := Whole(Run(g, env, 0), RunJournal(g, env, 0));
      ghost var written: seq<JournalEntry> := [];
      completed := [];
      var round := 0;
      ContinuesAtStart(g, env);
      var ready := Poll(graph, env, 0);
      while ready != []
        invariant graph.Valid() && WellFormed(graph.Value())
        invariant TasksOf(graph, ready, Scheduling.NextTasks(graph.Value(), env.held(round), env.limit))
        invariant Continues(whole, graph.Value(), env, round, completed, written)
        invariant journal == old(journal) + written
        decreases TotalBudget(graph.Value(), graph.Value().Keys)
      {
        RunProceeds(whole, env, graph.Value(), round, completed, written);
        SameTasksAfterRound(graph.Value(), TaskIds(ready), env, round);
        written := written + RoundJournal(TaskIds(ready), env, round);
        var done := RunRound(graph, ready, env, round);
        completed := completed + done;
        round := round + 1;
        ready := Poll(graph, env, round);
      }
      RunStops(whole, env, graph.Value(), round, completed, written);
    }

    method Poll(graph: TaskGraph, env: Environment, round: nat) returns (ready: seq<GraphTask>)
      requires graph.Valid() && WellFormed(graph.Value())
      ensures TasksOf(graph, ready, Scheduling.NextTasks(graph.Value(), env.held(round), env.limit))
    {
      var polled := scheduler.NextTasks(graph, env.held(round), env.limit);
      return polled.value;
    }

    /** The body of the loop: start every node of the batch, then hand every outcome to the graph. */
    method RunRound(graph: TaskGraph, ready: seq<GraphTask>, env: Environment, round: nat)
      returns (completed: seq<TaskId>)
      requires graph.Valid() && TasksOf(graph, ready, TaskIds(ready))
      modifies this, graph.nodes
      ensures graph.Valid() && graph.Value() == Round(old(graph.Value()), TaskIds(ready), env, round)
      ensures completed == Succeeding(TaskIds(ready), env, round)
      ensures journal == old(journal) + RoundJournal(TaskIds(ready), env, round)
    {
      hide StartEntries, OutcomeEntries, Start, Settle, Succeeding, TaskGraph.Valid, TaskGraph.Value;
      StartBatch(graph, ready);
      completed := SettleBatch(graph, ready, env, round);
    }

    method Report(graph: TaskGraph, unmet: seq<string>, completed: seq<TaskId>) returns (result: TaskResult)
      requires graph.Valid()
      modifies this
      ensures result == Conclude(graph.Value(), graph.order, unmet, completed)
      ensures journal == old(journal) + [Closing(result)]
    {
      result := Conclusion(graph, unmet, completed);
      if result.verified {
        journal := journal + [GoalCompleted(completed)];
      } else {
        journal := journal + [GoalVerificationFailed(unmet, result.blockedReason)];
      }
    }

    method StartBatch(graph: TaskGraph, ready: seq<GraphTask>)
      requires graph.Valid() && TasksOf(graph, ready, TaskIds(ready))
      modifies this, graph.nodes
      ensures graph.Valid() && graph.Value() == Start(old(graph.Value()), TaskIds(ready))
      ensures journal == old(journal) + StartEntries(TaskIds(ready))
    {
      ghost var ids, g := TaskIds(ready), graph.Value();
      TasksAreKeys(graph, ready);
      StartNothing(g, ids);
      hide Start, StartEntries, TasksOf, TaskIds, TaskGraph.Valid, TaskGraph.Value;
      for i := 0 to |ready|
        invariant graph.Valid() && graph.Value() == Start(g, ids[..i])
        invariant journal == old(journal) + StartEntries(ids[..i])
      {
        TaskOf(graph, ready, ids, i);
        StartStep(g, ids, i);
        StartNode(graph, ready[i]);
      }
      assert ids[..|ready|] == ids;
    }

    /** Hands every outcome of the batch to the graph, in batch order. */
    method SettleBatch(graph: TaskGraph, ready: seq<GraphTask>, env: Environment, round: nat)
      returns (completed: seq<TaskId>)
      requires graph.Valid() && TasksOf(graph, ready, TaskIds(ready))
      modifies this, graph.nodes
      ensures graph.Valid() && graph.Value() == Settle(old(graph.Value()), TaskIds(ready), env, round)
      ensures completed == Succeeding(TaskIds(ready), env, round)
      ensures journal == old(journal) + OutcomeEntries(TaskIds(ready), env, round)
    {
      ghost var g, ids := graph.Value(), TaskIds(ready);
      ghost var written;
      TasksAreKeys(graph, ready);
      SettleNothing(g, ids, env, round);
      hide *;
      completed, written := SettleNodes(graph, ready, env, round, g);
      SettledAll(g, graph.Value(), ids, env, round, completed, written);
    }

    /** The loop over the outcomes of the batch. */
    method SettleNodes(graph: TaskGraph, ready: seq<GraphTask>, env: Environment, round: nat, ghost g: Graph)
      returns (completed: seq<TaskId>, ghost written: seq<JournalEntry>)
      requires graph.Valid() && TasksOf(graph, ready, TaskIds(ready))
      requires SettledUpTo(g, graph.Value(), TaskIds(ready), 0, env, round, [], [])
      modifies this, graph.nodes
      ensures graph.Valid()
      ensures SettledUpTo(g, graph.Value(), TaskIds(ready), |ready|, env, round, completed, written)
      ensures journal == old(journal) + written
    {
      ghost var ids := TaskIds(ready);
      completed, written := [], [];
      hide *;
      for i := 0 to |ready|
        invariant graph.Valid() && SettledUpTo(g, graph.Value(), ids, i, env, round, completed, written)
        invariant journal == old(journal) + written
      {
        TaskOf(graph, ready, ids, i);
        SettleStep(g, graph.Value(), ids, i, env, round, completed, written);
        var outcome := env.outcome(round, ready[i].taskId);
        SettleNode(graph, ready[i].taskId, outcome);
        completed := completed + (if outcome.Succeeded? then [ready[i].taskId] else []);
        written := written + [OutcomeEntry(ids[i], outcome)];
      }
    }

    method StartNode(graph: TaskGraph, node: GraphTask)
      requires graph.Valid() && node.taskId in graph.tasks && node == graph.tasks[node.taskId]
      modifies this, graph.nodes
      ensures graph.Valid()
      ensures graph.Value() == old(graph.Value())[node.taskId := old(graph.Value())[node.taskId].(status := Running)]
      ensures journal == old(journal) + [TaskCreated(node.taskId)]
    {
      node.status := Running;
      journal := journal + [TaskCreated(node.taskId)];
    }

    method SettleNode(graph: TaskGraph, id: TaskId, outcome: Outcome)
      requires graph.Valid() && id in graph.tasks
      modifies this, graph.nodes
      ensures graph.Valid() && graph.Value() == ApplyOutcome(old(graph.Value()), id, outcome)
      ensures journal == old(journal) + [OutcomeEntry(id, outcome)]
    {
      hide TaskGraph.Valid, TaskGraph.Value, Fail, Complete;
      match outcome
      case Raised(message) =>
        graph.Fail(id, message);
        journal := journal + [TaskFailed(id, message)];
      case Succeeded =>
        graph.Complete(id);
        journal := journal + [TaskCompleted(id)];
    }

    method Conclusion(graph: TaskGraph, unmet: seq<string>, completed: seq<TaskId>) returns (r: TaskResult)
      requires graph.Valid()
      ensures r == Conclude(graph.Value(), graph.order, unmet, completed)
    {
      ghost var g := graph.Value();
      assert forall id | id in graph.tasks :: g[id] == graph.tasks[id].Value();
      if unmet == [] && forall id | id in graph.tasks :: graph.tasks[id].status.Completed? {
        assert AllCompleted(g);
        return TaskResult(OutcomeCompleted, true, [], completed, None);
      }
      assert unmet != [] || !AllCompleted(g);
      var blocked := First(graph, Blocked);
      var failed := First(graph, Failed);
      FirstWithIsIn(g, graph.order, Blocked);
      FirstWithIsIn(g, graph.order, Failed);
      return TaskResult(
        if blocked.Some? then OutcomeBlocked else if completed != [] then OutcomePartiallyCompleted else OutcomeFailed,
        false, unmet, completed,
        if blocked.Some? then graph.tasks[blocked.value].error
        else if failed.Some? then graph.tasks[failed.value].error
        else Some("Acceptance criteria were not met"));
    }

    method First(graph: TaskGraph, status: Status) returns (r: Option<TaskId>)
      requires graph.Valid()
      ensures r == FirstWith(graph.Value(), graph.order, status)
    {
      ghost var g := graph.Value();
      for i := 0 to |graph.order|
        invariant FirstWith(g, graph.order, status) == FirstWith(g, graph.order[i..], status)
      {
        var id := graph.order[i];
        assert graph.order[i..][0] == id && graph.order[i..][1..] == graph.order[i + 1..] && id in graph.order;
        assert g[id] == graph.tasks[id].Value();
        if graph.tasks[id].status == status {
          return Some(id);
        }
      }
      return None;
    }
  }

  lemma StartsInAppend(journal: seq<JournalEntry>, entry: JournalEntry)
    ensures StartsIn(journal + [entry]) == StartsIn(journal) + (if entry.TaskCreated? then [entry.node] else [])
  {
    assert (journal + [entry])[..|journal|] == journal;
  }

  lemma TaskOf(graph: TaskGraph, tasks: seq<GraphTask>, ids: seq<TaskId>, i: nat)
    requires TasksOf(graph, tasks, ids) && i < |ids|
    ensures |tasks| == |ids| && tasks[i].taskId == ids[i] && ids[i] in graph.tasks && tasks[i] == graph.tasks[ids[i]]
  {
  }

  lemma KeysOfValue(graph: TaskGraph)
    requires graph.Valid()
    ensures graph.Value().Keys == graph.tasks.Keys && forall n :: n in graph.order <==> n in graph.Value()
  {
  }

  lemma TasksAreKeys(graph: TaskGraph, tasks: seq<GraphTask>)
    requires graph.Valid() && TasksOf(graph, tasks, TaskIds(tasks))
    ensures forall x | x in TaskIds(tasks) :: x in graph.Value()
  {
  }

  lemma StartNothing(g: Graph, ids: seq<TaskId>)
    ensures Start(g, ids[..0]) == g && StartEntries(ids[..0]) == []
  {
  }

  lemma StartStep(g: Graph, ids: seq<TaskId>, i: nat)
    requires i < |ids| && ids[i] in g
    ensures
      var g' := Start(g, ids[..i]);
      ids[i] in g' && Start(g, ids[..i + 1]) == g'[ids[i] := g'[ids[i]].(status := Running)]
    ensures StartEntries(ids[..i + 1]) == StartEntries(ids[..i]) + [TaskCreated(ids[i])]
  {
    assert ids[..i + 1] == ids[..i] + [ids[i]];
    StartEntriesAppend(ids, i);
  }

  /** After `i` outcomes: settling the others finishes the batch, and the notes so far tell those `i`. */
  ghost predicate SettledUpTo(first: Graph, g: Graph, ids: seq<TaskId>, i: nat, env: Environment, round: nat,
                              completed: seq<TaskId>, written: seq<JournalEntry>)
  {
    && i <= |ids| && (forall x | x in ids :: x in first) && (forall x | x in ids :: x in g)
    && Settle(g, ids[i..], env, round) == Settle(first, ids, env, round)
    && completed == Succeeding(ids[..i], env, round)
    && written == OutcomeEntries(ids[..i], env, round)
  }

  lemma SettleNothing(g: Graph, ids: seq<TaskId>, env: Environment, round: nat)
    requires forall x | x in ids :: x in g
    ensures SettledUpTo(g, g, ids, 0, env, round, [], [])
  {
    assert ids[0..] == ids;
  }

  lemma SettleStep(first: Graph, g: Graph, ids: seq<TaskId>, i: nat, env: Environment, round: nat,
                   completed: seq<TaskId>, written: seq<JournalEntry>)
    requires i < |ids| && SettledUpTo(first, g, ids, i, env, round, completed, written)
    ensures
      var o := env.outcome(round, ids[i]);
      && ids[i] in g
      && SettledUpTo(first, ApplyOutcome(g, ids[i], o), ids, i + 1, env, round,
                     completed + (if o.Succeeded? then [ids[i]] else []), written + [OutcomeEntry(ids[i], o)])
  {
    assert ids[i..][0] == ids[i] && ids[i..][1..] == ids[i + 1..];
    assert ids[..i + 1] == ids[..i] + [ids[i]];
    hide Succeeding, OutcomeEntries, OutcomeEntry;
    SucceedingAppend(ids[..i], ids[i], env, round);
    OutcomeEntriesAppend(ids, i, env, round);
  }

  lemma SettledAll(first: Graph, g: Graph, ids: seq<TaskId>, env: Environment, round: nat, completed: seq<TaskId>,
                   written: seq<JournalEntry>)
    requires SettledUpTo(first, g, ids, |ids|, env, round, completed, written)
    ensures g == Settle(first, ids, env, round)
    ensures completed == Succeeding(ids, env, round) && written == OutcomeEntries(ids, env, round)
  {
    assert ids[..|ids|] == ids;
  }

  lemma {:induction false} SucceedingAppend(ids: seq<TaskId>, id: TaskId, env: Environment, round: nat)
    ensures Succeeding(ids + [id], env, round) ==
            Succeeding(ids, env, round) + (if env.outcome(round, id).Succeeded? then [id] else [])
  {
    if ids != [] {
      SucceedingAppend(ids[1..], id, env, round);
      assert (ids + [id])[1..] == ids[1..] + [id];
    }
  }

  datatype Whole = Whole(trace: Trace, journal: seq<JournalEntry>)

  /** The rest of a run, put after what has been done, is the whole run. */
  ghost predicate Continues(whole: Whole, g: Graph, env: Environment, round: nat, completed: seq<TaskId>,
                            written: seq<JournalEntry>)
    requires DependenciesPresent(g)
  {
    var rest := Run(g, env, round);
    && whole.trace.final == rest.final
    && whole.trace.completed == completed + rest.completed
    && whole.journal == written + RunJournal(g, env, round)
  }

  lemma ContinuesAtStart(g: Graph, env: Environment)
    requires DependenciesPresent(g)
    ensures Continues(Whole(Run(g, env, 0), RunJournal(g, env, 0)), g, env, 0, [], [])
  {
    hide Run, RunJournal;
  }

  lemma SameTasksAfterRound(g: Graph, batch: seq<TaskId>, env: Environment, round: nat)
    requires WellFormed(g) && forall x | x in batch :: x in g
    ensures WellFormed(Round(g, batch, env, round)) && Round(g, batch, env, round).Keys == g.Keys
  {
    var g' := Round(g, batch, env, round);
    assert Dependencies(g) == Dependencies(g');
  }

  lemma RunStops(whole: Whole, env: Environment, g: Graph, round: nat, completed: seq<TaskId>,
                 written: seq<JournalEntry>)
    requires DependenciesPresent(g) && Continues(whole, g, env, round, completed, written)
    requires Scheduling.NextTasks(g, env.held(round), env.limit) == []
    ensures whole.trace.final == g && whole.trace.completed == completed && whole.journal == written
  {
  }

  lemma RunUnfolds(g: Graph, env: Environment, round: nat)
    requires DependenciesPresent(g) && Scheduling.NextTasks(g, env.held(round), env.limit) != []
    ensures
      var batch := Scheduling.NextTasks(g, env.held(round), env.limit);
      && (forall x | x in batch :: x in g)
      && var g', t := Round(g, batch, env, round), Run(g, env, round);
      && DependenciesPresent(g') && TotalBudget(g', g.Keys) < TotalBudget(g, g.Keys)
      && t.final == Run(g', env, round + 1).final
      && t.completed == Succeeding(batch, env, round) + Run(g', env, round + 1).completed
      && RunJournal(g, env, round) == RoundJournal(batch, env, round) + RunJournal(g', env, round + 1)
  {
    hide Round, Succeeding, RoundJournal, TotalBudget;
    var batch := Scheduling.NextTasks(g, env.held(round), env.limit);
    NextTasksIsBatch(g, env.held(round), env.limit);
    RoundSpendsBudget(g, batch, env, round);
  }

  lemma RunProceeds(whole: Whole, env: Environment, g: Graph, round: nat, completed: seq<TaskId>,
                    written: seq<JournalEntry>)
    requires DependenciesPresent(g) && Continues(whole, g, env, round, completed, written)
    requires Scheduling.NextTasks(g, env.held(round), env.limit) != []
    ensures
      var batch := Scheduling.NextTasks(g, env.held(round), env.limit);
      && (forall x | x in batch :: x in g)
      && Continues(whole, Round(g, batch, env, round), env, round + 1,
                   completed + Succeeding(batch, env, round), written + RoundJournal(batch, env, round))
      && TotalBudget(Round(g, batch, env, round), g.Keys) < TotalBudget(g, g.Keys)
  {
    hide Round, Succeeding, RoundJournal, TotalBudget, Run, RunJournal, Scheduling.NextTasks, DependenciesPresent,
      SameTasks;
    RunUnfolds(g, env, round);
    var batch := Scheduling.NextTasks(g, env.held(round), env.limit);
    var g' := Round(g, batch, env, round);
    var rest, entries := Run(g', env, round + 1), RunJournal(g', env, round + 1);
    var first, noted := Succeeding(batch, env, round), RoundJournal(batch, env, round);
    assert completed + (first + rest.completed) == completed + first + rest.completed;
    assert written + (noted + entries) == written + noted + entries;
  }
}
