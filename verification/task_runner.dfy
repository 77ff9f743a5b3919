/**
 `TaskEngineMissionRunner`: a mission's graph is restored from what was saved, run, and saved
 again, any number of times.
 */
module TaskRunner {
  import opened Wrappers
  import opened Ordering
  import opened TaskModel
  import opened Scheduling
  import opened EngineModel
  import opened EngineTheorems
  import opened TaskGraphs
  import opened TaskEngine

  /** One entry of a saved graph; absent keys are None. */
  datatype SavedNode = SavedNode(
    objective: string,
    status: Option<string>,
    dependencies: seq<TaskId>,
    retries: Option<int>,
    error: Option<string>)

  type Saved = map<TaskId, SavedNode>

  function StatusValue(s: Status): string {
    match s
    case Pending => "pending"
    case Running => "running"
    case Completed => "completed"
    case Failed => "failed"
    case Blocked => "blocked"
    case Paused => "paused"
    case Cancelled => "cancelled"
  }

  function StatusFrom(value: string): Option<Status> {
    match value
    case "pending" => Some(Pending)
    case "running" => Some(Running)
    case "completed" => Some(Completed)
    case "failed" => Some(Failed)
    case "blocked" => Some(Blocked)
    case "paused" => Some(Paused)
    case "cancelled" => Some(Cancelled)
    case _ => None
  }

  /** Reading a status value and writing a status are inverse to each other. */
  lemma StatusRoundTrip(s: Status, value: string)
    ensures StatusFrom(StatusValue(s)) == Some(s)
    ensures StatusFrom(value) == Some(s) <==> value == StatusValue(s)
  {
    assert StatusValue(Pending)[0] == 'p' && StatusValue(Paused)[1] == 'a';
  }

  predicate Restorable(node: SavedNode) {
    node.status.Some? && StatusFrom(node.status.value).Some?
  }

  function RestoreTask(t: Task, node: SavedNode): (r: Task)
    ensures r.spec == t.spec
  {
    if Restorable(node)
    then t.(status := StatusFrom(node.status.value).value, retries := node.retries.GetOr(0), error := node.error)
    else t
  }

  function Restore(g: Graph, saved: Saved): (r: Graph)
    ensures SameTasks(g, r)
  {
    map n | n in g :: if n in saved then RestoreTask(g[n], saved[n]) else g[n]
  }

  ghost function SerializeTask(t: Task): SavedNode {
    SavedNode(t.spec.objective, Some(StatusValue(t.status)), SortedSet(t.spec.dependencies, StrLeq),
              Some(t.retries), t.error)
  }

  ghost function Serialize(g: Graph): Saved {
    map n | n in g :: SerializeTask(g[n])
  }

  /** The value under which each status is saved. */
  lemma StatusNames()
    ensures StatusValue(Pending) == "pending" && StatusValue(Running) == "running"
    ensures StatusValue(Completed) == "completed"
    ensures StatusValue(Failed) == "failed" && StatusValue(Blocked) == "blocked" && StatusValue(Paused) == "paused"
    ensures StatusValue(Cancelled) == "cancelled"
  {
  }

  /**
   Restoring overwrites status, retries and error of the tasks that are saved with the value of a status, and
   leaves every other task alone.
   */
  lemma RestoresExactly(g: Graph, saved: Saved, n: TaskId)
    requires n in g
    ensures
      var t := Restore(g, saved)[n];
      if n in saved && exists s :: saved[n].status == Some(StatusValue(s)) then
        && saved[n].status == Some(StatusValue(t.status)) && t.spec == g[n].spec && t.error == saved[n].error
        && (saved[n].retries.Some? ==> t.retries == saved[n].retries.value)
        && (saved[n].retries.None? ==> t.retries == 0)
      else t == g[n]
  {
    if n in saved && saved[n].status.Some? {
      var value := saved[n].status.value;
      if StatusFrom(value).Some? {
        StatusRoundTrip(StatusFrom(value).value, value);
      }
      forall s | saved[n].status == Some(StatusValue(s)) ensures StatusFrom(value) == Some(s) {
        StatusRoundTrip(s, value);
      }
      hide StatusFrom, StatusValue;
    }
  }

  /** A saved node has the objective, status, retries and error of its task, and its dependencies once each, sorted. */
  lemma SerializesExactly(g: Graph, n: TaskId)
    requires n in g
    ensures Serialize(g).Keys == g.Keys
    ensures
      var node, t := Serialize(g)[n], g[n];
      && node.objective == t.spec.objective && node.status == Some(StatusValue(t.status))
      && node.retries == Some(t.retries) && node.error == t.error
      && (forall d :: d in node.dependencies <==> d in t.spec.dependencies)
      && (forall i, j | 0 <= i < j < |node.dependencies| ::
            node.dependencies[i] != node.dependencies[j] && StrLeq(node.dependencies[i], node.dependencies[j]))
  {
    StrLeqIsTotalOrder();
    SortedSetProperties(g[n].spec.dependencies, StrLeq);
    hide StatusValue, SortedSet, StrLeq;
  }

  lemma RestoreTaskUndoesSerialize(t: Task, other: Task)
    requires t.spec == other.spec
    ensures RestoreTask(other, SerializeTask(t)) == t
  {
    StatusRoundTrip(t.status, StatusValue(t.status));
    hide StatusFrom, StatusValue;
  }

  /** Restoring onto any state of the same tasks undoes saving. */
  lemma RestoreUndoesSerialize(g: Graph, other: Graph)
    requires SameTasks(other, g)
    ensures Restore(other, Serialize(g)) == g
  {
    hide RestoreTask, SerializeTask;
    forall n | n in g ensures Restore(other, Serialize(g))[n] == g[n] {
      RestoreTaskUndoesSerialize(g[n], other[n]);
    }
  }

  // ---- Any number of runs --------------------------------------------

  datatype History = History(saved: Saved, completed: seq<TaskId>, started: seq<TaskId>)

  /** Each run restores onto a graph built anew from the same tasks and saves what it leaves. */
  ghost function Resume(tasks: Graph, saved: Saved, envs: seq<Environment>): History
    requires DependenciesPresent(tasks)
    decreases |envs|
  {
    hide StatusFrom, StatusValue, RestoreTask, SerializeTask;
    if envs == [] then History(saved, [], []) else
      var t := Run(Restore(tasks, saved), envs[0], 0);
      var later := Resume(tasks, Serialize(t.final), envs[1..]);
      History(later.saved, t.completed + later.completed, t.started + later.started)
  }

  /** Restoring what a run saved gives the graph it left. */
  lemma NextRunContinues(tasks: Graph, saved: Saved, env: Environment)
    requires DependenciesPresent(tasks)
    ensures
      var t := Run(Restore(tasks, saved), env, 0);
      Restore(tasks, Serialize(t.final)) == t.final
  {
    RestoreUndoesSerialize(Run(Restore(tasks, saved), env, 0).final, tasks);
  }

  /** Over all runs together a task is started at most as often as its first restored state allows. */
  lemma {:induction false} TotalStartsBounded(tasks: Graph, saved: Saved, envs: seq<Environment>, n: TaskId)
    requires DependenciesPresent(tasks) && n in tasks
    ensures
      var h := Resume(tasks, saved, envs);
      multiset(h.started)[n] + Budget(Restore(tasks, h.saved)[n]) <= Budget(Restore(tasks, saved)[n])
    decreases |envs|
  {
    hide StatusFrom, StatusValue, RestoreTask, SerializeTask, Run;
    if envs != [] {
      var g := Restore(tasks, saved);
      StartsArePaidFor(g, envs[0], 0, n);
      NextRunContinues(tasks, saved, envs[0]);
      TotalStartsBounded(tasks, Serialize(Run(g, envs[0], 0).final), envs[1..], n);
    }
  }

  /** From the first mission run on, retries included: never more than `max_retries` plus one starts. */
  lemma FreshMissionStarts(tasks: Graph, envs: seq<Environment>, n: TaskId)
    requires DependenciesPresent(tasks) && n in tasks && tasks[n].retries == 0
    ensures multiset(Resume(tasks, map[], envs).started)[n]
            <= (if tasks[n].spec.maxRetries > 0 then tasks[n].spec.maxRetries else 0) + 1
  {
    TotalStartsBounded(tasks, map[], envs, n);
  }

  /** A task that a saved graph does not list as pending is never started again and keeps its state. */
  lemma {:induction false} OnlyPendingTasksResume(tasks: Graph, saved: Saved, envs: seq<Environment>, n: TaskId)
    requires DependenciesPresent(tasks) && n in tasks && !Restore(tasks, saved)[n].status.Pending?
    ensures
      var h := Resume(tasks, saved, envs);
      n !in h.started && Restore(tasks, h.saved)[n] == Restore(tasks, saved)[n]
    decreases |envs|
  {
    hide StatusFrom, StatusValue, RestoreTask, SerializeTask, Run;
    if envs != [] {
      var g := Restore(tasks, saved);
      OnlyPendingTasksChange(g, envs[0], 0, n);
      NextRunContinues(tasks, saved, envs[0]);
      OnlyPendingTasksResume(tasks, Serialize(Run(g, envs[0], 0).final), envs[1..], n);
    }
  }

  /** No completed task is completed, or run, a second time, and the order respects the dependencies across runs. */
  lemma {:induction false} ResumedOrderIsTopological(tasks: Graph, saved: Saved, envs: seq<Environment>)
    requires DependenciesPresent(tasks)
    ensures DependenciesPresent(Restore(tasks, saved))
    ensures Topological(Restore(tasks, saved), Resume(tasks, saved, envs).completed)
    ensures forall n | n in Resume(tasks, saved, envs).completed ::
              n in tasks && !Restore(tasks, saved)[n].status.Completed?
    decreases |envs|
  {
    hide StatusFrom, StatusValue, RestoreTask, SerializeTask, Run;
    var g := Restore(tasks, saved);
    if envs != [] {
      var t := Run(g, envs[0], 0);
      var later := Resume(tasks, Serialize(t.final), envs[1..]);
      NextRunContinues(tasks, saved, envs[0]);
      ResumedOrderIsTopological(tasks, Serialize(t.final), envs[1..]);
      CompletedIsTopological(g, envs[0], 0);
      RunNamesTasks(g, envs[0], 0);
      forall n | n in g ensures n in t.completed <==> t.final[n].status.Completed? && !g[n].status.Completed? {
        CompletedExactly(g, envs[0], 0, n);
      }
      forall n | n in g && g[n].status.Completed? ensures t.final[n].status.Completed? {
        OnlyPendingTasksChange(g, envs[0], 0, n);
      }
      TopologicalAppend(g, t.final, t.completed, later.completed);
    }
  }

  /** What every run saves is sound again and shows no task as running. */
  lemma {:induction false} ResumeKeepsSound(tasks: Graph, saved: Saved, envs: seq<Environment>)
    requires Sound(Restore(tasks, saved)) && NothingRunning(Restore(tasks, saved)) && DependenciesPresent(tasks)
    ensures
      var g := Restore(tasks, Resume(tasks, saved, envs).saved);
      Sound(g) && NothingRunning(g)
    decreases |envs|
  {
    hide StatusFrom, StatusValue, RestoreTask, SerializeTask, Run;
    if envs != [] {
      var g := Restore(tasks, saved);
      RunKeepsSound(g, envs[0], 0);
      NextRunContinues(tasks, saved, envs[0]);
      ResumeKeepsSound(tasks, Serialize(Run(g, envs[0], 0).final), envs[1..]);
    }
  }

  /** Nothing saved by a run carries the value "running". */
  lemma NoRunningTaskIsSaved(tasks: Graph, envs: seq<Environment>, n: TaskId)
    requires DependenciesPresent(tasks) && Fresh(tasks) && envs != [] && n in tasks
    ensures n in Resume(tasks, map[], envs).saved
    ensures Resume(tasks, map[], envs).saved[n].status.Some?
    ensures Resume(tasks, map[], envs).saved[n].status != Some("running")
  {
    assert Restore(tasks, map[]) == tasks;
    FreshIsSound(tasks);
    SavedByRun(tasks, map[], envs, n);
    ResumeKeepsSound(tasks, map[], envs);
    StatusRoundTrip(Running, "running");
  }

  lemma {:induction false} SavedByRun(tasks: Graph, saved: Saved, envs: seq<Environment>, n: TaskId)
    requires DependenciesPresent(tasks) && envs != [] && n in tasks
    ensures n in Resume(tasks, saved, envs).saved && Restorable(Resume(tasks, saved, envs).saved[n])
    decreases |envs|
  {
    hide StatusFrom, StatusValue, RestoreTask, SerializeTask, Restorable, Run;
    var t := Run(Restore(tasks, saved), envs[0], 0);
    if |envs| > 1 {
      SavedByRun(tasks, Serialize(t.final), envs[1..], n);
    } else {
      assert envs[1..] == [];
      SerializedIsRestorable(t.final, n);
    }
  }

  lemma SerializedIsRestorable(g: Graph, n: TaskId)
    requires n in g
    ensures n in Serialize(g) && Restorable(Serialize(g)[n])
  {
    StatusRoundTrip(g[n].status, StatusValue(g[n].status));
  }

  // ---- The runner ----------------------------------------------------

  datatype MissionStatus =
    | MissionCompleted
    | MissionPartiallyCompleted
    | MissionBlocked
    | MissionCancelled
    | MissionFailed

  function MissionStatusOf(outcome: TaskOutcome): MissionStatus {
    match outcome
    case OutcomeCompleted => MissionCompleted
    case OutcomePartiallyCompleted => MissionPartiallyCompleted
    case OutcomeBlocked => MissionBlocked
    case OutcomeCancelled => MissionCancelled
    case OutcomeFailed => MissionFailed
  }

  class Mission {
    var taskGraph: Saved
    /** The checkpoint's "task_graph" and "verified" keys. */
    var checkpointGraph: Option<Saved>
    var checkpointVerified: Option<bool>

    constructor ()
      ensures taskGraph == map[] && checkpointGraph == None && checkpointVerified == None
    {
      taskGraph := map[];
      checkpointGraph := None;
      checkpointVerified := None;
    }

    function Latest(): Saved
      reads this
    {
      checkpointGraph.GetOr(taskGraph)
    }
  }

  /** What a call saves and returns: one resumed run of the tasks from the latest save. */
  ghost predicate CallSaves(tasks: Graph, latest: Saved, order: seq<TaskId>, unmet: seq<string>, env: Environment,
                            saved: Saved, status: MissionStatus, verified: bool)
  {
    && DependenciesPresent(tasks)
    && var t := Run(Restore(tasks, latest), env, 0);
    && saved == Serialize(t.final) == Resume(tasks, latest, [env]).saved
    && (forall n :: n in order <==> n in t.final)
    && status == MissionStatusOf(Conclude(t.final, order, unmet, t.completed).outcome)
    && (verified <==> unmet == [] && AllCompleted(t.final))
  }

  /**
   The status of a mission, read off the tasks before the call and what it saved: completed exactly when no
   criterion is unmet and every saved task is completed; otherwise blocked exactly when some saved task is
   blocked, partially completed exactly when none is and the call completed some task, failed exactly when
   none is and it completed none.
   */
  lemma MissionEndsExactly(tasks: Graph, latest: Saved, order: seq<TaskId>, unmet: seq<string>, env: Environment,
                           saved: Saved, status: MissionStatus, verified: bool)
    requires CallSaves(tasks, latest, order, unmet, env, saved, status, verified)
    ensures saved.Keys == tasks.Keys
    ensures verified <==> unmet == [] && EverySaved(saved, "completed")
    ensures status ==
              if verified then MissionCompleted
              else if SomeSaved(saved, "blocked") then MissionBlocked
              else if SavedProgress(Restore(tasks, latest), saved) then MissionPartiallyCompleted
              else MissionFailed
  {
    var g, final := CallUnfolds(tasks, latest, order, unmet, env, saved, status, verified);
    hide *;
    SavedTells(g, final);
  }

  lemma CallUnfolds(tasks: Graph, latest: Saved, order: seq<TaskId>, unmet: seq<string>, env: Environment,
                    saved: Saved, status: MissionStatus, verified: bool)
    returns (g: Graph, final: Graph)
    requires CallSaves(tasks, latest, order, unmet, env, saved, status, verified)
    ensures g == Restore(tasks, latest) && saved == Serialize(final) && final.Keys == tasks.Keys
    ensures verified <==> unmet == [] && AllCompleted(final)
    ensures status ==
              if verified then MissionCompleted
              else if SomeTask(final, Blocked) then MissionBlocked
              else if CompletedSome(g, final) then MissionPartiallyCompleted
              else MissionFailed
  {
    hide Run, Restore, Resume, Conclude, Serialize, SomeTask, CompletedSome, AllCompleted, SameTasks,
      DependenciesPresent;
    g := Restore(tasks, latest);
    RestorePresent(tasks, latest, env);
    final := Run(g, env, 0).final;
    RunReports(g, order, unmet, env);
  }

  lemma RestorePresent(tasks: Graph, latest: Saved, env: Environment)
    requires DependenciesPresent(tasks)
    ensures DependenciesPresent(Restore(tasks, latest))
    ensures Run(Restore(tasks, latest), env, 0).final.Keys == tasks.Keys
  {
    hide Run, Restore;
  }

  lemma SavedTells(g: Graph, final: Graph)
    ensures
      var saved := Serialize(final);
      && saved.Keys == final.Keys
      && (AllCompleted(final) <==> EverySaved(saved, "completed"))
      && (SomeTask(final, Blocked) <==> SomeSaved(saved, "blocked"))
      && (CompletedSome(g, final) <==> SavedProgress(g, saved))
  {
    var saved := Serialize(final);
    SavedStatusesTell(final);
    assert saved.Keys == final.Keys;
    hide Serialize;
    if n :| n in final && final[n].status == Blocked {
      assert n in saved;
    }
    if n :| n in g && n in final && final[n].status == Completed && g[n].status != Completed {
      assert n in saved;
    }
  }

  ghost predicate EverySaved(saved: Saved, value: string) {
    forall n | n in saved :: saved[n].status == Some(value)
  }

  ghost predicate SomeSaved(saved: Saved, value: string) {
    exists n :: n in saved && saved[n].status == Some(value)
  }

  /** Some task is saved as completed that was not completed when the run began. */
  ghost predicate SavedProgress(before: Graph, saved: Saved) {
    exists n :: n in before && n in saved && saved[n].status == Some("completed") && before[n].status != Completed
  }

  lemma RunReports(g: Graph, order: seq<TaskId>, unmet: seq<string>, env: Environment)
    requires DependenciesPresent(g) && forall n :: n in order <==> n in Run(g, env, 0).final
    ensures
      var t := Run(g, env, 0);
      Conclude(t.final, order, unmet, t.completed).outcome ==
        if unmet == [] && AllCompleted(t.final) then OutcomeCompleted
        else if SomeTask(t.final, Blocked) then OutcomeBlocked
        else if CompletedSome(g, t.final) then OutcomePartiallyCompleted
        else OutcomeFailed
  {
    var t := Run(g, env, 0);
    var result := Conclude(t.final, order, unmet, t.completed);
    var journal := [] + Opening(g) + RunJournal(g, env, 0) + [Closing(result)];
    hide Run, Conclude, RunJournal, Opening, Closing, ReasonIs, SomeTask, CompletedSome;
    ReportsExactly(g, order, unmet, env, t.final, result, [], journal);
    assert EveryTask(t.final, Completed) <==> AllCompleted(t.final);
    hide EveryTask, AllCompleted;
  }

  lemma SavedStatusesTell(g: Graph)
    ensures forall n | n in g ::
              && (Serialize(g)[n].status == Some("completed") <==> g[n].status == Completed)
              && (Serialize(g)[n].status == Some("blocked") <==> g[n].status == Blocked)
  {
    forall n | n in g
      ensures Serialize(g)[n].status == Some("completed") <==> g[n].status == Completed
      ensures Serialize(g)[n].status == Some("blocked") <==> g[n].status == Blocked
    {
      StatusRoundTrip(g[n].status, "completed");
      StatusRoundTrip(g[n].status, "blocked");
    }
  }

  lemma FinishIsSaved(tasks: Graph, latest: Saved, order: seq<TaskId>, unmet: seq<string>, env: Environment,
                      final: Graph, result: TaskResult, before: seq<JournalEntry>, after: seq<JournalEntry>)
    requires DependenciesPresent(tasks)
             && Finishes(Restore(tasks, latest), order, unmet, env, final, result, before, after)
    ensures CallSaves(tasks, latest, order, unmet, env, Serialize(final), MissionStatusOf(result.outcome),
                      result.verified)
  {
    ResumeOnce(tasks, latest, env);
    hide Run, Restore, Serialize, RunJournal, Resume;
  }

  lemma ResumeOnce(tasks: Graph, latest: Saved, env: Environment)
    requires DependenciesPresent(tasks)
    ensures Resume(tasks, latest, [env]).saved == Serialize(Run(Restore(tasks, latest), env, 0).final)
  {
    hide Run, Restore, Serialize;
    var t := Run(Restore(tasks, latest), env, 0);
    assert [env][1..] == [];
    assert Resume(tasks, Serialize(t.final), []).saved == Serialize(t.final);
  }

  class TaskEngineMissionRunner {
    const engine: AutonomousTaskEngine

    constructor (engine: AutonomousTaskEngine)
      ensures this.engine == engine
    {
      this.engine := engine;
    }

    /** One call on a graph that was built for the mission; an invalid graph leaves the mission as it was. */
    method Call(mission: Mission, graph: TaskGraph, outcome: (nat, TaskId) -> Outcome, held: nat -> set<Resource>,
                unmet: seq<string>)
      returns (r: Result<MissionStatus, GraphError>)
      requires graph.Valid()
      modifies mission, engine, graph.nodes
      ensures r.Ok? <==> WellFormed(old(graph.Value()))
      ensures r.Err? ==>
        && mission.Latest() == old(mission.Latest())
        && mission.checkpointVerified == old(mission.checkpointVerified)
      ensures r.Ok? ==>
        && mission.checkpointGraph == Some(mission.taskGraph) && mission.checkpointVerified.Some?
        && CallSaves(old(graph.Value()), old(mission.Latest()), graph.order, unmet,
                     Environment(outcome, held, engine.Limit()), mission.taskGraph, r.value,
                     mission.checkpointVerified.value)
    {
      hide *;
      var result := RunFrom(mission.Latest(), graph, outcome, held, unmet);
      if result.Err? {
        return Err(result.error);
      }
      var saved := SerializeGraph(graph);
      mission.taskGraph := saved;
      mission.checkpointGraph := Some(saved);
      mission.checkpointVerified := Some(result.value.verified);
      return Ok(MissionStatusOf(result.value.outcome));
    }

    /** Restores the latest save into the graph and runs it. */
    method RunFrom(latest: Saved, graph: TaskGraph, outcome: (nat, TaskId) -> Outcome, held: nat -> set<Resource>,
                   unmet: seq<string>)
      returns (r: Result<TaskResult, GraphError>)
      requires graph.Valid()
      modifies engine, graph.nodes
      ensures graph.Valid()
      ensures r.Ok? <==> WellFormed(old(graph.Value()))
      ensures r.Ok? ==>
        CallSaves(old(graph.Value()), latest, graph.order, unmet, Environment(outcome, held, engine.Limit()),
                  Serialize(graph.Value()), MissionStatusOf(r.value.outcome), r.value.verified)
    {
      ghost var g, journal := graph.Value(), engine.journal;
      hide TaskGraph.Valid, TaskGraph.Value, Acyclic, DependenciesPresent, SameTasks, Serialize, Restore, Finishes,
        CallSaves;
      RestoreGraph(graph, latest);
      SameTasksSameShapeBoth(g, graph.Value());
      r := engine.RunGraph(graph, outcome, held, unmet, false);
      if r.Ok? {
        FinishIsSaved(g, latest, graph.order, unmet, Environment(outcome, held, engine.Limit()), graph.Value(), r.value,
                      journal, engine.journal);
      }
    }

    method RestoreGraph(graph: TaskGraph, saved: Saved)
      requires graph.Valid()
      modifies graph.nodes
      ensures graph.Valid() && graph.Value() == Restore(old(graph.Value()), saved)
    {
      hide RestoreTask;
      ghost var g := graph.Value();
      var rest := saved.Keys;
      while rest != {}
        invariant rest <= saved.Keys
        invariant graph.Valid()
        invariant graph.Value() == Restore(g, saved - rest)
        decreases rest
      {
        var id :| id in rest;
        rest := rest - {id};
        if id in graph.tasks {
          RestoreNode(graph, graph.tasks[id], saved[id]);
        }
        assert graph.Value() == Restore(g, saved - rest);
      }
      assert saved - rest == saved;
    }

    method RestoreNode(graph: TaskGraph, task: GraphTask, data: SavedNode)
      requires graph.Valid() && task.taskId in graph.tasks && task == graph.tasks[task.taskId]
      modifies graph.nodes
      ensures graph.Valid()
      ensures graph.Value() == old(graph.Value())[task.taskId := RestoreTask(old(graph.Value())[task.taskId], data)]
    {
      hide StatusFrom;
      if Restorable(data) {
        task.status := StatusFrom(data.status.value).value;
        task.retries := data.retries.GetOr(0);
        task.error := data.error;
      }
    }

    method SerializeGraph(graph: TaskGraph) returns (saved: Saved)
      requires graph.Valid()
      ensures saved == Serialize(graph.Value())
    {
      hide SerializeTask;
      saved := map[];
      ghost var g := graph.Value();
      for i := 0 to |graph.order|
        invariant saved.Keys == Elements(graph.order[..i])
        invariant forall n | n in saved :: n in g && saved[n] == SerializeTask(g[n])
      {
        var id := graph.order[i];
        assert id in graph.order && graph.order[..i + 1] == graph.order[..i] + [id];
        assert g[id] == graph.tasks[id].Value();
        var node := SerializeNode(graph.tasks[id]);
        saved := saved[id := node];
      }
      assert graph.order[..|graph.order|] == graph.order;
      assert forall n :: n in g <==> n in graph.order;
    }

    method SerializeNode(task: GraphTask) returns (node: SavedNode)
      ensures node == SerializeTask(task.Value())
    {
      var dependencies := SortStrings(task.spec.dependencies);
      node := SavedNode(task.spec.objective, Some(StatusValue(task.status)), dependencies,
                        Some(task.retries), task.error);
    }
  }

  lemma SameTasksSameShapeBoth(g: Graph, g': Graph)
    requires SameTasks(g, g')
    ensures WellFormed(g) <==> WellFormed(g')
  {
    assert Dependencies(g) == Dependencies(g');
  }
}
