/** Theorems about every run of the task engine, whatever the executions and the locks do. */
module EngineTheorems {
  import opened Wrappers
  import opened Ordering
  import opened TaskModel
  import opened Scheduling
  import opened EngineModel

  // ---- Bounds that need no invariant ---------------------------------

  /** A task is started at most once per retry left plus once, and each start is paid for. */
  lemma {:induction false} StartsArePaidFor(g: Graph, env: Environment, round: nat, n: TaskId)
    requires DependenciesPresent(g) && n in g
    ensures multiset(Run(g, env, round).started)[n] + Budget(Run(g, env, round).final[n]) <= Budget(g[n])
    decreases TotalBudget(g, g.Keys)
  {
    var batch := NextTasks(g, env.held(round), env.limit);
    NextTasksIsBatch(g, env.held(round), env.limit);
    if batch != [] {
      RoundSpendsBudget(g, batch, env, round);
      StartsArePaidFor(Round(g, batch, env, round), env, round + 1, n);
      CountDistinct(batch, n);
    }
  }

  /** Every round starts something, so there are no more rounds than budget. */
  lemma {:induction false} RoundsBounded(g: Graph, env: Environment, round: nat)
    requires DependenciesPresent(g)
    ensures Run(g, env, round).rounds + TotalBudget(Run(g, env, round).final, g.Keys) <= TotalBudget(g, g.Keys)
    decreases TotalBudget(g, g.Keys)
  {
    var batch := NextTasks(g, env.held(round), env.limit);
    NextTasksIsBatch(g, env.held(round), env.limit);
    if batch != [] {
      RoundSpendsBudget(g, batch, env, round);
      RoundsBounded(Round(g, batch, env, round), env, round + 1);
    }
  }

  /** A run leaves every task alone that was not pending when it began: no completed task runs again. */
  lemma {:induction false} OnlyPendingTasksChange(g: Graph, env: Environment, round: nat, n: TaskId)
    requires DependenciesPresent(g) && n in g && !g[n].status.Pending?
    ensures Run(g, env, round).final[n] == g[n]
    ensures n !in Run(g, env, round).started
    decreases TotalBudget(g, g.Keys)
  {
    var batch := NextTasks(g, env.held(round), env.limit);
    NextTasksIsBatch(g, env.held(round), env.limit);
    if batch != [] {
      RoundSpendsBudget(g, batch, env, round);
      RoundEffect(g, batch, env, round, n);
      OnlyPendingTasksChange(Round(g, batch, env, round), env, round + 1, n);
    }
  }

  /** `completed` holds exactly the tasks that this run brought to completion. */
  lemma {:induction false} CompletedExactly(g: Graph, env: Environment, round: nat, n: TaskId)
    requires DependenciesPresent(g) && n in g
    ensures n in Run(g, env, round).completed <==>
            Run(g, env, round).final[n].status.Completed? && !g[n].status.Completed?
    decreases TotalBudget(g, g.Keys)
  {
    hide NextTasks, Round, Succeeding, Cleared;
    var batch := NextTasks(g, env.held(round), env.limit);
    NextTasksIsBatch(g, env.held(round), env.limit);
    if batch != [] {
      var g' := Round(g, batch, env, round);
      RoundSpendsBudget(g, batch, env, round);
      RoundEffect(g, batch, env, round, n);
      CompletedExactly(g', env, round + 1, n);
      if g'[n].status.Completed? {
        OnlyPendingTasksChange(g', env, round + 1, n);
      }
    }
  }

  lemma {:induction false} RunNamesTasks(g: Graph, env: Environment, round: nat)
    requires DependenciesPresent(g)
    ensures forall n | n in Run(g, env, round).completed :: n in g
    ensures forall n | n in Run(g, env, round).started :: n in g
    decreases TotalBudget(g, g.Keys)
  {
    var batch := NextTasks(g, env.held(round), env.limit);
    NextTasksIsBatch(g, env.held(round), env.limit);
    if batch != [] {
      RoundSpendsBudget(g, batch, env, round);
      RunNamesTasks(Round(g, batch, env, round), env, round + 1);
    }
  }

  /** Each task comes after its dependencies, which are earlier in the list or were completed before the run. */
  ghost predicate Topological(g: Graph, list: seq<TaskId>)
    requires DependenciesPresent(g)
  {
    && NoDuplicates(list)
    && (forall i | 0 <= i < |list| :: list[i] in g && DependenciesEarlier(g, list[..i], list[i]))
  }

  ghost predicate DependenciesEarlier(g: Graph, before: seq<TaskId>, n: TaskId)
    requires n in g && DependenciesPresent(g)
  {
    forall d | d in g[n].spec.dependencies :: g[d].status.Completed? || d in before
  }

  lemma {:induction false} SucceedingDistinct(batch: seq<TaskId>, env: Environment, round: nat)
    requires NoDuplicates(batch)
    ensures NoDuplicates(Succeeding(batch, env, round))
  {
    if batch != [] {
      assert batch == [batch[0]] + batch[1..];
      SucceedingDistinct(batch[1..], env, round);
    }
  }

  lemma {:induction false} CompletedIsTopological(g: Graph, env: Environment, round: nat)
    requires DependenciesPresent(g)
    ensures Topological(g, Run(g, env, round).completed)
    decreases TotalBudget(g, g.Keys)
  {
    hide Round, Scheduling.NextTasks;
    var batch := NextTasks(g, env.held(round), env.limit);
    NextTasksIsBatch(g, env.held(round), env.limit);
    if batch != [] {
      var g' := Round(g, batch, env, round);
      RoundSpendsBudget(g, batch, env, round);
      CompletedIsTopological(g', env, round + 1);
      SucceedingDistinct(batch, env, round);
      var first, rest := Succeeding(batch, env, round), Run(g', env, round + 1).completed;
      forall n | n in g ensures g'[n].status.Completed? ==> g[n].status.Completed? || n in first {
        RoundEffect(g, batch, env, round, n);
      }
      forall n | n in first ensures n in g && n !in rest {
        RoundEffect(g, batch, env, round, n);
        CompletedExactly(g', env, round + 1, n);
      }
      assert forall i | 0 <= i < |first| :: first[i] in first && first[i] in RunnableSet(g);
      TopologicalAppend(g, g', first, rest);
    }
  }

  lemma TopologicalAppend(g: Graph, g': Graph, first: seq<TaskId>, rest: seq<TaskId>)
    requires DependenciesPresent(g) && SameTasks(g, g')
    requires Topological(g, first) && forall n | n in first :: n !in rest
    requires forall n | n in g :: g'[n].status.Completed? ==> g[n].status.Completed? || n in first
    requires Topological(g', rest)
    ensures Topological(g, first + rest)
  {
    var list := first + rest;
    forall i | 0 <= i < |list| ensures list[i] in g && DependenciesEarlier(g, list[..i], list[i]) {
      if i < |first| {
        assert list[i] == first[i] && list[..i] == first[..i];
      } else {
        var k := i - |first|;
        assert list[i] == rest[k] && DependenciesEarlier(g', rest[..k], rest[k]);
        assert list[..i] == first + rest[..k];
      }
    }
    forall i, j | 0 <= i < j < |list| ensures list[i] != list[j] {
      if i < |first| {
        assert list[i] == first[i] && first[i] in first;
        assert j >= |first| ==> list[j] == rest[j - |first|] && list[j] in rest;
      } else {
        assert list[i] == rest[i - |first|] && list[j] == rest[j - |first|];
      }
    }
  }

  // ---- The invariant of a well-kept graph ----------------------------

  /** `f` failed, `n` depends on it, and the error of `n` says so. */
  ghost predicate Blames(g: Graph, n: TaskId, f: TaskId)
    requires n in g
  {
    && f in g && g[f].status.Failed?
    && DependsOn(Dependencies(g), n, f)
    && g[n].error == Some("Dependency " + f + " failed")
  }

  ghost predicate SoundTask(g: Graph, n: TaskId)
    requires n in g && DependenciesPresent(g)
  {
    match g[n].status
    case Pending => forall d | d in g[n].spec.dependencies ::
        g[d].status.Pending? || g[d].status.Running? || g[d].status.Completed?
    case Blocked => exists f :: Blames(g, n, f)
    case Paused => false
    case Cancelled => false
    case _ => forall d | d in g[n].spec.dependencies :: g[d].status.Completed?
  }

  ghost predicate Sound(g: Graph) {
    DependenciesPresent(g) && forall n | n in g :: SoundTask(g, n)
  }

  ghost predicate NothingRunning(g: Graph) {
    forall n | n in g :: !g[n].status.Running?
  }

  ghost predicate Fresh(g: Graph) {
    forall n | n in g :: g[n].status.Pending?
  }

  lemma FreshIsSound(g: Graph)
    requires DependenciesPresent(g) && Fresh(g)
    ensures Sound(g) && NothingRunning(g)
  {
  }

  lemma StartKeepsSound(g: Graph, batch: seq<TaskId>)
    requires Sound(g) && IsBatch(g, batch)
    ensures Sound(Start(g, batch)) && AllRunning(Start(g, batch), batch)
  {
    var g' := Start(g, batch);
    assert Dependencies(g') == Dependencies(g);
    forall n | n in g' ensures SoundTask(g', n) {
      assert SoundTask(g, n);
      if g[n].status.Blocked? {
        var f :| Blames(g, n, f);
        assert Blames(g', n, f);
      }
    }
  }

  lemma CompleteKeepsSound(g: Graph, id: TaskId)
    requires Sound(g) && id in g && g[id].status.Running?
    ensures Sound(Complete(g, id))
  {
    var g' := Complete(g, id);
    assert Dependencies(g') == Dependencies(g);
    forall n | n in g' ensures SoundTask(g', n) {
      assert SoundTask(g, n) && SoundTask(g, id);
      if g[n].status.Blocked? {
        var f :| Blames(g, n, f);
        assert Blames(g', n, f);
      }
    }
  }

  lemma RetryKeepsSound(g: Graph, id: TaskId, task: Task)
    requires Sound(g) && id in g && g[id].status.Running?
    requires task.spec == g[id].spec && task.status.Pending?
    ensures Sound(g[id := task])
  {
    var g' := g[id := task];
    assert Dependencies(g') == Dependencies(g);
    forall n | n in g' ensures SoundTask(g', n) {
      assert SoundTask(g, n) && SoundTask(g, id);
      if n != id && g[n].status.Blocked? {
        var f :| Blames(g, n, f);
        assert Blames(g', n, f);
      }
    }
  }

  lemma FinalFailureKeepsSound(g: Graph, id: TaskId, error: string)
    requires Sound(g) && id in g && g[id].status.Running?
    requires !(g[id].retries < g[id].spec.maxRetries)
    ensures Sound(Fail(g, id, error))
  {
    var g1 := g[id := g[id].(error := Some(error), status := Failed)];
    var g' := Fail(g, id, error);
    assert Dependencies(g') == Dependencies(g1) == Dependencies(g);
    forall n | n in Dependents(g1, id)
      ensures n in g && n != id && g[n].status.Pending? && DependsOn(Dependencies(g'), n, id)
    {
      PendingPathIsDependency(g1, n, id);
    }
    forall n | n in g' ensures SoundTask(g', n) {
      assert SoundTask(g, n) && SoundTask(g, id);
      if n in Dependents(g1, id) {
        assert Blames(g', n, id);
      } else if g[n].status.Blocked? {
        var f :| Blames(g, n, f);
        assert Blames(g', n, f);
      } else if g[n].status.Pending? {
        forall d | d in g[n].spec.dependencies ensures d != id && d !in Dependents(g1, id) {
          if d == id || d in Dependents(g1, id) {
            DependentsClosed(g1, id, n, d);
          }
        }
      }
    }
  }

  lemma ApplyOutcomeKeepsSound(g: Graph, id: TaskId, o: Outcome)
    requires Sound(g) && id in g && g[id].status.Running?
    ensures Sound(ApplyOutcome(g, id, o))
  {
    if o.Succeeded? {
      CompleteKeepsSound(g, id);
    } else if g[id].retries < g[id].spec.maxRetries {
      RetryKeepsSound(g, id, ApplyOutcome(g, id, o)[id]);
    } else {
      FinalFailureKeepsSound(g, id, o.message);
    }
  }

  lemma {:induction false} SettleKeepsSound(g: Graph, batch: seq<TaskId>, env: Environment, round: nat)
    requires Sound(g) && AllRunning(g, batch)
    ensures Sound(Settle(g, batch, env, round))
  {
    if batch != [] {
      var id, rest := batch[0], batch[1..];
      var o := env.outcome(round, id);
      ApplyOutcomeKeepsSound(g, id, o);
      forall x | x in rest ensures x in g && ApplyOutcome(g, id, o)[x].status.Running? {
        ApplyOutcomeEffect(g, id, o, x);
      }
      SettleKeepsSound(ApplyOutcome(g, id, o), rest, env, round);
    }
  }

  /** Every round keeps the invariant and hands back every task it started. */
  lemma RoundKeepsSound(g: Graph, batch: seq<TaskId>, env: Environment, round: nat)
    requires Sound(g) && NothingRunning(g) && IsBatch(g, batch)
    ensures Sound(Round(g, batch, env, round)) && NothingRunning(Round(g, batch, env, round))
  {
    StartKeepsSound(g, batch);
    SettleKeepsSound(Start(g, batch), batch, env, round);
    forall n | n in g ensures !Round(g, batch, env, round)[n].status.Running? {
      RoundEffect(g, batch, env, round, n);
    }
  }

  lemma {:induction false} RunKeepsSound(g: Graph, env: Environment, round: nat)
    requires Sound(g) && NothingRunning(g)
    ensures Sound(Run(g, env, round).final) && NothingRunning(Run(g, env, round).final)
    decreases TotalBudget(g, g.Keys)
  {
    var batch := NextTasks(g, env.held(round), env.limit);
    NextTasksIsBatch(g, env.held(round), env.limit);
    if batch != [] {
      RoundSpendsBudget(g, batch, env, round);
      RoundKeepsSound(g, batch, env, round);
      RunKeepsSound(Round(g, batch, env, round), env, round + 1);
    }
  }

  // ---- Settling ------------------------------------------------------

  ghost predicate Settled(g: Graph) {
    forall n | n in g :: g[n].status.Completed? || g[n].status.Failed? || g[n].status.Blocked?
  }

  /** The tasks with a failed transitive dependency. */
  ghost predicate HasFailedDependency(g: Graph, n: TaskId) {
    exists f :: f in g && g[f].status.Failed? && DependsOn(Dependencies(g), n, f)
  }

  /** At its last poll the scheduler had nothing to hand out. */
  ghost predicate IdleAtEnd(t: Trace, env: Environment, round: nat) {
    DependenciesPresent(t.final) && NextTasks(t.final, env.held(round + t.rounds), env.limit) == []
  }

  lemma {:induction false} RunStopsIdle(g: Graph, env: Environment, round: nat)
    requires DependenciesPresent(g)
    ensures IdleAtEnd(Run(g, env, round), env, round)
    decreases TotalBudget(g, g.Keys)
  {
    hide Round, Scheduling.NextTasks;
    var t := Run(g, env, round);
    var batch := NextTasks(g, env.held(round), env.limit);
    NextTasksIsBatch(g, env.held(round), env.limit);
    if batch == [] {
      assert round + t.rounds == round;
    } else {
      RoundSpendsBudget(g, batch, env, round);
      var rest := Run(Round(g, batch, env, round), env, round + 1);
      RunStopsIdle(Round(g, batch, env, round), env, round + 1);
      assert t.final == rest.final && round + t.rounds == round + 1 + rest.rounds;
    }
  }

  /** In a sound acyclic graph with nothing running, only a runnable task can be unsettled. */
  lemma UnsettledMeansRunnable(g: Graph)
    requires Sound(g) && NothingRunning(g) && Acyclic(Dependencies(g))
    ensures Settled(g) <==> RunnableSet(g) == {}
  {
    var pending := set n | n in g && g[n].status.Pending?;
    forall n | n in g && n !in pending ensures g[n].status.Completed? || g[n].status.Failed? || g[n].status.Blocked? {
      assert SoundTask(g, n);
    }
    if pending != {} {
      var n := MinimalMember(Dependencies(g), pending);
      assert SoundTask(g, n);
      assert n in RunnableSet(g);
    }
  }

  lemma {:induction false} FailureReachesDependents(g: Graph, p: seq<TaskId>, n: TaskId, f: TaskId)
    requires Sound(g) && Settled(g) && PathBetween(Dependencies(g), p, n, f) && f in g && g[f].status.Failed?
    ensures n in g && g[n].status.Blocked?
  {
    assert n in g && p[1] in g[n].spec.dependencies && SoundTask(g, n);
    if |p| > 2 {
      FailureReachesDependents(g, p[1..], p[1], f);
    }
  }

  /** In a settled sound graph a task is blocked exactly when something it depends on failed. */
  lemma BlockedExactly(g: Graph, n: TaskId)
    requires Sound(g) && Settled(g) && n in g
    ensures g[n].status.Blocked? <==> HasFailedDependency(g, n)
    ensures g[n].status.Blocked? ==> exists f :: Blames(g, n, f)
  {
    assert SoundTask(g, n);
    if f :| f in g && g[f].status.Failed? && DependsOn(Dependencies(g), n, f) {
      var p :| PathBetween(Dependencies(g), p, n, f);
      FailureReachesDependents(g, p, n, f);
    }
  }

  /**
   A run from a sound acyclic graph ends with every task settled exactly when, at its last poll,
   no task was left whose dependencies were complete; and each such task needed a held resource.
   In particular it settles when no resource was held at that poll. Then the blocked tasks are
   the ones with a failed transitive dependency.
   */
  lemma RunSettles(g: Graph, env: Environment, round: nat)
    requires Sound(g) && NothingRunning(g) && Acyclic(Dependencies(g))
    ensures SettlesUnlessHeld(Run(g, env, round).final, env.held(round + Run(g, env, round).rounds))
  {
    hide Run, Scheduling.NextTasks, SettlesUnlessHeld, SoundTask, Acyclic;
    var t := Run(g, env, round);
    RunKeepsSound(g, env, round);
    RunStopsIdle(g, env, round);
    assert Dependencies(t.final) == Dependencies(g);
    IdleGraph(t.final, env.held(round + t.rounds), env.limit);
  }

  ghost predicate SettlesUnlessHeld(g: Graph, held: set<Resource>) {
    && Sound(g) && NothingRunning(g)
    && (Settled(g) <==> RunnableSet(g) == {})
    && (forall n | n in RunnableSet(g) :: Overlap(g[n].spec.resources, held))
    && (held == {} ==> Settled(g))
    && (Settled(g) ==> forall n | n in g :: g[n].status.Blocked? <==> HasFailedDependency(g, n))
  }

  lemma IdleGraph(g: Graph, held: set<Resource>, limit: int)
    requires Sound(g) && NothingRunning(g) && Acyclic(Dependencies(g))
    requires NextTasks(g, held, limit) == []
    ensures SettlesUnlessHeld(g, held)
  {
    IdleExactly(g, held, limit);
    UnsettledMeansRunnable(g);
    if held == {} {
      assert forall n | n in g :: !Overlap(g[n].spec.resources, held);
    }
    if Settled(g) {
      forall n | n in g ensures g[n].status.Blocked? <==> HasFailedDependency(g, n) {
        BlockedExactly(g, n);
      }
    }
  }
}
