/**
 The run of `AutonomousTaskEngine.run_graph` as a function of the initial graph and of
 everything the engine does not control, and the theorems about every such run.
 */
module EngineModel {
  import opened Wrappers
  import opened Ordering
  import opened TaskModel
  import opened Scheduling

  datatype Outcome = Succeeded | Raised(message: string)

  /** What the engine does not control: how each execution ends and which resources are held at each poll. */
  datatype Environment = Environment(outcome: (nat, TaskId) -> Outcome, held: nat -> set<Resource>, limit: int)

  // ---- One round -----------------------------------------------------

  ghost function Start(g: Graph, batch: seq<TaskId>): Graph {
    map n | n in g :: if n in batch then g[n].(status := Running) else g[n]
  }

  ghost function ApplyOutcome(g: Graph, id: TaskId, o: Outcome): Graph
    requires id in g
  {
    match o
    case Succeeded => Complete(g, id)
    case Raised(m) => Fail(g, id, m)
  }

  ghost function Settle(g: Graph, batch: seq<TaskId>, env: Environment, round: nat): (g': Graph)
    requires forall x | x in batch :: x in g
    ensures SameTasks(g, g')
  {
    if batch == [] then g
    else Settle(ApplyOutcome(g, batch[0], env.outcome(round, batch[0])), batch[1..], env, round)
  }

  function Succeeding(batch: seq<TaskId>, env: Environment, round: nat): (r: seq<TaskId>)
    ensures forall x :: x in r <==> x in batch && env.outcome(round, x).Succeeded?
  {
    if batch == [] then []
    else (if env.outcome(round, batch[0]).Succeeded? then [batch[0]] else []) + Succeeding(batch[1..], env, round)
  }

  ghost function Round(g: Graph, batch: seq<TaskId>, env: Environment, round: nat): (g': Graph)
    requires forall x | x in batch :: x in g
    ensures SameTasks(g, g')
  {
    Settle(Start(g, batch), batch, env, round)
  }

  // ---- The budget that every round spends ----------------------------

  /** The retries a task has left. */
  function Cap(t: Task): nat {
    if t.retries < t.spec.maxRetries then t.spec.maxRetries - t.retries else 0
  }

  /** How often a task can still be started. */
  function Budget(t: Task): nat {
    if t.status.Pending? then Cap(t) + 1 else 0
  }

  ghost function TotalBudget(g: Graph, s: set<TaskId>): nat
    requires s <= g.Keys
  {
    if s == {} then 0 else
      var n :| n in s;
      Budget(g[n]) + TotalBudget(g, s - {n})
  }

  lemma {:induction false} TotalBudgetSplit(g: Graph, s: set<TaskId>, n: TaskId)
    requires s <= g.Keys && n in s
    ensures TotalBudget(g, s) == Budget(g[n]) + TotalBudget(g, s - {n})
  {
    var m :| m in s && TotalBudget(g, s) == Budget(g[m]) + TotalBudget(g, s - {m});
    if m != n {
      TotalBudgetSplit(g, s - {m}, n);
      TotalBudgetSplit(g, s - {n}, m);
      assert s - {m} - {n} == s - {n} - {m};
    }
  }

  lemma {:induction false} TotalBudgetFalls(g: Graph, g': Graph, s: set<TaskId>)
    requires s <= g.Keys && s <= g'.Keys
    requires forall n | n in s :: Budget(g'[n]) <= Budget(g[n])
    ensures TotalBudget(g', s) <= TotalBudget(g, s)
    ensures (exists n | n in s :: Budget(g'[n]) < Budget(g[n])) ==> TotalBudget(g', s) < TotalBudget(g, s)
  {
    if s != {} {
      var n :| n in s && ((exists m | m in s :: Budget(g'[m]) < Budget(g[m])) ==> Budget(g'[n]) < Budget(g[n]));
      TotalBudgetSplit(g, s, n);
      TotalBudgetSplit(g', s, n);
      TotalBudgetFalls(g, g', s - {n});
    }
  }

  // ---- What a round does to each task --------------------------------

  /** What the outcome of its execution makes of a running task. */
  ghost predicate Ended(t: Task, t': Task, o: Outcome) {
    match o
    case Succeeded => t' == t.(status := Completed)
    case Raised(m) =>
      if t.retries < t.spec.maxRetries then
        t' == t.(status := Pending, retries := t.retries + 1, error := Some(m))
      else
        t' == t.(status := Failed, error := Some(m))
  }

  /** What the failure of other tasks makes of a task: nothing, unless it was pending. */
  ghost predicate Bystander(t: Task, t': Task) {
    t' == t || (t.status.Pending? && t' == t.(status := Blocked, error := t'.error))
  }

  /** Everything the task depends on has completed. */
  ghost predicate Cleared(g: Graph, n: TaskId)
    requires n in g
  {
    forall d | d in g[n].spec.dependencies :: d in g && g[d].status.Completed?
  }

  ghost predicate AllRunning(g: Graph, batch: seq<TaskId>) {
    NoDuplicates(batch) && forall x | x in batch :: x in g && g[x].status.Running?
  }

  lemma ApplyOutcomeEffect(g: Graph, id: TaskId, o: Outcome, n: TaskId)
    requires id in g && g[id].status.Running? && n in g
    ensures n != id ==> Bystander(g[n], ApplyOutcome(g, id, o)[n])
    ensures n != id && Cleared(g, n) ==> ApplyOutcome(g, id, o)[n] == g[n]
    ensures n == id ==> Ended(g[id], ApplyOutcome(g, id, o)[id], o)
  {
    if o.Raised? && !(g[id].retries < g[id].spec.maxRetries) {
      var g' := g[id := g[id].(error := Some(o.message), status := Failed)];
      if n in Dependents(g', id) {
        PendingPathIsDependency(g', n, id);
        var d := FirstStep(PendingDependencies(g'), n, id);
        assert d in g'[n].spec.dependencies && (d == id || g'[d].status.Pending?);
      }
    }
  }

  lemma ClearedStays(g: Graph, id: TaskId, o: Outcome, n: TaskId)
    requires id in g && g[id].status.Running? && n in g && Cleared(g, n)
    ensures n in ApplyOutcome(g, id, o) && Cleared(ApplyOutcome(g, id, o), n)
  {
    forall d | d in g[n].spec.dependencies ensures d in g && ApplyOutcome(g, id, o)[d].status.Completed? {
      ApplyOutcomeEffect(g, id, o, d);
    }
    ApplyOutcomeEffect(g, id, o, n);
  }

  lemma {:induction false} SettleEffect(g: Graph, batch: seq<TaskId>, env: Environment, round: nat, n: TaskId)
    requires AllRunning(g, batch) && n in g
    ensures n !in batch ==> Bystander(g[n], Settle(g, batch, env, round)[n])
    ensures n !in batch && Cleared(g, n) ==> Settle(g, batch, env, round)[n] == g[n]
    ensures n in batch && Cleared(g, n) ==> Ended(g[n], Settle(g, batch, env, round)[n], env.outcome(round, n))
  {
    if batch != [] {
      var id, rest := batch[0], batch[1..];
      var o := env.outcome(round, id);
      var g' := ApplyOutcome(g, id, o);
      forall x | x in g ensures x != id ==> Bystander(g[x], g'[x]) {
        ApplyOutcomeEffect(g, id, o, x);
      }
      ApplyOutcomeEffect(g, id, o, n);
      if Cleared(g, n) {
        ClearedStays(g, id, o, n);
      }
      assert batch == [id] + rest;
      hide ApplyOutcome, Cleared, Bystander;
      SettleEffect(g', rest, env, round, n);
    }
  }

  /** A batch is made of distinct runnable tasks. */
  ghost predicate IsBatch(g: Graph, batch: seq<TaskId>)
    requires DependenciesPresent(g)
  {
    NoDuplicates(batch) && forall x | x in batch :: x in RunnableSet(g)
  }

  lemma NextTasksIsBatch(g: Graph, held: set<Resource>, limit: int)
    requires DependenciesPresent(g)
    ensures IsBatch(g, NextTasks(g, held, limit))
  {
    NextTasksCharacterized(g, held, limit, NextTasks(g, held, limit));
  }

  lemma RoundEffect(g: Graph, batch: seq<TaskId>, env: Environment, round: nat, n: TaskId)
    requires DependenciesPresent(g) && IsBatch(g, batch) && n in g
    ensures n !in batch ==> Bystander(g[n], Round(g, batch, env, round)[n])
    ensures n !in batch && Cleared(g, n) ==> Round(g, batch, env, round)[n] == g[n]
    ensures n in batch ==> Ended(g[n].(status := Running), Round(g, batch, env, round)[n], env.outcome(round, n))
  {
    hide Settle, Bystander, Ended;
    SettleEffect(Start(g, batch), batch, env, round, n);
    assert n in batch ==> n in RunnableSet(g);
    assert forall d | d in batch :: d in RunnableSet(g);
  }

  /** The loop's variant. */
  lemma RoundSpendsBudget(g: Graph, batch: seq<TaskId>, env: Environment, round: nat)
    requires DependenciesPresent(g) && IsBatch(g, batch)
    ensures forall n | n in g :: Budget(Round(g, batch, env, round)[n]) + (if n in batch then 1 else 0) <= Budget(g[n])
    ensures batch != [] ==> TotalBudget(Round(g, batch, env, round), g.Keys) < TotalBudget(g, g.Keys)
  {
    var g' := Round(g, batch, env, round);
    forall n | n in g ensures Budget(g'[n]) + (if n in batch then 1 else 0) <= Budget(g[n]) {
      RoundEffect(g, batch, env, round, n);
    }
    TotalBudgetFalls(g, g', g.Keys);
    if batch != [] {
      assert batch[0] in g && Budget(g'[batch[0]]) < Budget(g[batch[0]]);
    }
  }

  // ---- A whole run ---------------------------------------------------

  datatype Trace = Trace(
    final: Graph,
    completed: seq<TaskId>,
    started: seq<TaskId>,
    rounds: nat)

  ghost function Run(g: Graph, env: Environment, round: nat): (t: Trace)
    requires DependenciesPresent(g)
    ensures SameTasks(g, t.final)
    decreases TotalBudget(g, g.Keys)
  {
    var batch := NextTasks(g, env.held(round), env.limit);
    NextTasksIsBatch(g, env.held(round), env.limit);
    if batch == [] then Trace(g, [], [], 0) else
      var g' := Round(g, batch, env, round);
      RoundSpendsBudget(g, batch, env, round);
      var rest := Run(g', env, round + 1);
      Trace(rest.final, Succeeding(batch, env, round) + rest.completed, batch + rest.started, rest.rounds + 1)
  }
}
