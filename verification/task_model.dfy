/**
 Task graphs as values: what one state of a `TaskGraph` is, and the dependency
 relation that the graph theorems speak about.
 */
module TaskModel {
  import opened Wrappers
  import opened Ordering

  type TaskId = string
  type Resource = string

  /** Microseconds from 0001-01-01 to the last instant a Python datetime can hold. */
  const DATETIME_MAX := 315537897599999999

  type Instant = t: int | 0 <= t <= DATETIME_MAX witness 0

  datatype Status = Pending | Running | Completed | Failed | Blocked | Paused | Cancelled

  /** The part of a task that nothing changes after it was added. */
  datatype TaskSpec = TaskSpec(
    objective: string,
    dependencies: set<TaskId>,
    resources: set<Resource>,
    priority: int,
    deadline: Option<Instant>,
    maxRetries: int)

  datatype Task = Task(spec: TaskSpec, status: Status, retries: int, error: Option<string>)

  type Graph = map<TaskId, Task>

  /** Two states of one graph: same ids, same immutable parts. */
  ghost predicate SameTasks(g: Graph, g': Graph) {
    g.Keys == g'.Keys && forall n | n in g :: g[n].spec == g'[n].spec
  }

  // ---- The dependency relation ---------------------------------------

  type Relation = map<TaskId, set<TaskId>>

  ghost function Dependencies(g: Graph): Relation {
    map n | n in g :: g[n].spec.dependencies
  }

  /** A path of one or more steps, each from a task to one of its dependencies. */
  ghost predicate IsPath(rel: Relation, p: seq<TaskId>) {
    |p| >= 2 && forall i | 0 <= i < |p| - 1 :: p[i] in rel && p[i + 1] in rel[p[i]]
  }

  ghost predicate PathBetween(rel: Relation, p: seq<TaskId>, a: TaskId, b: TaskId) {
    IsPath(rel, p) && p[0] == a && p[|p| - 1] == b
  }

  /** Transitive dependency. */
  ghost predicate DependsOn(rel: Relation, a: TaskId, b: TaskId) {
    exists p :: PathBetween(rel, p, a, b)
  }

  ghost predicate Acyclic(rel: Relation) {
    forall n :: !DependsOn(rel, n, n)
  }

  lemma DirectDependency(rel: Relation, a: TaskId, b: TaskId)
    requires a in rel && b in rel[a]
    ensures DependsOn(rel, a, b)
  {
    assert PathBetween(rel, [a, b], a, b);
  }

  lemma DependsOnTransitive(rel: Relation, a: TaskId, b: TaskId, c: TaskId)
    requires DependsOn(rel, a, b) && DependsOn(rel, b, c)
    ensures DependsOn(rel, a, c)
  {
    var p :| PathBetween(rel, p, a, b);
    var q :| PathBetween(rel, q, b, c);
    var r := p + q[1..];
    assert forall i | |p| - 1 <= i < |r| :: r[i] == q[i - (|p| - 1)];
    assert PathBetween(rel, r, a, c);
  }

  lemma FirstStep(rel: Relation, a: TaskId, b: TaskId) returns (m: TaskId)
    requires DependsOn(rel, a, b)
    ensures a in rel && m in rel[a] && (m == b || DependsOn(rel, m, b))
  {
    var p :| PathBetween(rel, p, a, b);
    m := p[1];
    if |p| > 2 {
      assert PathBetween(rel, p[1..], m, b);
    }
  }

  /** More edges, more dependencies. */
  lemma DependsOnMonotone(small: Relation, big: Relation, a: TaskId, b: TaskId)
    requires forall n | n in small :: n in big && small[n] <= big[n]
    requires DependsOn(small, a, b)
    ensures DependsOn(big, a, b)
  {
    var p :| PathBetween(small, p, a, b);
    assert PathBetween(big, p, a, b);
  }

  /** A set with every predecessor of `target` and of its own members has everything that depends on `target`. */
  lemma {:induction false} ClosedUpward(rel: Relation, p: seq<TaskId>, a: TaskId, target: TaskId, s: set<TaskId>)
    requires PathBetween(rel, p, a, target)
    requires forall n | n in rel && n !in s :: target !in rel[n] && rel[n] !! s
    ensures a in s
  {
    if |p| > 2 {
      ClosedUpward(rel, p[1..], p[1], target, s);
    }
    assert a in rel && p[1] in rel[a];
  }

  /** In an acyclic relation every non-empty set has a member that depends on no other member. */
  lemma MinimalMember(rel: Relation, s: set<TaskId>) returns (n: TaskId)
    requires Acyclic(rel) && s <= rel.Keys && s != {}
    ensures n in s && rel[n] !! s
  {
    var start :| start in s;
    n := WalkDown(rel, s, [start]);
  }

  lemma {:induction false} WalkDown(rel: Relation, s: set<TaskId>, p: seq<TaskId>) returns (n: TaskId)
    requires Acyclic(rel) && s <= rel.Keys
    requires p != [] && NoDuplicates(p) && forall x :: x in p ==> x in s
    requires forall i | 0 <= i < |p| - 1 :: p[i + 1] in rel[p[i]]
    ensures n in s && rel[n] !! s
    decreases |s| - |p|
  {
    DistinctLength(p, s);
    n := p[|p| - 1];
    if d :| d in rel[n] && d in s {
      assert !DependsOn(rel, d, d);
      forall k | 0 <= k < |p| ensures p[k] != d {
        if p[k] == d {
          assert PathBetween(rel, p[k..] + [d], d, d);
        }
      }
      var p' := p + [d];
      DistinctLength(p', s);
      n := WalkDown(rel, s, p');
    }
  }

  // ---- Runnable tasks and failure ------------------------------------

  /** Every dependency names a task: what `validate` checks before anything looks a dependency up. */
  ghost predicate DependenciesPresent(g: Graph) {
    forall n | n in g :: g[n].spec.dependencies <= g.Keys
  }

  ghost predicate IsRunnable(g: Graph, n: TaskId)
    requires n in g && g[n].spec.dependencies <= g.Keys
  {
    g[n].status.Pending? && forall d | d in g[n].spec.dependencies :: g[d].status.Completed?
  }

  ghost function RunnableSet(g: Graph): set<TaskId>
    requires DependenciesPresent(g)
  {
    set n | n in g && IsRunnable(g, n)
  }

  /** The edges that leave a pending task. A path along them is pending everywhere but at its end. */
  ghost function PendingDependencies(g: Graph): Relation {
    map n | n in g && g[n].status.Pending? :: g[n].spec.dependencies
  }

  /** The pending tasks that reach `id` through pending tasks alone. */
  ghost function Dependents(g: Graph, id: TaskId): set<TaskId> {
    set n | n in g && DependsOn(PendingDependencies(g), n, id)
  }

  ghost function MarkBlocked(g: Graph, blocked: set<TaskId>, reason: string): Graph {
    map n | n in g :: if n in blocked then g[n].(status := Blocked, error := Some(reason)) else g[n]
  }

  function FailureReason(id: TaskId): string {
    "Dependency " + id + " failed"
  }

  function CancelReason(id: TaskId): string {
    "Dependency " + id + " cancelled"
  }

  ghost function Complete(g: Graph, id: TaskId): Graph
    requires id in g
  {
    g[id := g[id].(status := Completed)]
  }

  ghost function Fail(g: Graph, id: TaskId, error: string): Graph
    requires id in g
  {
    var task := g[id].(error := Some(error));
    if task.retries < task.spec.maxRetries then
      g[id := task.(retries := task.retries + 1, status := Pending)]
    else
      var g' := g[id := task.(status := Failed)];
      MarkBlocked(g', Dependents(g', id), FailureReason(id))
  }

  lemma PendingPathIsDependency(g: Graph, n: TaskId, id: TaskId)
    requires n in Dependents(g, id)
    ensures n in g && g[n].status.Pending? && DependsOn(Dependencies(g), n, id)
  {
    var m := FirstStep(PendingDependencies(g), n, id);
    DependsOnMonotone(PendingDependencies(g), Dependencies(g), n, id);
  }

  /** What blocking leaves: no pending task depends on a blocked-out one or on `id`. */
  lemma DependentsClosed(g: Graph, id: TaskId, n: TaskId, d: TaskId)
    requires n in g && g[n].status.Pending? && d in g[n].spec.dependencies
    requires d == id || d in Dependents(g, id)
    ensures n in Dependents(g, id)
  {
    DirectDependency(PendingDependencies(g), n, d);
    if d != id {
      DependsOnTransitive(PendingDependencies(g), n, d, id);
    }
  }
}
