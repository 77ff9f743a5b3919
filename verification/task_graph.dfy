/**
 `TaskGraph` and `TaskScheduler` as the program has them: task objects whose status, retries
 and error are updated in place, proved against the values of TaskModel and Scheduling.
 */
module TaskGraphs {
  import opened Wrappers
  import opened Ordering
  import opened TaskModel
  import opened Scheduling

  datatype GraphError =
    | DuplicateTask
    | SelfDependency
    | UnknownDependencies(missing: set<TaskId>)
    | Cycle

  // ---- Blocking, one dependent at a time -----------------------------

  /** `b` has been blocked so far, is part of what must be, and leaves no pending task behind a member. */
  ghost predicate Blocking(g: Graph, id: TaskId, b: set<TaskId>) {
    && b <= Dependents(g, id)
    && (forall n | n in g && g[n].status.Pending? && n !in b :: g[n].spec.dependencies !! b)
  }

  ghost function PendingTasks(g: Graph): set<TaskId> {
    set n | n in g && g[n].status.Pending?
  }

  lemma BlockStep(g: Graph, id: TaskId, b: set<TaskId>, c: TaskId, reason: string)
    requires Blocking(g, id, b)
    requires c in g && g[c].status.Pending? && c !in b && id in g[c].spec.dependencies
    ensures
      var g1 := MarkBlocked(g, b + {c}, reason);
      var b' := b + {c} + Dependents(g1, c);
      && Blocking(g, id, b')
      && MarkBlocked(g1, Dependents(g1, c), reason) == MarkBlocked(g, b', reason)
      && MarkBlocked(MarkBlocked(g, b, reason), {c}, reason) == g1
      && PendingTasks(MarkBlocked(g, b, reason)) <= PendingTasks(g)
  {
    var g1 := MarkBlocked(g, b + {c}, reason);
    var b' := b + {c} + Dependents(g1, c);
    DirectDependency(PendingDependencies(g), c, id);
    forall n | n in Dependents(g1, c) ensures n in Dependents(g, id) && g1[n].status.Pending? {
      PendingPathIsDependency(g1, n, c);
      DependsOnMonotone(PendingDependencies(g1), PendingDependencies(g), n, c);
      DependsOnTransitive(PendingDependencies(g), n, c, id);
    }
    forall n | n in g && g[n].status.Pending? && n !in b' ensures g[n].spec.dependencies !! b' {
      assert g1[n] == g[n];
      forall d | d in g[n].spec.dependencies ensures d != c && d !in Dependents(g1, c) {
        if d == c || d in Dependents(g1, c) {
          DependentsClosed(g1, c, n, d);
        }
      }
    }
  }

  /** Among the tasks listed, every pending one that depends on `id` is in `b`. */
  ghost predicate BlockedUpTo(g: Graph, order: seq<TaskId>, id: TaskId, b: set<TaskId>) {
    forall n | n in order && n in g && g[n].status.Pending? && id in g[n].spec.dependencies :: n in b
  }

  /** The candidate is tested on the graph as blocked so far, and the test is right for the graph at the start. */
  lemma BlockScan(g: Graph, order: seq<TaskId>, i: nat, id: TaskId, b: set<TaskId>, reason: string)
    requires i < |order| && order[i] in MarkBlocked(g, b, reason) && BlockedUpTo(g, order[..i], id, b)
    ensures
      var c := order[i];
      var t := MarkBlocked(g, b, reason)[c];
      && c in g
      && (t.status.Pending? && id in t.spec.dependencies ==>
          g[c].status.Pending? && c !in b && id in g[c].spec.dependencies)
      && (!(t.status.Pending? && id in t.spec.dependencies) ==> BlockedUpTo(g, order[..i + 1], id, b))
      && forall more: set<TaskId> :: BlockedUpTo(g, order[..i + 1], id, b + {c} + more)
  {
  }

  lemma BlockingDone(g: Graph, order: seq<TaskId>, id: TaskId, b: set<TaskId>)
    requires Blocking(g, id, b) && BlockedUpTo(g, order, id, b)
    requires forall n | n in g :: n in order
    ensures b == Dependents(g, id)
  {
    var rel := PendingDependencies(g);
    forall n | n in Dependents(g, id) ensures n in b {
      var p :| PathBetween(rel, p, n, id);
      ClosedUpward(rel, p, n, id, b);
    }
  }

  // ---- Depth-first search --------------------------------------------

  /** A list in which everything a task depends on comes before it. */
  ghost predicate PostOrdered(rel: Relation, post: seq<TaskId>) {
    forall i | 0 <= i < |post| :: post[i] in rel && rel[post[i]] <= Elements(post[..i])
  }

  lemma {:induction false} PathGoesBack(rel: Relation, post: seq<TaskId>, p: seq<TaskId>, i: nat) returns (j: nat)
    requires PostOrdered(rel, post) && IsPath(rel, p) && i < |post| && post[i] == p[0]
    ensures j < i && post[j] == p[|p| - 1]
  {
    assert p[1] in post[..i];
    j :| 0 <= j < i && post[j] == p[1];
    if |p| > 2 {
      j := PathGoesBack(rel, post, p[1..], j);
    }
  }

  lemma {:induction false} NoCycleThrough(rel: Relation, post: seq<TaskId>, n: TaskId, i: nat)
    requires PostOrdered(rel, post) && i < |post| && post[i] == n
    ensures !DependsOn(rel, n, n)
  {
    if p :| PathBetween(rel, p, n, n) {
      var j := PathGoesBack(rel, post, p, i);
      NoCycleThrough(rel, post, n, j);
    }
  }

  lemma PostOrderedMeansAcyclic(rel: Relation, post: seq<TaskId>)
    requires PostOrdered(rel, post) && rel.Keys <= Elements(post)
    ensures Acyclic(rel)
  {
    forall n ensures !DependsOn(rel, n, n) {
      if n in rel {
        var i :| 0 <= i < |post| && post[i] == n;
        NoCycleThrough(rel, post, n, i);
      } else if DependsOn(rel, n, n) {
        var m := FirstStep(rel, n, n);
      }
    }
  }

  /** The tasks being visited, outermost first, each depending on the next. */
  ghost predicate Chain(rel: Relation, stack: seq<TaskId>) {
    && (forall i | 0 <= i < |stack| :: stack[i] in rel)
    && (forall i | 0 <= i < |stack| - 1 :: stack[i + 1] in rel[stack[i]])
  }

  lemma ChainExtends(rel: Relation, stack: seq<TaskId>, id: TaskId)
    requires Chain(rel, stack) && id in rel && (stack != [] ==> id in rel[stack[|stack| - 1]])
    ensures Chain(rel, stack + [id]) && Elements(stack + [id]) == Elements(stack) + {id}
  {
  }

  lemma RevisitIsCycle(rel: Relation, stack: seq<TaskId>, id: TaskId)
    requires Chain(rel, stack) && stack != [] && id in rel[stack[|stack| - 1]] && id in stack
    ensures DependsOn(rel, id, id)
  {
    var k :| 0 <= k < |stack| && stack[k] == id;
    assert PathBetween(rel, stack[k..] + [id], id, id);
  }

  // ---- The classes ---------------------------------------------------

  class GraphTask {
    const taskId: TaskId
    const spec: TaskSpec
    var status: Status
    var retries: int
    var error: Option<string>

    constructor (taskId: TaskId, spec: TaskSpec)
      ensures this.taskId == taskId && Value() == Task(spec, Pending, 0, None)
    {
      this.taskId := taskId;
      this.spec := spec;
      status := Pending;
      retries := 0;
      error := None;
    }

    ghost function Value(): Task
      reads this
    {
      Task(spec, status, retries, error)
    }
  }

  function TaskIds(tasks: seq<GraphTask>): (r: seq<TaskId>)
    ensures |r| == |tasks| && forall i | 0 <= i < |r| :: r[i] == tasks[i].taskId
  {
    seq(|tasks|, i requires 0 <= i < |tasks| => tasks[i].taskId)
  }

  /** The runnable tasks among those listed, in that order. */
  ghost function RunnableIn(g: Graph, order: seq<TaskId>): seq<TaskId>
    requires DependenciesPresent(g)
  {
    if order == [] then []
    else
      var last := order[|order| - 1];
      RunnableIn(g, order[..|order| - 1]) + (if last in RunnableSet(g) then [last] else [])
  }

  lemma {:induction false} RunnableInExactly(g: Graph, order: seq<TaskId>)
    requires DependenciesPresent(g) && NoDuplicates(order)
    ensures NoDuplicates(RunnableIn(g, order))
    ensures forall n :: n in RunnableIn(g, order) <==> n in order && n in RunnableSet(g)
  {
    if order != [] {
      var before := order[..|order| - 1];
      RunnableInExactly(g, before);
      assert order == before + [order[|order| - 1]];
    }
  }

  lemma RunnableByIndex(g: Graph, order: seq<TaskId>, r: seq<GraphTask>)
    requires DependenciesPresent(g) && TaskIds(r) == RunnableIn(g, order) && NoDuplicates(RunnableIn(g, order))
    requires forall n :: n in RunnableIn(g, order) <==> n in RunnableSet(g)
    ensures forall i, j | 0 <= i < j < |r| :: r[i].taskId != r[j].taskId
    ensures forall n :: n in RunnableSet(g) <==> exists i | 0 <= i < |r| :: r[i].taskId == n
  {
    hide RunnableIn, RunnableSet;
    var ids := TaskIds(r);
    forall i, j | 0 <= i < j < |r| ensures r[i].taskId != r[j].taskId {
      assert ids[i] != ids[j];
    }
    forall n ensures n in ids <==> exists i | 0 <= i < |r| :: r[i].taskId == n {
      if i :| 0 <= i < |r| && r[i].taskId == n {
        assert ids[i] == n;
      }
    }
  }

  class TaskGraph {
    var tasks: map<TaskId, GraphTask>
    /** The insertion order of the dictionary. */
    var order: seq<TaskId>
    /** The task objects the dictionary may reach. */
    ghost var nodes: set<GraphTask>

    ghost predicate Valid()
      reads this, nodes
    {
      && (forall id | id in tasks :: tasks[id] in nodes && tasks[id].taskId == id)
      && NoDuplicates(order)
      && (forall id :: id in order <==> id in tasks)
    }

    ghost function Value(): Graph
      requires Valid()
      reads this, nodes
    {
      map id | id in tasks :: tasks[id].Value()
    }

    constructor ()
      ensures Valid() && Value() == map[] && order == []
    {
      tasks := map[];
      order := [];
      nodes := {};
    }

    lemma OrderListsTasks()
      requires Valid()
      ensures Value().Keys == tasks.Keys && forall id :: id in order <==> id in tasks
    {
    }

    lemma TaskAt(id: TaskId)
      requires Valid() && id in tasks
      ensures tasks[id] in nodes && id in Value() && Value()[id] == tasks[id].Value()
    {
    }

    /** A change of one task object is a change of one task. */
    twostate lemma OneTaskChanged(id: TaskId)
      requires old(Valid()) && id in tasks && unchanged(this)
      requires forall task | task in nodes && task != tasks[id] :: unchanged(task)
      ensures Valid() && Value() == old(Value())[id := tasks[id].Value()]
    {
    }

    method Add(task: GraphTask) returns (r: Result<(), GraphError>)
      requires Valid()
      modifies this
      ensures Valid()
      ensures r == if task.taskId in old(Value()) then Err(DuplicateTask)
                   else if task.taskId in task.spec.dependencies then Err(SelfDependency)
                   else Ok(())
      ensures r.Ok? ==> Value() == old(Value())[task.taskId := task.Value()] && order == old(order) + [task.taskId]
      ensures r.Err? ==> tasks == old(tasks) && order == old(order)
    {
      if task.taskId in tasks {
        return Err(DuplicateTask);
      }
      if task.taskId in task.spec.dependencies {
        return Err(SelfDependency);
      }
      tasks := tasks[task.taskId := task];
      nodes := nodes + {task};
      order := order + [task.taskId];
      return Ok(());
    }

    /** Accepts a graph exactly when every dependency is a task and nothing depends on itself. */
    method Validate() returns (r: Result<(), GraphError>)
      requires Valid()
      ensures r.Ok? <==> DependenciesPresent(Value()) && Acyclic(Dependencies(Value()))
      ensures r == Err(Cycle) <==> DependenciesPresent(Value()) && !Acyclic(Dependencies(Value()))
      ensures r.Err? ==> r.error.Cycle? || r.error.UnknownDependencies?
      ensures r.Err? && r.error.UnknownDependencies? ==>
                r.error.missing != {} && exists id | id in Value() ::
                  r.error.missing == Value()[id].spec.dependencies - Value().Keys
    {
      ghost var rel := Dependencies(Value());
      for i := 0 to |order|
        invariant forall k | 0 <= k < i :: Value()[order[k]].spec.dependencies <= Value().Keys
      {
        var id := order[i];
        assert id in order && Value()[id] == tasks[id].Value();
        var missing := tasks[id].spec.dependencies - tasks.Keys;
        assert Value()[id].spec.dependencies - Value().Keys == missing;
        if missing != {} {
          return Err(UnknownDependencies(missing));
        }
        forall d | d in Value()[id].spec.dependencies ensures d in Value().Keys {
          assert d !in missing;
        }
      }
      forall id | id in Value() ensures Value()[id].spec.dependencies <= Value().Keys {
        assert id in order;
      }
      var visited: set<TaskId> := {};
      ghost var post: seq<TaskId> := [];
      for i := 0 to |order|
        invariant visited == Elements(post) && PostOrdered(rel, post)
        invariant forall k | 0 <= k < i :: order[k] in visited
      {
        assert order[i] in order;
        var ok;
        ok, visited, post := Visit(order[i], {}, visited, [], post);
        if !ok {
          return Err(Cycle);
        }
      }
      forall id | id in rel ensures id in Elements(post) {
        assert id in order;
      }
      PostOrderedMeansAcyclic(rel, post);
      return Ok(());
    }

    /** One call of the recursive `visit`; `stack` and `post` only explain the sets. */
    method Visit(id: TaskId, visiting: set<TaskId>, visited: set<TaskId>, ghost stack: seq<TaskId>,
                 ghost post: seq<TaskId>)
      returns (ok: bool, visited': set<TaskId>, ghost post': seq<TaskId>)
      requires Valid() && DependenciesPresent(Value()) && id in tasks
      requires visiting == Elements(stack) && Chain(Dependencies(Value()), stack)
      requires stack != [] ==> id in Dependencies(Value())[stack[|stack| - 1]]
      requires visited == Elements(post) && PostOrdered(Dependencies(Value()), post)
      ensures visited' == Elements(post') && PostOrdered(Dependencies(Value()), post')
      ensures visited <= visited'
      ensures ok ==> id in visited'
      ensures !ok ==> !Acyclic(Dependencies(Value()))
      decreases tasks.Keys - visiting
    {
      ghost var rel := Dependencies(Value());
      visited', post' := visited, post;
      if id in visiting {
        RevisitIsCycle(rel, stack, id);
        return false, visited', post';
      }
      hide PostOrdered, DependsOn;
      if id !in visited {
        var dependencies := tasks[id].spec.dependencies;
        assert rel[id] == dependencies && Value()[id].spec.dependencies == dependencies;
        var rest := dependencies;
        while rest != {}
          invariant rest <= dependencies
          invariant visited' == Elements(post') && PostOrdered(rel, post')
          invariant visited <= visited'
          invariant dependencies - rest <= visited'
          decreases rest
        {
          var parent :| parent in rest;
          rest := rest - {parent};
          ChainExtends(rel, stack, id);
          ok, visited', post' := Visit(parent, visiting + {id}, visited', stack + [id], post');
          if !ok {
            return false, visited', post';
          }
        }
        ghost var before := post';
        visited', post' := visited' + {id}, post' + [id];
        PostOrderedExtends(rel, before, id);
      }
      ok := true;
    }

    /** The pending tasks whose dependencies are complete, in insertion order. */
    method Runnable() returns (r: seq<GraphTask>)
      requires Valid() && DependenciesPresent(Value())
      ensures TaskIds(r) == RunnableIn(Value(), order)
      ensures forall i | 0 <= i < |r| :: r[i].taskId in tasks && r[i] == tasks[r[i].taskId]
      ensures forall i, j | 0 <= i < j < |r| :: r[i].taskId != r[j].taskId
      ensures forall n :: n in RunnableSet(Value()) <==> exists i | 0 <= i < |r| :: r[i].taskId == n
    {
      r := [];
      for i := 0 to |order|
        invariant TaskIds(r) == RunnableIn(Value(), order[..i])
        invariant forall k | 0 <= k < |r| :: r[k].taskId in tasks && r[k] == tasks[r[k].taskId]
      {
        var id := order[i];
        assert id in order && order[..i + 1][..i] == order[..i];
        var task := tasks[id];
        assert Value()[id] == task.Value();
        if task.status.Pending? && forall d | d in task.spec.dependencies :: tasks[d].status.Completed? {
          assert id in RunnableSet(Value());
          assert TaskIds(r + [task]) == TaskIds(r) + [id];
          r := r + [task];
        }
      }
      assert order[..|order|] == order;
      RunnableInExactly(Value(), order);
      RunnableByIndex(Value(), order, r);
    }

    method Complete(id: TaskId)
      requires Valid() && id in tasks
      modifies nodes
      ensures Valid() && Value() == TaskModel.Complete(old(Value()), id)
    {
      tasks[id].status := Completed;
    }

    method Fail(id: TaskId, error: string)
      requires Valid() && id in tasks
      modifies nodes
      ensures Valid() && Value() == TaskModel.Fail(old(Value()), id, error)
    {
      var task := tasks[id];
      TaskAt(id);
      hide Valid, Value;
      task.error := Some(error);
      if task.retries < task.spec.maxRetries {
        task.retries := task.retries + 1;
        task.status := Pending;
        OneTaskChanged(id);
      } else {
        task.status := Failed;
        OneTaskChanged(id);
        BlockDependents(id, FailureReason(id));
      }
    }

    method Cancel(id: TaskId)
      requires Valid() && id in tasks
      modifies nodes
      ensures Valid()
      ensures
        var g := old(Value())[id := old(Value())[id].(status := Cancelled)];
        Value() == MarkBlocked(g, Dependents(g, id), "Dependency " + id + " cancelled")
    {
      tasks[id].status := Cancelled;
      assert Value() == old(Value())[id := old(Value())[id].(status := Cancelled)];
      BlockDependents(id, CancelReason(id));
    }

    /** The recursion blocks exactly the pending tasks that reach `id` through pending tasks. */
    method BlockDependents(id: TaskId, reason: string)
      requires Valid()
      modifies nodes
      ensures Valid() && Value() == MarkBlocked(old(Value()), Dependents(old(Value()), id), reason)
      decreases PendingTasks(Value()), 1
    {
      ghost var g := Value();
      ghost var b: set<TaskId> := {};
      OrderListsTasks();
      assert MarkBlocked(g, b, reason) == g;
      hide Valid, Value, MarkBlocked, Blocking, Dependents, PendingTasks;
      for i := 0 to |order|
        invariant Valid() && Value() == MarkBlocked(g, b, reason)
        invariant Blocking(g, id, b) && BlockedUpTo(g, order[..i], id, b)
      {
        var candidate := tasks[order[i]];
        TaskAt(order[i]);
        BlockScan(g, order, i, id, b, reason);
        if id in candidate.spec.dependencies && candidate.status.Pending? {
          BlockStep(g, id, b, order[i], reason);
          BlockCandidate(candidate, reason);
          b := b + {order[i]} + Dependents(MarkBlocked(g, b + {order[i]}, reason), order[i]);
        }
      }
      assert order[..|order|] == order;
      BlockingDone(g, order, id, b);
    }

    /** The body of the loop for a candidate that has to be blocked. */
    method BlockCandidate(candidate: GraphTask, reason: string)
      requires Valid() && candidate.taskId in tasks && candidate == tasks[candidate.taskId]
      requires candidate.status.Pending?
      modifies nodes
      ensures
        var c := candidate.taskId;
        var g := MarkBlocked(old(Value()), {c}, reason);
        Valid() && Value() == MarkBlocked(g, Dependents(g, c), reason)
      decreases PendingTasks(Value()), 0
    {
      ghost var g := Value();
      ghost var c := candidate.taskId;
      candidate.status, candidate.error := Blocked, Some(reason);
      assert Value() == MarkBlocked(g, {c}, reason);
      assert c in PendingTasks(g) && c !in PendingTasks(Value());
      BlockDependents(candidate.taskId, reason);
    }
  }

  lemma PostOrderedExtends(rel: Relation, post: seq<TaskId>, id: TaskId)
    requires PostOrdered(rel, post) && id in rel && rel[id] <= Elements(post)
    ensures PostOrdered(rel, post + [id]) && Elements(post + [id]) == Elements(post) + {id}
  {
    var post' := post + [id];
    forall i | 0 <= i < |post'| ensures post'[i] in rel && rel[post'[i]] <= Elements(post'[..i]) {
      assert post'[..i] == post[..i];
    }
  }
}
