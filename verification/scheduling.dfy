/**
 What `TaskScheduler.next_tasks` selects, as a function of the graph's value, and the
 declarative specification that determines that selection uniquely.
 */
module Scheduling {
  import opened Wrappers
  import opened Ordering
  import opened TaskModel

  /** The sort key of the scheduler: descending priority, then deadline, then id. */
  datatype Rank = Rank(priority: int, deadline: Instant, id: TaskId)

  predicate RankLeq(a: Rank, b: Rank) {
    a.priority > b.priority ||
    (a.priority == b.priority &&
     (a.deadline < b.deadline || (a.deadline == b.deadline && StrLeq(a.id, b.id))))
  }

  function RankOf(id: TaskId, spec: TaskSpec): Rank {
    Rank(spec.priority, spec.deadline.GetOr(DATETIME_MAX), id)
  }

  lemma RankLeqIsTotalOrder()
    ensures TotalOrder(RankLeq)
  {
    StrLeqIsTotalOrder();
  }

  /** `a` is served before `b`. */
  predicate Before(g: Graph, a: TaskId, b: TaskId)
    requires a in g && b in g
  {
    a != b && RankLeq(RankOf(a, g[a].spec), RankOf(b, g[b].spec))
  }

  /** The truth value of `a & b` on two resource sets. */
  predicate Overlap(a: set<Resource>, b: set<Resource>) {
    exists x | x in a :: x in b
  }

  predicate Conflict(g: Graph, a: TaskId, b: TaskId)
    requires a in g && b in g
  {
    Overlap(g[a].spec.resources, g[b].spec.resources)
  }

  /** The runnable tasks in the order the scheduler considers them. */
  ghost function RankedRunnable(g: Graph): seq<Rank>
    requires DependenciesPresent(g)
  {
    SortedSet(set n | n in RunnableSet(g) :: RankOf(n, g[n].spec), RankLeq)
  }

  /** The scheduler's loop: `limit` counts down and stops the loop when it passes one. */
  ghost function Greedy(g: Graph, ranked: seq<Rank>, reserved: set<Resource>, limit: int): seq<TaskId>
    requires forall r | r in ranked :: r.id in g
  {
    if ranked == [] then []
    else
      var id := ranked[0].id;
      if Overlap(g[id].spec.resources, reserved) then Greedy(g, ranked[1..], reserved, limit)
      else if limit == 1 then [id]
      else [id] + Greedy(g, ranked[1..], reserved + g[id].spec.resources, limit - 1)
  }

  ghost function NextTasks(g: Graph, held: set<Resource>, limit: int): seq<TaskId>
    requires DependenciesPresent(g)
  {
    Greedy(g, RankedRunnable(g), held, limit)
  }

  /** The reference: which selections of candidates obey the scheduler's rules. */
  ghost predicate IsGreedySelection(g: Graph, candidates: set<TaskId>, held: set<Resource>, limit: int,
                                    sel: seq<TaskId>)
    requires candidates <= g.Keys
  {
    && PicksFree(g, candidates, held, sel)
    && PicksOrdered(g, sel)
    && (limit >= 1 ==> |sel| <= limit)
    && (forall n | n in candidates && n !in sel :: Justified(g, held, limit, sel, n))
  }

  ghost predicate PicksFree(g: Graph, candidates: set<TaskId>, held: set<Resource>, sel: seq<TaskId>)
    requires candidates <= g.Keys
  {
    forall i | 0 <= i < |sel| :: sel[i] in candidates && !Overlap(g[sel[i]].spec.resources, held)
  }

  ghost predicate PicksOrdered(g: Graph, sel: seq<TaskId>)
    requires forall x | x in sel :: x in g
  {
    forall i, j | 0 <= i < j < |sel| :: Before(g, sel[i], sel[j]) && !Conflict(g, sel[i], sel[j])
  }

  /** Why a candidate was left out. */
  ghost predicate Justified(g: Graph, held: set<Resource>, limit: int, sel: seq<TaskId>, n: TaskId)
    requires n in g && forall x | x in sel :: x in g
  {
    || Overlap(g[n].spec.resources, held)
    || (exists i | 0 <= i < |sel| :: Before(g, sel[i], n) && Conflict(g, sel[i], n))
    || (limit >= 1 && |sel| == limit && Before(g, sel[limit - 1], n))
  }

  // ---- Greedy selects, and nothing else does -------------------------

  ghost predicate RankedList(g: Graph, ranked: seq<Rank>) {
    && (forall r | r in ranked :: r.id in g && r == RankOf(r.id, g[r.id].spec))
    && NoDuplicates(ranked) && SortedBy(ranked, RankLeq)
  }

  ghost function Ids(ranked: seq<Rank>): set<TaskId> {
    set r | r in ranked :: r.id
  }

  lemma HeadIsFirst(g: Graph, ranked: seq<Rank>, n: TaskId)
    requires RankedList(g, ranked) && ranked != [] && n in Ids(ranked[1..])
    ensures n in g && Before(g, ranked[0].id, n) && !Before(g, n, ranked[0].id)
  {
    RankLeqIsTotalOrder();
    var i :| 1 <= i < |ranked| && ranked[i].id == n;
    assert RankLeq(ranked[0], ranked[i]) && ranked[0] != ranked[i];
    assert ranked[0] in ranked && ranked[i] in ranked;
  }

  lemma IdsSplit(ranked: seq<Rank>)
    requires ranked != []
    ensures Ids(ranked) == {ranked[0].id} + Ids(ranked[1..])
  {
    assert ranked == [ranked[0]] + ranked[1..];
  }

  lemma {:induction false} GreedySelects(g: Graph, ranked: seq<Rank>, reserved: set<Resource>, limit: int)
    requires RankedList(g, ranked) && Ids(ranked) <= g.Keys
    ensures IsGreedySelection(g, Ids(ranked), reserved, limit, Greedy(g, ranked, reserved, limit))
  {
    if ranked != [] {
      var id, rest := ranked[0].id, ranked[1..];
      HeadFacts(g, ranked);
      hide IsGreedySelection, Overlap, RankedList, Ids, Before;
      var sel := Greedy(g, ranked, reserved, limit);
      if Overlap(g[id].spec.resources, reserved) {
        GreedySelects(g, rest, reserved, limit);
        SkipHead(g, Ids(rest), id, reserved, limit, sel);
      } else if limit != 1 {
        GreedySelects(g, rest, reserved + g[id].spec.resources, limit - 1);
        TakeHead(g, Ids(rest), id, reserved, limit, sel[1..]);
        assert sel == [id] + sel[1..];
      }
    }
  }

  lemma SkipHead(g: Graph, rest: set<TaskId>, id: TaskId, held: set<Resource>, limit: int, sel: seq<TaskId>)
    requires rest <= g.Keys && id in g && Overlap(g[id].spec.resources, held)
    requires IsGreedySelection(g, rest, held, limit, sel)
    ensures IsGreedySelection(g, {id} + rest, held, limit, sel)
  {
  }

  lemma TakeHead(g: Graph, rest: set<TaskId>, id: TaskId, held: set<Resource>, limit: int, tail: seq<TaskId>)
    requires rest <= g.Keys && id in g && limit != 1 && !Overlap(g[id].spec.resources, held)
    requires forall n | n in rest :: Before(g, id, n)
    requires IsGreedySelection(g, rest, held + g[id].spec.resources, limit - 1, tail)
    ensures IsGreedySelection(g, {id} + rest, held, limit, [id] + tail)
  {
    var sel := [id] + tail;
    TakeHeadPicks(g, rest, id, held, tail);
    forall n | n in {id} + rest && n !in sel ensures Justified(g, held, limit, sel, n) {
      TakeHeadJustified(g, id, held, limit, tail, n);
    }
  }

  lemma TakeHeadPicks(g: Graph, rest: set<TaskId>, id: TaskId, held: set<Resource>, tail: seq<TaskId>)
    requires rest <= g.Keys && id in g && !Overlap(g[id].spec.resources, held)
    requires forall n | n in rest :: Before(g, id, n)
    requires PicksFree(g, rest, held + g[id].spec.resources, tail) && PicksOrdered(g, tail)
    ensures PicksFree(g, {id} + rest, held, [id] + tail) && PicksOrdered(g, [id] + tail)
  {
    var sel, held' := [id] + tail, held + g[id].spec.resources;
    forall i | 0 <= i < |sel| ensures sel[i] in {id} + rest && !Overlap(g[sel[i]].spec.resources, held) {
      assert i > 0 ==> sel[i] == tail[i - 1] && !Overlap(g[tail[i - 1]].spec.resources, held');
    }
    forall i, j | 0 <= i < j < |sel| ensures Before(g, sel[i], sel[j]) && !Conflict(g, sel[i], sel[j]) {
      assert sel[j] == tail[j - 1] && !Overlap(g[tail[j - 1]].spec.resources, held');
      assert i > 0 ==> sel[i] == tail[i - 1];
    }
  }

  lemma TakeHeadJustified(g: Graph, id: TaskId, held: set<Resource>, limit: int, tail: seq<TaskId>, n: TaskId)
    requires id in g && n in g && limit != 1 && forall x | x in tail :: x in g
    requires Before(g, id, n)
    requires Justified(g, held + g[id].spec.resources, limit - 1, tail, n)
    ensures Justified(g, held, limit, [id] + tail, n)
  {
    var sel := [id] + tail;
    if Overlap(g[n].spec.resources, held + g[id].spec.resources) {
      if !Overlap(g[n].spec.resources, held) {
        assert Before(g, sel[0], n) && Conflict(g, sel[0], n);
      }
    } else if i :| 0 <= i < |tail| && Before(g, tail[i], n) && Conflict(g, tail[i], n) {
      assert sel[i + 1] == tail[i];
    }
  }

  lemma {:induction false} GreedyIsUnique(g: Graph, ranked: seq<Rank>, held: set<Resource>, limit: int,
                                          sel: seq<TaskId>)
    requires RankedList(g, ranked) && Ids(ranked) <= g.Keys
    requires IsGreedySelection(g, Ids(ranked), held, limit, sel)
    ensures sel == Greedy(g, ranked, held, limit)
  {
    if ranked == [] {
      PicksAreCandidates(g, {}, held, limit, sel);
    } else {
      var id, rest := ranked[0].id, ranked[1..];
      HeadFacts(g, ranked);
      hide IsGreedySelection, Overlap, RankedList, Ids, Before;
      if Overlap(g[id].spec.resources, held) {
        HeadIsSkipped(g, Ids(rest), id, held, limit, sel);
        GreedyIsUnique(g, rest, held, limit, sel);
      } else {
        HeadIsTaken(g, Ids(rest), id, held, limit, sel);
        if limit != 1 {
          DropHead(g, Ids(rest), id, held, limit, sel);
          GreedyIsUnique(g, rest, held + g[id].spec.resources, limit - 1, sel[1..]);
        }
        assert sel == [id] + sel[1..];
      }
    }
  }

  lemma HeadFacts(g: Graph, ranked: seq<Rank>)
    requires RankedList(g, ranked) && ranked != []
    ensures ranked[0].id in g && Ids(ranked[1..]) <= g.Keys
    ensures RankedList(g, ranked[1..]) && Ids(ranked) == {ranked[0].id} + Ids(ranked[1..])
    ensures forall n | n in Ids(ranked[1..]) ::
              Before(g, ranked[0].id, n) && !Before(g, n, ranked[0].id) && n != ranked[0].id
  {
    IdsSplit(ranked);
    assert ranked[0] in ranked;
    forall n | n in Ids(ranked[1..])
      ensures n in g && Before(g, ranked[0].id, n) && !Before(g, n, ranked[0].id) && n != ranked[0].id
    {
      HeadIsFirst(g, ranked, n);
    }
  }

  lemma PicksAreCandidates(g: Graph, candidates: set<TaskId>, held: set<Resource>, limit: int, sel: seq<TaskId>)
    requires candidates <= g.Keys && IsGreedySelection(g, candidates, held, limit, sel)
    ensures candidates == {} ==> sel == []
  {
    assert |sel| > 0 ==> sel[0] in candidates;
  }

  lemma HeadIsSkipped(g: Graph, rest: set<TaskId>, id: TaskId, held: set<Resource>, limit: int, sel: seq<TaskId>)
    requires rest <= g.Keys && id in g && Overlap(g[id].spec.resources, held)
    requires IsGreedySelection(g, {id} + rest, held, limit, sel)
    ensures IsGreedySelection(g, rest, held, limit, sel)
  {
    forall i | 0 <= i < |sel| ensures sel[i] in rest {
      assert sel[i] != id;
    }
  }

  lemma HeadIsTaken(g: Graph, rest: set<TaskId>, id: TaskId, held: set<Resource>, limit: int, sel: seq<TaskId>)
    requires rest <= g.Keys && id in g && id !in rest && !Overlap(g[id].spec.resources, held)
    requires forall n | n in rest :: Before(g, id, n) && !Before(g, n, id)
    requires IsGreedySelection(g, {id} + rest, held, limit, sel)
    ensures sel != [] && sel[0] == id && id !in sel[1..]
    ensures limit == 1 ==> |sel| == 1
  {
    assert forall i | 0 <= i < |sel| :: sel[i] == id || sel[i] in rest;
    assert id !in sel ==> Justified(g, held, limit, sel, id);
    assert forall j | 0 < j < |sel| :: Before(g, sel[0], sel[j]);
    var k :| 0 <= k < |sel| && sel[k] == id;
    forall i | 1 <= i < |sel| ensures sel[i] != id {
      assert Before(g, sel[0], sel[i]);
    }
  }

  lemma DropHead(g: Graph, rest: set<TaskId>, id: TaskId, held: set<Resource>, limit: int, sel: seq<TaskId>)
    requires rest <= g.Keys && id in g && id !in rest && limit != 1
    requires sel != [] && sel[0] == id && id !in sel[1..]
    requires IsGreedySelection(g, {id} + rest, held, limit, sel)
    ensures IsGreedySelection(g, rest, held + g[id].spec.resources, limit - 1, sel[1..])
  {
    var tail, held' := sel[1..], held + g[id].spec.resources;
    assert sel == [id] + tail;
    forall i | 0 <= i < |tail| ensures tail[i] in rest && !Overlap(g[tail[i]].spec.resources, held') {
      assert tail[i] == sel[i + 1] && !Conflict(g, sel[0], sel[i + 1]);
    }
    forall n | n in rest && n !in tail ensures Justified(g, held', limit - 1, tail, n) {
      DropHeadJustified(g, id, held, limit, tail, n);
    }
  }

  lemma DropHeadJustified(g: Graph, id: TaskId, held: set<Resource>, limit: int, tail: seq<TaskId>, n: TaskId)
    requires id in g && n in g && limit != 1 && forall x | x in tail :: x in g
    requires Justified(g, held, limit, [id] + tail, n)
    ensures Justified(g, held + g[id].spec.resources, limit - 1, tail, n)
  {
    var sel, held' := [id] + tail, held + g[id].spec.resources;
    if Overlap(g[n].spec.resources, held) {
      assert Overlap(g[n].spec.resources, held');
    } else if i :| 0 <= i < |sel| && Before(g, sel[i], n) && Conflict(g, sel[i], n) {
      if i == 0 {
        assert Overlap(g[n].spec.resources, held');
      } else {
        assert tail[i - 1] == sel[i];
      }
    }
  }

  lemma RankedRunnableIsRanked(g: Graph)
    requires DependenciesPresent(g)
    ensures RankedList(g, RankedRunnable(g)) && Ids(RankedRunnable(g)) == RunnableSet(g)
  {
    RankLeqIsTotalOrder();
    var ranks := set n | n in RunnableSet(g) :: RankOf(n, g[n].spec);
    SortedSetProperties(ranks, RankLeq);
    forall n | n in RunnableSet(g) ensures n in Ids(RankedRunnable(g)) {
      assert RankOf(n, g[n].spec) in RankedRunnable(g);
    }
  }

  /** A batch is the one selection that obeys the rules. */
  lemma NextTasksCharacterized(g: Graph, held: set<Resource>, limit: int, sel: seq<TaskId>)
    requires DependenciesPresent(g)
    ensures sel == NextTasks(g, held, limit) <==> IsGreedySelection(g, RunnableSet(g), held, limit, sel)
  {
    RankedRunnableIsRanked(g);
    GreedySelects(g, RankedRunnable(g), held, limit);
    if IsGreedySelection(g, RunnableSet(g), held, limit, sel) {
      GreedyIsUnique(g, RankedRunnable(g), held, limit, sel);
    }
  }

  /** Pending, with every dependency completed. */
  ghost predicate Ready(g: Graph, n: TaskId) {
    && n in g && g[n].status == Pending
    && forall d | d in g[n].spec.dependencies :: d in g && g[d].status == Completed
  }

  /**
   What a batch looks like: ready tasks that need nothing held and share nothing, highest priority first,
   among equals the earlier deadline, with no deadline standing for the last instant, then the smaller id.
   */
  lemma BatchServesPriority(g: Graph, held: set<Resource>, limit: int)
    requires DependenciesPresent(g)
    ensures
      var batch := NextTasks(g, held, limit);
      && (forall i | 0 <= i < |batch| :: Ready(g, batch[i]) && g[batch[i]].spec.resources !! held)
      && (forall i, j | 0 <= i < j < |batch| ::
            var a, b := g[batch[i]].spec, g[batch[j]].spec;
            && batch[i] != batch[j] && a.resources !! b.resources && a.priority >= b.priority
            && (a.priority == b.priority && a.deadline.Some? && b.deadline.Some? ==>
                  a.deadline.value <= b.deadline.value)
            && (a.priority == b.priority && a.deadline.None? && b.deadline.Some? ==>
                  b.deadline.value == 315537897599999999)
            && (a.priority == b.priority && a.deadline == b.deadline ==> StrLeq(batch[i], batch[j])))
      && (limit >= 1 ==> |batch| <= limit)
  {
    NextTasksCharacterized(g, held, limit, NextTasks(g, held, limit));
    var batch := NextTasks(g, held, limit);
    forall i | 0 <= i < |batch| ensures Ready(g, batch[i]) && g[batch[i]].spec.resources !! held {
      assert batch[i] in RunnableSet(g);
      NoOverlap(g[batch[i]].spec.resources, held);
    }
    forall i, j | 0 <= i < j < |batch| ensures g[batch[i]].spec.resources !! g[batch[j]].spec.resources {
      assert !Conflict(g, batch[i], batch[j]);
      NoOverlap(g[batch[i]].spec.resources, g[batch[j]].spec.resources);
    }
    assert forall i, j | 0 <= i < j < |batch| :: Before(g, batch[i], batch[j]);
    hide IsGreedySelection, Greedy, RankedRunnable, NextTasks;
  }

  lemma NoOverlap(a: set<Resource>, b: set<Resource>)
    ensures Overlap(a, b) <==> !(a !! b)
  {
  }

  /**
   And why a ready task is left out: it needs something held, or something that a pick of no lower priority
   needs, or the batch is full with picks of no lower priority.
   */
  lemma LeftOutForPriority(g: Graph, held: set<Resource>, limit: int, n: TaskId)
    requires DependenciesPresent(g) && Ready(g, n) && n !in NextTasks(g, held, limit)
    ensures
      var batch := NextTasks(g, held, limit);
      || !(g[n].spec.resources !! held)
      || (exists i | 0 <= i < |batch| ::
            batch[i] in g && g[batch[i]].spec.priority >= g[n].spec.priority
            && !(g[batch[i]].spec.resources !! g[n].spec.resources))
      || (limit >= 1 && |batch| == limit && forall i | 0 <= i < |batch| ::
            batch[i] in g && g[batch[i]].spec.priority >= g[n].spec.priority)
  {
    var batch := NextTasks(g, held, limit);
    NextTasksCharacterized(g, held, limit, batch);
    BatchServesPriority(g, held, limit);
    assert n in RunnableSet(g) && Justified(g, held, limit, batch, n);
    hide IsGreedySelection, Greedy, RankedRunnable, NextTasks, Justified;
    JustifiedByPriority(g, held, limit, batch, n);
  }

  lemma JustifiedByPriority(g: Graph, held: set<Resource>, limit: int, batch: seq<TaskId>, n: TaskId)
    requires n in g && (forall x | x in batch :: x in g) && Justified(g, held, limit, batch, n)
    requires forall i, j | 0 <= i < j < |batch| :: g[batch[i]].spec.priority >= g[batch[j]].spec.priority
    ensures
      || !(g[n].spec.resources !! held)
      || (exists i | 0 <= i < |batch| ::
            batch[i] in g && g[batch[i]].spec.priority >= g[n].spec.priority
            && !(g[batch[i]].spec.resources !! g[n].spec.resources))
      || (limit >= 1 && |batch| == limit && forall i | 0 <= i < |batch| ::
            batch[i] in g && g[batch[i]].spec.priority >= g[n].spec.priority)
  {
    NoOverlap(g[n].spec.resources, held);
    if i :| 0 <= i < |batch| && Before(g, batch[i], n) && Conflict(g, batch[i], n) {
      NoOverlap(g[batch[i]].spec.resources, g[n].spec.resources);
    }
    hide Overlap;
  }

  /** The scheduler is idle exactly when every runnable task needs a held resource. */
  lemma IdleExactly(g: Graph, held: set<Resource>, limit: int)
    requires DependenciesPresent(g)
    ensures NextTasks(g, held, limit) == [] <==>
            forall n | n in RunnableSet(g) :: Overlap(g[n].spec.resources, held)
  {
    var sel := NextTasks(g, held, limit);
    NextTasksCharacterized(g, held, limit, sel);
    if sel == [] {
      forall n | n in RunnableSet(g) ensures Overlap(g[n].spec.resources, held) {
        assert Justified(g, held, limit, sel, n);
      }
    } else {
      assert sel[0] in RunnableSet(g);
    }
  }

  /**
   The limit is tested only after a task was taken and only for equality, so it bounds the
   batch exactly when it is positive, or when it is zero and nothing can be taken.
   */
  lemma LimitRespectedExactly(g: Graph, held: set<Resource>, limit: int)
    requires DependenciesPresent(g)
    ensures |NextTasks(g, held, limit)| <= limit <==>
            limit >= 1 ||
            (limit == 0 && forall n | n in RunnableSet(g) :: Overlap(g[n].spec.resources, held))
  {
    NextTasksCharacterized(g, held, limit, NextTasks(g, held, limit));
    IdleExactly(g, held, limit);
  }

  /** Limit zero on one free task: the batch is one task long. */
  lemma LimitZeroTakesATask(id: TaskId, spec: TaskSpec)
    requires spec.dependencies == {}
    ensures NextTasks(map[id := Task(spec, Pending, 0, None)], {}, 0) == [id]
  {
    var g := map[id := Task(spec, Pending, 0, None)];
    assert RunnableSet(g) == {id};
    assert IsGreedySelection(g, {id}, {}, 0, [id]) by {
      assert PicksFree(g, {id}, {}, [id]) && PicksOrdered(g, [id]);
    }
    hide *;
    NextTasksCharacterized(g, {}, 0, [id]);
  }
}
