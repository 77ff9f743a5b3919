/**
 `ResourceLockManager` as a protocol: any number of frames, each of which takes its resources
 one by one in sorted order, may time out on the way, and releases in reverse order.
 */
module ResourceLocks {
  import opened Wrappers
  import opened Ordering

  type Resource = string
  type AgentId = string
  type FrameId = nat

  /** One use of `acquire`: its agent, its sorted resources and the list of those it has got. */
  datatype Frame = Frame(agent: AgentId, ordered: seq<Resource>, acquired: seq<Resource>, finished: bool)

  datatype State = State(locks: map<Resource, bool>, owners: map<Resource, AgentId>, frames: map<FrameId, Frame>)

  const INITIAL := State(map[], map[], map[])

  /**
   `Take`, `TimeOut` and `Leave` are what a frame does between two suspensions: it gets its next
   lock, gives up waiting for it, or leaves its context after it got them all.
   */
  datatype Step =
    | Open(frame: FrameId, agent: AgentId, resources: set<Resource>)
    | Take(frame: FrameId)
    | TimeOut(frame: FrameId)
    | Leave(frame: FrameId)
    | ReleaseAgent(agent: AgentId)

  predicate IsLocked(s: State, r: Resource) {
    r in s.locks && s.locks[r]
  }

  predicate Waiting(s: State, f: FrameId) {
    f in s.frames && !s.frames[f].finished && |s.frames[f].acquired| < |s.frames[f].ordered|
  }

  predicate Inside(s: State, f: FrameId) {
    f in s.frames && !s.frames[f].finished && |s.frames[f].acquired| == |s.frames[f].ordered|
  }

  function NextResource(s: State, f: FrameId): Resource
    requires Waiting(s, f)
  {
    s.frames[f].ordered[|s.frames[f].acquired|]
  }

  predicate Enabled(s: State, step: Step) {
    match step
    case Open(f, _, _) => f !in s.frames
    case Take(f) => Waiting(s, f) && !IsLocked(s, NextResource(s, f))
    case TimeOut(f) => Waiting(s, f)
    case Leave(f) => Inside(s, f)
    case ReleaseAgent(_) => true
  }

  /** The `finally` block: last acquired first, and an owner entry only if it is the agent's own. */
  function Released(locks: map<Resource, bool>, owners: map<Resource, AgentId>, agent: AgentId, acquired: seq<Resource>)
    : (map<Resource, bool>, map<Resource, AgentId>)
    decreases |acquired|
  {
    if acquired == [] then (locks, owners)
    else
      var r := acquired[|acquired| - 1];
      Released(if r in locks && locks[r] then locks[r := false] else locks,
               if r in owners && owners[r] == agent then owners - {r} else owners,
               agent, acquired[..|acquired| - 1])
  }

  function Finish(s: State, f: FrameId): State
    requires f in s.frames
  {
    var (locks, owners) := Released(s.locks, s.owners, s.frames[f].agent, s.frames[f].acquired);
    State(locks, owners, s.frames[f := s.frames[f].(finished := true)])
  }

  ghost function Apply(s: State, step: Step): State
    requires Enabled(s, step)
  {
    match step
    case Open(f, agent, resources) =>
      s.(frames := s.frames[f := Frame(agent, SortedSet(resources, StrLeq), [], false)])
    case Take(f) =>
      var r := NextResource(s, f);
      var frame := s.frames[f];
      State(s.locks[r := true], s.owners[r := frame.agent], s.frames[f := frame.(acquired := frame.acquired + [r])])
    case TimeOut(f) => Finish(s, f)
    case Leave(f) => Finish(s, f)
    case ReleaseAgent(agent) =>
      var released := set r | r in s.owners && s.owners[r] == agent;
      State(map r | r in s.locks :: s.locks[r] && r !in released, s.owners - released, s.frames)
  }

  // ---- The invariant -------------------------------------------------

  function Held(frame: Frame): set<Resource> {
    if frame.finished then {} else Elements(frame.acquired)
  }

  ghost predicate WellOrdered(frame: Frame) {
    && NoDuplicates(frame.ordered) && SortedBy(frame.ordered, StrLeq)
    && frame.acquired <= frame.ordered
  }

  /** No resource is held by two frames. */
  ghost predicate Exclusive(s: State) {
    forall f, h, r | f in s.frames && h in s.frames && r in Held(s.frames[f]) && r in Held(s.frames[h]) :: f == h
  }

  /** What a frame holds is locked and owned by its agent. */
  ghost predicate HoldersOwn(s: State) {
    forall f, r | f in s.frames && r in Held(s.frames[f]) ::
      IsLocked(s, r) && r in s.owners && s.owners[r] == s.frames[f].agent
  }

  /** What is locked or owned is held by some frame. */
  ghost predicate NothingStray(s: State) {
    forall r | IsLocked(s, r) || r in s.owners :: HeldBySome(s, r)
  }

  ghost predicate Safe(s: State) {
    && (forall f | f in s.frames :: WellOrdered(s.frames[f]))
    && Exclusive(s) && HoldersOwn(s) && NothingStray(s)
  }

  ghost predicate HeldBySome(s: State, r: Resource) {
    exists f :: f in s.frames && r in Held(s.frames[f])
  }

  /** What the `finally` block amounts to when the frame holds what it acquired. */
  lemma {:induction false} ReleasedExactly(locks: map<Resource, bool>, owners: map<Resource, AgentId>, agent: AgentId,
                                           acquired: seq<Resource>)
    requires NoDuplicates(acquired)
    requires forall r | r in acquired :: r in locks && locks[r] && r in owners && owners[r] == agent
    ensures Released(locks, owners, agent, acquired).0 == map r | r in locks :: locks[r] && r !in acquired
    ensures Released(locks, owners, agent, acquired).1 == owners - Elements(acquired)
    decreases |acquired|
  {
    if acquired != [] {
      var r, rest := acquired[|acquired| - 1], acquired[..|acquired| - 1];
      assert Released(locks, owners, agent, acquired) == Released(locks[r := false], owners - {r}, agent, rest);
      hide Released;
      LastIsReleased(locks, owners, rest, r);
      assert acquired == rest + [r];
      ReleasedExactly(locks[r := false], owners - {r}, agent, rest);
    }
  }

  lemma LastIsReleased(locks: map<Resource, bool>, owners: map<Resource, AgentId>, rest: seq<Resource>, r: Resource)
    requires r in locks
    ensures (map q | q in locks[r := false] :: locks[r := false][q] && q !in rest)
         == map q | q in locks :: locks[q] && q !in rest + [r]
    ensures owners - {r} - Elements(rest) == owners - Elements(rest + [r])
  {
    assert Elements(rest + [r]) == Elements(rest) + {r};
  }

  /** A frame that leaves or gives up part-way gives back exactly its own locks. */
  lemma FinishExactly(s: State, f: FrameId)
    requires Safe(s) && f in s.frames && !s.frames[f].finished
    ensures
      var mine := Held(s.frames[f]);
      var s' := Finish(s, f);
      && s'.locks == (map r | r in s.locks :: s.locks[r] && r !in mine)
      && s'.owners == s.owners - mine
      && s'.frames == s.frames[f := s.frames[f].(finished := true)]
  {
    assert WellOrdered(s.frames[f]);
    var acquired := s.frames[f].acquired;
    forall i, j | 0 <= i < j < |acquired| ensures acquired[i] != acquired[j] {
      assert acquired[i] == s.frames[f].ordered[i] && acquired[j] == s.frames[f].ordered[j];
    }
    assert Held(s.frames[f]) == Elements(acquired);
    forall r | r in acquired ensures r in s.locks && s.locks[r] && r in s.owners && s.owners[r] == s.frames[f].agent {
      assert r in Held(s.frames[f]) && IsLocked(s, r);
    }
    ReleasedExactly(s.locks, s.owners, s.frames[f].agent, acquired);
  }

  /** Whatever the state, a frame that leaves or gives up takes no entry away from another agent. */
  lemma FinishKeepsOthers(s: State, f: FrameId, r: Resource)
    requires f in s.frames && r in s.owners && s.owners[r] != s.frames[f].agent
    ensures r in Finish(s, f).owners && Finish(s, f).owners[r] == s.owners[r]
  {
    ReleasedKeepsOthers(s.locks, s.owners, s.frames[f].agent, s.frames[f].acquired, r);
  }

  lemma {:induction false} ReleasedKeepsOthers(locks: map<Resource, bool>, owners: map<Resource, AgentId>,
                                               agent: AgentId, acquired: seq<Resource>, r: Resource)
    requires r in owners && owners[r] != agent
    ensures
      var owners' := Released(locks, owners, agent, acquired).1;
      r in owners' && owners'[r] == owners[r]
    decreases |acquired|
  {
    if acquired != [] {
      var q, rest := acquired[|acquired| - 1], acquired[..|acquired| - 1];
      var locks' := if q in locks && locks[q] then locks[q := false] else locks;
      var owners' := if q in owners && owners[q] == agent then owners - {q} else owners;
      assert Released(locks, owners, agent, acquired) == Released(locks', owners', agent, rest);
      ReleasedKeepsOthers(locks', owners', agent, rest, r);
    }
  }

  lemma FinishKeepsSafe(s: State, f: FrameId)
    requires Safe(s) && f in s.frames && !s.frames[f].finished
    ensures Safe(Finish(s, f))
  {
    FinishExactly(s, f);
    var s' := Finish(s, f);
    hide Finish, NoDuplicates, SortedBy;
    assert Held(s'.frames[f]) == {};
    assert forall h | h in s'.frames && h != f :: s'.frames[h] == s.frames[h];
    forall r | IsLocked(s', r) || r in s'.owners ensures HeldBySome(s', r) {
      assert HeldBySome(s, r);
      var h :| h in s.frames && r in Held(s.frames[h]);
      assert h in s'.frames && r in Held(s'.frames[h]);
    }
    FinishKeepsHolders(s, s', f);
  }

  lemma FinishKeepsHolders(s: State, s': State, f: FrameId)
    requires Exclusive(s) && HoldersOwn(s) && f in s.frames
    requires s'.frames.Keys == s.frames.Keys && Held(s'.frames[f]) == {}
    requires forall h | h in s.frames && h != f :: s'.frames[h] == s.frames[h]
    requires s'.locks == map r | r in s.locks :: s.locks[r] && r !in Held(s.frames[f])
    requires s'.owners == s.owners - Held(s.frames[f])
    ensures Exclusive(s') && HoldersOwn(s')
  {
    hide Held;
    forall h, r | h in s'.frames && r in Held(s'.frames[h])
      ensures IsLocked(s', r) && r in s'.owners && s'.owners[r] == s'.frames[h].agent
    {
      assert h != f && r in Held(s.frames[h]) && IsLocked(s, r);
    }
  }

  lemma TakeKeepsSafe(s: State, f: FrameId)
    requires Safe(s) && Enabled(s, Take(f))
    ensures Safe(Apply(s, Take(f)))
  {
    var s', r := Apply(s, Take(f)), NextResource(s, f);
    var frame := s.frames[f];
    assert WellOrdered(frame);
    hide NoDuplicates, SortedBy;
    assert s'.frames[f].acquired == frame.ordered[..|frame.acquired| + 1];
    assert Held(s'.frames[f]) == Held(frame) + {r};
    assert s'.frames == s.frames[f := s'.frames[f]] && s'.frames[f].agent == frame.agent;
    TakeKeepsHolders(s, s', f, r);
  }

  lemma TakeKeepsHolders(s: State, s': State, f: FrameId, r: Resource)
    requires Exclusive(s) && HoldersOwn(s) && NothingStray(s) && f in s.frames && !IsLocked(s, r)
    requires s'.frames.Keys == s.frames.Keys && forall h | h in s.frames && h != f :: s'.frames[h] == s.frames[h]
    requires Held(s'.frames[f]) == Held(s.frames[f]) + {r} && s'.frames[f].agent == s.frames[f].agent
    requires s'.locks == s.locks[r := true] && s'.owners == s.owners[r := s.frames[f].agent]
    ensures Exclusive(s') && HoldersOwn(s') && NothingStray(s')
  {
    TakeKeepsExclusive(s, s', f, r);
    TakeKeepsOwners(s, s', f, r);
    TakeLeavesNothingStray(s, s', f, r);
  }

  lemma TakeKeepsOwners(s: State, s': State, f: FrameId, r: Resource)
    requires HoldersOwn(s) && f in s.frames && !IsLocked(s, r)
    requires s'.frames.Keys == s.frames.Keys && forall h | h in s.frames && h != f :: s'.frames[h] == s.frames[h]
    requires Held(s'.frames[f]) == Held(s.frames[f]) + {r} && s'.frames[f].agent == s.frames[f].agent
    requires s'.locks == s.locks[r := true] && s'.owners == s.owners[r := s.frames[f].agent]
    ensures HoldersOwn(s')
  {
    hide Held;
    forall h, q | h in s'.frames && q in Held(s'.frames[h])
      ensures IsLocked(s', q) && q in s'.owners && s'.owners[q] == s'.frames[h].agent
    {
      assert q in Held(s.frames[h]) ==> IsLocked(s, q);
    }
  }

  lemma TakeKeepsExclusive(s: State, s': State, f: FrameId, r: Resource)
    requires Exclusive(s) && HoldersOwn(s) && f in s.frames && !IsLocked(s, r)
    requires s'.frames.Keys == s.frames.Keys && forall h | h in s.frames && h != f :: s'.frames[h] == s.frames[h]
    requires Held(s'.frames[f]) == Held(s.frames[f]) + {r}
    ensures Exclusive(s')
  {
    forall h | h in s.frames ensures r !in Held(s.frames[h]) {
      assert r in Held(s.frames[h]) ==> IsLocked(s, r);
    }
    hide Held, HoldersOwn;
  }

  lemma TakeLeavesNothingStray(s: State, s': State, f: FrameId, r: Resource)
    requires NothingStray(s) && f in s.frames
    requires s'.frames.Keys == s.frames.Keys && forall h | h in s.frames && h != f :: s'.frames[h] == s.frames[h]
    requires Held(s'.frames[f]) == Held(s.frames[f]) + {r}
    requires s'.locks == s.locks[r := true] && s'.owners == s.owners[r := s.frames[f].agent]
    ensures NothingStray(s')
  {
    hide Held;
    forall q | IsLocked(s', q) || q in s'.owners ensures HeldBySome(s', q) {
      if q == r {
        assert f in s'.frames && q in Held(s'.frames[f]);
      } else {
        assert HeldBySome(s, q);
        var h :| h in s.frames && q in Held(s.frames[h]);
        assert h in s'.frames && q in Held(s'.frames[h]);
      }
    }
  }

  lemma OpenKeepsSafe(s: State, f: FrameId, agent: AgentId, resources: set<Resource>)
    requires Safe(s) && f !in s.frames
    ensures Safe(Apply(s, Open(f, agent, resources)))
  {
    StrLeqIsTotalOrder();
    SortedSetProperties(resources, StrLeq);
    var frame := Frame(agent, SortedSet(resources, StrLeq), [], false);
    assert WellOrdered(frame) && Held(frame) == {};
    NewFrameKeepsSafe(s, f, frame);
  }

  lemma NewFrameKeepsSafe(s: State, f: FrameId, frame: Frame)
    requires Safe(s) && f !in s.frames && WellOrdered(frame) && Held(frame) == {}
    ensures Safe(s.(frames := s.frames[f := frame]))
  {
    hide WellOrdered, Held;
    var s' := s.(frames := s.frames[f := frame]);
    assert s'.frames[f] == frame && forall h | h in s.frames :: s'.frames[h] == s.frames[h];
    forall h, q | h in s'.frames && q in Held(s'.frames[h])
      ensures IsLocked(s', q) && q in s'.owners && s'.owners[q] == s'.frames[h].agent
    {
      assert h != f && q in Held(s.frames[h]) && IsLocked(s, q);
    }
    forall r | IsLocked(s', r) || r in s'.owners ensures HeldBySome(s', r) {
      assert IsLocked(s, r) || r in s.owners;
      assert HeldBySome(s, r);
      var h :| h in s.frames && r in Held(s.frames[h]);
      assert h in s'.frames && r in Held(s'.frames[h]);
    }
  }

  // ---- Whole runs ----------------------------------------------------

  ghost predicate IsRun(s: State, steps: seq<Step>)
    decreases |steps|
  {
    steps != [] ==> Enabled(s, steps[0]) && IsRun(Apply(s, steps[0]), steps[1..])
  }

  ghost function After(s: State, steps: seq<Step>): State
    requires IsRun(s, steps)
    decreases |steps|
  {
    if steps == [] then s else After(Apply(s, steps[0]), steps[1..])
  }

  lemma StepKeepsSafe(s: State, step: Step)
    requires Safe(s) && Enabled(s, step) && !step.ReleaseAgent?
    ensures Safe(Apply(s, step))
  {
    match step
    case Open(f, agent, resources) => OpenKeepsSafe(s, f, agent, resources);
    case Take(f) => TakeKeepsSafe(s, f);
    case TimeOut(f) => FinishKeepsSafe(s, f);
    case Leave(f) => FinishKeepsSafe(s, f);
  }

  /** Mutual exclusion, and `owners` naming exactly the holders, in every run without `release_agent`. */
  lemma {:induction false} RunsAreSafe(s: State, steps: seq<Step>)
    requires Safe(s) && IsRun(s, steps) && forall step | step in steps :: !step.ReleaseAgent?
    ensures Safe(After(s, steps))
    decreases |steps|
  {
    if steps != [] {
      StepKeepsSafe(s, steps[0]);
      RunsAreSafe(Apply(s, steps[0]), steps[1..]);
    }
  }

  lemma InitialIsSafe()
    ensures Safe(INITIAL)
  {
  }

  /** So every run that starts without frames and locks is safe throughout. */
  lemma RunsFromInitialAreSafe(steps: seq<Step>)
    requires IsRun(INITIAL, steps) && forall step | step in steps :: !step.ReleaseAgent?
    ensures Safe(After(INITIAL, steps))
  {
    InitialIsSafe();
    RunsAreSafe(INITIAL, steps);
  }

  // ---- Deadlock freedom ----------------------------------------------

  ghost predicate AllFinished(s: State) {
    forall f | f in s.frames :: s.frames[f].finished
  }

  /** The resources above `r` that some frame asks for: the chain of waiting frames climbs through them. */
  ghost function Above(s: State, r: Resource): set<Resource> {
    set f, q | f in s.frames && q in s.frames[f].ordered && StrLeq(r, q) && q != r :: q
  }

  lemma {:induction false} ClimbToProgress(s: State, f: FrameId) returns (step: Step)
    requires Safe(s) && Waiting(s, f)
    ensures Enabled(s, step) && (step.Take? || step.Leave?)
    decreases Above(s, NextResource(s, f))
  {
    var r := NextResource(s, f);
    if !IsLocked(s, r) {
      return Take(f);
    }
    assert HeldBySome(s, r);
    var h :| h in s.frames && r in Held(s.frames[h]);
    if Inside(s, h) {
      return Leave(h);
    }
    var q := NextResource(s, h);
    NextIsAbove(s, h, r);
    step := ClimbToProgress(s, h);
  }

  lemma NextIsAbove(s: State, h: FrameId, r: Resource)
    requires Safe(s) && Waiting(s, h) && r in s.frames[h].acquired
    ensures Above(s, NextResource(s, h)) < Above(s, r)
  {
    StrLeqIsTotalOrder();
    var q, frame := NextResource(s, h), s.frames[h];
    assert WellOrdered(frame);
    var k :| 0 <= k < |frame.acquired| && frame.acquired[k] == r;
    assert frame.ordered[k] == r && StrLeq(frame.ordered[k], frame.ordered[|frame.acquired|]) && r != q;
    assert q in frame.ordered;
    assert q in Above(s, r) && q !in Above(s, q);
    forall x | x in Above(s, q) ensures x in Above(s, r) {
      var f :| f in s.frames && x in s.frames[f].ordered;
    }
  }

  /** As long as some frame has not finished, some frame can take its next lock or leave: no timeout is needed. */
  lemma NoDeadlock(s: State)
    requires Safe(s) && !AllFinished(s)
    ensures exists step: Step :: Enabled(s, step) && (step.Take? || step.Leave?)
  {
    var f :| f in s.frames && !s.frames[f].finished;
    assert WellOrdered(s.frames[f]);
    if Inside(s, f) {
      assert Enabled(s, Leave(f));
    } else {
      var step := ClimbToProgress(s, f);
    }
  }

  // ---- Progress ends -------------------------------------------------

  /** The steps a frame still has to make: one for each lock and one to leave. */
  function StepsLeft(frame: Frame): nat {
    if frame.finished || |frame.ordered| < |frame.acquired| then 0
    else |frame.ordered| - |frame.acquired| + 1
  }

  ghost function TotalLeft(frames: map<FrameId, Frame>): nat {
    if frames == map[] then 0 else
      var f :| f in frames;
      StepsLeft(frames[f]) + TotalLeft(frames - {f})
  }

  lemma {:induction false} TotalLeftSplit(frames: map<FrameId, Frame>, f: FrameId)
    requires f in frames
    ensures TotalLeft(frames) == StepsLeft(frames[f]) + TotalLeft(frames - {f})
    decreases |frames|
  {
    var h :| h in frames && TotalLeft(frames) == StepsLeft(frames[h]) + TotalLeft(frames - {h});
    if h != f {
      TotalLeftSplit(frames - {h}, f);
      TotalLeftSplit(frames - {f}, h);
      assert frames - {h} - {f} == frames - {f} - {h};
    }
  }

  lemma ProgressCostsOne(s: State, step: Step)
    requires Safe(s) && Enabled(s, step) && (step.Take? || step.Leave?)
    ensures TotalLeft(Apply(s, step).frames) + 1 == TotalLeft(s.frames)
  {
    var f := step.frame;
    var frames' := Apply(s, step).frames;
    TotalLeftSplit(s.frames, f);
    TotalLeftSplit(frames', f);
    assert frames' - {f} == s.frames - {f};
  }

  /**
   Without timeouts and new frames, the frames make a fixed number of steps, whatever their
   interleaving: a run of that length finishes them all, and a shorter one can be continued.
   */
  lemma {:induction false} EveryFrameFinishes(s: State, steps: seq<Step>)
    requires Safe(s) && IsRun(s, steps) && forall step | step in steps :: step.Take? || step.Leave?
    ensures |steps| <= TotalLeft(s.frames)
    ensures
      var s' := After(s, steps);
      && (|steps| == TotalLeft(s.frames) <==> AllFinished(s'))
      && (|steps| < TotalLeft(s.frames) ==> exists step: Step :: Enabled(s', step) && (step.Take? || step.Leave?))
    decreases |steps|
  {
    if steps != [] {
      ProgressCostsOne(s, steps[0]);
      StepKeepsSafe(s, steps[0]);
      EveryFrameFinishes(Apply(s, steps[0]), steps[1..]);
    } else {
      if AllFinished(s) {
        AllFinishedNothingLeft(s.frames);
      } else {
        var f :| f in s.frames && !s.frames[f].finished;
        assert WellOrdered(s.frames[f]);
        TotalLeftSplit(s.frames, f);
        NoDeadlock(s);
      }
    }
  }

  lemma {:induction false} AllFinishedNothingLeft(frames: map<FrameId, Frame>)
    requires forall f | f in frames :: frames[f].finished
    ensures TotalLeft(frames) == 0
    decreases |frames|
  {
    if frames != map[] {
      var f :| f in frames;
      TotalLeftSplit(frames, f);
      AllFinishedNothingLeft(frames - {f});
    }
  }

  /** When every frame has finished, no resource is locked and none is owned. */
  lemma FinishedFramesHoldNothing(s: State)
    requires Safe(s) && AllFinished(s)
    ensures s.owners == map[] && forall r :: !IsLocked(s, r)
  {
    forall r ensures r !in s.owners && !IsLocked(s, r) {
      assert IsLocked(s, r) || r in s.owners ==> HeldBySome(s, r);
    }
  }

  // ---- What release_agent costs --------------------------------------

  /** Cleaning up after an agent is harmless exactly when the agent owns nothing. */
  lemma ReleaseAgentSafeExactly(s: State, agent: AgentId)
    requires Safe(s)
    ensures Safe(Apply(s, ReleaseAgent(agent))) <==> agent !in s.owners.Values
  {
    if agent in s.owners.Values {
      OwnerLosesEntry(s, agent);
    } else {
      hide Safe;
      NothingToRelease(s, agent);
    }
  }

  lemma NothingToRelease(s: State, agent: AgentId)
    requires agent !in s.owners.Values
    ensures Apply(s, ReleaseAgent(agent)) == s
  {
    var released := set r | r in s.owners && s.owners[r] == agent;
    assert forall r | r in s.owners :: s.owners[r] in s.owners.Values;
    assert released == {};
  }

  lemma OwnerLosesEntry(s: State, agent: AgentId)
    requires Safe(s) && agent in s.owners.Values
    ensures !Safe(Apply(s, ReleaseAgent(agent)))
  {
    var r :| r in s.owners && s.owners[r] == agent;
    var s' := Apply(s, ReleaseAgent(agent));
    assert r !in s'.owners && s'.frames == s.frames;
    OwnerlessHolderIsUnsafe(s, s', r);
  }

  lemma OwnerlessHolderIsUnsafe(s: State, s': State, r: Resource)
    requires Safe(s) && r in s.owners && s'.frames == s.frames && r !in s'.owners
    ensures !Safe(s')
  {
    hide WellOrdered, Held;
    assert HeldBySome(s, r);
    var f :| f in s.frames && r in Held(s.frames[f]);
    assert f in s'.frames && r in Held(s'.frames[f]);
  }

  /** A frame identifier that is not in use. */
  lemma {:induction false} FreshFrame(used: set<FrameId>) returns (f: FrameId)
    ensures forall g | g in used :: g < f
    decreases |used|
  {
    f := 0;
    if used != {} {
      var g :| g in used;
      var rest := FreshFrame(used - {g});
      f := if g < rest then rest else g + 1;
      assert forall h | h in used :: h == g || h in used - {g};
    }
  }

  /**
   In a safe state `release_agent` opens the way to two holders of one resource exactly when the agent
   owns something: then a new frame can take the freed lock at once, and otherwise no run can.
   */
  lemma ReleaseAgentBreaksExclusionExactly(s: State, agent: AgentId, other: AgentId) returns (steps: seq<Step>)
    requires Safe(s)
    ensures forall step | step in steps :: !step.ReleaseAgent?
    ensures
      var s' := Apply(s, ReleaseAgent(agent));
      if agent in s.owners.Values then IsRun(s', steps) && !Exclusive(After(s', steps))
      else forall run: seq<Step> | IsRun(s', run) && (forall step | step in run :: !step.ReleaseAgent?) ::
             Exclusive(After(s', run))
  {
    var s' := Apply(s, ReleaseAgent(agent));
    steps := [];
    if agent in s.owners.Values {
      var r :| r in s.owners && s.owners[r] == agent;
      var f := FreshFrame(s.frames.Keys);
      steps := [Open(f, other, {r}), Take(f)];
      FreedLockIsTaken(s, s', agent, other, r, f);
    } else {
      NothingToRelease(s, agent);
      hide Apply, IsRun, After, Safe;
      forall run: seq<Step> | IsRun(s', run) && forall step | step in run :: !step.ReleaseAgent?
        ensures Exclusive(After(s', run))
      {
        RunsAreSafe(s', run);
        SafeIsExclusive(After(s', run));
      }
    }
  }

  lemma SafeIsExclusive(s: State)
    requires Safe(s)
    ensures Exclusive(s)
  {
  }

  lemma FreedLockIsTaken(s: State, s': State, agent: AgentId, other: AgentId, r: Resource, f: FrameId)
    requires Safe(s) && s' == Apply(s, ReleaseAgent(agent))
    requires r in s.owners && s.owners[r] == agent && f !in s.frames
    ensures
      var steps := [Open(f, other, {r}), Take(f)];
      IsRun(s', steps) && !Exclusive(After(s', steps))
  {
    SortedSingleton(r);
    hide SortedSet, StrLeq, WellOrdered;
    assert HeldBySome(s, r) && !IsLocked(s', r);
    var h :| h in s.frames && r in Held(s.frames[h]);
    var s1 := Apply(s', Open(f, other, {r}));
    assert s1.frames[f] == Frame(other, [r], [], false) && !IsLocked(s1, r);
    var s2 := Apply(s1, Take(f));
    assert s2.frames[f].acquired == [r] && s2.frames[h] == s.frames[h];
    TwoSteps(s', Open(f, other, {r}), Take(f));
    assert r in Held(s2.frames[f]) && r in Held(s2.frames[h]) && f != h;
  }

  lemma TwoSteps(s: State, one: Step, two: Step)
    requires Enabled(s, one) && Enabled(Apply(s, one), two)
    ensures IsRun(s, [one, two]) && After(s, [one, two]) == Apply(Apply(s, one), two)
  {
    hide Enabled, Apply, IsRun, After;
    RunNothing(s);
    Extend(s, [], s, one);
    assert [] + [one] == [one] && [one] + [two] == [one, two];
    Extend(s, [one], Apply(s, one), two);
  }

  lemma SortedSingleton(r: Resource)
    ensures SortedSet({r}, StrLeq) == [r]
  {
    StrLeqIsTotalOrder();
    SortIsSortedSet([r], {r}, StrLeq);
  }

  /**
   An agent's locks are released while its frame is still inside; a second agent takes the lock;
   the first frame leaves and frees it again; a third agent takes it too.
   */
  lemma ReleaseAgentBreaksExclusion(a: AgentId, b: AgentId, c: AgentId, r: Resource)
    requires a != b
    ensures
      var steps := [Open(0, a, {r}), Take(0), ReleaseAgent(a), Open(1, b, {r}), Take(1), Leave(0),
                    Open(2, c, {r}), Take(2)];
      IsRun(INITIAL, steps) &&
      var s := After(INITIAL, steps);
      Inside(s, 1) && Inside(s, 2) && r in Held(s.frames[1]) && r in Held(s.frames[2])
  {
    var s1, s2, s3, s4 := AfterReleaseAgent(a, b, r);
    var s5, s6, s7, s8 := AfterStrayRelease(a, b, c, r, s4);
    hide Enabled, Apply, IsRun, After;
    RunNothing(INITIAL);
    var p0: seq<Step> := [];
    var p1, p2 := p0 + [Open(0, a, {r})], p0 + [Open(0, a, {r})] + [Take(0)];
    Extend(INITIAL, p0, INITIAL, Open(0, a, {r}));
    Extend(INITIAL, p1, s1, Take(0));
    var p3, p4 := p2 + [ReleaseAgent(a)], p2 + [ReleaseAgent(a)] + [Open(1, b, {r})];
    Extend(INITIAL, p2, s2, ReleaseAgent(a));
    Extend(INITIAL, p3, s3, Open(1, b, {r}));
    var p5, p6 := p4 + [Take(1)], p4 + [Take(1)] + [Leave(0)];
    Extend(INITIAL, p4, s4, Take(1));
    Extend(INITIAL, p5, s5, Leave(0));
    var p7, p8 := p6 + [Open(2, c, {r})], p6 + [Open(2, c, {r})] + [Take(2)];
    Extend(INITIAL, p6, s6, Open(2, c, {r}));
    Extend(INITIAL, p7, s7, Take(2));
    assert p8 == [Open(0, a, {r}), Take(0), ReleaseAgent(a), Open(1, b, {r}), Take(1), Leave(0),
                  Open(2, c, {r}), Take(2)];
  }

  lemma AfterReleaseAgent(a: AgentId, b: AgentId, r: Resource) returns (s1: State, s2: State, s3: State, s4: State)
    ensures Enabled(INITIAL, Open(0, a, {r})) && s1 == Apply(INITIAL, Open(0, a, {r}))
    ensures Enabled(s1, Take(0)) && s2 == Apply(s1, Take(0))
    ensures Enabled(s2, ReleaseAgent(a)) && s3 == Apply(s2, ReleaseAgent(a))
    ensures Enabled(s3, Open(1, b, {r})) && s4 == Apply(s3, Open(1, b, {r}))
    ensures s4 == State(map[r := false], map[], map[0 := Frame(a, [r], [r], false), 1 := Frame(b, [r], [], false)])
  {
    SortedSingleton(r);
    hide SortedSet, StrLeq;
    assert [] + [r] == [r];
    s1 := State(map[], map[], map[0 := Frame(a, [r], [], false)]);
    s2 := State(map[r := true], map[r := a], map[0 := Frame(a, [r], [r], false)]);
    s3 := State(map[r := false], map[], map[0 := Frame(a, [r], [r], false)]);
    s4 := s3.(frames := s3.frames[1 := Frame(b, [r], [], false)]);
  }

  lemma AfterStrayRelease(a: AgentId, b: AgentId, c: AgentId, r: Resource, s4: State)
    returns (s5: State, s6: State, s7: State, s8: State)
    requires a != b
    requires s4 == State(map[r := false], map[], map[0 := Frame(a, [r], [r], false), 1 := Frame(b, [r], [], false)])
    ensures Enabled(s4, Take(1)) && s5 == Apply(s4, Take(1))
    ensures Enabled(s5, Leave(0)) && s6 == Apply(s5, Leave(0))
    ensures Enabled(s6, Open(2, c, {r})) && s7 == Apply(s6, Open(2, c, {r}))
    ensures Enabled(s7, Take(2)) && s8 == Apply(s7, Take(2))
    ensures Inside(s8, 1) && Inside(s8, 2) && r in Held(s8.frames[1]) && r in Held(s8.frames[2])
  {
    SortedSingleton(r);
    s5 := TakeOnly(s4, 1, b, r);
    s6 := LeaveOnly(s5, 0, a, r);
    s7 := Apply(s6, Open(2, c, {r}));
    s8 := TakeOnly(s7, 2, c, r);
  }

  lemma TakeOnly(s: State, f: FrameId, agent: AgentId, r: Resource) returns (s': State)
    requires f in s.frames && s.frames[f] == Frame(agent, [r], [], false) && !IsLocked(s, r)
    ensures Enabled(s, Take(f)) && s' == Apply(s, Take(f))
    ensures s' == State(s.locks[r := true], s.owners[r := agent], s.frames[f := Frame(agent, [r], [r], false)])
  {
    assert [] + [r] == [r];
    s' := Apply(s, Take(f));
  }

  /** A frame that leaves frees its lock, even one that another agent owns by now. */
  lemma LeaveOnly(s: State, f: FrameId, agent: AgentId, r: Resource) returns (s': State)
    requires f in s.frames && s.frames[f] == Frame(agent, [r], [r], false)
    requires IsLocked(s, r) && r in s.owners && s.owners[r] != agent
    ensures Enabled(s, Leave(f)) && s' == Apply(s, Leave(f))
    ensures s' == State(s.locks[r := false], s.owners, s.frames[f := Frame(agent, [r], [r], true)])
  {
    s' := Apply(s, Leave(f));
    assert Released(s.locks, s.owners, agent, [r]) == Released(s.locks[r := false], s.owners, agent, []);
  }

  lemma RunNothing(s: State)
    ensures IsRun(s, []) && After(s, []) == s
  {
  }

  lemma {:induction false} Extend(s: State, steps: seq<Step>, mid: State, step: Step)
    requires IsRun(s, steps) && After(s, steps) == mid && Enabled(mid, step)
    ensures IsRun(s, steps + [step]) && After(s, steps + [step]) == Apply(mid, step)
    decreases |steps|
  {
    if steps != [] {
      Extend(Apply(s, steps[0]), steps[1..], mid, step);
      assert (steps + [step])[1..] == steps[1..] + [step];
    } else {
      assert [step][1..] == [];
    }
  }

  // ---- The class -----------------------------------------------------

  class ResourceLockManager {
    var locks: map<Resource, bool>
    var owners: map<Resource, AgentId>
    /** The frames of `acquire` that were opened, with their local variables. */
    var frames: map<FrameId, Frame>

    constructor ()
      ensures Value() == INITIAL
    {
      locks, owners, frames := map[], map[], map[];
    }

    function Value(): State
      reads this
    {
      State(locks, owners, frames)
    }

    method OpenFrame(f: FrameId, agent: AgentId, resources: set<Resource>)
      requires Enabled(Value(), Open(f, agent, resources))
      modifies this
      ensures Value() == Apply(old(Value()), Open(f, agent, resources))
    {
      var ordered := SortStrings(resources);
      frames := frames[f := Frame(agent, ordered, [], false)];
    }

    method TakeNext(f: FrameId)
      requires Enabled(Value(), Take(f))
      modifies this
      ensures Value() == Apply(old(Value()), Take(f))
    {
      var frame := frames[f];
      var resource := frame.ordered[|frame.acquired|];
      locks := locks[resource := true];
      owners := owners[resource := frame.agent];
      frames := frames[f := frame.(acquired := frame.acquired + [resource])];
    }

    /** Returns the resource that the raised ResourceBusyError names. */
    method GiveUp(f: FrameId) returns (busy: Resource)
      requires Enabled(Value(), TimeOut(f))
      modifies this
      ensures Value() == Apply(old(Value()), TimeOut(f)) && busy == NextResource(old(Value()), f)
    {
      busy := frames[f].ordered[|frames[f].acquired|];
      ReleaseAcquired(f);
    }

    method LeaveContext(f: FrameId)
      requires Enabled(Value(), Leave(f))
      modifies this
      ensures Value() == Apply(old(Value()), Leave(f))
    {
      ReleaseAcquired(f);
    }

    /** The `finally` block. */
    method ReleaseAcquired(f: FrameId)
      requires f in frames
      modifies this
      ensures Value() == Finish(old(Value()), f)
    {
      var frame := frames[f];
      var i := |frame.acquired|;
      assert frame.acquired[..i] == frame.acquired;
      while i > 0
        invariant 0 <= i <= |frame.acquired|
        invariant frames == old(frames)
        invariant Released(locks, owners, frame.agent, frame.acquired[..i]) ==
                  Released(old(locks), old(owners), frame.agent, frame.acquired)
      {
        i := i - 1;
        var resource := frame.acquired[i];
        assert frame.acquired[..i + 1][..i] == frame.acquired[..i];
        if resource in owners && owners[resource] == frame.agent {
          owners := owners - {resource};
        }
        if resource in locks && locks[resource] {
          locks := locks[resource := false];
        }
      }
      frames := frames[f := frame.(finished := true)];
    }

    method ReleaseAllOf(agent: AgentId) returns (released: set<Resource>)
      modifies this
      ensures released == set r | r in old(owners) && old(owners)[r] == agent
      ensures Value() == Apply(old(Value()), ReleaseAgent(agent))
    {
      released := set r | r in owners && owners[r] == agent;
      var rest := released;
      while rest != {}
        invariant rest <= released && frames == old(frames)
        invariant owners == old(owners) - (released - rest)
        invariant locks == map r | r in old(locks) :: old(locks)[r] && r !in released - rest
        decreases rest
      {
        var resource :| resource in rest;
        rest := rest - {resource};
        owners := owners - {resource};
        if resource in locks && locks[resource] {
          locks := locks[resource := false];
        }
      }
      assert released - rest == released;
    }
  }
}
