/**
 `CapabilityLeaseRegistry`: a pruned dictionary of leases against the full log of grants and
 revocations. Every `active` property reads the clock on its own, so one call may read it often.
 */
module Leases {
  import opened Clocks
  import opened Wrappers

  type AgentId = nat
  type Permission = string

  /** Identifiers are fresh: a lease is named by its place in the log of grants. */
  datatype Lease = Lease(leaseId: nat, agent: AgentId, permission: Permission, taskId: string, grantedAt: real,
                         expiresAt: real)

  const MAX_SECONDS := 86400

  /** The dictionary in insertion order and the number of clock readings so far, then the logs. */
  datatype Registry = Registry(leases: seq<Lease>, readings: nat, log: seq<Lease>, revoked: set<nat>)

  const EMPTY := Registry([], 0, [], {})

  predicate Matches(l: Lease, agent: AgentId, permission: Permission, taskId: Option<string>) {
    l.agent == agent && l.permission == permission && taskId == Some(l.taskId)
  }

  // ---- Operations ----------------------------------------------------

  predicate ValidGrant(taskId: string, seconds: int) {
    taskId != "" && 1 <= seconds <= MAX_SECONDS
  }

  function Grant(clock: Clock, g: Registry, agent: AgentId, permission: Permission, taskId: string,
                 seconds: int): (Registry, Result<Lease, string>)
  {
    if !ValidGrant(taskId, seconds) then (g, Err("Capability lease scope and duration are required"))
    else
      var now := clock(g.readings);
      var lease := Lease(|g.log|, agent, permission, taskId, now, now + seconds as real);
      (g.(leases := g.leases + [lease], readings := g.readings + 1, log := g.log + [lease]), Ok(lease))
  }

  /** Each lease is kept by a reading of its own. */
  function PruneFrom(clock: Clock, leases: seq<Lease>, readings: nat): seq<Lease> {
    if leases == [] then []
    else (if clock(readings) < leases[0].expiresAt then [leases[0]] else [])
         + PruneFrom(clock, leases[1..], readings + 1)
  }

  function Prune(clock: Clock, g: Registry): Registry {
    g.(leases := PruneFrom(clock, g.leases, g.readings), readings := g.readings + |g.leases|)
  }

  /** `any`: the clock is read for matching leases only, up to the first active one. */
  function Search(clock: Clock, leases: seq<Lease>, readings: nat, agent: AgentId, permission: Permission,
                  taskId: Option<string>): (bool, nat)
  {
    if leases == [] then (false, readings)
    else if !Matches(leases[0], agent, permission, taskId)
    then Search(clock, leases[1..], readings, agent, permission, taskId)
    else if clock(readings) < leases[0].expiresAt then (true, readings + 1)
    else Search(clock, leases[1..], readings + 1, agent, permission, taskId)
  }

  function Permits(clock: Clock, g: Registry, agent: AgentId, permission: Permission,
                   taskId: Option<string>): (Registry, bool)
  {
    var p := Prune(clock, g);
    var (found, readings) := Search(clock, p.leases, p.readings, agent, permission, taskId);
    (p.(readings := readings), found)
  }

  function Without(leases: seq<Lease>, leaseId: nat): seq<Lease> {
    if leases == [] then []
    else (if leases[0].leaseId == leaseId then [] else [leases[0]]) + Without(leases[1..], leaseId)
  }

  /** Revoking an identifier that was never granted changes nothing. */
  function Revoke(g: Registry, leaseId: nat): Registry {
    g.(leases := Without(g.leases, leaseId), revoked := if leaseId < |g.log| then g.revoked + {leaseId} else g.revoked)
  }

  datatype Operation =
    | GrantLease(agent: AgentId, permission: Permission, taskId: string, seconds: int)
    | AskPermits(agent: AgentId, permission: Permission, task: Option<string>)
    | ListActive
    | RevokeLease(leaseId: nat)

  function Apply(clock: Clock, g: Registry, op: Operation): Registry {
    match op
    case GrantLease(agent, permission, taskId, seconds) => Grant(clock, g, agent, permission, taskId, seconds).0
    case AskPermits(agent, permission, task) => Permits(clock, g, agent, permission, task).0
    case ListActive => Prune(clock, g)
    case RevokeLease(leaseId) => Revoke(g, leaseId)
  }

  function After(clock: Clock, ops: seq<Operation>): Registry
    decreases |ops|
  {
    if ops == [] then EMPTY else Apply(clock, After(clock, ops[..|ops| - 1]), ops[|ops| - 1])
  }

  // ---- The dictionary against the log --------------------------------

  /** A granted and unrevoked lease of the full log that is unexpired at `now`. */
  ghost predicate Live(g: Registry, l: Lease, now: real) {
    l in g.log && l.leaseId !in g.revoked && now < l.expiresAt
  }

  /** The reference: a search of the full log. */
  ghost predicate Permitted(g: Registry, agent: AgentId, permission: Permission, taskId: Option<string>, now: real) {
    exists l :: Live(g, l, now) && Matches(l, agent, permission, taskId)
  }

  /** The dictionary holds only granted, unrevoked leases, and all of them that have not expired. */
  ghost predicate Agrees(clock: Clock, g: Registry) {
    && (forall i | 0 <= i < |g.log| :: g.log[i].leaseId == i)
    && (forall id | id in g.revoked :: id < |g.log|)
    && (forall l | l in g.leases :: l in g.log && l.leaseId !in g.revoked)
    && (forall l | Live(g, l, clock(g.readings)) :: l in g.leases)
  }

  lemma {:induction false} PruneKeeps(clock: Clock, leases: seq<Lease>, readings: nat, l: Lease)
    requires NonDecreasing(clock)
    ensures l in PruneFrom(clock, leases, readings) ==> l in leases && clock(readings) < l.expiresAt
    ensures l in leases && clock(readings + |leases|) < l.expiresAt ==> l in PruneFrom(clock, leases, readings)
    decreases |leases|
  {
    if leases != [] {
      PruneKeeps(clock, leases[1..], readings + 1, l);
    }
  }

  lemma {:induction false} WithoutExactly(leases: seq<Lease>, leaseId: nat, l: Lease)
    ensures l in Without(leases, leaseId) <==> l in leases && l.leaseId != leaseId
  {
    if leases != [] {
      WithoutExactly(leases[1..], leaseId, l);
    }
  }

  lemma PruneAgrees(clock: Clock, g: Registry)
    requires NonDecreasing(clock) && Agrees(clock, g)
    ensures Agrees(clock, Prune(clock, g))
    ensures forall l | l in Prune(clock, g).leases :: l in g.leases && clock(g.readings) < l.expiresAt
  {
    var p := Prune(clock, g);
    forall l | l in p.leases ensures l in g.leases && clock(g.readings) < l.expiresAt {
      PruneKeeps(clock, g.leases, g.readings, l);
    }
    forall l | Live(p, l, clock(p.readings)) ensures l in p.leases {
      assert Live(g, l, clock(g.readings));
      PruneKeeps(clock, g.leases, g.readings, l);
    }
  }

  lemma LaterAgrees(clock: Clock, g: Registry, readings: nat)
    requires NonDecreasing(clock) && Agrees(clock, g) && readings >= g.readings
    ensures Agrees(clock, g.(readings := readings))
  {
    var later := g.(readings := readings);
    forall l | Live(later, l, clock(readings)) ensures l in g.leases {
      assert Live(g, l, clock(g.readings));
    }
  }

  lemma {:induction false} SearchFinds(clock: Clock, leases: seq<Lease>, readings: nat, agent: AgentId,
                                       permission: Permission, taskId: Option<string>)
    requires NonDecreasing(clock)
    ensures
      var (found, r) := Search(clock, leases, readings, agent, permission, taskId);
      && r >= readings
      && (found ==> exists l | l in leases :: Matches(l, agent, permission, taskId) && clock(readings) < l.expiresAt)
      && (forall l | l in leases && Matches(l, agent, permission, taskId) && clock(r) < l.expiresAt :: found)
    decreases |leases|
  {
    if leases != [] {
      var next := if Matches(leases[0], agent, permission, taskId) then readings + 1 else readings;
      SearchFinds(clock, leases[1..], next, agent, permission, taskId);
      assert leases == [leases[0]] + leases[1..];
    }
  }

  lemma PermitsAgrees(clock: Clock, g: Registry, agent: AgentId, permission: Permission, taskId: Option<string>)
    requires NonDecreasing(clock) && Agrees(clock, g)
    ensures
      var (g', found) := Permits(clock, g, agent, permission, taskId);
      && Agrees(clock, g') && g'.readings >= g.readings && g'.log == g.log && g'.revoked == g.revoked
      && (found ==> Permitted(g, agent, permission, taskId, clock(g.readings)))
      && (Permitted(g, agent, permission, taskId, clock(g'.readings)) ==> found)
  {
    hide PruneFrom, Search;
    var p := Prune(clock, g);
    PruneAgrees(clock, g);
    SearchFinds(clock, p.leases, p.readings, agent, permission, taskId);
    var (found, r) := Search(clock, p.leases, p.readings, agent, permission, taskId);
    LaterAgrees(clock, p, r);
    if found {
      var l :| l in p.leases && Matches(l, agent, permission, taskId) && clock(p.readings) < l.expiresAt;
      assert Live(g, l, clock(g.readings));
    }
    if Permitted(g, agent, permission, taskId, clock(r)) {
      var l :| Live(g, l, clock(r)) && Matches(l, agent, permission, taskId);
      assert Live(p, l, clock(p.readings));
    }
  }

  lemma GrantAgrees(clock: Clock, g: Registry, agent: AgentId, permission: Permission, taskId: string, seconds: int)
    requires NonDecreasing(clock) && Agrees(clock, g)
    ensures Agrees(clock, Grant(clock, g, agent, permission, taskId, seconds).0)
  {
    if ValidGrant(taskId, seconds) {
      var (g', r) := Grant(clock, g, agent, permission, taskId, seconds);
      forall l | Live(g', l, clock(g'.readings)) ensures l in g'.leases {
        if l in g.log {
          assert Live(g, l, clock(g.readings));
        }
      }
      forall l | l in g'.leases ensures l in g'.log && l.leaseId !in g'.revoked {
        assert l in g.leases || l == r.value;
      }
    }
  }

  lemma RevokeAgrees(clock: Clock, g: Registry, leaseId: nat)
    requires Agrees(clock, g)
    ensures Agrees(clock, Revoke(g, leaseId))
  {
    var g' := Revoke(g, leaseId);
    forall l ensures l in g'.leases <==> l in g.leases && l.leaseId != leaseId {
      WithoutExactly(g.leases, leaseId, l);
    }
    forall l | Live(g', l, clock(g'.readings)) ensures l in g'.leases {
      assert Live(g, l, clock(g.readings));
    }
  }

  lemma {:induction false} RunsAgree(clock: Clock, ops: seq<Operation>)
    requires NonDecreasing(clock)
    ensures Agrees(clock, After(clock, ops))
    decreases |ops|
  {
    hide Agrees;
    if ops != [] {
      var before, op := ops[..|ops| - 1], ops[|ops| - 1];
      RunsAgree(clock, before);
      var g := After(clock, before);
      match op
      case GrantLease(agent, permission, taskId, seconds) => GrantAgrees(clock, g, agent, permission, taskId, seconds);
      case AskPermits(agent, permission, task) => PermitsAgrees(clock, g, agent, permission, task);
      case ListActive => PruneAgrees(clock, g);
      case RevokeLease(leaseId) => RevokeAgrees(clock, g, leaseId);
    } else {
      InitiallyAgrees(clock);
    }
  }

  lemma InitiallyAgrees(clock: Clock)
    ensures Agrees(clock, EMPTY)
  {
  }

  /**
   After any interleaving of grants, questions, listings and revocations, `permits` answers as a
   search of the full log would: yes only if a matching lease is unexpired when the call begins, and
   yes if one is unexpired when it ends.
   */
  lemma PermitsSearchesLog(clock: Clock, ops: seq<Operation>, agent: AgentId, permission: Permission,
                           taskId: Option<string>)
    requires NonDecreasing(clock)
    ensures
      var g := After(clock, ops);
      var (g', found) := Permits(clock, g, agent, permission, taskId);
      && (found ==> Permitted(g, agent, permission, taskId, clock(g.readings)))
      && (Permitted(g, agent, permission, taskId, clock(g'.readings)) ==> found)
      && (clock(g.readings) == clock(g'.readings) ==>
            (found <==> Permitted(g, agent, permission, taskId, clock(g.readings))))
  {
    RunsAgree(clock, ops);
    PermitsAgrees(clock, After(clock, ops), agent, permission, taskId);
  }

  /** `active` lists unrevoked leases only, and every one that has not expired when it returns. */
  lemma ActiveListsLog(clock: Clock, ops: seq<Operation>, l: Lease)
    requires NonDecreasing(clock)
    ensures
      var g := After(clock, ops);
      var g' := Prune(clock, g);
      && (l in g'.leases ==> Live(g, l, clock(g.readings)))
      && (Live(g, l, clock(g'.readings)) ==> l in g'.leases)
  {
    RunsAgree(clock, ops);
    var g := After(clock, ops);
    PruneAgrees(clock, g);
    if Live(g, l, clock(Prune(clock, g).readings)) {
      assert Live(Prune(clock, g), l, clock(Prune(clock, g).readings));
    }
  }

  /** No lease lasts less than a second or more than a day from its grant, nor lacks a task. */
  lemma {:induction false} LeasesAreBounded(clock: Clock, ops: seq<Operation>)
    ensures forall l | l in After(clock, ops).log ::
              l.taskId != "" && l.grantedAt + 1.0 <= l.expiresAt <= l.grantedAt + 86400.0
    decreases |ops|
  {
    hide PruneFrom, Search, Without;
    if ops != [] {
      LeasesAreBounded(clock, ops[..|ops| - 1]);
    }
  }

  // ---- One step of the loops -----------------------------------------

  lemma PruneStep(clock: Clock, kept: seq<Lease>, leases: seq<Lease>, i: nat, readings: nat)
    requires i < |leases|
    ensures kept + PruneFrom(clock, leases[i..], readings)
         == (if clock(readings) < leases[i].expiresAt then kept + [leases[i]] else kept)
            + PruneFrom(clock, leases[i + 1..], readings + 1)
  {
    assert leases[i..][1..] == leases[i + 1..];
  }

  lemma WithoutStep(kept: seq<Lease>, leases: seq<Lease>, i: nat, leaseId: nat)
    requires i < |leases|
    ensures kept + Without(leases[i..], leaseId)
         == (if leases[i].leaseId == leaseId then kept else kept + [leases[i]]) + Without(leases[i + 1..], leaseId)
  {
    assert leases[i..][1..] == leases[i + 1..];
  }

  lemma NothingToPrune(clock: Clock, readings: nat)
    ensures PruneFrom(clock, [], readings) == []
  {
  }

  lemma NothingWithout(leaseId: nat)
    ensures Without([], leaseId) == []
  {
  }

  // ---- The class -----------------------------------------------------

  class CapabilityLeaseRegistry {
    const clock: Clock
    var leases: seq<Lease>
    var readings: nat
    var granted: nat
    ghost var log: seq<Lease>
    ghost var revoked: set<nat>

    constructor (clock: Clock)
      ensures this.clock == clock && Valid() && Value() == EMPTY
    {
      this.clock := clock;
      leases, readings, granted, log, revoked := [], 0, 0, [], {};
    }

    ghost predicate Valid()
      reads this
    {
      granted == |log|
    }

    ghost function Value(): Registry
      reads this
    {
      Registry(leases, readings, log, revoked)
    }

    method IsActive(l: Lease) returns (active: bool)
      modifies this`readings
      ensures active == (clock(old(readings)) < l.expiresAt) && readings == old(readings) + 1
    {
      active := clock(readings) < l.expiresAt;
      readings := readings + 1;
    }

    method GrantLease(agent: AgentId, permission: Permission, taskId: string, seconds: int)
      returns (r: Result<Lease, string>)
      requires Valid()
      modifies this
      ensures Valid() && (Value(), r) == Grant(clock, old(Value()), agent, permission, taskId, seconds)
    {
      if taskId == "" || seconds < 1 || seconds > MAX_SECONDS {
        return Err("Capability lease scope and duration are required");
      }
      var now := clock(readings);
      var lease := Lease(granted, agent, permission, taskId, now, now + seconds as real);
      leases, readings, granted, log := leases + [lease], readings + 1, granted + 1, log + [lease];
      return Ok(lease);
    }

    method DropExpired()
      modifies this`leases, this`readings
      ensures Value() == Prune(clock, old(Value()))
    {
      hide PruneFrom;
      NothingToPrune(clock, readings + |leases|);
      var kept: seq<Lease> := [];
      var i := 0;
      while i < |leases|
        invariant i <= |leases| && leases == old(leases) && readings == old(readings) + i
        invariant kept + PruneFrom(clock, leases[i..], readings) == PruneFrom(clock, leases, old(readings))
      {
        PruneStep(clock, kept, leases, i, readings);
        var active := IsActive(leases[i]);
        if active {
          kept := kept + [leases[i]];
        }
        i := i + 1;
      }
      assert leases[i..] == [] && kept + [] == kept;
      leases := kept;
    }

    method IsPermitted(agent: AgentId, permission: Permission, taskId: Option<string>) returns (found: bool)
      requires Valid()
      modifies this`leases, this`readings
      ensures Valid() && (Value(), found) == Permits(clock, old(Value()), agent, permission, taskId)
    {
      hide PruneFrom;
      DropExpired();
      ghost var start := readings;
      var i := 0;
      while i < |leases|
        invariant i <= |leases|
        invariant Search(clock, leases[i..], readings, agent, permission, taskId)
               == Search(clock, leases, start, agent, permission, taskId)
        invariant Value() == Prune(clock, old(Value())).(readings := readings)
      {
        assert leases[i..][1..] == leases[i + 1..];
        if Matches(leases[i], agent, permission, taskId) {
          var active := IsActive(leases[i]);
          if active {
            return true;
          }
        }
        i := i + 1;
      }
      return false;
    }

    method Active() returns (r: seq<Lease>)
      requires Valid()
      modifies this`leases, this`readings
      ensures Valid() && Value() == Prune(clock, old(Value())) && r == leases
    {
      DropExpired();
      r := leases;
    }

    method RevokeLease(leaseId: nat)
      requires Valid()
      modifies this`leases, this`revoked
      ensures Valid() && Value() == Revoke(old(Value()), leaseId)
    {
      ghost var before := Value();
      hide Without;
      NothingWithout(leaseId);
      var kept: seq<Lease> := [];
      var i := 0;
      while i < |leases|
        invariant i <= |leases| && Value() == before
        invariant kept + Without(leases[i..], leaseId) == Without(leases, leaseId)
      {
        WithoutStep(kept, leases, i, leaseId);
        if leases[i].leaseId != leaseId {
          kept := kept + [leases[i]];
        }
        i := i + 1;
      }
      assert leases[i..] == [] && kept + [] == kept;
      leases := kept;
      revoked := if leaseId < granted then revoked + {leaseId} else revoked;
    }
  }
}
