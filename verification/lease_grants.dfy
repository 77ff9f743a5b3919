/** What `permits` answers, read off the calls that granted and revoked. */
module LeaseGrants {
  import opened Clocks
  import opened Wrappers
  import opened Leases

  /** The call at `k` grants: its task is named and its duration is between a second and a day. */
  predicate Grants(ops: seq<Operation>, k: nat) {
    k < |ops| && ops[k].GrantLease? && ops[k].taskId != "" && 1 <= ops[k].seconds <= 86400
  }

  /** The identifier that the call at `k` gives its lease. */
  function IdOf(clock: Clock, ops: seq<Operation>, k: nat): nat
    requires k < |ops|
  {
    |After(clock, ops[..k]).log|
  }

  /** When the call at `k` reads the clock. */
  function GrantTime(clock: Clock, ops: seq<Operation>, k: nat): real
    requires k < |ops|
  {
    clock(After(clock, ops[..k]).readings)
  }

  /** The lease that the call at `k` adds: its own agent, permission and task, for its own number of seconds. */
  function LeaseOf(clock: Clock, ops: seq<Operation>, k: nat): Lease
    requires Grants(ops, k)
  {
    var t := GrantTime(clock, ops, k);
    Lease(IdOf(clock, ops, k), ops[k].agent, ops[k].permission, ops[k].taskId, t, t + ops[k].seconds as real)
  }

  lemma AfterLast(clock: Clock, ops: seq<Operation>)
    requires ops != []
    ensures After(clock, ops) == Apply(clock, After(clock, ops[..|ops| - 1]), ops[|ops| - 1])
  {
  }

  /** A call that grants adds its lease at the end of the log, and no other call adds any. */
  lemma StepLogs(clock: Clock, ops: seq<Operation>)
    requires ops != []
    ensures
      var k, before := |ops| - 1, After(clock, ops[..|ops| - 1]).log;
      After(clock, ops).log == if Grants(ops, k) then before + [LeaseOf(clock, ops, k)] else before
  {
    hide Apply, After;
    AfterLast(clock, ops);
    var k := |ops| - 1;
    ApplyLogs(clock, After(clock, ops[..k]), ops[k]);
    assert Grants(ops, k) <==> ops[k].GrantLease? && ops[k].taskId != "" && 1 <= ops[k].seconds <= 86400;
    hide Grants;
  }

  lemma ApplyLogs(clock: Clock, g: Registry, op: Operation)
    ensures Apply(clock, g, op).log ==
              if op.GrantLease? && op.taskId != "" && 1 <= op.seconds <= 86400 then
                var t := clock(g.readings);
                g.log + [Lease(|g.log|, op.agent, op.permission, op.taskId, t, t + op.seconds as real)]
              else g.log
  {
    hide PruneFrom, Search, Without;
  }

  /** Every lease of the log was added by a call that grants. */
  lemma {:induction false} EveryLeaseIsGranted(clock: Clock, ops: seq<Operation>, i: nat) returns (k: nat)
    requires i < |After(clock, ops).log|
    ensures Grants(ops, k) && IdOf(clock, ops, k) == i && After(clock, ops).log[i] == LeaseOf(clock, ops, k)
    decreases |ops|
  {
    hide After;
    assert ops != [] by {
      Nothing(clock, ops);
    }
    StepLogs(clock, ops);
    var before := ops[..|ops| - 1];
    if i < |After(clock, before).log| {
      k := EveryLeaseIsGranted(clock, before, i);
      assert before[..k] == ops[..k];
    } else {
      k := |ops| - 1;
    }
  }

  lemma Nothing(clock: Clock, ops: seq<Operation>)
    ensures ops == [] ==> After(clock, ops) == EMPTY
  {
  }

  /** And every call that grants adds one. */
  lemma {:induction false} EveryGrantIsLogged(clock: Clock, ops: seq<Operation>, k: nat)
    requires Grants(ops, k)
    ensures
      var g := After(clock, ops);
      IdOf(clock, ops, k) < |g.log| && g.log[IdOf(clock, ops, k)] == LeaseOf(clock, ops, k)
    decreases |ops|
  {
    hide After;
    StepLogs(clock, ops);
    if k < |ops| - 1 {
      var before := ops[..|ops| - 1];
      assert before[..k] == ops[..k];
      EveryGrantIsLogged(clock, before, k);
    }
  }

  /** A later call revokes the lease that the call at `k` granted. */
  ghost predicate RevokedAfter(clock: Clock, ops: seq<Operation>, k: nat)
    requires k < |ops|
  {
    exists j | k < j < |ops| :: ops[j] == RevokeLease(IdOf(clock, ops, k))
  }

  lemma StepRevokes(clock: Clock, ops: seq<Operation>)
    requires ops != []
    ensures
      var op, before := ops[|ops| - 1], After(clock, ops[..|ops| - 1]);
      After(clock, ops).revoked ==
        if op.RevokeLease? && op.leaseId < |before.log| then before.revoked + {op.leaseId} else before.revoked
  {
    hide PruneFrom, Search, Without;
    AfterLast(clock, ops);
  }

  lemma {:induction false} RevokedExactly(clock: Clock, ops: seq<Operation>, k: nat)
    requires NonDecreasing(clock) && Grants(ops, k)
    ensures IdOf(clock, ops, k) in After(clock, ops).revoked <==> RevokedAfter(clock, ops, k)
    decreases |ops|
  {
    hide After;
    var before, id := ops[..|ops| - 1], IdOf(clock, ops, k);
    StepRevokes(clock, ops);
    assert before[..k] == ops[..k];
    if k < |ops| - 1 {
      RevokedExactly(clock, before, k);
      EveryGrantIsLogged(clock, before, k);
      assert forall j | k < j < |before| :: before[j] == ops[j];
      if ops[|ops| - 1] == RevokeLease(id) {
        assert RevokedAfter(clock, ops, k);
      }
    } else {
      assert before == ops[..k];
      RevokedAreOld(clock, before);
    }
  }

  lemma RevokedAreOld(clock: Clock, ops: seq<Operation>)
    requires NonDecreasing(clock)
    ensures forall id | id in After(clock, ops).revoked :: id < |After(clock, ops).log|
  {
    RunsAgree(clock, ops);
  }

  /**
   The call at `k` granted this permission to this agent for this task, for a number of seconds that are not
   over at `now`, and nothing has revoked it since.
   */
  ghost predicate Stands(clock: Clock, ops: seq<Operation>, k: nat, agent: AgentId, permission: Permission,
                         taskId: string, now: real)
  {
    && Grants(ops, k)
    && ops[k].agent == agent && ops[k].permission == permission && ops[k].taskId == taskId
    && now < GrantTime(clock, ops, k) + ops[k].seconds as real
    && !RevokedAfter(clock, ops, k)
  }

  lemma PermittedExactly(clock: Clock, ops: seq<Operation>, agent: AgentId, permission: Permission,
                         taskId: Option<string>, now: real)
    requires NonDecreasing(clock)
    ensures Permitted(After(clock, ops), agent, permission, taskId, now)
            <==> taskId.Some? && exists k :: Stands(clock, ops, k, agent, permission, taskId.value, now)
  {
    hide After, RevokedAfter;
    var g := After(clock, ops);
    LogIsNumbered(clock, ops);
    if Permitted(g, agent, permission, taskId, now) {
      var l :| Live(g, l, now) && Matches(l, agent, permission, taskId);
      var i :| 0 <= i < |g.log| && g.log[i] == l;
      var k := EveryLeaseIsGranted(clock, ops, i);
      RevokedExactly(clock, ops, k);
      assert Stands(clock, ops, k, agent, permission, taskId.value, now);
    }
    if taskId.Some? && exists k :: Stands(clock, ops, k, agent, permission, taskId.value, now) {
      var k :| Stands(clock, ops, k, agent, permission, taskId.value, now);
      EveryGrantIsLogged(clock, ops, k);
      RevokedExactly(clock, ops, k);
      var l := LeaseOf(clock, ops, k);
      assert Live(g, l, now) && Matches(l, agent, permission, taskId);
    }
  }

  lemma LogIsNumbered(clock: Clock, ops: seq<Operation>)
    requires NonDecreasing(clock)
    ensures forall i | 0 <= i < |After(clock, ops).log| :: After(clock, ops).log[i].leaseId == i
  {
    RunsAgree(clock, ops);
  }

  /**
   After any interleaving of calls, `permits` says yes only if some call granted just this, for a time that is
   not over when `permits` begins, and was not revoked; and it does say yes if that time is not over when it ends.
   */
  lemma PermitsWhatWasGranted(clock: Clock, ops: seq<Operation>, agent: AgentId, permission: Permission,
                              taskId: Option<string>)
    requires NonDecreasing(clock)
    ensures
      var g := After(clock, ops);
      var (g', found) := Permits(clock, g, agent, permission, taskId);
      && (found ==>
            taskId.Some? && exists k :: Stands(clock, ops, k, agent, permission, taskId.value, clock(g.readings)))
      && (taskId.Some? && (exists k :: Stands(clock, ops, k, agent, permission, taskId.value, clock(g'.readings)))
          ==> found)
  {
    hide After, Stands, Permitted;
    var g := After(clock, ops);
    var (g', found) := Permits(clock, g, agent, permission, taskId);
    PermitsSearchesLog(clock, ops, agent, permission, taskId);
    PermittedExactly(clock, ops, agent, permission, taskId, clock(g.readings));
    PermittedExactly(clock, ops, agent, permission, taskId, clock(g'.readings));
  }
}
