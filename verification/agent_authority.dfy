/** What stands behind a tool invocation, how approvals are spent, and what revoking does not undo. */
module AgentAuthority {
  import opened Clocks
  import opened Wrappers
  import opened Ordering
  import opened AgentModel
  import opened AgentTheorems
  import Leases
  import Permissions

  // ---- Each permission behind an invocation --------------------------

  /** Held by the agent, or leased to it for its current task and unexpired at `now`. */
  ghost predicate AuthorityAt(m: Manager, id: AgentId, p: Permission, now: real)
    requires Known(m, id)
  {
    p in m.agents[id].permissions || Leases.Permitted(m.leases, id, p, m.agents[id].taskId, now)
  }

  /** Authority when the call begins. */
  ghost predicate HasAuthority(cfg: Config, m: Manager, id: AgentId, p: Permission)
    requires Known(m, id)
  {
    AuthorityAt(m, id, p, cfg.clock(m.leases.readings))
  }

  /** Later state of the same call: the clock was read, and nothing was granted, leased or revoked. */
  ghost predicate SameAuthority(m: Manager, m': Manager) {
    && m'.agents == m.agents && m'.leases.readings >= m.leases.readings
    && m'.leases.log == m.leases.log && m'.leases.revoked == m.leases.revoked
  }

  /** A permission is held only with authority at the beginning, and always with authority at the end. */
  lemma HoldsBracketed(cfg: Config, m: Manager, id: AgentId, p: Permission)
    requires Known(m, id) && NonDecreasing(cfg.clock) && Leases.Agrees(cfg.clock, m.leases)
    ensures
      var (m', held) := Holds(cfg, m, id, p);
      && Leases.Agrees(cfg.clock, m'.leases) && SameAuthority(m, m')
      && (held ==> HasAuthority(cfg, m, id, p))
      && (AuthorityAt(m, id, p, cfg.clock(m'.leases.readings)) ==> held)
  {
    hide Leases.Agrees;
    if p !in m.agents[id].permissions {
      Leases.PermitsAgrees(cfg.clock, m.leases, id, p, m.agents[id].taskId);
    }
  }

  /** Authority at a later time, or in a later state of the call, was there earlier. */
  lemma EarlierAuthority(m: Manager, m': Manager, id: AgentId, p: Permission, now: real, later: real)
    requires Known(m, id) && SameAuthority(m, m') && now <= later && AuthorityAt(m', id, p, later)
    ensures AuthorityAt(m, id, p, now)
  {
    if p !in m.agents[id].permissions {
      var l :| Leases.Live(m'.leases, l, later) && Leases.Matches(l, id, p, m.agents[id].taskId);
      assert Leases.Live(m.leases, l, now);
    }
  }

  /**
   What the policy lets through of one call: nothing denied, and what is in approval mode approved and
   asked for once.
   */
  predicate Admits(policy: Permissions.Policy, id: AgentId, required: seq<Permission>) {
    forall i | 0 <= i < |required| ::
      && Permissions.ModeOf(policy.modes, required[i]) != Permissions.Deny
      && (Permissions.ModeOf(policy.modes, required[i]) == Permissions.RequireApproval ==>
            (id, required[i]) in policy.approved && required[i] !in required[..i])
  }

  lemma AdmitsStep(policy: Permissions.Policy, id: AgentId, required: seq<Permission>)
    requires required != []
    ensures
      var (policy', verdict) := Permissions.Check(policy, id, required[0]);
      Admits(policy, id, required) <==> verdict == Permissions.Passed && Admits(policy', id, required[1..])
  {
    var p, rest := required[0], required[1..];
    var policy' := Permissions.Check(policy, id, p).0;
    assert required[..0] == [];
    assert forall i | 0 <= i < |rest| ::
        rest[i] == required[i + 1] && (rest[i] in required[..i + 1] <==> rest[i] == p || rest[i] in rest[..i]) by {
      forall i | 0 <= i < |rest|
        ensures rest[i] == required[i + 1] && (rest[i] in required[..i + 1] <==> rest[i] == p || rest[i] in rest[..i])
      {
        assert required[..i + 1] == [p] + rest[..i];
      }
    }
    if Admits(policy, id, required) {
      assert Permissions.Check(policy, id, p).1 == Permissions.Passed;
      forall i | 0 <= i < |rest|
        ensures Permissions.ModeOf(policy'.modes, rest[i]) != Permissions.Deny
        ensures Permissions.ModeOf(policy'.modes, rest[i]) == Permissions.RequireApproval ==>
                  (id, rest[i]) in policy'.approved && rest[i] !in rest[..i]
      {
        assert required[i + 1] == rest[i];
      }
    }
    if Permissions.Check(policy, id, p).1 == Permissions.Passed && Admits(policy', id, rest) {
      forall i | 0 <= i < |required|
        ensures Permissions.ModeOf(policy.modes, required[i]) != Permissions.Deny
        ensures Permissions.ModeOf(policy.modes, required[i]) == Permissions.RequireApproval ==>
                  (id, required[i]) in policy.approved && required[i] !in required[..i]
      {
        assert i > 0 ==> required[i] == rest[i - 1];
      }
    }
  }

  /**
   The permission loop passes only if the policy admits the call and every permission has authority
   when it begins, and always if the policy admits it and every permission has authority when it ends.
   */
  lemma {:induction false} AuthorizeBracketed(cfg: Config, m: Manager, id: AgentId, required: seq<Permission>)
    requires Known(m, id) && NonDecreasing(cfg.clock) && Leases.Agrees(cfg.clock, m.leases)
    ensures
      var (m', refusal) := Authorize(cfg, m, id, required);
      && Leases.Agrees(cfg.clock, m'.leases) && SameAuthority(m, m')
      && (refusal.None? ==>
            Admits(m.policy, id, required) && forall p | p in required :: HasAuthority(cfg, m, id, p))
      && (Admits(m.policy, id, required)
          && (forall p | p in required :: AuthorityAt(m, id, p, cfg.clock(m'.leases.readings)))
          ==> refusal.None?)
    decreases |required|
  {
    hide Holds, AuthorityAt, Leases.Agrees, Admits;
    if required == [] {
      assert Admits(m.policy, id, required) by {
        NothingAsked(m.policy, id);
      }
    } else {
      HoldsBracketed(cfg, m, id, required[0]);
      AdmitsStep(m.policy, id, required);
      var (m1, held) := Holds(cfg, m, id, required[0]);
      var (policy, verdict) := Permissions.Check(m1.policy, id, required[0]);
      var m2 := m1.(policy := policy);
      if held && verdict == Permissions.Passed {
        AuthorizeBracketed(cfg, m2, id, required[1..]);
        forall p | p in required[1..]
          ensures HasAuthority(cfg, m2, id, p) ==> HasAuthority(cfg, m, id, p)
          ensures forall t :: AuthorityAt(m, id, p, t) <==> AuthorityAt(m2, id, p, t)
        {
          LaterAuthority(cfg, m, m2, id, p);
        }
        assert required == [required[0]] + required[1..];
      }
    }
  }

  lemma LaterAuthority(cfg: Config, m: Manager, m': Manager, id: AgentId, p: Permission)
    requires Known(m, id) && NonDecreasing(cfg.clock) && SameAuthority(m, m')
    ensures HasAuthority(cfg, m', id, p) ==> HasAuthority(cfg, m, id, p)
    ensures forall t :: AuthorityAt(m, id, p, t) <==> AuthorityAt(m', id, p, t)
  {
    forall t ensures AuthorityAt(m, id, p, t) <==> AuthorityAt(m', id, p, t) {
      if AuthorityAt(m, id, p, t) && p !in m.agents[id].permissions {
        var l :| Leases.Live(m.leases, l, t) && Leases.Matches(l, id, p, m.agents[id].taskId);
        assert Leases.Live(m'.leases, l, t);
      }
      if AuthorityAt(m', id, p, t) {
        EarlierAuthority(m, m', id, p, t, t);
      }
    }
    if HasAuthority(cfg, m', id, p) {
      EarlierAuthority(m, m', id, p, cfg.clock(m.leases.readings), cfg.clock(m'.leases.readings));
    }
  }

  lemma NothingAsked(policy: Permissions.Policy, id: AgentId)
    ensures Admits(policy, id, [])
  {
  }

  lemma {:induction false} RunsAgree(cfg: Config, modes: map<Permission, Permissions.Mode>, ops: seq<Operation>)
    requires NonDecreasing(cfg.clock)
    ensures Leases.Agrees(cfg.clock, After(cfg, modes, ops).leases)
    decreases |ops|
  {
    hide Leases.Agrees;
    if ops == [] {
      Leases.InitiallyAgrees(cfg.clock);
    } else {
      RunsAgree(cfg, modes, ops[..|ops| - 1]);
      StepAgrees(cfg, After(cfg, modes, ops[..|ops| - 1]), ops[|ops| - 1]);
    }
  }

  lemma StepAgrees(cfg: Config, m: Manager, op: Operation)
    requires NonDecreasing(cfg.clock) && Leases.Agrees(cfg.clock, m.leases)
    ensures Leases.Agrees(cfg.clock, Apply(cfg, m, op).0.leases)
  {
    hide Leases.Agrees, Authorize, Leases.Grant, Leases.Prune, Leases.Revoke, ToolRefusal;
    if op.LeasePermission? {
      Leases.GrantAgrees(cfg.clock, m.leases, op.agent, op.permission, op.task, op.seconds);
    } else if op.RevokeLease? {
      Leases.RevokeAgrees(cfg.clock, m.leases, op.leaseId);
    } else if op.ListLeases? {
      Leases.PruneAgrees(cfg.clock, m.leases);
    } else if op.ExecuteTool? && Known(m, op.agent) && op.tool in cfg.tools {
      AuthorizeBracketed(cfg, m, op.agent, cfg.tools[op.tool]);
    }
  }

  /** The agent is running and was granted the registered tool, and the policy admits what the tool needs. */
  predicate MayExecute(cfg: Config, m: Manager, id: AgentId, tool: ToolId) {
    && Known(m, id) && m.agents[id].status == Running && tool in m.agents[id].tools
    && tool in cfg.tools && Admits(m.policy, id, cfg.tools[tool])
  }

  /**
   A tool runs only for an agent that may execute it and has authority for each required permission when
   the call begins; and it does run if the agent still has that authority when the call ends.
   */
  lemma ExecuteBracketed(cfg: Config, m: Manager, id: AgentId, tool: ToolId)
    requires NonDecreasing(cfg.clock) && Leases.Agrees(cfg.clock, m.leases)
    ensures
      var (m', refusal) := Execute(cfg, m, id, tool);
      && (refusal.None? ==>
            MayExecute(cfg, m, id, tool) && forall p | p in cfg.tools[tool] :: HasAuthority(cfg, m, id, p))
      && (MayExecute(cfg, m, id, tool)
          && (forall p | p in cfg.tools[tool] :: AuthorityAt(m, id, p, cfg.clock(m'.leases.readings)))
          ==> refusal.None?)
  {
    hide Authorize, AuthorityAt, Leases.Agrees, Admits;
    if Known(m, id) && m.agents[id].status == Running && tool in m.agents[id].tools && tool in cfg.tools {
      AuthorizeBracketed(cfg, m, id, cfg.tools[tool]);
      assert Execute(cfg, m, id, tool).1 == Authorize(cfg, m, id, cfg.tools[tool]).1;
    }
  }

  /**
   After any run, a tool runs only for a running agent that was granted it, and only if the policy admits
   the call and each required permission is held by the agent or leased to it, for its current task, by a
   grant of the full log that is neither revoked nor expired; and then it does run, unless a lease expires
   before the call ends.
   */
  lemma InvocationsAreAuthorized(cfg: Config, modes: map<Permission, Permissions.Mode>, ops: seq<Operation>,
                                 id: AgentId, tool: ToolId)
    requires NonDecreasing(cfg.clock)
    ensures
      var m := After(cfg, modes, ops);
      var (m', refusal) := Execute(cfg, m, id, tool);
      && (refusal.None? ==>
            MayExecute(cfg, m, id, tool) && forall p | p in cfg.tools[tool] :: HasAuthority(cfg, m, id, p))
      && (MayExecute(cfg, m, id, tool)
          && (forall p | p in cfg.tools[tool] :: AuthorityAt(m, id, p, cfg.clock(m'.leases.readings)))
          ==> refusal.None?)
  {
    hide Execute, HasAuthority, AuthorityAt, MayExecute, Leases.Agrees;
    RunsAgree(cfg, modes, ops);
    ExecuteBracketed(cfg, After(cfg, modes, ops), id, tool);
  }

  // ---- Approvals are spent -------------------------------------------

  function Approvals(ops: seq<Operation>, id: AgentId, p: Permission): nat {
    if ops == [] then 0
    else Approvals(ops[..|ops| - 1], id, p) + (if ops[|ops| - 1] == ApproveOnce(id, p) then 1 else 0)
  }

  predicate Needs(cfg: Config, tool: ToolId, p: Permission) {
    tool in cfg.tools && p in cfg.tools[tool]
  }

  function Invocations(cfg: Config, log: seq<Invocation>, id: AgentId, p: Permission): nat {
    if log == [] then 0
    else
      var last := log[|log| - 1];
      Invocations(cfg, log[..|log| - 1], id, p) + (if last.agent == id && Needs(cfg, last.tool, p) then 1 else 0)
  }

  function Open(m: Manager, id: AgentId, p: Permission): nat {
    if (id, p) in m.policy.approved then 1 else 0
  }

  lemma {:induction false} AuthorizeSpends(cfg: Config, m: Manager, agent: AgentId, required: seq<Permission>,
                                           id: AgentId, p: Permission)
    requires Known(m, agent) && Permissions.ModeOf(m.policy.modes, p) == Permissions.RequireApproval
    ensures
      var (m', refusal) := Authorize(cfg, m, agent, required);
      && m'.policy.modes == m.policy.modes && m'.invocations == m.invocations
      && Open(m', id, p) <= Open(m, id, p)
      && (refusal.None? && agent == id && p in required ==> Open(m, id, p) == 1 && Open(m', id, p) == 0)
    decreases |required|
  {
    hide Leases.Permits;
    if required != [] {
      var (m1, held) := Holds(cfg, m, agent, required[0]);
      var (policy, verdict) := Permissions.Check(m1.policy, agent, required[0]);
      if held && verdict == Permissions.Passed {
        AuthorizeSpends(cfg, m1.(policy := policy), agent, required[1..], id, p);
      }
    }
  }

  lemma ExecuteSpends(cfg: Config, m: Manager, agent: AgentId, tool: ToolId, id: AgentId, p: Permission)
    requires Permissions.ModeOf(m.policy.modes, p) == Permissions.RequireApproval
    ensures
      var m' := Execute(cfg, m, agent, tool).0;
      && m'.policy.modes == m.policy.modes
      && Invocations(cfg, m'.invocations, id, p) + Open(m', id, p)
         <= Invocations(cfg, m.invocations, id, p) + Open(m, id, p)
  {
    hide Authorize, Open;
    if Known(m, agent) && tool in cfg.tools {
      AuthorizeSpends(cfg, m, agent, cfg.tools[tool], id, p);
      var (m1, refusal) := Authorize(cfg, m, agent, cfg.tools[tool]);
      var log := m.invocations + [Invocation(agent, tool)];
      assert log[..|log| - 1] == m.invocations;
      SameOpen(m1, m1.(invocations := log), id, p);
    }
  }

  lemma SameOpen(m: Manager, m': Manager, id: AgentId, p: Permission)
    requires m'.policy == m.policy
    ensures Open(m', id, p) == Open(m, id, p)
  {
  }

  lemma StepSpends(cfg: Config, m: Manager, op: Operation, id: AgentId, p: Permission)
    requires Permissions.ModeOf(m.policy.modes, p) == Permissions.RequireApproval
    ensures
      var m' := Apply(cfg, m, op).0;
      && m'.policy.modes == m.policy.modes
      && Invocations(cfg, m'.invocations, id, p) + Open(m', id, p)
         <= Invocations(cfg, m.invocations, id, p) + Open(m, id, p) + (if op == ApproveOnce(id, p) then 1 else 0)
  {
    if op.ExecuteTool? {
      hide Execute, Invocations, Open;
      ExecuteSpends(cfg, m, op.agent, op.tool, id, p);
    } else if op.ApproveOnce? {
      hide Invocations;
    } else {
      OthersSpendNothing(cfg, m, op);
      hide Apply, Invocations, Open;
      SameOpen(m, Apply(cfg, m, op).0, id, p);
    }
  }

  lemma OthersSpendNothing(cfg: Config, m: Manager, op: Operation)
    requires !op.ExecuteTool? && !op.ApproveOnce?
    ensures Apply(cfg, m, op).0.policy == m.policy && Apply(cfg, m, op).0.invocations == m.invocations
  {
    hide Leases.Grant, Leases.Prune, Leases.Revoke, ToolRefusal, Ownership;
  }

  /**
   Over every run, the invocations by an agent of tools that need a permission in approval mode,
   and an approval still open, never outnumber the approvals given to that agent for it.
   */
  lemma {:induction false} InvocationsWithinApprovals(cfg: Config, modes: map<Permission, Permissions.Mode>,
                                                      ops: seq<Operation>, id: AgentId, p: Permission)
    requires Permissions.ModeOf(modes, p) == Permissions.RequireApproval
    ensures
      var m := After(cfg, modes, ops);
      && m.policy.modes == modes
      && Invocations(cfg, m.invocations, id, p) + Open(m, id, p) <= Approvals(ops, id, p)
    decreases |ops|
  {
    hide Apply, Invocations, Open;
    if ops == [] {
      NothingInvoked(cfg, modes, id, p);
    } else {
      InvocationsWithinApprovals(cfg, modes, ops[..|ops| - 1], id, p);
      StepSpends(cfg, After(cfg, modes, ops[..|ops| - 1]), ops[|ops| - 1], id, p);
    }
  }

  lemma NothingInvoked(cfg: Config, modes: map<Permission, Permissions.Mode>, id: AgentId, p: Permission)
    ensures Invocations(cfg, Initial(modes).invocations, id, p) + Open(Initial(modes), id, p) == 0
  {
  }

  // ---- Revocation does not cascade -----------------------------------

  /** Every agent holds no more than its own parent. */
  ghost predicate Hierarchical(agents: seq<Agent>) {
    forall i | 0 <= i < |agents| && agents[i].parent.Some? && agents[i].parent.value < |agents| ::
      agents[i].permissions <= agents[agents[i].parent.value].permissions
  }

  /** The revocation takes from an agent what it has already passed on. */
  ghost predicate StrandsGrandchild(m: Manager, op: Operation) {
    && op.RevokePermission?
    && Ownership(m, op.parent, op.agent).None?
    && exists c | 0 <= c < |m.agents| ::
        m.agents[c].parent == Some(op.agent) && op.permission in m.agents[c].permissions
  }

  lemma RevokeKeepsHierarchyExactly(cfg: Config, m: Manager, op: Operation)
    requires Structured(m.agents) && Hierarchical(m.agents) && op.RevokePermission?
    ensures Hierarchical(Apply(cfg, m, op).0.agents) <==> !StrandsGrandchild(m, op)
  {
    if Ownership(m, op.parent, op.agent).None? {
      var after := Apply(cfg, m, op).0.agents;
      forall c | 0 <= c < |after| && after[c].parent.Some? && c != op.agent
        ensures after[c].permissions <= after[after[c].parent.value].permissions
                <==> !(m.agents[c].parent == Some(op.agent) && op.permission in m.agents[c].permissions)
      {
        assert m.agents[c].permissions <= m.agents[m.agents[c].parent.value].permissions;
      }
    }
  }

  lemma PutKeepsHierarchy(agents: seq<Agent>, id: AgentId, a: Agent)
    requires Rooted(agents) && Hierarchical(agents) && id < |agents|
    requires a.parent == agents[id].parent && agents[id].permissions <= a.permissions
    requires a.parent.Some? ==> a.permissions <= agents[a.parent.value].permissions + agents[id].permissions
    ensures Hierarchical(agents[id := a])
  {
    var b := agents[id := a];
    forall i | 0 <= i < |b| && b[i].parent.Some? ensures b[i].permissions <= b[b[i].parent.value].permissions {
      assert agents[i].permissions <= agents[agents[i].parent.value].permissions;
    }
  }

  lemma CreateKeepsHierarchy(cfg: Config, m: Manager, op: Operation)
    requires Structured(m.agents) && Hierarchical(m.agents) && (op.CreateRoot? || op.CreateAgent?)
    ensures Hierarchical(Create(cfg, m, op).0.agents)
  {
    hide ToolRefusal, Linked;
    var after := Create(cfg, m, op).0.agents;
    forall i | 0 <= i < |after| && after[i].parent.Some?
      ensures after[i].parent.value < |after| ==> after[i].permissions <= after[after[i].parent.value].permissions
    {
      if i < |m.agents| {
        assert m.agents[i].permissions <= m.agents[m.agents[i].parent.value].permissions;
      }
    }
  }

  /**
   Every operation keeps each agent within its own parent's permissions, except a revocation from an
   agent that has passed the permission on: that one never does.
   */
  lemma HierarchyKeptExactly(cfg: Config, m: Manager, op: Operation)
    requires Structured(m.agents) && Contained(cfg, m) && Hierarchical(m.agents)
    ensures Hierarchical(Apply(cfg, m, op).0.agents) <==> !StrandsGrandchild(m, op)
  {
    hide Hierarchical, Linked, Contained, Authorize, Leases.Grant, Leases.Prune, Leases.Revoke, ToolRefusal;
    var after := Apply(cfg, m, op).0.agents;
    if op.RevokePermission? {
      RevokeKeepsHierarchyExactly(cfg, m, op);
    } else if op.ExecuteTool? {
      ExecuteKeeps(cfg, m, op.agent, op.tool);
    } else if op.CreateRoot? || op.CreateAgent? {
      CreateKeepsHierarchy(cfg, m, op);
    } else {
      OthersKeepHierarchy(cfg, m, op);
    }
  }

  lemma OthersKeepHierarchy(cfg: Config, m: Manager, op: Operation)
    requires Structured(m.agents) && Hierarchical(m.agents)
    requires !op.RevokePermission? && !op.ExecuteTool? && !op.CreateRoot? && !op.CreateAgent?
    ensures Hierarchical(Apply(cfg, m, op).0.agents)
  {
    hide Hierarchical, Linked, Leases.Grant, Leases.Prune, Leases.Revoke;
    var after := Apply(cfg, m, op).0.agents;
    if after != m.agents {
      PutKeepsHierarchy(m.agents, op.agent, after[op.agent]);
      assert after == m.agents[op.agent := after[op.agent]];
    }
  }

  lemma AfterOneMore(cfg: Config, modes: map<Permission, Permissions.Mode>, ops: seq<Operation>, op: Operation)
    ensures After(cfg, modes, ops + [op]) == Apply(cfg, After(cfg, modes, ops), op).0
  {
    assert (ops + [op])[..|ops|] == ops;
  }

  lemma TwoGenerations(cfg: Config, modes: map<Permission, Permissions.Mode>, p: Permission)
    ensures
      var agents := After(cfg, modes, [CreateRoot({p}), CreateAgent(0, {p}, [], None)]).agents;
      |agents| == 2 && agents[1].permissions == {p} && agents[1].parent == Some(0)
  {
    var a, b := CreateRoot({p}), CreateAgent(0, {p}, [], None);
    AfterOneMore(cfg, modes, [], a);
    AfterOneMore(cfg, modes, [a], b);
    assert [] + [a] == [a] && [a] + [b] == [a, b];
    assert After(cfg, modes, [a]).agents == [Agent(None, {p}, {}, None, Ready, [], 0)];
  }

  lemma ThreeGenerations(cfg: Config, modes: map<Permission, Permissions.Mode>, p: Permission)
    ensures
      var ops := [CreateRoot({p}), CreateAgent(0, {p}, [], None), CreateAgent(1, {p}, [], None)];
      var agents := After(cfg, modes, ops).agents;
      && |agents| == 3 && agents[1].parent == Some(0)
      && agents[2].permissions == {p} && agents[2].parent == Some(1)
  {
    hide After;
    var a, b, c := CreateRoot({p}), CreateAgent(0, {p}, [], None), CreateAgent(1, {p}, [], None);
    TwoGenerations(cfg, modes, p);
    AfterOneMore(cfg, modes, [a, b], c);
    assert [a, b] + [c] == [a, b, c];
  }

  /** Root, child and grandchild with one permission: revoking it from the child leaves it to the grandchild. */
  lemma RevocationLeavesGrandchild(cfg: Config, modes: map<Permission, Permissions.Mode>, p: Permission)
    ensures
      var ops := [CreateRoot({p}), CreateAgent(0, {p}, [], None), CreateAgent(1, {p}, [], None),
                  RevokePermission(0, 1, p)];
      var m := After(cfg, modes, ops);
      |m.agents| == 3 && p !in m.agents[1].permissions && p in m.agents[2].permissions && m.agents[2].parent == Some(1)
  {
    hide After;
    var a, b, c := CreateRoot({p}), CreateAgent(0, {p}, [], None), CreateAgent(1, {p}, [], None);
    var d := RevokePermission(0, 1, p);
    ThreeGenerations(cfg, modes, p);
    AfterOneMore(cfg, modes, [a, b, c], d);
    assert [a, b, c] + [d] == [a, b, c, d];
  }
}
