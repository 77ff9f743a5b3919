/** What every run of manager operations keeps: one root, a tree, and authority that never exceeds the root's. */
module AgentTheorems {
  import opened Clocks
  import opened Wrappers
  import opened Ordering
  import opened AgentModel
  import Leases
  import Permissions

  // ---- The shape of the hierarchy ------------------------------------

  ghost predicate Ascending(ids: seq<AgentId>) {
    forall i, j | 0 <= i < j < |ids| :: ids[i] < ids[j]
  }

  predicate IsChild(agents: seq<Agent>, parent: AgentId, child: AgentId) {
    child < |agents| && agents[child].parent == Some(parent)
  }

  /** The root is the first agent, and every other agent hangs below an older one. */
  ghost predicate Rooted(agents: seq<Agent>) {
    forall i: nat | i < |agents| ::
      if i == 0 then agents[i].parent == None else agents[i].parent.Some? && agents[i].parent.value < i
  }

  /** Every agent lists its children, each once. */
  ghost predicate Linked(agents: seq<Agent>) {
    forall i: nat | i < |agents| ::
      Ascending(agents[i].children) && forall j: nat :: j in agents[i].children <==> IsChild(agents, i, j)
  }

  ghost predicate Structured(agents: seq<Agent>) {
    Rooted(agents) && Linked(agents)
  }

  /** Nothing that the shape depends on has changed. */
  ghost predicate SameShape(a: seq<Agent>, b: seq<Agent>) {
    |a| == |b| && forall i | 0 <= i < |a| :: a[i].parent == b[i].parent && a[i].children == b[i].children
  }

  lemma SameShapeStructured(a: seq<Agent>, b: seq<Agent>)
    requires Structured(a) && SameShape(a, b)
    ensures Structured(b)
  {
    forall i: nat, j: nat | i < |b| ensures j in b[i].children <==> IsChild(b, i, j) {
      assert j in a[i].children <==> IsChild(a, i, j);
    }
  }

  // ---- Authority -----------------------------------------------------

  function RootPermissions(m: Manager): set<Permission> {
    if m.agents == [] then {} else m.agents[0].permissions
  }

  ghost predicate AgentsWithin(agents: seq<Agent>, root: set<Permission>) {
    forall i | 0 <= i < |agents| :: agents[i].permissions <= root
  }

  /** Every lease ever granted, and hence every one still held, delegates something that the root has. */
  ghost predicate LeasesWithin(g: Leases.Registry, root: set<Permission>) {
    && (forall l | l in g.log :: l.permission in root)
    && (forall l | l in g.leases :: l in g.log)
  }

  ghost predicate InvocationsWithin(cfg: Config, invocations: seq<Invocation>, root: set<Permission>) {
    forall inv | inv in invocations :: inv.tool in cfg.tools && forall p | p in cfg.tools[inv.tool] :: p in root
  }

  /** Every permission held, leased, or used to invoke a tool is one of the root's. */
  ghost predicate Contained(cfg: Config, m: Manager) {
    && AgentsWithin(m.agents, RootPermissions(m))
    && LeasesWithin(m.leases, RootPermissions(m))
    && InvocationsWithin(cfg, m.invocations, RootPermissions(m))
  }

  // ---- Leases and approvals during authorization ---------------------

  lemma {:induction false} PruneSubset(clock: Clock, leases: seq<Leases.Lease>, readings: nat)
    ensures forall l | l in Leases.PruneFrom(clock, leases, readings) :: l in leases
    decreases |leases|
  {
    if leases != [] {
      PruneSubset(clock, leases[1..], readings + 1);
    }
  }

  lemma {:induction false} SearchSound(clock: Clock, leases: seq<Leases.Lease>, readings: nat, id: AgentId,
                                       p: Permission, task: Option<string>)
    ensures Leases.Search(clock, leases, readings, id, p, task).0 ==> exists l | l in leases :: l.permission == p
    decreases |leases|
  {
    if leases != [] {
      SearchSound(clock, leases[1..], readings, id, p, task);
      SearchSound(clock, leases[1..], readings + 1, id, p, task);
      assert leases[0] in leases;
    }
  }

  lemma HoldsWithin(cfg: Config, m: Manager, id: AgentId, p: Permission, root: set<Permission>)
    requires Known(m, id) && m.agents[id].permissions <= root && LeasesWithin(m.leases, root)
    ensures
      var (m', held) := Holds(cfg, m, id, p);
      LeasesWithin(m'.leases, root) && (held ==> p in root)
  {
    if p !in m.agents[id].permissions {
      var pruned := Leases.Prune(cfg.clock, m.leases);
      PruneSubset(cfg.clock, m.leases.leases, m.leases.readings);
      SearchSound(cfg.clock, pruned.leases, pruned.readings, id, p, m.agents[id].taskId);
    }
  }

  /** Authorization touches leases and approvals only, and succeeds only within the root's authority. */
  lemma {:induction false} AuthorizeWithin(cfg: Config, m: Manager, id: AgentId, required: seq<Permission>,
                                           root: set<Permission>)
    requires Known(m, id) && m.agents[id].permissions <= root && LeasesWithin(m.leases, root)
    ensures
      var (m', refusal) := Authorize(cfg, m, id, required);
      && m' == m.(leases := m'.leases, policy := m'.policy)
      && LeasesWithin(m'.leases, root)
      && (refusal.None? ==> forall p | p in required :: p in root)
    decreases |required|
  {
    hide Holds, LeasesWithin;
    if required != [] {
      var (m1, held) := Holds(cfg, m, id, required[0]);
      HoldsWithin(cfg, m, id, required[0], root);
      var (policy, verdict) := Permissions.Check(m1.policy, id, required[0]);
      if held && verdict == Permissions.Passed {
        AuthorizeWithin(cfg, m1.(policy := policy), id, required[1..], root);
      }
    }
  }

  // ---- One operation -------------------------------------------------

  /** The root, once there is one, keeps its permissions, and agents are never removed. */
  ghost predicate RootKept(m: Manager, m': Manager) {
    |m'.agents| >= |m.agents| && (m.agents != [] ==> RootPermissions(m') == RootPermissions(m))
  }

  lemma CreateKeeps(cfg: Config, m: Manager, op: Operation)
    requires op.CreateRoot? || op.CreateAgent?
    requires Structured(m.agents) && Contained(cfg, m)
    ensures
      var m' := Create(cfg, m, op).0;
      Structured(m'.agents) && Contained(cfg, m') && RootKept(m, m')
  {
    hide ToolRefusal;
    var (m', refusal) := Create(cfg, m, op);
    if refusal.None? {
      if op.CreateRoot? {
        RootIsFirst(m);
        NothingBeforeRoot(cfg, m);
      } else {
        CreateStructured(m.agents, m'.agents, op.parent);
      }
    }
  }

  lemma RootIsFirst(m: Manager)
    requires Structured(m.agents)
    ensures HasRoot(m) <==> m.agents != []
  {
    if m.agents != [] {
      assert m.agents[0].parent == None;
    }
  }

  lemma NothingBeforeRoot(cfg: Config, m: Manager)
    requires Contained(cfg, m) && m.agents == []
    ensures forall root :: LeasesWithin(m.leases, root)
    ensures forall root | InvocationsWithin(cfg, m.invocations, {}) :: InvocationsWithin(cfg, m.invocations, root)
  {
  }

  lemma CreateStructured(a: seq<Agent>, b: seq<Agent>, parent: AgentId)
    requires Structured(a) && parent < |a| && |b| == |a| + 1
    requires b[|a|].parent == Some(parent) && b[|a|].children == []
    requires b[parent] == a[parent].(children := a[parent].children + [|a|])
    requires forall i | 0 <= i < |a| && i != parent :: b[i] == a[i]
    ensures Structured(b)
  {
    assert Rooted(b);
    forall i: nat | i < |b|
      ensures Ascending(b[i].children) && forall j: nat :: j in b[i].children <==> IsChild(b, i, j)
    {
      if i < |a| {
        OlderAgentLinked(a, b, parent, i);
      } else {
        assert forall j: nat | IsChild(b, i, j) :: j in b[i].children;
      }
    }
  }

  lemma OlderAgentLinked(a: seq<Agent>, b: seq<Agent>, parent: AgentId, i: nat)
    requires Linked(a) && parent < |a| && |b| == |a| + 1 && i < |a|
    requires b[|a|].parent == Some(parent)
    requires b[parent] == a[parent].(children := a[parent].children + [|a|])
    requires forall i | 0 <= i < |a| && i != parent :: b[i] == a[i]
    ensures Ascending(b[i].children) && forall j: nat :: j in b[i].children <==> IsChild(b, i, j)
  {
    forall k | 0 <= k < |a[i].children| ensures a[i].children[k] < |a| {
      assert a[i].children[k] in a[i].children;
    }
    forall j: nat ensures j in b[i].children <==> IsChild(b, i, j) {
      assert j in a[i].children <==> IsChild(a, i, j);
    }
  }

  /** Changing one agent within its parent's place and the root's authority. */
  lemma PutKeeps(cfg: Config, m: Manager, id: AgentId, a: Agent)
    requires Contained(cfg, m) && Known(m, id)
    requires a.parent == m.agents[id].parent && a.children == m.agents[id].children
    requires if id == 0 then a.permissions == RootPermissions(m) else a.permissions <= RootPermissions(m)
    ensures
      var m' := Put(m, id, a);
      SameShape(m.agents, m'.agents) && Contained(cfg, m') && RootKept(m, m')
  {
    hide LeasesWithin, InvocationsWithin;
  }

  lemma DelegateKeeps(cfg: Config, m: Manager, op: Operation)
    requires op.GrantPermission? || op.RevokePermission? || op.LeasePermission? || op.GrantTool? || op.AssignTask?
    requires Structured(m.agents) && Contained(cfg, m)
    ensures
      var m' := Delegate(cfg, m, op).0;
      SameShape(m.agents, m'.agents) && Contained(cfg, m') && RootKept(m, m')
  {
    hide InvocationsWithin, AgentsWithin;
    var m' := Delegate(cfg, m, op).0;
    if Ownership(m, op.parent, op.agent).None? && !op.LeasePermission? {
      MembersWithin(cfg, m, op.parent, op.agent);
      PutKeeps(cfg, m, op.agent, m'.agents[op.agent]);
      assert m'.agents == Put(m, op.agent, m'.agents[op.agent]).agents;
    } else if Ownership(m, op.parent, op.agent).None? {
      MembersWithin(cfg, m, op.parent, op.agent);
    }
  }

  lemma ControlKeeps(cfg: Config, m: Manager, op: Operation)
    requires op.StartAgent? || op.RetryAgent? || op.PauseAgent? || op.ResumeAgent? || op.TerminateAgent?
    requires Structured(m.agents) && Contained(cfg, m)
    ensures
      var m' := Control(cfg, m, op).0;
      SameShape(m.agents, m'.agents) && Contained(cfg, m') && RootKept(m, m')
  {
    hide InvocationsWithin, LeasesWithin, AgentsWithin;
    var m' := Control(cfg, m, op).0;
    if Ownership(m, op.parent, op.agent).None? {
      MembersWithin(cfg, m, op.parent, op.agent);
      PutKeeps(cfg, m, op.agent, m'.agents[op.agent]);
      assert m'.agents == Put(m, op.agent, m'.agents[op.agent]).agents;
    }
  }

  lemma MembersWithin(cfg: Config, m: Manager, parent: AgentId, child: AgentId)
    requires Structured(m.agents) && Contained(cfg, m) && Ownership(m, parent, child).None?
    ensures child != 0
    ensures m.agents[parent].permissions <= RootPermissions(m) && m.agents[child].permissions <= RootPermissions(m)
  {
    assert m.agents[0].parent == None;
  }

  lemma ExecuteKeeps(cfg: Config, m: Manager, id: AgentId, tool: ToolId)
    requires Contained(cfg, m)
    ensures
      var m' := Execute(cfg, m, id, tool).0;
      m'.agents == m.agents && Contained(cfg, m')
  {
    hide Authorize, LeasesWithin;
    var root := RootPermissions(m);
    if Known(m, id) && tool in cfg.tools {
      AuthorizeWithin(cfg, m, id, cfg.tools[tool], root);
      var (m1, refusal) := Authorize(cfg, m, id, cfg.tools[tool]);
      assert Contained(cfg, m1);
      if refusal.None? {
        assert InvocationsWithin(cfg, m1.invocations + [Invocation(id, tool)], root);
      }
    }
  }

  lemma {:induction false} WithoutSubset(leases: seq<Leases.Lease>, leaseId: nat)
    ensures forall l | l in Leases.Without(leases, leaseId) :: l in leases
  {
    if leases != [] {
      WithoutSubset(leases[1..], leaseId);
    }
  }

  lemma MemberWithin(cfg: Config, m: Manager, id: AgentId)
    requires Contained(cfg, m) && Known(m, id)
    ensures if id == 0 then m.agents[id].permissions == RootPermissions(m)
            else m.agents[id].permissions <= RootPermissions(m)
  {
  }

  lemma RestKeeps(cfg: Config, m: Manager, op: Operation)
    requires op.EndAgent? || op.ApproveOnce? || op.RevokeLease? || op.ListLeases?
    requires Contained(cfg, m)
    ensures
      var m' := Apply(cfg, m, op).0;
      SameShape(m.agents, m'.agents) && Contained(cfg, m') && RootKept(m, m')
  {
    hide InvocationsWithin, AgentsWithin;
    PruneSubset(cfg.clock, m.leases.leases, m.leases.readings);
    if op.RevokeLease? {
      WithoutSubset(m.leases.leases, op.leaseId);
    } else if op.EndAgent? && Known(m, op.agent) {
      MemberWithin(cfg, m, op.agent);
      PutKeeps(cfg, m, op.agent, End(m, op.agent, op.outcome).agents[op.agent]);
    }
  }

  lemma ApplyKeeps(cfg: Config, m: Manager, op: Operation)
    requires Structured(m.agents) && Contained(cfg, m)
    ensures
      var m' := Apply(cfg, m, op).0;
      Structured(m'.agents) && Contained(cfg, m') && RootKept(m, m')
  {
    hide Structured, Contained, Create, Delegate, Control, Execute;
    var m' := Apply(cfg, m, op).0;
    if op.CreateRoot? || op.CreateAgent? {
      CreateKeeps(cfg, m, op);
    } else {
      if op.ExecuteTool? {
        ExecuteKeeps(cfg, m, op.agent, op.tool);
      } else if op.EndAgent? || op.ApproveOnce? || op.RevokeLease? || op.ListLeases? {
        RestKeeps(cfg, m, op);
      } else if op.StartAgent? || op.RetryAgent? || op.PauseAgent? || op.ResumeAgent? || op.TerminateAgent? {
        ControlKeeps(cfg, m, op);
      } else {
        DelegateKeeps(cfg, m, op);
      }
      SameShapeStructured(m.agents, m'.agents);
    }
  }

  // ---- Runs ----------------------------------------------------------

  /**
   Over every run of manager operations there is at most one root, the hierarchy is a tree, and no
   agent, lease or tool invocation goes beyond the permissions of the root.
   */
  lemma {:induction false} RunsAreContained(cfg: Config, modes: map<Permission, Permissions.Mode>, ops: seq<Operation>)
    ensures Structured(After(cfg, modes, ops).agents) && Contained(cfg, After(cfg, modes, ops))
    decreases |ops|
  {
    hide Apply;
    if ops != [] {
      hide Structured, Contained;
      RunsAreContained(cfg, modes, ops[..|ops| - 1]);
      ApplyKeeps(cfg, After(cfg, modes, ops[..|ops| - 1]), ops[|ops| - 1]);
    }
  }

  /** The permissions of the root are those it was created with, whatever follows. */
  lemma {:induction false} RootNeverChanges(cfg: Config, modes: map<Permission, Permissions.Mode>, ops: seq<Operation>,
                                            n: nat)
    requires n <= |ops| && After(cfg, modes, ops[..n]).agents != []
    ensures
      var m, m' := After(cfg, modes, ops[..n]), After(cfg, modes, ops);
      m'.agents != [] && RootPermissions(m') == RootPermissions(m)
    decreases |ops|
  {
    hide Apply, RootPermissions, Structured, Contained;
    if n < |ops| {
      var before := ops[..|ops| - 1];
      assert before[..n] == ops[..n];
      RootNeverChanges(cfg, modes, before, n);
      RunsAreContained(cfg, modes, before);
      ApplyKeeps(cfg, After(cfg, modes, before), ops[|ops| - 1]);
    } else {
      assert ops[..n] == ops;
    }
  }

  // ---- Retries -------------------------------------------------------

  ghost predicate RetriesBounded(agents: seq<Agent>, limit: nat) {
    forall i | 0 <= i < |agents| :: agents[i].retries <= limit
  }

  lemma CreateBoundsRetries(cfg: Config, m: Manager, op: Operation)
    requires RetriesBounded(m.agents, cfg.maxRetries) && (op.CreateRoot? || op.CreateAgent?)
    ensures RetriesBounded(Create(cfg, m, op).0.agents, cfg.maxRetries)
  {
    hide ToolRefusal, HasRoot;
  }

  lemma DelegateBoundsRetries(cfg: Config, m: Manager, op: Operation)
    requires RetriesBounded(m.agents, cfg.maxRetries)
    requires op.GrantPermission? || op.RevokePermission? || op.LeasePermission? || op.GrantTool? || op.AssignTask?
    ensures RetriesBounded(Delegate(cfg, m, op).0.agents, cfg.maxRetries)
  {
    hide Leases.Grant;
  }

  lemma ControlBoundsRetries(cfg: Config, m: Manager, op: Operation)
    requires RetriesBounded(m.agents, cfg.maxRetries)
    requires op.StartAgent? || op.RetryAgent? || op.PauseAgent? || op.ResumeAgent? || op.TerminateAgent?
    ensures RetriesBounded(Control(cfg, m, op).0.agents, cfg.maxRetries)
  {
  }

  lemma StepBoundsRetries(cfg: Config, m: Manager, op: Operation)
    requires RetriesBounded(m.agents, cfg.maxRetries)
    ensures RetriesBounded(Apply(cfg, m, op).0.agents, cfg.maxRetries)
  {
    hide Authorize, Leases.Prune, Leases.Revoke, Create, Delegate, Control;
    if op.CreateRoot? || op.CreateAgent? {
      CreateBoundsRetries(cfg, m, op);
    } else if op.StartAgent? || op.RetryAgent? || op.PauseAgent? || op.ResumeAgent? || op.TerminateAgent? {
      ControlBoundsRetries(cfg, m, op);
    } else if op.AssignTask? || op.GrantPermission? || op.RevokePermission? || op.LeasePermission? || op.GrantTool? {
      DelegateBoundsRetries(cfg, m, op);
    } else if op.ExecuteTool? && Known(m, op.agent) && op.tool in cfg.tools {
      AuthorizeKeepsAgents(cfg, m, op.agent, cfg.tools[op.tool]);
    }
  }

  lemma {:induction false} AuthorizeKeepsAgents(cfg: Config, m: Manager, id: AgentId, required: seq<Permission>)
    requires Known(m, id)
    ensures
      var m' := Authorize(cfg, m, id, required).0;
      m'.agents == m.agents && m'.invocations == m.invocations
    decreases |required|
  {
    hide Holds;
    if required != [] {
      var (m1, held) := Holds(cfg, m, id, required[0]);
      var (policy, verdict) := Permissions.Check(m1.policy, id, required[0]);
      if held && verdict == Permissions.Passed {
        AuthorizeKeepsAgents(cfg, m1.(policy := policy), id, required[1..]);
      }
    }
  }

  /** Over every run no agent is retried more often than the limit allows. */
  lemma {:induction false} RetriesWithinLimit(cfg: Config, modes: map<Permission, Permissions.Mode>,
                                              ops: seq<Operation>)
    ensures RetriesBounded(After(cfg, modes, ops).agents, cfg.maxRetries)
    decreases |ops|
  {
    hide Apply;
    if ops != [] {
      RetriesWithinLimit(cfg, modes, ops[..|ops| - 1]);
      StepBoundsRetries(cfg, After(cfg, modes, ops[..|ops| - 1]), ops[|ops| - 1]);
    }
  }
}
