/** What each call of the manager accepts, and what an accepted call makes of every agent. */
module AgentLifecycle {
  import opened Wrappers
  import opened Ordering
  import opened AgentModel
  import Leases
  import Permissions

  /** Both agents are known, and the second is a child of the first. */
  ghost predicate Owns(m: Manager, parent: AgentId, child: AgentId) {
    parent < |m.agents| && child < |m.agents| && m.agents[child].parent == Some(parent)
  }

  /** Every tool is registered and needs nothing beyond these permissions. */
  ghost predicate ToolsFit(cfg: Config, tools: seq<ToolId>, permissions: set<Permission>) {
    forall t | t in tools :: t in cfg.tools && forall p | p in cfg.tools[t] :: p in permissions
  }

  lemma {:induction false} ToolsFitExactly(cfg: Config, tools: seq<ToolId>, permissions: set<Permission>)
    ensures ToolRefusal(cfg, tools, permissions).None? <==> ToolsFit(cfg, tools, permissions)
  {
    if tools != [] {
      ToolsFitExactly(cfg, tools[1..], permissions);
      assert tools == [tools[0]] + tools[1..];
      if tools[0] in cfg.tools {
        ElementsWithin(cfg.tools[tools[0]], permissions);
      }
    }
  }

  lemma ElementsWithin(s: seq<Permission>, permissions: set<Permission>)
    ensures Elements(s) <= permissions <==> forall p | p in s :: p in permissions
  {
    assert forall p :: p in Elements(s) <==> p in s;
  }

  /** Which calls of creation and delegation are accepted. */
  ghost predicate AcceptsDelegation(cfg: Config, m: Manager, op: Operation)
    requires op.CreateRoot? || op.CreateAgent? || op.AssignTask? || op.GrantPermission? || op.RevokePermission?
             || op.LeasePermission? || op.GrantTool?
  {
    match op
    case CreateRoot(_) => forall i | 0 <= i < |m.agents| :: m.agents[i].parent.Some?
    case CreateAgent(parent, permissions, tools, _) =>
      && parent < |m.agents| && (forall p | p in permissions :: p in m.agents[parent].permissions)
      && ToolsFit(cfg, tools, permissions)
    case AssignTask(parent, id, _) => Owns(m, parent, id) && m.agents[id].status != Terminated
    case GrantPermission(parent, id, p) => Owns(m, parent, id) && p in m.agents[parent].permissions
    case RevokePermission(parent, id, _) => Owns(m, parent, id)
    case LeasePermission(parent, id, p, task, seconds) =>
      && Owns(m, parent, id) && p in m.agents[parent].permissions && m.agents[id].taskId == Some(task)
      && task != "" && 1 <= seconds <= 86400
    case GrantTool(parent, id, tool) => Owns(m, parent, id) && ToolsFit(cfg, [tool], m.agents[id].permissions)
  }

  /** Creation and delegation are refused exactly otherwise, and a refused call changes nothing. */
  lemma DelegatesExactly(cfg: Config, m: Manager, op: Operation)
    requires op.CreateRoot? || op.CreateAgent? || op.AssignTask? || op.GrantPermission? || op.RevokePermission?
             || op.LeasePermission? || op.GrantTool?
    ensures
      var (m', refusal) := Apply(cfg, m, op);
      && (refusal.None? <==> AcceptsDelegation(cfg, m, op))
      && (refusal.Some? ==> m'.agents == m.agents && m'.running == m.running && m'.policy == m.policy)
  {
    hide ToolRefusal;
    match op
    case CreateAgent(_, permissions, tools, _) => ToolsFitExactly(cfg, tools, permissions);
    case GrantTool(_, id, tool) =>
      if tool in cfg.tools && id < |m.agents| {
        ElementsWithin(cfg.tools[tool], m.agents[id].permissions);
      }
    case _ =>
  }

  /** Which calls that steer an agent are accepted. */
  ghost predicate AcceptsControl(cfg: Config, m: Manager, op: Operation)
    requires op.StartAgent? || op.RetryAgent? || op.PauseAgent? || op.ResumeAgent? || op.TerminateAgent?
  {
    && Owns(m, op.parent, op.agent)
    && (op.StartAgent? ==> m.agents[op.agent].status != Terminated && m.agents[op.agent].status != Paused)
    && (op.RetryAgent? ==> m.agents[op.agent].status == Failed && m.agents[op.agent].retries < cfg.maxRetries)
  }

  /** The status that an accepted call leaves the agent in. */
  ghost function SteeredTo(op: Operation, status: Status): Status
    requires op.StartAgent? || op.RetryAgent? || op.PauseAgent? || op.ResumeAgent? || op.TerminateAgent?
  {
    match op
    case StartAgent(_, _) => Running
    case RetryAgent(_, _) => Running
    case PauseAgent(_, _) => if status == Running then Paused else status
    case ResumeAgent(_, _) => if status == Paused then Ready else status
    case TerminateAgent(_, _) => Terminated
  }

  /** An accepted call moves the one agent's status, counts a retry, and enters what it starts as running. */
  lemma ControlsExactly(cfg: Config, m: Manager, op: Operation)
    requires op.StartAgent? || op.RetryAgent? || op.PauseAgent? || op.ResumeAgent? || op.TerminateAgent?
    ensures
      var (m', refusal) := Apply(cfg, m, op);
      && (refusal.None? <==> AcceptsControl(cfg, m, op))
      && (refusal.Some? ==> m' == m)
      && (refusal.None? ==>
            var id := op.agent;
            var a := m.agents[id];
            && m'.agents == m.agents[id := a.(status := SteeredTo(op, a.status),
                                              retries := if op.RetryAgent? then a.retries + 1 else a.retries)]
            && m'.running == (if op.StartAgent? || op.RetryAgent? then m.running + multiset{id} else m.running)
            && m'.leases == m.leases && m'.policy == m.policy && m'.invocations == m.invocations)
  {
  }

  /**
   The end of an executor that was entered as running: a returned one leaves the agent completed, unless it was
   terminated meanwhile, a raised one failed and a cancelled one terminated. Any other end changes nothing.
   */
  lemma EndsExactly(cfg: Config, m: Manager, id: AgentId, outcome: Outcome)
    ensures
      var m' := Apply(cfg, m, EndAgent(id, outcome)).0;
      if id < |m.agents| && id in m.running then
        && |m'.agents| == |m.agents| && m'.running == m.running - multiset{id}
        && (forall i | 0 <= i < |m.agents| && i != id :: m'.agents[i] == m.agents[i])
        && m'.agents[id] == m.agents[id].(status := m'.agents[id].status)
        && (outcome == Returned && m.agents[id].status != Terminated ==> m'.agents[id].status == Completed)
        && (outcome == Returned && m.agents[id].status == Terminated ==> m'.agents[id].status == Terminated)
        && (outcome == Raised ==> m'.agents[id].status == Failed)
        && (outcome == Cancelled ==> m'.agents[id].status == Terminated)
      else m' == m
  {
  }

  /** The root, once there is one, is as it was created, except for its children; without one nothing runs. */
  ghost predicate RootIdle(m: Manager) {
    && (m.agents == [] ==> m.running == multiset{})
    && (m.agents != [] ==>
          && m.agents[0].parent == None && m.agents[0].status == Ready && m.agents[0].tools == {}
          && m.agents[0].taskId == None && m.agents[0].retries == 0 && 0 !in m.running)
  }

  lemma {:induction false} AuthorizeTouches(cfg: Config, m: Manager, id: AgentId, required: seq<Permission>)
    requires Known(m, id)
    ensures
      var m' := Authorize(cfg, m, id, required).0;
      m' == m.(leases := m'.leases, policy := m'.policy)
    decreases |required|
  {
    hide Holds;
    if required != [] {
      var (m1, held) := Holds(cfg, m, id, required[0]);
      var (policy, verdict) := Permissions.Check(m1.policy, id, required[0]);
      if held && verdict == Permissions.Passed {
        AuthorizeTouches(cfg, m1.(policy := policy), id, required[1..]);
      }
    }
  }

  lemma RootStaysIdle(cfg: Config, m: Manager, op: Operation)
    requires RootIdle(m)
    ensures RootIdle(Apply(cfg, m, op).0)
  {
    if op.EndAgent? {
      EndsExactly(cfg, m, op.agent, op.outcome);
    } else if op.StartAgent? || op.RetryAgent? || op.PauseAgent? || op.ResumeAgent? || op.TerminateAgent? {
      ControlStaysIdle(cfg, m, op);
    } else if op.ExecuteTool? {
      ExecuteStaysIdle(cfg, m, op);
    } else {
      OthersStayIdle(cfg, m, op);
    }
    hide Apply;
  }

  lemma ControlStaysIdle(cfg: Config, m: Manager, op: Operation)
    requires op.StartAgent? || op.RetryAgent? || op.PauseAgent? || op.ResumeAgent? || op.TerminateAgent?
    requires RootIdle(m)
    ensures RootIdle(Apply(cfg, m, op).0)
  {
    hide Apply, AcceptsControl;
    ControlsExactly(cfg, m, op);
    if AcceptsControl(cfg, m, op) {
      OwnedIsNotRoot(cfg, m, op);
    }
  }

  lemma ExecuteStaysIdle(cfg: Config, m: Manager, op: Operation)
    requires op.ExecuteTool? && RootIdle(m)
    ensures RootIdle(Apply(cfg, m, op).0)
  {
    hide Authorize;
    if Known(m, op.agent) && op.tool in cfg.tools {
      AuthorizeTouches(cfg, m, op.agent, cfg.tools[op.tool]);
    }
  }

  lemma OthersStayIdle(cfg: Config, m: Manager, op: Operation)
    requires !op.EndAgent? && !op.StartAgent? && !op.RetryAgent? && !op.PauseAgent? && !op.ResumeAgent?
    requires !op.TerminateAgent? && !op.ExecuteTool? && RootIdle(m)
    ensures RootIdle(Apply(cfg, m, op).0)
  {
    hide ToolRefusal, Leases.Grant, Leases.Prune, Leases.Revoke;
  }

  lemma OwnedIsNotRoot(cfg: Config, m: Manager, op: Operation)
    requires op.StartAgent? || op.RetryAgent? || op.PauseAgent? || op.ResumeAgent? || op.TerminateAgent?
    requires RootIdle(m) && AcceptsControl(cfg, m, op)
    ensures op.agent < |m.agents| && op.agent != 0
  {
  }

  /** Over every run nothing starts the root, gives it a tool or a task, or ends it. */
  lemma {:induction false} RootNeverRuns(cfg: Config, modes: map<Permission, Permissions.Mode>, ops: seq<Operation>)
    ensures RootIdle(After(cfg, modes, ops))
    decreases |ops|
  {
    hide Apply;
    if ops != [] {
      RootNeverRuns(cfg, modes, ops[..|ops| - 1]);
      RootStaysIdle(cfg, After(cfg, modes, ops[..|ops| - 1]), ops[|ops| - 1]);
    }
  }

  /** What accepted creation and delegation make of the agents: the one field that the call is about. */
  lemma DelegationEffect(cfg: Config, m: Manager, op: Operation)
    requires op.CreateRoot? || op.CreateAgent? || op.AssignTask? || op.GrantPermission? || op.RevokePermission?
             || op.LeasePermission? || op.GrantTool?
    requires AcceptsDelegation(cfg, m, op)
    ensures
      var m' := Apply(cfg, m, op).0;
      var n := |m.agents|;
      && m'.running == m.running && m'.policy == m.policy && m'.invocations == m.invocations
      && match op
         case CreateRoot(permissions) =>
           m'.agents == m.agents + [Agent(None, permissions, {}, None, Ready, [], 0)] && m'.leases == m.leases
         case CreateAgent(parent, permissions, tools, taskId) =>
           && |m'.agents| == n + 1 && m'.leases == m.leases
           && m'.agents[n] == Agent(Some(parent), permissions, (set t | t in tools), taskId, Ready, [], 0)
           && (forall i | 0 <= i < n && i != parent :: m'.agents[i] == m.agents[i])
           && m'.agents[parent] == m.agents[parent].(children := m.agents[parent].children + [n])
         case AssignTask(_, id, task) =>
           m'.agents == m.agents[id := m.agents[id].(taskId := Some(task), status := Ready)] && m'.leases == m.leases
         case GrantPermission(_, id, p) =>
           && m'.agents == m.agents[id := m.agents[id].(permissions := m.agents[id].permissions + {p})]
           && m'.leases == m.leases
         case RevokePermission(_, id, p) =>
           && m'.agents == m.agents[id := m.agents[id].(permissions := m.agents[id].permissions - {p})]
           && m'.leases == m.leases
         case LeasePermission(_, id, p, task, seconds) =>
           var t := cfg.clock(m.leases.readings);
           && m'.agents == m.agents
           && m'.leases.log == m.leases.log + [Leases.Lease(|m.leases.log|, id, p, task, t, t + seconds as real)]
         case GrantTool(_, id, tool) =>
           m'.agents == m.agents[id := m.agents[id].(tools := m.agents[id].tools + {tool})] && m'.leases == m.leases
  {
    DelegatesExactly(cfg, m, op);
    hide ToolRefusal, HasRoot, AcceptsDelegation;
    if op.CreateAgent? {
      assert Elements(op.tools) == set t | t in op.tools;
    }
  }
}
