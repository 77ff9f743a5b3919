/** `AgentManager`, proved against `AgentModel`; its validity is the containment of authority. */
module AgentManagers {
  import opened Wrappers
  import opened Ordering
  import opened AgentModel
  import opened AgentTheorems
  import opened AgentTree
  import Leases
  import Permissions

  class AgentManager {
    const tools: map<ToolId, seq<Permission>>
    const maxRetries: nat
    const leases: Leases.CapabilityLeaseRegistry
    const policy: Permissions.PermissionPolicy
    var agents: seq<Agent>
    var running: multiset<AgentId>
    ghost var invocations: seq<Invocation>

    constructor (tools: map<ToolId, seq<Permission>>, maxRetries: nat, leases: Leases.CapabilityLeaseRegistry,
                 policy: Permissions.PermissionPolicy)
      requires leases.Valid() && leases.Value() == Leases.EMPTY && policy.approved == {}
      ensures Valid() && Value() == Initial(policy.modes)
    {
      this.tools, this.maxRetries, this.leases, this.policy := tools, maxRetries, leases, policy;
      agents, running, invocations := [], multiset{}, [];
    }

    ghost function Settings(): Config {
      Config(tools, leases.clock, maxRetries)
    }

    ghost function Value(): Manager
      reads this, leases, policy
    {
      Manager(agents, leases.Value(), policy.Value(), running, invocations)
    }

    /** A tree of agents in which nobody has more than the root. */
    ghost predicate Valid()
      reads this, leases, policy
    {
      leases.Valid() && Structured(agents) && Contained(Settings(), Value())
    }

    /** `_owned_child`. */
    method CheckOwned(parent: AgentId, agent: AgentId) returns (r: Option<Refusal>)
      ensures r == Ownership(Value(), parent, agent)
    {
      if parent >= |agents| || agent >= |agents| {
        return Some(UnknownAgent);
      }
      if agents[agent].parent != Some(parent) {
        return Some(NotAChild);
      }
      return None;
    }

    method CreateRoot(permissions: set<Permission>) returns (r: Option<Refusal>)
      requires Valid()
      modifies this
      ensures Valid() && (Value(), r) == Apply(Settings(), old(Value()), Operation.CreateRoot(permissions))
    {
      hide Structured, Contained;
      ApplyKeeps(Settings(), Value(), Operation.CreateRoot(permissions));
      var i := 0;
      while i < |agents|
        invariant i <= |agents| && forall k | 0 <= k < i :: agents[k].parent != None
      {
        if agents[i].parent == None {
          return Some(SecondRoot);
        }
        i := i + 1;
      }
      agents := agents + [Agent(None, permissions, {}, None, Ready, [], 0)];
      return None;
    }

    method CheckTools(wanted: seq<ToolId>, requested: set<Permission>) returns (r: Option<Refusal>)
      ensures r == ToolRefusal(Settings(), wanted, requested)
    {
      var i := 0;
      while i < |wanted|
        invariant i <= |wanted|
        invariant ToolRefusal(Settings(), wanted, requested) == ToolRefusal(Settings(), wanted[i..], requested)
      {
        assert wanted[i..][0] == wanted[i] && wanted[i..][1..] == wanted[i + 1..];
        if wanted[i] !in tools {
          return Some(UnknownTool);
        }
        if !(Elements(tools[wanted[i]]) <= requested) {
          return Some(PermissionDenied);
        }
        i := i + 1;
      }
      return None;
    }

    method CreateAgent(parent: AgentId, permissions: set<Permission>, wanted: seq<ToolId>, taskId: Option<string>)
      returns (r: Option<Refusal>)
      requires Valid()
      modifies this
      ensures Valid()
      ensures (Value(), r)
              == Apply(Settings(), old(Value()), Operation.CreateAgent(parent, permissions, wanted, taskId))
    {
      hide Structured, Contained, ToolRefusal;
      ApplyKeeps(Settings(), Value(), Operation.CreateAgent(parent, permissions, wanted, taskId));
      if parent >= |agents| {
        return Some(UnknownAgent);
      }
      if !(permissions <= agents[parent].permissions) {
        return Some(PermissionDenied);
      }
      r := CheckTools(wanted, permissions);
      if r.Some? {
        return;
      }
      var child := Agent(Some(parent), permissions, Elements(wanted), taskId, Ready, [], 0);
      var owner := agents[parent].(children := agents[parent].children + [|agents|]);
      agents := agents[parent := owner] + [child];
    }

    method AssignTask(parent: AgentId, agent: AgentId, task: string) returns (r: Option<Refusal>)
      requires Valid()
      modifies this
      ensures Valid() && (Value(), r) == Apply(Settings(), old(Value()), Operation.AssignTask(parent, agent, task))
    {
      hide Structured, Contained;
      ApplyKeeps(Settings(), Value(), Operation.AssignTask(parent, agent, task));
      r := CheckOwned(parent, agent);
      if r.Some? {
        return;
      }
      if agents[agent].status == Terminated {
        return Some(WrongStatus);
      }
      agents := agents[agent := agents[agent].(taskId := Some(task), status := Ready)];
    }

    method GrantPermission(parent: AgentId, agent: AgentId, permission: Permission) returns (r: Option<Refusal>)
      requires Valid()
      modifies this
      ensures Valid()
      ensures (Value(), r) == Apply(Settings(), old(Value()), Operation.GrantPermission(parent, agent, permission))
    {
      hide Structured, Contained;
      ApplyKeeps(Settings(), Value(), Operation.GrantPermission(parent, agent, permission));
      r := CheckOwned(parent, agent);
      if r.Some? {
        return;
      }
      if permission !in agents[parent].permissions {
        return Some(PermissionDenied);
      }
      agents := agents[agent := agents[agent].(permissions := agents[agent].permissions + {permission})];
    }

    method RevokePermission(parent: AgentId, agent: AgentId, permission: Permission) returns (r: Option<Refusal>)
      requires Valid()
      modifies this
      ensures Valid()
      ensures (Value(), r) == Apply(Settings(), old(Value()), Operation.RevokePermission(parent, agent, permission))
    {
      hide Structured, Contained;
      ApplyKeeps(Settings(), Value(), Operation.RevokePermission(parent, agent, permission));
      r := CheckOwned(parent, agent);
      if r.Some? {
        return;
      }
      agents := agents[agent := agents[agent].(permissions := agents[agent].permissions - {permission})];
    }

    method LeasePermission(parent: AgentId, agent: AgentId, permission: Permission, task: string, seconds: int)
      returns (r: Option<Refusal>)
      requires Valid()
      modifies leases
      ensures Valid()
      ensures (Value(), r)
              == Apply(Settings(), old(Value()), Operation.LeasePermission(parent, agent, permission, task, seconds))
    {
      hide Structured, Contained, Leases.Grant;
      ApplyKeeps(Settings(), Value(), Operation.LeasePermission(parent, agent, permission, task, seconds));
      r := CheckOwned(parent, agent);
      if r.Some? {
        return;
      }
      if permission !in agents[parent].permissions || agents[agent].taskId != Some(task) {
        return Some(PermissionDenied);
      }
      var lease := leases.GrantLease(agent, permission, task, seconds);
      r := if lease.Ok? then None else Some(InvalidLease);
    }

    method GrantTool(parent: AgentId, agent: AgentId, tool: ToolId) returns (r: Option<Refusal>)
      requires Valid()
      modifies this
      ensures Valid() && (Value(), r) == Apply(Settings(), old(Value()), Operation.GrantTool(parent, agent, tool))
    {
      hide Structured, Contained;
      ApplyKeeps(Settings(), Value(), Operation.GrantTool(parent, agent, tool));
      r := CheckOwned(parent, agent);
      if r.Some? {
        return;
      }
      if tool !in tools {
        return Some(UnknownTool);
      }
      if !(Elements(tools[tool]) <= agents[agent].permissions) {
        return Some(PermissionDenied);
      }
      agents := agents[agent := agents[agent].(tools := agents[agent].tools + {tool})];
    }

    /** Up to the point where the executor takes over; `EndAgent` is what follows it. */
    method StartAgent(parent: AgentId, agent: AgentId) returns (r: Option<Refusal>)
      requires Valid()
      modifies this
      ensures Valid() && (Value(), r) == Apply(Settings(), old(Value()), Operation.StartAgent(parent, agent))
    {
      hide Structured, Contained;
      ApplyKeeps(Settings(), Value(), Operation.StartAgent(parent, agent));
      r := CheckOwned(parent, agent);
      if r.Some? {
        return;
      }
      if agents[agent].status == Terminated || agents[agent].status == Paused {
        return Some(WrongStatus);
      }
      agents := agents[agent := agents[agent].(status := Running)];
      running := running + multiset{agent};
    }

    method RetryAgent(parent: AgentId, agent: AgentId) returns (r: Option<Refusal>)
      requires Valid()
      modifies this
      ensures Valid() && (Value(), r) == Apply(Settings(), old(Value()), Operation.RetryAgent(parent, agent))
    {
      hide Structured, Contained;
      ApplyKeeps(Settings(), Value(), Operation.RetryAgent(parent, agent));
      r := CheckOwned(parent, agent);
      if r.Some? {
        return;
      }
      if agents[agent].status != Failed {
        return Some(WrongStatus);
      }
      if agents[agent].retries >= maxRetries {
        return Some(RetryLimit);
      }
      agents := agents[agent := agents[agent].(retries := agents[agent].retries + 1)];
      agents := agents[agent := agents[agent].(status := Running)];
      running := running + multiset{agent};
    }

    method EndAgent(agent: AgentId, outcome: Outcome)
      requires Valid()
      modifies this
      ensures Valid() && Value() == Apply(Settings(), old(Value()), Operation.EndAgent(agent, outcome)).0
    {
      hide Structured, Contained;
      ApplyKeeps(Settings(), Value(), Operation.EndAgent(agent, outcome));
      if agent >= |agents| || agent !in running {
        return;
      }
      var status := Failed;
      if outcome == Cancelled || (outcome == Returned && agents[agent].status == Terminated) {
        status := Terminated;
      } else if outcome == Returned {
        status := Completed;
      }
      agents := agents[agent := agents[agent].(status := status)];
      running := running - multiset{agent};
    }

    method PauseAgent(parent: AgentId, agent: AgentId) returns (r: Option<Refusal>)
      requires Valid()
      modifies this
      ensures Valid() && (Value(), r) == Apply(Settings(), old(Value()), Operation.PauseAgent(parent, agent))
    {
      hide Structured, Contained;
      ApplyKeeps(Settings(), Value(), Operation.PauseAgent(parent, agent));
      r := CheckOwned(parent, agent);
      if r.None? && agents[agent].status == Running {
        agents := agents[agent := agents[agent].(status := Paused)];
      }
    }

    method ResumeAgent(parent: AgentId, agent: AgentId) returns (r: Option<Refusal>)
      requires Valid()
      modifies this
      ensures Valid() && (Value(), r) == Apply(Settings(), old(Value()), Operation.ResumeAgent(parent, agent))
    {
      hide Structured, Contained;
      ApplyKeeps(Settings(), Value(), Operation.ResumeAgent(parent, agent));
      r := CheckOwned(parent, agent);
      if r.None? && agents[agent].status == Paused {
        agents := agents[agent := agents[agent].(status := Ready)];
      }
    }

    method TerminateAgent(parent: AgentId, agent: AgentId) returns (r: Option<Refusal>)
      requires Valid()
      modifies this
      ensures Valid() && (Value(), r) == Apply(Settings(), old(Value()), Operation.TerminateAgent(parent, agent))
    {
      hide Structured, Contained;
      ApplyKeeps(Settings(), Value(), Operation.TerminateAgent(parent, agent));
      r := CheckOwned(parent, agent);
      if r.None? {
        agents := agents[agent := agents[agent].(status := Terminated)];
      }
    }

    method ExecuteTool(agent: AgentId, tool: ToolId) returns (r: Option<Refusal>)
      requires Valid()
      modifies this, leases, policy
      ensures Valid() && (Value(), r) == Apply(Settings(), old(Value()), Operation.ExecuteTool(agent, tool))
    {
      hide Structured, Contained, Authorize;
      ApplyKeeps(Settings(), Value(), Operation.ExecuteTool(agent, tool));
      if agent >= |agents| {
        return Some(UnknownAgent);
      }
      if agents[agent].status != Running {
        return Some(WrongStatus);
      }
      if tool !in agents[agent].tools {
        return Some(PermissionDenied);
      }
      if tool !in tools {
        return Some(UnknownTool);
      }
      r := AuthorizeAll(agent, tools[tool]);
      if r.None? {
        invocations := invocations + [Invocation(agent, tool)];
      }
    }

    method AuthorizeAll(agent: AgentId, required: seq<Permission>) returns (r: Option<Refusal>)
      requires leases.Valid() && agent < |agents|
      modifies leases, policy
      ensures leases.Valid() && (Value(), r) == Authorize(Settings(), old(Value()), agent, required)
    {
      hide Holds, Permissions.Check;
      ghost var before := Value();
      var i := 0;
      while i < |required|
        invariant i <= |required| && leases.Valid()
        invariant Value() == before.(leases := leases.Value(), policy := policy.Value())
        invariant Authorize(Settings(), Value(), agent, required[i..]) == Authorize(Settings(), before, agent, required)
      {
        assert required[i..][0] == required[i] && required[i..][1..] == required[i + 1..];
        var held := HasPermission(agent, required[i]);
        if !held {
          return Some(PermissionDenied);
        }
        var verdict := policy.CheckAccess(agent, required[i]);
        if verdict == Permissions.Denied {
          return Some(PermissionDenied);
        }
        if verdict == Permissions.NeedsApproval {
          return Some(ApprovalRequired);
        }
        i := i + 1;
      }
      return None;
    }

    method HasPermission(agent: AgentId, permission: Permission) returns (held: bool)
      requires leases.Valid() && agent < |agents|
      modifies leases
      ensures leases.Valid() && (Value(), held) == Holds(Settings(), old(Value()), agent, permission)
    {
      hide Leases.Permits;
      held := true;
      if permission !in agents[agent].permissions {
        held := leases.IsPermitted(agent, permission, agents[agent].taskId);
      }
    }

    /** `get_agent_tree`; an unknown agent has none. */
    method GetAgentTree(agent: AgentId) returns (tree: Option<Tree>)
      requires Valid()
      ensures tree == if agent < |agents| then Some(TreeOf(agents, agent)) else None
    {
      if agent >= |agents| {
        return None;
      }
      var t := Subtree(agents, agent);
      return Some(t);
    }

    static method Subtree(agents: seq<Agent>, agent: AgentId) returns (tree: Tree)
      requires Structured(agents) && agent < |agents|
      ensures tree == TreeOf(agents, agent)
      decreases |agents| - agent
    {
      hide Structured;
      ChildrenAreYounger(agents, agent);
      var ids := agents[agent].children;
      var children: seq<Tree> := [];
      var i := 0;
      while i < |ids|
        invariant i <= |ids|
        invariant children + Branches(agents, agent, ids[i..]) == Branches(agents, agent, ids)
      {
        assert ids[i..][0] == ids[i] && ids[i..][1..] == ids[i + 1..];
        var child := Subtree(agents, ids[i]);
        children := children + [child];
        i := i + 1;
      }
      assert ids[i..] == [];
      tree := Node(agent, children);
    }
  }
}
