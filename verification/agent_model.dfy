/**
 The agent hierarchy of `AgentManager`: delegation, leases, tool grants and tool execution as
 functions on values. Agents are named by their place in creation order, so identifiers are fresh.
 */
module AgentModel {
  import opened Clocks
  import opened Wrappers
  import opened Ordering
  import Leases
  import Permissions

  type AgentId = Leases.AgentId
  type Permission = Leases.Permission
  type ToolId = string

  datatype Status = Ready | Running | Paused | Completed | Failed | Terminated

  datatype Agent = Agent(
    parent: Option<AgentId>,
    permissions: set<Permission>,
    tools: set<ToolId>,
    taskId: Option<string>,
    status: Status,
    children: seq<AgentId>,
    retries: nat)

  /** `tools` maps each registered tool to its required permissions, in the order they are checked. */
  datatype Config = Config(tools: map<ToolId, seq<Permission>>, clock: Clock, maxRetries: nat)

  datatype Invocation = Invocation(agent: AgentId, tool: ToolId)

  /** `running` counts the executor tasks of each agent that have not ended. */
  datatype Manager = Manager(
    agents: seq<Agent>,
    leases: Leases.Registry,
    policy: Permissions.Policy,
    running: multiset<AgentId>,
    invocations: seq<Invocation>)

  datatype Refusal =
    | SecondRoot
    | UnknownAgent
    | NotAChild
    | UnknownTool
    | PermissionDenied
    | ApprovalRequired
    | InvalidLease
    | WrongStatus
    | RetryLimit

  datatype Outcome = Returned | Raised | Cancelled

  datatype Operation =
    | CreateRoot(permissions: set<Permission>)
    | CreateAgent(parent: AgentId, permissions: set<Permission>, tools: seq<ToolId>, taskId: Option<string>)
    | AssignTask(parent: AgentId, agent: AgentId, task: string)
    | GrantPermission(parent: AgentId, agent: AgentId, permission: Permission)
    | RevokePermission(parent: AgentId, agent: AgentId, permission: Permission)
    | LeasePermission(parent: AgentId, agent: AgentId, permission: Permission, task: string, seconds: int)
    | GrantTool(parent: AgentId, agent: AgentId, tool: ToolId)
    | StartAgent(parent: AgentId, agent: AgentId)
    | RetryAgent(parent: AgentId, agent: AgentId)
    | EndAgent(agent: AgentId, outcome: Outcome)
    | PauseAgent(parent: AgentId, agent: AgentId)
    | ResumeAgent(parent: AgentId, agent: AgentId)
    | TerminateAgent(parent: AgentId, agent: AgentId)
    | ExecuteTool(agent: AgentId, tool: ToolId)
    | ApproveOnce(agent: AgentId, permission: Permission)
    | RevokeLease(leaseId: nat)
    | ListLeases

  // ---- Helpers -------------------------------------------------------

  predicate Known(m: Manager, id: AgentId) {
    id < |m.agents|
  }

  /** `_owned_child`: what is wrong with the pair, if anything. */
  function Ownership(m: Manager, parent: AgentId, child: AgentId): Option<Refusal> {
    if !Known(m, parent) || !Known(m, child) then Some(UnknownAgent)
    else if m.agents[child].parent != Some(parent) then Some(NotAChild)
    else None
  }

  function Put(m: Manager, id: AgentId, a: Agent): Manager
    requires Known(m, id)
  {
    m.(agents := m.agents[id := a])
  }

  function SetStatus(m: Manager, id: AgentId, status: Status): Manager
    requires Known(m, id)
  {
    Put(m, id, m.agents[id].(status := status))
  }

  /** The first tool that is unknown or asks for more than was requested. */
  function ToolRefusal(cfg: Config, tools: seq<ToolId>, requested: set<Permission>): Option<Refusal> {
    if tools == [] then None
    else if tools[0] !in cfg.tools then Some(UnknownTool)
    else if !(Elements(cfg.tools[tools[0]]) <= requested) then Some(PermissionDenied)
    else ToolRefusal(cfg, tools[1..], requested)
  }

  // ---- Creation and delegation ---------------------------------------

  predicate HasRoot(m: Manager) {
    exists i | 0 <= i < |m.agents| :: m.agents[i].parent == None
  }

  function Create(cfg: Config, m: Manager, op: Operation): (Manager, Option<Refusal>)
    requires op.CreateRoot? || op.CreateAgent?
  {
    match op
    case CreateRoot(permissions) =>
      if HasRoot(m) then (m, Some(SecondRoot))
      else (m.(agents := m.agents + [Agent(None, permissions, {}, None, Ready, [], 0)]), None)
    case CreateAgent(parent, permissions, tools, taskId) =>
      if !Known(m, parent) then (m, Some(UnknownAgent))
      else if !(permissions <= m.agents[parent].permissions) then (m, Some(PermissionDenied))
      else if ToolRefusal(cfg, tools, permissions).Some? then (m, ToolRefusal(cfg, tools, permissions))
      else
        var child := Agent(Some(parent), permissions, Elements(tools), taskId, Ready, [], 0);
        var p := m.agents[parent];
        (m.(agents := m.agents[parent := p.(children := p.children + [|m.agents|])] + [child]), None)
  }

  function Delegate(cfg: Config, m: Manager, op: Operation): (Manager, Option<Refusal>)
    requires op.GrantPermission? || op.RevokePermission? || op.LeasePermission? || op.GrantTool? || op.AssignTask?
  {
    var bad := Ownership(m, op.parent, op.agent);
    if bad.Some? then (m, bad)
    else
      var parent, child := m.agents[op.parent], m.agents[op.agent];
      match op
      case AssignTask(_, id, task) =>
        if child.status == Terminated then (m, Some(WrongStatus))
        else (Put(m, id, child.(taskId := Some(task), status := Ready)), None)
      case GrantPermission(_, id, permission) =>
        if permission !in parent.permissions then (m, Some(PermissionDenied))
        else (Put(m, id, child.(permissions := child.permissions + {permission})), None)
      case RevokePermission(_, id, permission) =>
        (Put(m, id, child.(permissions := child.permissions - {permission})), None)
      case LeasePermission(_, id, permission, task, seconds) =>
        if permission !in parent.permissions || child.taskId != Some(task) then (m, Some(PermissionDenied))
        else
          var (leases, r) := Leases.Grant(cfg.clock, m.leases, id, permission, task, seconds);
          (m.(leases := leases), if r.Ok? then None else Some(InvalidLease))
      case GrantTool(_, id, tool) =>
        if tool !in cfg.tools then (m, Some(UnknownTool))
        else if !(Elements(cfg.tools[tool]) <= child.permissions) then (m, Some(PermissionDenied))
        else (Put(m, id, child.(tools := child.tools + {tool})), None)
  }

  // ---- Life cycle ----------------------------------------------------

  function Start(m: Manager, id: AgentId): (Manager, Option<Refusal>)
    requires Known(m, id)
  {
    var status := m.agents[id].status;
    if status == Terminated || status == Paused then (m, Some(WrongStatus))
    else (SetStatus(m, id, Running).(running := m.running + multiset{id}), None)
  }

  function Control(cfg: Config, m: Manager, op: Operation): (Manager, Option<Refusal>)
    requires op.StartAgent? || op.RetryAgent? || op.PauseAgent? || op.ResumeAgent? || op.TerminateAgent?
  {
    var bad := Ownership(m, op.parent, op.agent);
    if bad.Some? then (m, bad)
    else
      var child := m.agents[op.agent];
      match op
      case StartAgent(_, id) => Start(m, id)
      case RetryAgent(_, id) =>
        if child.status != Failed then (m, Some(WrongStatus))
        else if child.retries >= cfg.maxRetries then (m, Some(RetryLimit))
        else Start(Put(m, id, child.(retries := child.retries + 1)), id)
      case PauseAgent(_, id) => (if child.status == Running then SetStatus(m, id, Paused) else m, None)
      case ResumeAgent(_, id) => (if child.status == Paused then SetStatus(m, id, Ready) else m, None)
      case TerminateAgent(_, id) => (SetStatus(m, id, Terminated), None)
  }

  /** The end of `_run`: a result that arrives after a termination does not count. */
  function End(m: Manager, id: AgentId, outcome: Outcome): Manager {
    if !Known(m, id) || id !in m.running then m
    else
      var status :=
        match outcome
        case Returned => if m.agents[id].status == Terminated then Terminated else Completed
        case Raised => Failed
        case Cancelled => Terminated;
      SetStatus(m, id, status).(running := m.running - multiset{id})
  }

  // ---- Tool execution ------------------------------------------------

  /** Each permission in turn: held or leased, then let through by the policy. */
  function Authorize(cfg: Config, m: Manager, id: AgentId, required: seq<Permission>): (Manager, Option<Refusal>)
    requires Known(m, id)
    decreases |required|
  {
    if required == [] then (m, None)
    else
      var (m1, held) := Holds(cfg, m, id, required[0]);
      if !held then (m1, Some(PermissionDenied))
      else
        var (policy, verdict) := Permissions.Check(m1.policy, id, required[0]);
        var m2 := m1.(policy := policy);
        match verdict
        case Denied => (m2, Some(PermissionDenied))
        case NeedsApproval => (m2, Some(ApprovalRequired))
        case Passed => Authorize(cfg, m2, id, required[1..])
  }

  function Holds(cfg: Config, m: Manager, id: AgentId, permission: Permission): (r: (Manager, bool))
    requires Known(m, id)
    ensures r.0 == m.(leases := r.0.leases)
  {
    if permission in m.agents[id].permissions then (m, true)
    else
      var (leases, found) := Leases.Permits(cfg.clock, m.leases, id, permission, m.agents[id].taskId);
      (m.(leases := leases), found)
  }

  function Execute(cfg: Config, m: Manager, id: AgentId, tool: ToolId): (Manager, Option<Refusal>) {
    if !Known(m, id) then (m, Some(UnknownAgent))
    else if m.agents[id].status != Running then (m, Some(WrongStatus))
    else if tool !in m.agents[id].tools then (m, Some(PermissionDenied))
    else if tool !in cfg.tools then (m, Some(UnknownTool))
    else
      var (m1, refusal) := Authorize(cfg, m, id, cfg.tools[tool]);
      if refusal.Some? then (m1, refusal)
      else (m1.(invocations := m1.invocations + [Invocation(id, tool)]), None)
  }

  // ---- Runs ----------------------------------------------------------

  function Apply(cfg: Config, m: Manager, op: Operation): (Manager, Option<Refusal>) {
    match op
    case CreateRoot(_) => Create(cfg, m, op)
    case CreateAgent(_, _, _, _) => Create(cfg, m, op)
    case AssignTask(_, _, _) => Delegate(cfg, m, op)
    case GrantPermission(_, _, _) => Delegate(cfg, m, op)
    case RevokePermission(_, _, _) => Delegate(cfg, m, op)
    case LeasePermission(_, _, _, _, _) => Delegate(cfg, m, op)
    case GrantTool(_, _, _) => Delegate(cfg, m, op)
    case StartAgent(_, _) => Control(cfg, m, op)
    case RetryAgent(_, _) => Control(cfg, m, op)
    case PauseAgent(_, _) => Control(cfg, m, op)
    case ResumeAgent(_, _) => Control(cfg, m, op)
    case TerminateAgent(_, _) => Control(cfg, m, op)
    case EndAgent(id, outcome) => (End(m, id, outcome), None)
    case ExecuteTool(id, tool) => Execute(cfg, m, id, tool)
    case ApproveOnce(id, permission) => (m.(policy := Permissions.ApproveOnce(m.policy, id, permission)), None)
    case RevokeLease(leaseId) => (m.(leases := Leases.Revoke(m.leases, leaseId)), None)
    case ListLeases => (m.(leases := Leases.Prune(cfg.clock, m.leases)), None)
  }

  function Initial(modes: map<Permission, Permissions.Mode>): Manager {
    Manager([], Leases.EMPTY, Permissions.Policy(modes, {}), multiset{}, [])
  }

  function After(cfg: Config, modes: map<Permission, Permissions.Mode>, ops: seq<Operation>): Manager
    decreases |ops|
  {
    if ops == [] then Initial(modes) else Apply(cfg, After(cfg, modes, ops[..|ops| - 1]), ops[|ops| - 1]).0
  }
}
