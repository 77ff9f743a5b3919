/**
 `ActionRuntime.perform`: the gates in front of a tool, composed with the agent manager, the policy
 and the governor. Performs run one after another; what the outside world answers is a parameter.
 */
module ExecutorModel {
  import opened Clocks
  import opened Wrappers
  import AgentAuthority
  import AgentModel
  import AgentTheorems
  import Governor
  import Leases
  import ModePolicies
  import Ordering
  import Permissions

  type ActionId = string

  datatype ErrorCode =
    | PermissionDenied
    | ToolNotFound
    | InvalidArgument
    | ResourceBusy
    | ActionFailed
    | ActionTimeout
    | VerificationFailed
    | PolicyDenied
    | ApprovalRequired

  datatype Action = Action(
    actionId: ActionId,
    tool: AgentModel.ToolId,
    agent: AgentModel.AgentId,
    taskId: string,
    permission: string)

  datatype ActionResult = ActionResult(success: bool, code: Option<ErrorCode>)

  /** How a perform ends: with a result that carries this code, or by an exception without any result. */
  datatype Exit = Returns(code: ErrorCode) | Escapes

  datatype Answer = Yes | No | Raises

  datatype ContractGate = NoContract | Violated | Unmet | Met | Interrupted

  /**
   The answers of one perform: the two answers of the approval handler, the action contract, a failure
   before the tool runs (the locks, the first observation), a failure while or after it runs (the tool,
   the second observation, the verifier), and the verdict. A handler, an observation for the contract and
   the verifier may raise, and a cancellation may arrive wherever the perform waits: these exits leave no
   result.
   */
  datatype World = World(
    approvesMode: Answer,
    approvesPolicy: Answer,
    contract: ContractGate,
    unready: Option<Exit>,
    failure: Option<Exit>,
    verified: bool)

  /** Nothing raises and nobody cancels. */
  predicate Calm(w: World) {
    && !w.approvesMode.Raises? && !w.approvesPolicy.Raises? && !w.contract.Interrupted?
    && w.unready != Some(Escapes) && w.failure != Some(Escapes)
  }

  datatype Config = Config(agents: AgentModel.Config, risk: AgentModel.ToolId -> ModePolicies.Risk, hasHandler: bool)

  /** `invoked` names the actions whose tool was run, in order. */
  datatype Runtime = Runtime(
    manager: AgentModel.Manager,
    governor: Governor.Governor,
    mode: ModePolicies.AutonomyMode,
    completed: map<ActionId, ActionResult>,
    audit: seq<ActionId>,
    invoked: seq<Action>)

  // ---- The gates -----------------------------------------------------

  function RequestOf(cfg: Config, a: Action): Governor.Request {
    Governor.Request(a.taskId, a.tool, a.permission, ModePolicies.IsRisky(cfg.risk(a.tool)), 1.0)
  }

  function ModeSays(cfg: Config, rt: Runtime, a: Action): Governor.Decision {
    ModePolicies.Decide(rt.mode, cfg.risk(a.tool))
  }

  /** The gates before the permission policy; none of them changes anything. */
  function Screen(cfg: Config, rt: Runtime, a: Action, w: World): Option<Exit>
    requires Governor.Valid(rt.governor)
  {
    if a.tool !in cfg.agents.tools then Some(Returns(ToolNotFound))
    else if a.permission !in cfg.agents.tools[a.tool] then Some(Returns(InvalidArgument))
    else
      var governed := Governor.Evaluate(rt.governor, RequestOf(cfg, a));
      if governed == Governor.Deny then Some(Returns(PolicyDenied))
      else
        var mode := if governed == Governor.Approval then Governor.Approval else ModeSays(cfg, rt, a);
        if mode == Governor.Deny then Some(Returns(PolicyDenied))
        else if mode == Governor.Approval && !cfg.hasHandler then Some(Returns(ApprovalRequired))
        else if mode == Governor.Approval && w.approvesMode == Raises then Some(Escapes)
        else if mode == Governor.Approval && w.approvesMode == No then Some(Returns(PolicyDenied))
        else if w.contract == Violated || w.contract == Unmet then Some(Returns(InvalidArgument))
        else if w.contract == Interrupted then Some(Escapes)
        else None
  }

  /** The policy check, and the human approval that may stand in for it. */
  function PolicyGate(cfg: Config, p: Permissions.Policy, a: Action, w: World): (Permissions.Policy, Option<Exit>) {
    var (p', verdict) := Permissions.Check(p, a.agent, a.permission);
    match verdict
    case Passed => (p', None)
    case Denied => (p', Some(Returns(PolicyDenied)))
    case NeedsApproval =>
      if !cfg.hasHandler then (p', Some(Returns(ApprovalRequired)))
      else match w.approvesPolicy
        case Raises => (p', Some(Escapes))
        case No => (p', Some(Returns(PolicyDenied)))
        case Yes => (Permissions.ApproveOnce(p', a.agent, a.permission), None)
  }

  function CodeOf(r: AgentModel.Refusal): ErrorCode {
    if r == AgentModel.PermissionDenied || r == AgentModel.ApprovalRequired then PermissionDenied else ActionFailed
  }

  /** Everything up to and including the tool: the manager it leaves and what stops it. */
  function Invoke(cfg: Config, m: AgentModel.Manager, a: Action, w: World): (AgentModel.Manager, Option<Exit>) {
    var (policy, stop) := PolicyGate(cfg, m.policy, a, w);
    var m := m.(policy := policy);
    if stop.Some? then (m, stop)
    else if w.unready.Some? then (m, w.unready)
    else
      var (m', refusal) := AgentModel.Execute(cfg.agents, m, a.agent, a.tool);
      (m', if refusal.Some? then Some(Returns(CodeOf(refusal.value))) else None)
  }

  function ResultOf(exit: Exit): Option<ActionResult> {
    match exit
    case Returns(code) => Some(ActionResult(false, Some(code)))
    case Escapes => None
  }

  /** How a perform ends whose tool has run. */
  function Verdict(w: World): Option<ActionResult> {
    if w.failure.Some? then ResultOf(w.failure.value)
    else Some(ActionResult(w.verified, if w.verified then None else Some(VerificationFailed)))
  }

  /** `_result`. */
  function Finish(rt: Runtime, a: Action, r: ActionResult): Runtime
    requires Governor.Valid(rt.governor)
  {
    rt.(completed := rt.completed[a.actionId := r],
        governor := Governor.Record(rt.governor, a.taskId, r.success),
        audit := if AgentModel.Known(rt.manager, a.agent) then rt.audit + [a.actionId] else rt.audit)
  }

  /** A perform that ends without a result leaves things as they are. */
  function Leave(rt: Runtime, a: Action, r: Option<ActionResult>): (Runtime, Option<ActionResult>)
    requires Governor.Valid(rt.governor)
  {
    (if r.Some? then Finish(rt, a, r.value) else rt, r)
  }

  /** An action that has a result returns it and does nothing. No result stands for an exception. */
  function Perform(cfg: Config, rt: Runtime, a: Action, w: World): (Runtime, Option<ActionResult>)
    requires Governor.Valid(rt.governor)
  {
    if a.actionId in rt.completed then (rt, Some(rt.completed[a.actionId]))
    else
      var stop := Screen(cfg, rt, a, w);
      if stop.Some? then Leave(rt, a, ResultOf(stop.value))
      else
        var (m, stop) := Invoke(cfg, rt.manager, a, w);
        if stop.Some? then Leave(rt.(manager := m), a, ResultOf(stop.value))
        else Leave(rt.(manager := m, invoked := rt.invoked + [a]), a, Verdict(w))
  }

  lemma RecordValid(g: Governor.Governor, taskId: string, success: bool)
    requires Governor.Valid(g)
    ensures Governor.Valid(Governor.Record(g, taskId, success))
  {
  }

  lemma PerformValid(cfg: Config, rt: Runtime, a: Action, w: World)
    requires Governor.Valid(rt.governor)
    ensures Governor.Valid(Perform(cfg, rt, a, w).0.governor)
  {
    hide Screen, Invoke, Governor.Record, Governor.Valid;
    RecordValid(rt.governor, a.taskId, false);
    RecordValid(rt.governor, a.taskId, true);
  }

  /** Performs between which the mode may change, and the manager in any way its own operations allow. */
  datatype Operation =
    | Do(action: Action, world: World)
    | Manage(op: AgentModel.Operation)
    | SetMode(mode: ModePolicies.AutonomyMode)

  function Apply(cfg: Config, rt: Runtime, op: Operation): Runtime
    requires Governor.Valid(rt.governor)
  {
    match op
    case Do(a, w) => Perform(cfg, rt, a, w).0
    case Manage(op) => rt.(manager := AgentModel.Apply(cfg.agents, rt.manager, op).0)
    case SetMode(mode) => rt.(mode := mode)
  }

  function After(cfg: Config, start: Runtime, ops: seq<Operation>): (rt: Runtime)
    requires Governor.Valid(start.governor)
    ensures Governor.Valid(rt.governor)
    decreases |ops|
  {
    if ops == [] then start
    else
      var before := After(cfg, start, ops[..|ops| - 1]);
      ApplyValid(cfg, before, ops[|ops| - 1]);
      Apply(cfg, before, ops[|ops| - 1])
  }

  lemma ApplyValid(cfg: Config, rt: Runtime, op: Operation)
    requires Governor.Valid(rt.governor)
    ensures Governor.Valid(Apply(cfg, rt, op).governor)
  {
    hide Perform, AgentModel.Apply;
    if op.Do? {
      PerformValid(cfg, rt, op.action, op.world);
    }
  }

  // ---- One result per action -----------------------------------------

  /**
   An action with a result changes nothing and gives that result. Any other is recorded once everywhere,
   unless the perform escapes: then nothing is recorded anywhere. Where nothing raises, none escapes.
   */
  lemma OneResultPerAction(cfg: Config, rt: Runtime, a: Action, w: World)
    requires Governor.Valid(rt.governor)
    ensures
      var (rt', r) := Perform(cfg, rt, a, w);
      if a.actionId in rt.completed then rt' == rt && r == Some(rt.completed[a.actionId])
      else match r
        case Some(result) =>
          && rt'.completed == rt.completed[a.actionId := result]
          && rt'.governor == Governor.Record(rt.governor, a.taskId, result.success)
          && (AgentModel.Known(rt.manager, a.agent) ==> rt'.audit == rt.audit + [a.actionId])
        case None =>
          rt'.completed == rt.completed && rt'.governor == rt.governor && rt'.audit == rt.audit
    ensures Calm(w) ==> Perform(cfg, rt, a, w).1.Some?
  {
    hide Governor.Record, Governor.Evaluate;
    InvokeKeepsAgents(cfg, rt.manager, a, w);
    if Calm(w) {
      CalmInvokeReturns(cfg, rt.manager, a, w);
    }
    hide Invoke;
  }

  lemma CalmInvokeReturns(cfg: Config, m: AgentModel.Manager, a: Action, w: World)
    requires Calm(w)
    ensures Invoke(cfg, m, a, w).1 != Some(Escapes)
  {
    hide AgentModel.Execute;
  }

  /**
   The result of a new action. It is a success exactly when the tool ran, nothing failed and the verifier
   found the expected state, and carries no code exactly then. A tool that ran and was not verified gives
   VERIFICATION_FAILED, one that failed gives the code of its failure, and one that was left by an exception
   gives none. The task's mission is charged one action, and one failure exactly when it is no success.
   */
  lemma ResultExactly(cfg: Config, rt: Runtime, a: Action, w: World)
    requires Governor.Valid(rt.governor) && a.actionId !in rt.completed
    ensures
      var (rt', r) := Perform(cfg, rt, a, w);
      var ran := rt'.invoked != rt.invoked;
      && (ran ==> (r.None? <==> w.failure == Some(Escapes)))
      && (r.Some? ==>
            && (r.value.success <==> ran && w.failure.None? && w.verified)
            && (r.value.code.None? <==> r.value.success)
            && (ran && w.failure.None? && !w.verified ==> r.value.code == Some(VerificationFailed))
            && (ran && w.failure.Some? && w.failure.value.Returns? ==> r.value.code == Some(w.failure.value.code))
            && (!ran && r.value.code == Some(VerificationFailed) ==> w.unready == Some(Returns(VerificationFailed)))
            && rt'.completed == rt.completed[a.actionId := r.value])
      && (r.None? ==> rt'.completed == rt.completed)
      && rt'.governor.contracts == rt.governor.contracts && rt'.governor.tasks == rt.governor.tasks
      && (r.None? || a.taskId !in rt.governor.tasks ==> rt'.governor.usage == rt.governor.usage)
      && (r.Some? && a.taskId in rt.governor.tasks ==>
            var mission := rt.governor.tasks[a.taskId];
            var u := rt.governor.usage[mission];
            rt'.governor.usage == rt.governor.usage[mission :=
              Governor.Usage(u.actions + 1, if r.value.success then u.failures else u.failures + 1)])
  {
    StopsAreFailures(cfg, rt, a, w);
    assert rt.invoked + [a] != rt.invoked;
    Governor.RecordsExactly(rt.governor, a.taskId, true);
    Governor.RecordsExactly(rt.governor, a.taskId, false);
    hide Screen, Invoke, Governor.Record, Governor.Valid;
  }

  lemma StopsAreFailures(cfg: Config, rt: Runtime, a: Action, w: World)
    requires Governor.Valid(rt.governor)
    ensures Screen(cfg, rt, a, w) != Some(Returns(VerificationFailed))
    ensures Invoke(cfg, rt.manager, a, w).1 == Some(Returns(VerificationFailed)) ==>
              w.unready == Some(Returns(VerificationFailed))
  {
    hide Governor.Evaluate, AgentModel.Execute;
  }

  lemma InvokeKeepsAgents(cfg: Config, m: AgentModel.Manager, a: Action, w: World)
    ensures Invoke(cfg, m, a, w).0.agents == m.agents
  {
    hide PolicyGate, AgentModel.Authorize;
    var m1 := m.(policy := PolicyGate(cfg, m.policy, a, w).0);
    if AgentModel.Known(m1, a.agent) && a.tool in cfg.agents.tools {
      AgentTheorems.AuthorizeKeepsAgents(cfg.agents, m1, a.agent, cfg.agents.tools[a.tool]);
    }
  }

  /** No action ran its tool twice. */
  ghost predicate OncePerAction(rt: Runtime) {
    forall i, j | 0 <= i < j < |rt.invoked| :: rt.invoked[i].actionId != rt.invoked[j].actionId
  }

  /** The actions whose tool ran. */
  function RanTools(rt: Runtime): set<ActionId> {
    set i | 0 <= i < |rt.invoked| :: rt.invoked[i].actionId
  }

  /** The operation is a perform that escapes after its tool has run. */
  predicate LosesResult(cfg: Config, rt: Runtime, op: Operation)
    requires Governor.Valid(rt.governor)
  {
    op.Do? && op.world.failure == Some(Escapes) && Runs(cfg, rt, op.action, op.world)
  }

  /** The actions of which some perform escaped after its tool had run. */
  ghost function Lost(cfg: Config, start: Runtime, ops: seq<Operation>): set<ActionId>
    requires Governor.Valid(start.governor)
    decreases |ops|
  {
    if ops == [] then {}
    else
      var before, op := ops[..|ops| - 1], ops[|ops| - 1];
      Lost(cfg, start, before)
      + (if LosesResult(cfg, After(cfg, start, before), op) then {op.action.actionId} else {})
  }

  /** Some perform runs the tool of an action of which an earlier perform escaped after its tool had run. */
  ghost predicate RunsLostAgain(cfg: Config, start: Runtime, ops: seq<Operation>)
    requires Governor.Valid(start.governor)
    decreases |ops|
  {
    ops != []
    && var before, op := ops[..|ops| - 1], ops[|ops| - 1];
       || RunsLostAgain(cfg, start, before)
       || (op.Do? && op.action.actionId in Lost(cfg, start, before)
           && Runs(cfg, After(cfg, start, before), op.action, op.world))
  }

  /** A perform runs at most the tool of its own action, and only if it has no result; if it gets one, that stays. */
  lemma RunsEffect(cfg: Config, rt: Runtime, a: Action, w: World)
    requires Governor.Valid(rt.governor)
    ensures
      var rt' := Perform(cfg, rt, a, w).0;
      && rt'.invoked == (if Runs(cfg, rt, a, w) then rt.invoked + [a] else rt.invoked)
      && rt.completed.Keys <= rt'.completed.Keys
      && (Runs(cfg, rt, a, w) ==>
            && a.actionId !in rt.completed
            && (a.actionId in rt'.completed <==> w.failure != Some(Escapes)))
  {
    hide Screen, Invoke, Governor.Record;
    assert rt.invoked + [a] != rt.invoked;
  }

  /** A tool that ran has a result, or the perform that ran it escaped. */
  ghost predicate RanOrLost(cfg: Config, start: Runtime, ops: seq<Operation>)
    requires Governor.Valid(start.governor)
  {
    var rt, lost := After(cfg, start, ops), Lost(cfg, start, ops);
    RanTools(rt) <= rt.completed.Keys + lost && lost <= RanTools(rt)
  }

  lemma OnceStep(rt: Runtime, rt': Runtime, a: Action)
    requires rt'.invoked == rt.invoked + [a]
    ensures RanTools(rt') == RanTools(rt) + {a.actionId}
    ensures OncePerAction(rt') <==> OncePerAction(rt) && a.actionId !in RanTools(rt)
  {
    assert forall i | 0 <= i < |rt.invoked| :: rt'.invoked[i] == rt.invoked[i];
    assert rt'.invoked[|rt.invoked|] == a;
  }

  /**
   In every run, repeated action identifiers included, no action runs its tool twice exactly when no
   action is run again of which an earlier perform escaped after its tool had run.
   */
  lemma {:induction false} InvokedOnceExactly(cfg: Config, start: Runtime, ops: seq<Operation>)
    requires Governor.Valid(start.governor) && start.invoked == []
    ensures RanOrLost(cfg, start, ops)
    ensures OncePerAction(After(cfg, start, ops)) <==> !RunsLostAgain(cfg, start, ops)
    decreases |ops|
  {
    hide Perform, Runs, AgentModel.Apply, OncePerAction, RanTools;
    if ops == [] {
      NothingRan(start);
    } else {
      var before, op := After(cfg, start, ops[..|ops| - 1]), ops[|ops| - 1];
      InvokedOnceExactly(cfg, start, ops[..|ops| - 1]);
      if op.Do? {
        RunsEffect(cfg, before, op.action, op.world);
        var after := Perform(cfg, before, op.action, op.world).0;
        if Runs(cfg, before, op.action, op.world) {
          OnceStep(before, after, op.action);
        } else {
          SameRan(before, after);
        }
      } else {
        SameRan(before, After(cfg, start, ops));
      }
    }
  }

  lemma NothingRan(rt: Runtime)
    requires rt.invoked == []
    ensures OncePerAction(rt) && RanTools(rt) == {}
  {
  }

  lemma SameRan(rt: Runtime, rt': Runtime)
    requires rt'.invoked == rt.invoked
    ensures RanTools(rt') == RanTools(rt) && (OncePerAction(rt') <==> OncePerAction(rt))
  {
  }

  /** In particular when no perform escapes after its tool has run. */
  lemma {:induction false} NoEscapeRunsOnce(cfg: Config, start: Runtime, ops: seq<Operation>)
    requires Governor.Valid(start.governor) && start.invoked == []
    requires forall op | op in ops && op.Do? :: op.world.failure != Some(Escapes)
    ensures Lost(cfg, start, ops) == {} && OncePerAction(After(cfg, start, ops))
    decreases |ops|
  {
    hide Runs, Apply, OncePerAction;
    InvokedOnceExactly(cfg, start, ops);
    if ops != [] {
      NoEscapeRunsOnce(cfg, start, ops[..|ops| - 1]);
      InvokedOnceExactly(cfg, start, ops[..|ops| - 1]);
    }
  }

  // ---- The gates guard the tool --------------------------------------

  /** The action's tool was run by this perform. */
  predicate Runs(cfg: Config, rt: Runtime, a: Action, w: World)
    requires Governor.Valid(rt.governor)
  {
    Perform(cfg, rt, a, w).0.invoked != rt.invoked
  }

  /** The governor asks for a human, or lets the action past and the mode asks. */
  predicate AsksHuman(cfg: Config, rt: Runtime, a: Action)
    requires Governor.Valid(rt.governor)
  {
    var governed := Governor.Evaluate(rt.governor, RequestOf(cfg, a));
    governed == Governor.Approval || (governed == Governor.Allow && ModeSays(cfg, rt, a) == Governor.Approval)
  }

  /**
   A tool runs only for a new action of a registered tool with a permission that the tool requires,
   that neither the mission nor the contract nor the policy denies, nor the mode where the mission
   leaves the decision to it, that a human approved wherever one was asked, and whose agent is
   running and was granted the tool.
   */
  lemma RunsOnlyThroughGates(cfg: Config, rt: Runtime, a: Action, w: World)
    requires Governor.Valid(rt.governor) && Runs(cfg, rt, a, w)
    ensures a.actionId !in rt.completed
    ensures a.tool in cfg.agents.tools && a.permission in cfg.agents.tools[a.tool]
    ensures
      var governed := Governor.Evaluate(rt.governor, RequestOf(cfg, a));
      governed != Governor.Deny && (governed == Governor.Allow ==> ModeSays(cfg, rt, a) != Governor.Deny)
    ensures AsksHuman(cfg, rt, a) ==> cfg.hasHandler && w.approvesMode == Yes
    ensures w.contract == NoContract || w.contract == Met
    ensures Permissions.ModeOf(rt.manager.policy.modes, a.permission) != Permissions.Deny
    ensures Permissions.ModeOf(rt.manager.policy.modes, a.permission) == Permissions.RequireApproval ==>
              (a.agent, a.permission) in rt.manager.policy.approved || (cfg.hasHandler && w.approvesPolicy == Yes)
    ensures
      && AgentModel.Known(rt.manager, a.agent)
      && rt.manager.agents[a.agent].status == AgentModel.Running
      && a.tool in rt.manager.agents[a.agent].tools
  {
    hide AgentModel.Authorize, Governor.Record, Governor.Evaluate;
  }

  /** What the contract of the task's mission, if it has one, lets through: stated by its own fields. */
  ghost predicate MissionPermits(g: Governor.Governor, a: Action)
    requires Governor.Valid(g)
  {
    a.taskId in g.tasks ==>
      var c := g.contracts[g.tasks[a.taskId]];
      && a.tool !in c.forbiddenActions
      && (c.allowedTools == {} || a.tool in c.allowedTools)
      && (c.allowedPermissions == {} || a.permission in c.allowedPermissions)
  }

  /** Both budgets of the task's mission, if it has one, have something left. */
  ghost predicate BudgetLeft(g: Governor.Governor, a: Action)
    requires Governor.Valid(g)
  {
    a.taskId in g.tasks ==>
      var c, u := g.contracts[g.tasks[a.taskId]], g.usage[g.tasks[a.taskId]];
      u.actions < c.maxActions && u.failures < c.maxFailures
  }

  /** The governor asks about the risky tools of missions. */
  ghost predicate GovernorAsks(cfg: Config, rt: Runtime, a: Action) {
    var risk := cfg.risk(a.tool);
    a.taskId in rt.governor.tasks && (risk.level == ModePolicies.High || risk.destructive)
  }

  /** Where the governor does not ask, supervision asks about all but harmless tools. */
  ghost predicate HandlerIsAsked(cfg: Config, rt: Runtime, a: Action) {
    var risk := cfg.risk(a.tool);
    || GovernorAsks(cfg, rt, a)
    || (rt.mode == ModePolicies.Supervised && (risk.level != ModePolicies.Low || risk.destructive))
  }

  /** Where the governor does not ask, the mode has its say. */
  ghost predicate ModePermits(cfg: Config, rt: Runtime, a: Action) {
    var risk := cfg.risk(a.tool);
    || GovernorAsks(cfg, rt, a) || rt.mode == ModePolicies.Autonomous || rt.mode == ModePolicies.Supervised
    || (rt.mode == ModePolicies.Watch && risk.level == ModePolicies.Low && !risk.destructive)
  }

  /** Before the policy: what the mode permits, who is asked and what the action contract wants. */
  ghost predicate HumanAndModeAgree(cfg: Config, rt: Runtime, a: Action, w: World) {
    && ModePermits(cfg, rt, a)
    && (HandlerIsAsked(cfg, rt, a) ==> cfg.hasHandler && w.approvesMode == Yes)
    && (w.contract == NoContract || w.contract == Met)
  }

  /** The gates before the policy open exactly so. */
  lemma ScreenPassesExactly(cfg: Config, rt: Runtime, a: Action, w: World)
    requires Governor.Valid(rt.governor)
    ensures Screen(cfg, rt, a, w).None? <==>
              && a.tool in cfg.agents.tools && a.permission in cfg.agents.tools[a.tool]
              && MissionPermits(rt.governor, a) && BudgetLeft(rt.governor, a) && HumanAndModeAgree(cfg, rt, a, w)
  {
    Governor.EvaluatesExactly(rt.governor, RequestOf(cfg, a));
    ModePolicies.DecidesExactly(rt.mode, cfg.risk(a.tool));
    hide Governor.Evaluate, ModePolicies.Decide;
    if a.taskId in rt.governor.tasks {
      assert Governor.ValidContract(rt.governor.contracts[rt.governor.tasks[a.taskId]]);
    }
  }

  /** What each gate before the policy answers; `None` where an exception leaves the perform there. */
  lemma GateAnswers(cfg: Config, rt: Runtime, a: Action, w: World)
    requires Governor.Valid(rt.governor) && a.actionId !in rt.completed
    ensures
      var r := Perform(cfg, rt, a, w).1;
      var refused := (code: ErrorCode) => Some(ActionResult(false, Some(code)));
      if a.tool !in cfg.agents.tools then r == refused(ToolNotFound)
      else if a.permission !in cfg.agents.tools[a.tool] then r == refused(InvalidArgument)
      else if !MissionPermits(rt.governor, a) || !BudgetLeft(rt.governor, a) || !ModePermits(cfg, rt, a) then
        r == refused(PolicyDenied)
      else if HandlerIsAsked(cfg, rt, a) && !(cfg.hasHandler && w.approvesMode == Yes) then
        r == if !cfg.hasHandler then refused(ApprovalRequired)
             else if w.approvesMode == No then refused(PolicyDenied) else None
      else
        && (w.contract == Violated || w.contract == Unmet ==> r == refused(InvalidArgument))
        && (w.contract == Interrupted ==> r == None)
  {
    Governor.EvaluatesExactly(rt.governor, RequestOf(cfg, a));
    ModePolicies.DecidesExactly(rt.mode, cfg.risk(a.tool));
    hide Governor.Evaluate, ModePolicies.Decide, Invoke, Governor.Record;
    if a.taskId in rt.governor.tasks {
      assert Governor.ValidContract(rt.governor.contracts[rt.governor.tasks[a.taskId]]);
    }
  }

  /** What policy, locks and manager answer once those gates let the action through. */
  lemma LaterAnswers(cfg: Config, rt: Runtime, a: Action, w: World)
    requires Governor.Valid(rt.governor) && a.actionId !in rt.completed && Screen(cfg, rt, a, w).None?
    ensures
      var r := Perform(cfg, rt, a, w).1;
      var refused := (code: ErrorCode) => Some(ActionResult(false, Some(code)));
      var modes, approved := rt.manager.policy.modes, rt.manager.policy.approved;
      var mode := if a.permission in modes then modes[a.permission] else Permissions.AutoApprove;
      var spent := mode == Permissions.RequireApproval && (a.agent, a.permission) in approved;
      var asks := mode == Permissions.RequireApproval && (a.agent, a.permission) !in approved;
      var m := if spent then rt.manager.(policy := rt.manager.policy.(approved := approved - {(a.agent, a.permission)}))
               else Asked(rt.manager, a);
      var refusal := AgentModel.Execute(cfg.agents, m, a.agent, a.tool).1;
      if mode == Permissions.Deny then r == refused(PolicyDenied)
      else if asks && !(cfg.hasHandler && w.approvesPolicy == Yes) then
        r == if !cfg.hasHandler then refused(ApprovalRequired)
             else if w.approvesPolicy == No then refused(PolicyDenied) else None
      else if w.unready.Some? then
        r == match w.unready.value { case Returns(code) => refused(code) case Escapes => None }
      else refusal.Some? ==>
        r == refused(if refusal.value == AgentModel.PermissionDenied || refusal.value == AgentModel.ApprovalRequired
                     then PermissionDenied else ActionFailed)
  {
    hide Screen, AgentModel.Execute, Governor.Record;
    assert rt.manager.(policy := rt.manager.policy) == rt.manager;
  }

  /** The manager that is asked to run the tool, after the handler's approval where the permission needs one. */
  function Asked(m: AgentModel.Manager, a: Action): AgentModel.Manager {
    if a.permission in m.policy.modes && m.policy.modes[a.permission] == Permissions.RequireApproval
    then m.(policy := m.policy.(approved := m.policy.approved + {(a.agent, a.permission)})) else m
  }

  /**
   A tool runs exactly when its action is new, the tool is registered and needs the permission, the mission
   permits it and has a budget left, mode and human agree, the permission is not denied, and in approval mode
   not approved beforehand but on the spot, the locks are had, and the manager executes it.
   */
  lemma RunsExactly(cfg: Config, rt: Runtime, a: Action, w: World)
    requires Governor.Valid(rt.governor)
    ensures
      var modes := rt.manager.policy.modes;
      var mode := if a.permission in modes then modes[a.permission] else Permissions.AutoApprove;
      Runs(cfg, rt, a, w) <==>
        && a.actionId !in rt.completed
        && a.tool in cfg.agents.tools && a.permission in cfg.agents.tools[a.tool]
        && MissionPermits(rt.governor, a) && BudgetLeft(rt.governor, a) && HumanAndModeAgree(cfg, rt, a, w)
        && mode != Permissions.Deny
        && (mode == Permissions.RequireApproval ==>
              && (a.agent, a.permission) !in rt.manager.policy.approved
              && cfg.hasHandler && w.approvesPolicy == Yes)
        && w.unready.None?
        && AgentModel.Execute(cfg.agents, Asked(rt.manager, a), a.agent, a.tool).1.None?
  {
    ScreenPassesExactly(cfg, rt, a, w);
    hide Screen, MissionPermits, BudgetLeft, HumanAndModeAgree, AgentModel.Execute, Governor.Record;
    assert Approved(rt.manager, a).policy == rt.manager.policy.(approved := Approved(rt.manager, a).policy.approved);
    if Permissions.ModeOf(rt.manager.policy.modes, a.permission) == Permissions.RequireApproval {
      ApprovalModeRunsExactly(cfg, rt, a, w);
      hide Runs;
    } else {
      assert rt.manager.(policy := rt.manager.policy) == rt.manager;
      assert rt.invoked + [a] != rt.invoked;
    }
  }

  /**
   Over every run, no tool ran for a task of a mission against its forbidden actions or outside the tools
   and permissions that it names.
   */
  lemma {:induction false} RunsWithinMissions(cfg: Config, start: Runtime, ops: seq<Operation>)
    requires Governor.Valid(start.governor) && start.invoked == []
    ensures
      var rt := After(cfg, start, ops);
      && rt.governor.contracts == start.governor.contracts && rt.governor.tasks == start.governor.tasks
      && forall i | 0 <= i < |rt.invoked| && rt.invoked[i].taskId in start.governor.tasks ::
           var b := rt.invoked[i];
           var c := start.governor.contracts[start.governor.tasks[b.taskId]];
           && b.tool !in c.forbiddenActions
           && (c.allowedTools == {} || b.tool in c.allowedTools)
           && (c.allowedPermissions == {} || b.permission in c.allowedPermissions)
    decreases |ops|
  {
    hide Perform, AgentModel.Apply, Runs;
    if ops != [] {
      var before, op := After(cfg, start, ops[..|ops| - 1]), ops[|ops| - 1];
      RunsWithinMissions(cfg, start, ops[..|ops| - 1]);
      if op.Do? {
        RunsEffect(cfg, before, op.action, op.world);
        RunsExactly(cfg, before, op.action, op.world);
        PerformEffect(cfg, before, op.action, op.world);
      }
    }
  }

  /** Every permission that the tool needs is held by the agent, or leased to it for its current task and unexpired. */
  lemma RunsOnlyWithAuthority(cfg: Config, rt: Runtime, a: Action, w: World)
    requires Governor.Valid(rt.governor) && Runs(cfg, rt, a, w)
    requires NonDecreasing(cfg.agents.clock) && Leases.Agrees(cfg.agents.clock, rt.manager.leases)
    ensures a.tool in cfg.agents.tools && AgentModel.Known(rt.manager, a.agent)
    ensures forall p | p in cfg.agents.tools[a.tool] :: AgentAuthority.HasAuthority(cfg.agents, rt.manager, a.agent, p)
  {
    hide AgentModel.Authorize, AgentAuthority.HasAuthority, Leases.Agrees, Governor.Record, Governor.Evaluate;
    RunsOnlyThroughGates(cfg, rt, a, w);
    var m := rt.manager.(policy := PolicyGate(cfg, rt.manager.policy, a, w).0);
    AgentAuthority.AuthorizeBracketed(cfg.agents, m, a.agent, cfg.agents.tools[a.tool]);
    assert AgentModel.Authorize(cfg.agents, m, a.agent, cfg.agents.tools[a.tool]).1.None?;
    forall p | p in cfg.agents.tools[a.tool] ensures AgentAuthority.HasAuthority(cfg.agents, rt.manager, a.agent, p) {
      AuthorityIgnoresPolicy(cfg, rt.manager, m.policy, a.agent, p);
    }
  }

  lemma AuthorityIgnoresPolicy(cfg: Config, m: AgentModel.Manager, policy: Permissions.Policy, id: AgentModel.AgentId,
                               p: string)
    requires AgentModel.Known(m, id)
    ensures AgentAuthority.HasAuthority(cfg.agents, m.(policy := policy), id, p)
            <==> AgentAuthority.HasAuthority(cfg.agents, m, id, p)
  {
  }

  lemma InvokeAgrees(cfg: Config, m: AgentModel.Manager, a: Action, w: World)
    requires NonDecreasing(cfg.agents.clock) && Leases.Agrees(cfg.agents.clock, m.leases)
    ensures Leases.Agrees(cfg.agents.clock, Invoke(cfg, m, a, w).0.leases)
  {
    hide PolicyGate, AgentModel.Execute, Leases.Agrees;
    var m1 := m.(policy := PolicyGate(cfg, m.policy, a, w).0);
    ExecuteAgrees(cfg.agents, m1, a.agent, a.tool);
  }

  lemma ExecuteAgrees(cfg: AgentModel.Config, m: AgentModel.Manager, id: AgentModel.AgentId, tool: AgentModel.ToolId)
    requires NonDecreasing(cfg.clock) && Leases.Agrees(cfg.clock, m.leases)
    ensures Leases.Agrees(cfg.clock, AgentModel.Execute(cfg, m, id, tool).0.leases)
  {
    hide AgentModel.Execute, Leases.Agrees;
    AgentAuthority.StepAgrees(cfg, m, AgentModel.ExecuteTool(id, tool));
  }

  /** The premise of `RunsOnlyWithAuthority` about the leases holds after every run. */
  lemma {:induction false} RunsAgree(cfg: Config, start: Runtime, ops: seq<Operation>)
    requires Governor.Valid(start.governor)
    requires NonDecreasing(cfg.agents.clock) && Leases.Agrees(cfg.agents.clock, start.manager.leases)
    ensures Leases.Agrees(cfg.agents.clock, After(cfg, start, ops).manager.leases)
    decreases |ops|
  {
    hide Leases.Agrees, AgentModel.Apply, Invoke, Screen, Governor.Record, Governor.Valid;
    if ops != [] {
      var before, op := After(cfg, start, ops[..|ops| - 1]), ops[|ops| - 1];
      RunsAgree(cfg, start, ops[..|ops| - 1]);
      match op
      case Do(a, w) => InvokeAgrees(cfg, before.manager, a, w);
      case Manage(op) => AgentAuthority.StepAgrees(cfg.agents, before.manager, op);
      case SetMode(_) =>
    }
  }

  // ---- A denying mode does not always deny ---------------------------

  /** What opens the first gates although the mode denies the tool. */
  predicate HumanOverridesMode(cfg: Config, rt: Runtime, a: Action, w: World)
    requires Governor.Valid(rt.governor)
  {
    && a.tool in cfg.agents.tools && a.permission in cfg.agents.tools[a.tool]
    && a.taskId in rt.governor.tasks && ModePolicies.IsRisky(cfg.risk(a.tool))
    && Governor.Evaluate(rt.governor, RequestOf(cfg, a)) != Governor.Deny
    && cfg.hasHandler && w.approvesMode == Yes
    && (w.contract == NoContract || w.contract == Met)
  }

  /**
   Where the governor asks for a human the mode is never consulted. So in a mode that denies the
   tool, the tool still runs exactly when it is a risky one, the task belongs to a mission that does
   not deny it, the handler approves, and the gates after the mode let it through.
   */
  lemma DenyingModeRunsExactly(cfg: Config, rt: Runtime, a: Action, w: World)
    requires Governor.Valid(rt.governor) && ModeSays(cfg, rt, a) == Governor.Deny
    ensures Screen(cfg, rt, a, w).None? <==> HumanOverridesMode(cfg, rt, a, w)
    ensures Runs(cfg, rt, a, w) <==>
              && a.actionId !in rt.completed && HumanOverridesMode(cfg, rt, a, w)
              && Invoke(cfg, rt.manager, a, w).1.None?
  {
    hide Invoke, Governor.Record, Governor.Evaluate, ModeSays;
    Governor.AsksExactly(rt.governor, RequestOf(cfg, a));
  }

  /**
   A tool of high risk or marked destructive runs without a human's approval only in the autonomous mode
   and for a task of no mission.
   */
  lemma RiskyToolsNeedHuman(cfg: Config, rt: Runtime, a: Action, w: World)
    requires Governor.Valid(rt.governor) && Runs(cfg, rt, a, w) && ModePolicies.IsRisky(cfg.risk(a.tool))
    ensures (cfg.hasHandler && w.approvesMode == Yes)
            || (rt.mode == ModePolicies.Autonomous && a.taskId !in rt.governor.tasks)
  {
    hide Invoke, Governor.Record, Runs, Perform, Governor.Evaluate;
    RunsOnlyThroughGates(cfg, rt, a, w);
    Governor.AsksExactly(rt.governor, RequestOf(cfg, a));
    ModePolicies.DecidesExactly(rt.mode, cfg.risk(a.tool));
  }

  // ---- Concrete runs -------------------------------------------------

  const CLICK := "mouse.click"

  function ClickConfig(level: ModePolicies.RiskLevel): Config {
    Config(AgentModel.Config(map[CLICK := [CLICK]], n => 0.0, 0), t => ModePolicies.Risk(level, false), true)
  }

  /** A root creates a child that may click, and starts it; a mission with budget one is registered for its task. */
  function ClickRuntime(cfg: Config, mode: ModePolicies.AutonomyMode): Runtime {
    var steps := [AgentModel.CreateRoot({CLICK}), AgentModel.CreateAgent(0, {CLICK}, [CLICK], Some("task")),
                  AgentModel.StartAgent(0, 1)];
    Runtime(AgentModel.After(cfg.agents, map[], steps), ClickGovernor(), mode, map[], [], [])
  }

  function ClickGovernor(): Governor.Governor {
    Governor.Register(Governor.EMPTY, Governor.Contract("mission", {}, {}, {}, 1, 1, 0.5), {"task"}).value
  }

  function ClickManager(): AgentModel.Manager {
    var root := AgentModel.Agent(None, {CLICK}, {}, None, AgentModel.Ready, [1], 0);
    var child := AgentModel.Agent(Some(0), {CLICK}, {CLICK}, Some("task"), AgentModel.Running, [], 0);
    AgentModel.Manager([root, child], Leases.EMPTY, Permissions.Policy(map[], {}), multiset{1}, [])
  }

  lemma ClickRuntimeIs(level: ModePolicies.RiskLevel, mode: ModePolicies.AutonomyMode)
    ensures
      var cfg, g := ClickConfig(level), ClickGovernor();
      ClickRuntime(cfg, mode) == Runtime(ClickManager(), g, mode, map[], [], []) && Governor.Valid(g)
  {
    var cfg := ClickConfig(level).agents;
    var one, two := AgentModel.CreateRoot({CLICK}), AgentModel.CreateAgent(0, {CLICK}, [CLICK], Some("task"));
    var three := AgentModel.StartAgent(0, 1);
    AgentAuthority.AfterOneMore(cfg, map[], [], one);
    AgentAuthority.AfterOneMore(cfg, map[], [one], two);
    AgentAuthority.AfterOneMore(cfg, map[], [one, two], three);
    assert [] + [one] == [one] && [one] + [two] == [one, two] && [one, two] + [three] == [one, two, three];
    ClickSteps(level);
    hide AgentModel.After, AgentModel.Apply;
  }

  lemma ClickSteps(level: ModePolicies.RiskLevel)
    ensures
      var cfg := ClickConfig(level).agents;
      var m1 := AgentModel.Apply(cfg, AgentModel.Initial(map[]), AgentModel.CreateRoot({CLICK})).0;
      var m2 := AgentModel.Apply(cfg, m1, AgentModel.CreateAgent(0, {CLICK}, [CLICK], Some("task"))).0;
      AgentModel.Apply(cfg, m2, AgentModel.StartAgent(0, 1)).0 == ClickManager()
  {
    var cfg, empty := ClickConfig(level).agents, AgentModel.Initial(map[]);
    var root := AgentModel.Agent(None, {CLICK}, {}, None, AgentModel.Ready, [], 0);
    var m1 := AgentModel.Apply(cfg, empty, AgentModel.CreateRoot({CLICK})).0;
    assert m1 == empty.(agents := [root]);
    assert [CLICK][1..] == [] && Ordering.Elements([CLICK]) == {CLICK};
    assert AgentModel.ToolRefusal(cfg, [CLICK][1..], {CLICK}).None?;
    assert AgentModel.ToolRefusal(cfg, [CLICK], {CLICK}).None?;
    var child := AgentModel.Agent(Some(0), {CLICK}, {CLICK}, Some("task"), AgentModel.Ready, [], 0);
    var m2 := AgentModel.Apply(cfg, m1, AgentModel.CreateAgent(0, {CLICK}, [CLICK], Some("task"))).0;
    var parent := root.(children := [1]);
    assert root.children + [1] == [1] && [root][0 := parent] + [child] == [parent, child];
    assert m2 == empty.(agents := [parent, child]);
  }

  function Click(): Action {
    Action("action", CLICK, 1, "task", CLICK)
  }

  /** The click gets through to the tool where the mode does not ask or the handler approves. */
  lemma ClickInvokes(level: ModePolicies.RiskLevel, w: World, invocations: seq<AgentModel.Invocation>)
    requires w.unready.None?
    ensures
      var (m, stop) := Invoke(ClickConfig(level), ClickManager().(invocations := invocations), Click(), w);
      stop.None? && m == ClickManager().(invocations := m.invocations)
  {
    var cfg, m := ClickConfig(level), ClickManager().(invocations := invocations);
    assert Permissions.Check(m.policy, 1, CLICK) == (m.policy, Permissions.Passed);
    assert PolicyGate(cfg, m.policy, Click(), w) == (m.policy, None);
    assert m.(policy := m.policy) == m;
    assert AgentModel.Holds(cfg.agents, m, 1, CLICK) == (m, true);
    var required := [CLICK];
    assert required[1..] == [] && AgentModel.Authorize(cfg.agents, m, 1, required[1..]) == (m, None);
    assert AgentModel.Authorize(cfg.agents, m, 1, required) == (m, None);
  }

  /** A paused runtime, a mission with one task, and an agent that may click: with an approval the click runs. */
  lemma PausedRuntimeRunsRiskyTool()
    ensures
      var cfg := ClickConfig(ModePolicies.High);
      var rt := ClickRuntime(cfg, ModePolicies.Paused);
      && Governor.Valid(rt.governor) && ModeSays(cfg, rt, Click()) == Governor.Deny
      && Runs(cfg, rt, Click(), World(Yes, No, NoContract, None, None, true))
  {
    ClickRuntimeIs(ModePolicies.High, ModePolicies.Paused);
    ClickInvokes(ModePolicies.High, World(Yes, No, NoContract, None, None, true), []);
    hide ClickRuntime, Invoke, Governor.Record;
  }

  // ---- One approval is not enough ------------------------------------

  /** The manager would run the tool for this agent if only the policy let it. */
  predicate CouldRun(cfg: Config, m: AgentModel.Manager, a: Action) {
    && AgentModel.Known(m, a.agent)
    && m.agents[a.agent].status == AgentModel.Running
    && a.tool in m.agents[a.agent].tools
    && AgentModel.Holds(cfg.agents, m, a.agent, a.permission).1
  }

  lemma ExecuteSingle(cfg: Config, m: AgentModel.Manager, a: Action)
    requires a.tool in cfg.agents.tools && cfg.agents.tools[a.tool] == [a.permission]
    requires Permissions.ModeOf(m.policy.modes, a.permission) == Permissions.RequireApproval
    ensures AgentModel.Execute(cfg.agents, m, a.agent, a.tool).1.None?
            <==> CouldRun(cfg, m, a) && (a.agent, a.permission) in m.policy.approved
  {
    hide AgentModel.Holds;
    if AgentModel.Known(m, a.agent) {
      var required := cfg.agents.tools[a.tool];
      var (m1, held) := AgentModel.Holds(cfg.agents, m, a.agent, required[0]);
      var (policy, verdict) := Permissions.Check(m1.policy, a.agent, required[0]);
      var m2 := m1.(policy := policy);
      assert required[1..] == [];
      assert AgentModel.Authorize(cfg.agents, m2, a.agent, required[1..]) == (m2, None);
      assert AgentModel.Authorize(cfg.agents, m, a.agent, required).1.None? <==> held && verdict == Permissions.Passed;
    }
  }

  lemma HoldsIgnoresPolicy(cfg: Config, m: AgentModel.Manager, p: Permissions.Policy, a: Action)
    ensures CouldRun(cfg, m.(policy := p), a) <==> CouldRun(cfg, m, a)
  {
  }

  /** The manager with the approval that the handler has just given. */
  function Approved(m: AgentModel.Manager, a: Action): AgentModel.Manager {
    m.(policy := Permissions.ApproveOnce(m.policy, a.agent, a.permission))
  }

  /**
   The policy is asked twice for one action, by the runtime and again by the manager, and each time
   spends an approval. So under a permission in approval mode a tool runs exactly when no approval
   was given beforehand, the handler gives one on the spot, and with it the manager runs the tool.
   */
  lemma ApprovalModeRunsExactly(cfg: Config, rt: Runtime, a: Action, w: World)
    requires Governor.Valid(rt.governor)
    requires Permissions.ModeOf(rt.manager.policy.modes, a.permission) == Permissions.RequireApproval
    ensures Runs(cfg, rt, a, w) <==>
              && a.actionId !in rt.completed && Screen(cfg, rt, a, w).None? && w.unready.None?
              && (a.agent, a.permission) !in rt.manager.policy.approved
              && cfg.hasHandler && w.approvesPolicy == Yes
              && AgentModel.Execute(cfg.agents, Approved(rt.manager, a), a.agent, a.tool).1.None?
  {
    if (a.agent, a.permission) in rt.manager.policy.approved {
      if Screen(cfg, rt, a, w).None? {
        SpentApprovalRefuses(cfg, rt.manager, a, w);
      }
      hide Screen, Invoke, Governor.Record;
    } else {
      hide Screen, AgentModel.Execute, Governor.Record;
      assert Permissions.Check(rt.manager.policy, a.agent, a.permission)
             == (rt.manager.policy, Permissions.NeedsApproval);
      assert PolicyGate(cfg, rt.manager.policy, a, w).1.None? ==>
          PolicyGate(cfg, rt.manager.policy, a, w).0 == Approved(rt.manager, a).policy;
    }
  }

  /** For a tool that needs just this permission nothing else is left to the manager's policy. */
  lemma SinglePermissionRunsExactly(cfg: Config, rt: Runtime, a: Action, w: World)
    requires Governor.Valid(rt.governor)
    requires a.tool in cfg.agents.tools && cfg.agents.tools[a.tool] == [a.permission]
    requires Permissions.ModeOf(rt.manager.policy.modes, a.permission) == Permissions.RequireApproval
    ensures Runs(cfg, rt, a, w) <==>
              && a.actionId !in rt.completed && Screen(cfg, rt, a, w).None? && w.unready.None?
              && CouldRun(cfg, rt.manager, a)
              && (a.agent, a.permission) !in rt.manager.policy.approved
              && cfg.hasHandler && w.approvesPolicy == Yes
  {
    hide Screen, AgentModel.Execute, CouldRun, Runs;
    ApprovalModeRunsExactly(cfg, rt, a, w);
    ExecuteSingle(cfg, Approved(rt.manager, a), a);
    HoldsIgnoresPolicy(cfg, rt.manager, Approved(rt.manager, a).policy, a);
  }

  /** An approval given in advance is spent without the tool running, however many permissions the tool needs. */
  lemma PriorApprovalIsWasted(cfg: Config, rt: Runtime, a: Action, w: World)
    requires Governor.Valid(rt.governor) && a.actionId !in rt.completed && Screen(cfg, rt, a, w).None?
    requires Permissions.ModeOf(rt.manager.policy.modes, a.permission) == Permissions.RequireApproval
    requires (a.agent, a.permission) in rt.manager.policy.approved
    ensures
      var (rt', r) := Perform(cfg, rt, a, w);
      && (r.Some? ==> !r.value.success) && rt'.invoked == rt.invoked
      && (a.agent, a.permission) !in rt'.manager.policy.approved
  {
    SpentApprovalRefuses(cfg, rt.manager, a, w);
    hide Screen, Invoke, Governor.Record;
  }

  lemma SpentApprovalRefuses(cfg: Config, m: AgentModel.Manager, a: Action, w: World)
    requires a.tool in cfg.agents.tools && a.permission in cfg.agents.tools[a.tool]
    requires Permissions.ModeOf(m.policy.modes, a.permission) == Permissions.RequireApproval
    requires (a.agent, a.permission) in m.policy.approved
    ensures
      var (m', stop) := Invoke(cfg, m, a, w);
      stop.Some? && (a.agent, a.permission) !in m'.policy.approved
  {
    hide AgentModel.Authorize;
    var (policy, stop) := PolicyGate(cfg, m.policy, a, w);
    var m1 := m.(policy := policy);
    assert stop.None? && AgentAuthority.Open(m1, a.agent, a.permission) == 0;
    if AgentModel.Known(m1, a.agent) {
      AgentAuthority.AuthorizeSpends(cfg.agents, m1, a.agent, cfg.agents.tools[a.tool], a.agent, a.permission);
      assert AgentModel.Authorize(cfg.agents, m1, a.agent, cfg.agents.tools[a.tool]).1.Some?;
    }
  }

  // ---- End to end ----------------------------------------------------

  lemma PolicyKeepsContained(cfg: AgentModel.Config, m: AgentModel.Manager, p: Permissions.Policy)
    requires AgentTheorems.Contained(cfg, m)
    ensures AgentTheorems.Contained(cfg, m.(policy := p))
  {
  }

  lemma InvokeContained(cfg: Config, m: AgentModel.Manager, a: Action, w: World)
    requires AgentTheorems.Structured(m.agents) && AgentTheorems.Contained(cfg.agents, m)
    ensures
      var m' := Invoke(cfg, m, a, w).0;
      AgentTheorems.Structured(m'.agents) && AgentTheorems.Contained(cfg.agents, m')
  {
    hide AgentTheorems.Structured, AgentTheorems.Contained, AgentModel.Execute, PolicyGate;
    var policy := PolicyGate(cfg, m.policy, a, w).0;
    PolicyKeepsContained(cfg.agents, m, policy);
    AgentTheorems.ExecuteKeeps(cfg.agents, m.(policy := policy), a.agent, a.tool);
  }

  /** Whatever is performed and managed in between, no tool is run beyond the permissions of the root. */
  lemma {:induction false} RunsContained(cfg: Config, start: Runtime, ops: seq<Operation>)
    requires Governor.Valid(start.governor)
    requires AgentTheorems.Structured(start.manager.agents) && AgentTheorems.Contained(cfg.agents, start.manager)
    ensures
      var m := After(cfg, start, ops).manager;
      AgentTheorems.Structured(m.agents) && AgentTheorems.Contained(cfg.agents, m)
    decreases |ops|
  {
    hide AgentTheorems.Structured, AgentTheorems.Contained, AgentModel.Apply, Invoke, Screen, Governor.Record,
      Governor.Valid;
    if ops != [] {
      var before, op := After(cfg, start, ops[..|ops| - 1]), ops[|ops| - 1];
      RunsContained(cfg, start, ops[..|ops| - 1]);
      match op
      case Do(a, w) => InvokeContained(cfg, before.manager, a, w);
      case Manage(op) => AgentTheorems.ApplyKeeps(cfg.agents, before.manager, op);
      case SetMode(_) =>
    }
  }

  function CountFor(g: Governor.Governor, invoked: seq<Action>, mission: Governor.MissionId): nat {
    if invoked == [] then 0
    else
      CountFor(g, invoked[..|invoked| - 1], mission)
      + (if Governor.MissionOf(g, invoked[|invoked| - 1].taskId) == Some(mission) then 1 else 0)
  }

  lemma {:induction false} CountForSame(g: Governor.Governor, g': Governor.Governor, invoked: seq<Action>,
                                        mission: Governor.MissionId)
    requires g.tasks == g'.tasks
    ensures CountFor(g, invoked, mission) == CountFor(g', invoked, mission)
  {
    if invoked != [] {
      CountForSame(g, g', invoked[..|invoked| - 1], mission);
    }
  }

  /** How many performs of the run escaped after their tool had run for the mission. */
  ghost function LostFor(cfg: Config, start: Runtime, ops: seq<Operation>, mission: Governor.MissionId): nat
    requires Governor.Valid(start.governor)
    decreases |ops|
  {
    if ops == [] then 0
    else
      var before, op := ops[..|ops| - 1], ops[|ops| - 1];
      LostFor(cfg, start, before, mission)
      + (if LosesResult(cfg, After(cfg, start, before), op)
            && Governor.MissionOf(start.governor, op.action.taskId) == Some(mission) then 1 else 0)
  }

  ghost predicate WithinBudget(rt: Runtime, mission: Governor.MissionId, escapes: nat) {
    && mission in rt.governor.contracts && mission in rt.governor.usage
    && CountFor(rt.governor, rt.invoked, mission) <= rt.governor.usage[mission].actions + escapes
    && CountFor(rt.governor, rt.invoked, mission) <= rt.governor.contracts[mission].maxActions + escapes
  }

  lemma PerformWithinBudget(cfg: Config, rt: Runtime, a: Action, w: World, mission: Governor.MissionId, escapes: nat)
    requires Governor.Valid(rt.governor) && WithinBudget(rt, mission, escapes)
    ensures
      var rt' := Perform(cfg, rt, a, w).0;
      var escaped := LosesResult(cfg, rt, Do(a, w)) && Governor.MissionOf(rt.governor, a.taskId) == Some(mission);
      && WithinBudget(rt', mission, if escaped then escapes + 1 else escapes)
      && rt'.governor.contracts == rt.governor.contracts && rt'.governor.tasks == rt.governor.tasks
  {
    var rt' := Perform(cfg, rt, a, w).0;
    PerformEffect(cfg, rt, a, w);
    CountForSame(rt.governor, rt'.governor, rt.invoked, mission);
    if rt'.invoked != rt.invoked {
      if Governor.MissionOf(rt.governor, a.taskId) == Some(mission) {
        RunsHasRoom(cfg, rt, a, w, mission);
      }
      assert (rt.invoked + [a])[..|rt.invoked|] == rt.invoked;
    }
    hide Perform;
  }

  /** A perform with a new result is recorded by the governor, any other is not; it may run the action's tool. */
  lemma PerformEffect(cfg: Config, rt: Runtime, a: Action, w: World)
    requires Governor.Valid(rt.governor)
    ensures
      var (rt', r) := Perform(cfg, rt, a, w);
      && (rt'.governor == rt.governor
          || (r.Some? && rt'.governor == Governor.Record(rt.governor, a.taskId, r.value.success)))
      && (rt'.invoked == rt.invoked || rt'.invoked == rt.invoked + [a])
      && (rt'.invoked != rt.invoked && rt'.governor == rt.governor && a.taskId in rt.governor.tasks ==>
            w.failure == Some(Escapes))
  {
    hide Screen, Invoke;
    if a.taskId in rt.governor.tasks {
      var u := rt.governor.usage;
      assert forall success ::
          Governor.Record(rt.governor, a.taskId, success).usage[rt.governor.tasks[a.taskId]].actions
          == u[rt.governor.tasks[a.taskId]].actions + 1;
    }
  }

  /** An action of the mission that runs was let pass by the governor, so the mission had an action left. */
  lemma RunsHasRoom(cfg: Config, rt: Runtime, a: Action, w: World, mission: Governor.MissionId)
    requires Governor.Valid(rt.governor) && mission in rt.governor.contracts && mission in rt.governor.usage
    requires Perform(cfg, rt, a, w).0.invoked != rt.invoked
             && Governor.MissionOf(rt.governor, a.taskId) == Some(mission)
    ensures rt.governor.usage[mission].actions < rt.governor.contracts[mission].maxActions
  {
    hide Invoke;
  }

  /**
   One action at a time, a mission runs at most `max_actions` tools and as many more as performs escape
   after their tool has run, whatever else the world answers.
   */
  lemma {:induction false} RunsWithinBudget(cfg: Config, start: Runtime, ops: seq<Operation>,
                                            mission: Governor.MissionId)
    requires Governor.Valid(start.governor) && mission in start.governor.contracts && start.invoked == []
    ensures
      var rt := After(cfg, start, ops);
      && WithinBudget(rt, mission, LostFor(cfg, start, ops, mission))
      && rt.governor.contracts == start.governor.contracts && rt.governor.tasks == start.governor.tasks
    decreases |ops|
  {
    hide Perform, AgentModel.Apply, LosesResult;
    if ops != [] {
      var before, op := After(cfg, start, ops[..|ops| - 1]), ops[|ops| - 1];
      RunsWithinBudget(cfg, start, ops[..|ops| - 1], mission);
      if op.Do? {
        PerformWithinBudget(cfg, before, op.action, op.world, mission, LostFor(cfg, start, ops[..|ops| - 1], mission));
      } else {
        OnlyPerformsLose(cfg, before, op);
      }
    }
  }

  lemma OnlyPerformsLose(cfg: Config, rt: Runtime, op: Operation)
    requires Governor.Valid(rt.governor) && !op.Do?
    ensures !LosesResult(cfg, rt, op)
  {
  }

  /**
   A click that is performed twice and escapes both times after the tool has run: the tool runs twice under
   a mission with a budget of one action, and neither the results nor the budget know of it.
   */
  lemma EscapeRunsToolTwice()
    ensures
      var cfg := ClickConfig(ModePolicies.Low);
      var start := ClickRuntime(cfg, ModePolicies.Autonomous);
      var escape := Do(Click(), World(No, No, NoContract, None, Some(Escapes), true));
      && Governor.Valid(start.governor)
      && var rt := After(cfg, start, [escape, escape]);
      && rt.invoked == [Click(), Click()] && !OncePerAction(rt)
      && rt.completed == map[] && rt.governor == start.governor
      && start.governor.contracts["mission"].maxActions == 1 && CountFor(rt.governor, rt.invoked, "mission") == 2
  {
    ClickRuntimeIs(ModePolicies.Low, ModePolicies.Autonomous);
    EscapedTwice(ClickRuntime(ClickConfig(ModePolicies.Low), ModePolicies.Autonomous));
    TwoClicks();
    hide After, CountFor, ClickManager, ClickRuntime, OncePerAction;
  }

  lemma EscapedTwice(start: Runtime)
    requires start == Runtime(ClickManager(), ClickGovernor(), ModePolicies.Autonomous, map[], [], [])
    ensures Governor.Valid(start.governor)
    ensures
      var escape := Do(Click(), World(No, No, NoContract, None, Some(Escapes), true));
      var rt := After(ClickConfig(ModePolicies.Low), start, [escape, escape]);
      rt == start.(invoked := [Click(), Click()], manager := rt.manager) && !OncePerAction(rt)
  {
    var cfg := ClickConfig(ModePolicies.Low);
    var w := World(No, No, NoContract, None, Some(Escapes), true);
    hide Perform, ClickManager, ClickGovernor;
    EscapedClick(start, w);
    var next := Perform(cfg, start, Click(), w).0;
    EscapedClick(next, w);
    var last := Perform(cfg, next, Click(), w).0;
    AfterTwo(cfg, start, Do(Click(), w), Do(Click(), w));
    hide After;
    assert last.invoked == [Click(), Click()] && last.invoked[0].actionId == last.invoked[1].actionId;
  }

  lemma AfterTwo(cfg: Config, start: Runtime, one: Operation, two: Operation)
    requires Governor.Valid(start.governor) && Governor.Valid(Apply(cfg, start, one).governor)
    ensures After(cfg, start, [one, two]) == Apply(cfg, Apply(cfg, start, one), two)
  {
    hide Apply;
    assert [one, two][..1] == [one] && [one][..0] == [];
    assert After(cfg, start, []) == start;
    assert After(cfg, start, [one]) == Apply(cfg, start, one);
  }

  lemma TwoClicks()
    ensures CountFor(ClickGovernor(), [Click(), Click()], "mission") == 2
  {
    assert [Click(), Click()][..1] == [Click()] && [Click()][..0] == [];
    assert CountFor(ClickGovernor(), [Click()], "mission") == 1;
  }

  lemma EscapedClick(rt: Runtime, w: World)
    requires rt.governor == ClickGovernor() && rt.mode == ModePolicies.Autonomous && rt.completed == map[]
    requires rt.manager == ClickManager().(invocations := rt.manager.invocations)
    requires w == World(No, No, NoContract, None, Some(Escapes), true)
    ensures Governor.Valid(rt.governor)
    ensures
      var rt' := Perform(ClickConfig(ModePolicies.Low), rt, Click(), w).0;
      rt' == rt.(invoked := rt.invoked + [Click()], manager := rt'.manager)
      && rt'.manager == ClickManager().(invocations := rt'.manager.invocations)
  {
    ClickRuntimeIs(ModePolicies.Low, ModePolicies.Autonomous);
    ClickScreened(rt, w);
    ClickInvokes(ModePolicies.Low, w, rt.manager.invocations);
    hide Invoke, Screen, ClickGovernor, ClickRuntime, ClickManager;
  }

  lemma ClickScreened(rt: Runtime, w: World)
    requires rt.governor == ClickGovernor() && rt.mode == ModePolicies.Autonomous && w.contract == NoContract
    ensures Governor.Valid(rt.governor) && Screen(ClickConfig(ModePolicies.Low), rt, Click(), w) == None
  {
  }
}
