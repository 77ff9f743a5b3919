/** `AutonomyGovernor`: mission contracts and budgets, with any number of actions in flight. */
module Governor {
  import opened Wrappers

  type TaskId = string
  type MissionId = string

  datatype Contract = Contract(
    missionId: MissionId,
    allowedTools: set<string>,
    allowedPermissions: set<string>,
    forbiddenActions: set<string>,
    maxActions: int,
    maxFailures: int,
    minimumConfidence: real)

  datatype Usage = Usage(actions: nat, failures: nat)

  datatype Decision = Allow | Approval | Deny

  /** `risky` stands for a tool of high risk or one marked destructive. */
  datatype Request = Request(taskId: TaskId, actionType: string, permission: string, risky: bool, confidence: real)

  datatype Governor = Governor(contracts: map<MissionId, Contract>, tasks: map<TaskId, MissionId>,
                               usage: map<MissionId, Usage>)

  const EMPTY := Governor(map[], map[], map[])

  predicate ValidContract(c: Contract) {
    c.maxActions >= 1 && c.maxFailures >= 0 && 0.0 <= c.minimumConfidence <= 1.0
  }

  /** Every task belongs to a mission with a valid contract and a usage. */
  ghost predicate Valid(g: Governor) {
    && g.contracts.Keys == g.usage.Keys
    && (forall t | t in g.tasks :: g.tasks[t] in g.contracts)
    && (forall m | m in g.contracts :: ValidContract(g.contracts[m]))
  }

  /** Registering a mission again replaces its contract and keeps its usage. */
  function Register(g: Governor, c: Contract, taskIds: set<TaskId>): Result<Governor, string> {
    if c.maxActions < 1 || c.maxFailures < 0 then Err("Mission budgets are invalid")
    else if !(0.0 <= c.minimumConfidence <= 1.0) then Err("Mission confidence threshold is invalid")
    else
      Ok(Governor(g.contracts[c.missionId := c],
                  map t | t in g.tasks.Keys + taskIds :: if t in taskIds then c.missionId else g.tasks[t],
                  if c.missionId in g.usage then g.usage else g.usage[c.missionId := Usage(0, 0)]))
  }

  predicate Exhausted(c: Contract, u: Usage) {
    u.actions >= c.maxActions || u.failures >= c.maxFailures
  }

  function Evaluate(g: Governor, r: Request): Decision
    requires Valid(g)
  {
    if r.taskId !in g.tasks then Allow
    else
      var c, u := g.contracts[g.tasks[r.taskId]], g.usage[g.tasks[r.taskId]];
      if r.actionType in c.forbiddenActions then Deny
      else if c.allowedTools != {} && r.actionType !in c.allowedTools then Deny
      else if c.allowedPermissions != {} && r.permission !in c.allowedPermissions then Deny
      else if Exhausted(c, u) then Deny
      else if r.confidence < c.minimumConfidence then Approval
      else if r.risky then Approval
      else Allow
  }

  /**
   For a task of a mission the governor denies exactly what the contract forbids, what lies outside its
   tools or permissions where it names any, and everything once a budget is used up; it asks about what
   is left where the confidence is too low or the tool is risky, and allows the rest. A task of no
   mission is always allowed.
   */
  lemma EvaluatesExactly(g: Governor, r: Request)
    requires Valid(g)
    ensures r.taskId !in g.tasks ==> Evaluate(g, r) == Allow
    ensures r.taskId in g.tasks ==>
      var c, u := g.contracts[g.tasks[r.taskId]], g.usage[g.tasks[r.taskId]];
      var denied := || r.actionType in c.forbiddenActions
                    || (c.allowedTools != {} && r.actionType !in c.allowedTools)
                    || (c.allowedPermissions != {} && r.permission !in c.allowedPermissions)
                    || u.actions >= c.maxActions || u.failures >= c.maxFailures;
      && (Evaluate(g, r) == Deny <==> denied)
      && (Evaluate(g, r) == Approval <==> !denied && (r.confidence < c.minimumConfidence || r.risky))
      && (Evaluate(g, r) == Allow <==> !denied && r.confidence >= c.minimumConfidence && !r.risky)
  {
  }

  /**
   Registering is refused exactly for a budget or threshold out of range. Otherwise the mission gets the
   contract and the tasks; other missions keep theirs, and a mission that was known keeps its usage.
   */
  lemma RegistersExactly(g: Governor, c: Contract, taskIds: set<TaskId>)
    requires Valid(g)
    ensures
      var r := Register(g, c, taskIds);
      && (r.Ok? <==> c.maxActions >= 1 && c.maxFailures >= 0 && 0.0 <= c.minimumConfidence <= 1.0)
      && (r.Ok? ==>
            && Valid(r.value) && c.missionId in r.value.contracts && r.value.contracts[c.missionId] == c
            && (forall t | t in taskIds :: t in r.value.tasks && r.value.tasks[t] == c.missionId)
            && (forall t | t !in taskIds :: MissionOf(r.value, t) == MissionOf(g, t))
            && (forall m | m in g.contracts ::
                  && m in r.value.contracts && r.value.usage[m] == g.usage[m]
                  && (m != c.missionId ==> r.value.contracts[m] == g.contracts[m]))
            && (c.missionId !in g.contracts ==> r.value.usage[c.missionId] == Usage(0, 0))
            && r.value.contracts.Keys == g.contracts.Keys + {c.missionId})
  {
  }

  /** With full confidence the governor asks a human exactly about the risky tools of missions that do not deny them. */
  lemma AsksExactly(g: Governor, r: Request)
    requires Valid(g) && r.confidence == 1.0
    ensures Evaluate(g, r) == Approval <==> r.taskId in g.tasks && r.risky && Evaluate(g, r) != Deny
  {
    if r.taskId in g.tasks {
      assert ValidContract(g.contracts[g.tasks[r.taskId]]);
    }
  }

  function Record(g: Governor, taskId: TaskId, success: bool): Governor
    requires Valid(g)
  {
    if taskId !in g.tasks then g
    else
      var u := g.usage[g.tasks[taskId]];
      g.(usage := g.usage[g.tasks[taskId] := Usage(u.actions + 1, if success then u.failures else u.failures + 1)])
  }

  /** A result is one action for the task's mission, and a failure for it exactly when it is no success. */
  lemma RecordsExactly(g: Governor, taskId: TaskId, success: bool)
    requires Valid(g)
    ensures
      var g' := Record(g, taskId, success);
      && g'.contracts == g.contracts && g'.tasks == g.tasks
      && (taskId !in g.tasks ==> g'.usage == g.usage)
      && (taskId in g.tasks ==>
            var mission := g.tasks[taskId];
            var u := g.usage[mission];
            g'.usage == g.usage[mission := Usage(u.actions + 1, if success then u.failures else u.failures + 1)])
  {
  }

  // ---- Actions in flight ---------------------------------------------

  function MissionOf(g: Governor, taskId: TaskId): Option<MissionId> {
    if taskId in g.tasks then Some(g.tasks[taskId]) else None
  }

  datatype Progress = Open | Succeeded | Failed

  /** An action that the governor let past under a mission; open until its result is recorded. */
  datatype Flight = Flight(taskId: TaskId, mission: Option<MissionId>, progress: Progress)

  function Landed(f: Flight, success: bool): Flight {
    f.(progress := if success then Succeeded else Failed)
  }

  function Entering(g: Governor, r: Request): Flight {
    Flight(r.taskId, MissionOf(g, r.taskId), Open)
  }

  datatype State = State(governor: Governor, flights: seq<Flight>)

  /**
   `Enter`: the governor judges an action, and a denial is recorded at once. `Finish`: an action that
   was let past is recorded. `Refuse`: an action is recorded without having been judged.
   */
  datatype Operation =
    | Enroll(contract: Contract, taskIds: set<TaskId>)
    | Enter(request: Request)
    | Finish(flight: nat, success: bool)
    | Refuse(taskId: TaskId)

  function Apply(s: State, op: Operation): State
    requires Valid(s.governor)
  {
    match op
    case Enroll(contract, taskIds) =>
      var r := Register(s.governor, contract, taskIds);
      if r.Ok? then s.(governor := r.value) else s
    case Enter(request) =>
      if Evaluate(s.governor, request) == Deny then s.(governor := Record(s.governor, request.taskId, false))
      else s.(flights := s.flights + [Entering(s.governor, request)])
    case Finish(i, success) =>
      if i < |s.flights| && s.flights[i].progress == Open then
        State(Record(s.governor, s.flights[i].taskId, success), s.flights[i := Landed(s.flights[i], success)])
      else s
    case Refuse(taskId) => s.(governor := Record(s.governor, taskId, false))
  }

  lemma ApplyValid(s: State, op: Operation)
    requires Valid(s.governor)
    ensures Valid(Apply(s, op).governor)
  {
  }

  function After(g: Governor, ops: seq<Operation>): (s: State)
    requires Valid(g)
    ensures Valid(s.governor)
    decreases |ops|
  {
    if ops == [] then State(g, [])
    else
      var before := After(g, ops[..|ops| - 1]);
      ApplyValid(before, ops[|ops| - 1]);
      Apply(before, ops[|ops| - 1])
  }

  /** The operation leaves the mission's contract alone and moves no task from one mission to another. */
  ghost predicate Fixes(g: Governor, op: Operation, mission: MissionId) {
    op.Enroll? ==>
      && (op.contract.missionId == mission && mission in g.contracts ==> op.contract == g.contracts[mission])
      && (forall t | t in op.taskIds && t in g.tasks :: g.tasks[t] == op.contract.missionId)
  }

  ghost predicate FixesThroughout(g: Governor, ops: seq<Operation>, mission: MissionId)
    requires Valid(g)
  {
    forall n | 0 <= n < |ops| :: Fixes(After(g, ops[..n]).governor, ops[n], mission)
  }

  function Count(flights: seq<Flight>, mission: MissionId, progress: Progress): nat {
    if flights == [] then 0
    else
      Count(flights[1..], mission, progress)
      + (if flights[0].progress == progress && flights[0].mission == Some(mission) then 1 else 0)
  }

  function CountOpen(s: State, mission: MissionId): nat {
    Count(s.flights, mission, Open)
  }

  function CountFailed(s: State, mission: MissionId): nat {
    Count(s.flights, mission, Failed)
  }

  /** Every action let past under the mission, recorded or not. */
  function CountPassed(s: State, mission: MissionId): nat {
    Count(s.flights, mission, Open) + Count(s.flights, mission, Succeeded) + Count(s.flights, mission, Failed)
  }

  // ---- Budgets -------------------------------------------------------

  /** Every action let past under the mission is still in flight or was counted against its budgets. */
  ghost predicate Accounted(s: State, mission: MissionId) {
    && mission in s.governor.usage
    && CountPassed(s, mission) <= s.governor.usage[mission].actions + CountOpen(s, mission)
    && CountFailed(s, mission) <= s.governor.usage[mission].failures
    && forall i | 0 <= i < |s.flights| && s.flights[i].mission == Some(mission) ::
         MissionOf(s.governor, s.flights[i].taskId) == Some(mission)
  }

  lemma {:induction false} CountAppend(flights: seq<Flight>, f: Flight, mission: MissionId, progress: Progress)
    ensures Count(flights + [f], mission, progress)
         == Count(flights, mission, progress) + (if f.progress == progress && f.mission == Some(mission) then 1 else 0)
  {
    if flights != [] {
      CountAppend(flights[1..], f, mission, progress);
      assert (flights + [f])[1..] == flights[1..] + [f];
    }
  }

  lemma {:induction false} CountReplace(flights: seq<Flight>, i: nat, f: Flight, mission: MissionId, progress: Progress)
    requires i < |flights| && f.mission == flights[i].mission
    ensures
      var mine := if f.mission == Some(mission) then 1 else 0;
      Count(flights[i := f], mission, progress) + (if flights[i].progress == progress then mine else 0)
      == Count(flights, mission, progress) + (if f.progress == progress then mine else 0)
  {
    if i > 0 {
      CountReplace(flights[1..], i - 1, f, mission, progress);
      assert flights[i := f][1..] == flights[1..][i - 1 := f];
    } else {
      assert flights[i := f][1..] == flights[1..];
    }
  }

  /** What one operation does to the counts of a mission. */
  lemma CountsStep(s: State, op: Operation, mission: MissionId)
    requires Valid(s.governor)
    ensures
      var s', passes, lands := Apply(s, op), Passes(s, op, mission), Lands(s, op, mission);
      && CountOpen(s', mission) == CountOpen(s, mission) + (if passes then 1 else 0) - (if lands then 1 else 0)
      && CountFailed(s', mission) == CountFailed(s, mission) + (if lands && !op.success then 1 else 0)
      && CountPassed(s', mission) == CountPassed(s, mission) + (if passes then 1 else 0)
  {
    hide Count, Evaluate, Register;
    forall progress ensures
        var s', passes, lands := Apply(s, op), Passes(s, op, mission), Lands(s, op, mission);
        Count(s'.flights, mission, progress)
        == Count(s.flights, mission, progress)
           + (if passes && progress == Open then 1 else 0) - (if lands && progress == Open then 1 else 0)
           + (if lands && progress == Landed(s.flights[op.flight], op.success).progress then 1 else 0)
    {
      if op.Enter? {
        CountAppend(s.flights, Entering(s.governor, op.request), mission, progress);
      } else if op.Finish? && op.flight < |s.flights| && s.flights[op.flight].progress == Open {
        CountReplace(s.flights, op.flight, Landed(s.flights[op.flight], op.success), mission, progress);
      }
    }
  }

  /** The operation lets an action of the mission past. */
  predicate Passes(s: State, op: Operation, mission: MissionId)
    requires Valid(s.governor)
  {
    op.Enter? && MissionOf(s.governor, op.request.taskId) == Some(mission) && Evaluate(s.governor, op.request) != Deny
  }

  /** The operation records an action of the mission that was in flight. */
  predicate Lands(s: State, op: Operation, mission: MissionId) {
    && op.Finish? && op.flight < |s.flights| && s.flights[op.flight].progress == Open
    && s.flights[op.flight].mission == Some(mission)
  }

  lemma ApplyAccounted(s: State, op: Operation, mission: MissionId)
    requires Valid(s.governor) && Accounted(s, mission) && Fixes(s.governor, op, mission)
    ensures Accounted(Apply(s, op), mission)
  {
    hide CountPassed, CountFailed, CountOpen, Evaluate;
    CountsStep(s, op, mission);
  }

  /** The contract of the mission stays, and its usage never shrinks. */
  lemma ApplyKeepsMission(s: State, op: Operation, mission: MissionId)
    requires Valid(s.governor) && mission in s.governor.contracts && Fixes(s.governor, op, mission)
    ensures
      var g, g' := s.governor, Apply(s, op).governor;
      && mission in g'.contracts && mission in g'.usage
      && g'.contracts[mission] == g.contracts[mission]
      && g'.usage[mission].actions >= g.usage[mission].actions
      && g'.usage[mission].failures >= g.usage[mission].failures
  {
  }

  lemma FixedPrefix(g: Governor, ops: seq<Operation>, mission: MissionId)
    requires Valid(g) && ops != [] && FixesThroughout(g, ops, mission)
    ensures FixesThroughout(g, ops[..|ops| - 1], mission)
    ensures Fixes(After(g, ops[..|ops| - 1]).governor, ops[|ops| - 1], mission)
  {
    hide Valid, After, Fixes;
    var before := ops[..|ops| - 1];
    forall n | 0 <= n < |before| ensures Fixes(After(g, before[..n]).governor, before[n], mission) {
      assert before[..n] == ops[..n];
    }
  }

  lemma {:induction false} RunsAccount(g: Governor, ops: seq<Operation>, mission: MissionId)
    requires Valid(g) && mission in g.contracts && FixesThroughout(g, ops, mission)
    ensures
      var s := After(g, ops);
      Accounted(s, mission) && mission in s.governor.contracts && s.governor.contracts[mission] == g.contracts[mission]
    decreases |ops|
  {
    hide Accounted, Fixes, Apply;
    if ops == [] {
      InitiallyAccounted(g, mission);
    } else {
      FixedPrefix(g, ops, mission);
      RunsAccount(g, ops[..|ops| - 1], mission);
      ApplyAccounted(After(g, ops[..|ops| - 1]), ops[|ops| - 1], mission);
      ApplyKeepsMission(After(g, ops[..|ops| - 1]), ops[|ops| - 1], mission);
    }
  }

  lemma InitiallyAccounted(g: Governor, mission: MissionId)
    requires Valid(g) && mission in g.contracts
    ensures Accounted(State(g, []), mission)
  {
  }

  ghost predicate AtMostInFlight(g: Governor, ops: seq<Operation>, mission: MissionId, k: nat)
    requires Valid(g)
  {
    forall n | 0 <= n <= |ops| :: CountOpen(After(g, ops[..n]), mission) <= k
  }

  lemma InFlightPrefix(g: Governor, ops: seq<Operation>, mission: MissionId, k: nat)
    requires Valid(g) && ops != [] && AtMostInFlight(g, ops, mission, k)
    ensures AtMostInFlight(g, ops[..|ops| - 1], mission, k)
    ensures CountOpen(After(g, ops), mission) <= k
  {
    hide Valid, After, CountOpen;
    var before := ops[..|ops| - 1];
    forall n | 0 <= n <= |before| ensures CountOpen(After(g, before[..n]), mission) <= k {
      assert before[..n] == ops[..n];
    }
    assert ops[..|ops|] == ops;
  }

  /**
   With at most `k` of its actions in flight at any time, however judging and recording interleave,
   a mission never lets more than `max_actions + k - 1` actions past, and of these never more than
   `max_failures + k - 1` fail.
   */
  lemma {:induction false} PassesWithinBudget(g: Governor, ops: seq<Operation>, mission: MissionId, k: nat)
    requires Valid(g) && mission in g.contracts && FixesThroughout(g, ops, mission)
             && AtMostInFlight(g, ops, mission, k)
    ensures CountPassed(After(g, ops), mission) <= g.contracts[mission].maxActions + k - 1
    ensures k >= 1 ==> CountFailed(After(g, ops), mission) + CountOpen(After(g, ops), mission)
                       <= g.contracts[mission].maxFailures + k - 1
    ensures k == 0 ==> CountFailed(After(g, ops), mission) == 0
    decreases |ops|
  {
    if ops == [] {
      assert ValidContract(g.contracts[mission]);
    } else {
      hide Apply, Fixes, Count;
      var before := ops[..|ops| - 1];
      FixedPrefix(g, ops, mission);
      InFlightPrefix(g, ops, mission, k);
      PassesWithinBudget(g, before, mission, k);
      RunsAccount(g, before, mission);
      PassStep(After(g, before), ops[|ops| - 1], mission, k);
    }
  }

  /** An action is let past only while both budgets last. */
  lemma PassStep(s: State, op: Operation, mission: MissionId, k: nat)
    requires Valid(s.governor) && Accounted(s, mission) && mission in s.governor.contracts
    requires CountOpen(Apply(s, op), mission) <= k && CountOpen(s, mission) <= k
    requires CountPassed(s, mission) <= s.governor.contracts[mission].maxActions + k - 1
    requires k >= 1 ==>
               CountFailed(s, mission) + CountOpen(s, mission) <= s.governor.contracts[mission].maxFailures + k - 1
    requires k == 0 ==> CountFailed(s, mission) == 0
    ensures CountPassed(Apply(s, op), mission) <= s.governor.contracts[mission].maxActions + k - 1
    ensures k >= 1 ==> CountFailed(Apply(s, op), mission) + CountOpen(Apply(s, op), mission)
                       <= s.governor.contracts[mission].maxFailures + k - 1
    ensures k == 0 ==> CountFailed(Apply(s, op), mission) == 0
  {
    CountsStep(s, op, mission);
    hide Apply, CountPassed, CountFailed, CountOpen;
  }

  /** Once a budget is exhausted, every later action of the mission is denied. */
  lemma {:induction false} ExhaustedForever(g: Governor, ops: seq<Operation>, mission: MissionId, r: Request)
    requires Valid(g) && mission in g.contracts && FixesThroughout(g, ops, mission)
    requires Exhausted(g.contracts[mission], g.usage[mission])
    ensures
      var g' := After(g, ops).governor;
      && mission in g'.contracts && g'.contracts[mission] == g.contracts[mission]
      && Exhausted(g'.contracts[mission], g'.usage[mission])
      && (MissionOf(g', r.taskId) == Some(mission) ==> Evaluate(g', r) == Deny)
    decreases |ops|
  {
    hide Fixes, Apply;
    if ops != [] {
      FixedPrefix(g, ops, mission);
      ExhaustedForever(g, ops[..|ops| - 1], mission, r);
      ApplyKeepsMission(After(g, ops[..|ops| - 1]), ops[|ops| - 1], mission);
    }
  }

  // ---- The class -----------------------------------------------------

  class AutonomyGovernor {
    var contracts: map<MissionId, Contract>
    var tasks: map<TaskId, MissionId>
    var usage: map<MissionId, Usage>

    constructor ()
      ensures Value() == EMPTY
    {
      contracts, tasks, usage := map[], map[], map[];
    }

    function Value(): Governor
      reads this
    {
      Governor(contracts, tasks, usage)
    }

    method Enroll(contract: Contract, taskIds: set<TaskId>) returns (r: Result<(), string>)
      requires Valid(Value())
      modifies this
      ensures Valid(Value())
      ensures
        var expected := Register(old(Value()), contract, taskIds);
        if expected.Ok? then r == Ok(()) && Value() == expected.value
        else r == Err(expected.error) && Value() == old(Value())
    {
      if contract.maxActions < 1 || contract.maxFailures < 0 {
        return Err("Mission budgets are invalid");
      }
      if contract.minimumConfidence < 0.0 || contract.minimumConfidence > 1.0 {
        return Err("Mission confidence threshold is invalid");
      }
      contracts := contracts[contract.missionId := contract];
      if contract.missionId !in usage {
        usage := usage[contract.missionId := Usage(0, 0)];
      }
      Place(taskIds, contract.missionId);
      return Ok(());
    }

    method Place(taskIds: set<TaskId>, mission: MissionId)
      modifies this`tasks
      ensures tasks == map t | t in old(tasks).Keys + taskIds :: if t in taskIds then mission else old(tasks)[t]
    {
      var rest := taskIds;
      while rest != {}
        invariant rest <= taskIds
        invariant tasks == map t | t in old(tasks).Keys + (taskIds - rest) ::
                             if t in taskIds - rest then mission else old(tasks)[t]
        decreases rest
      {
        var t :| t in rest;
        tasks := tasks[t := mission];
        rest := rest - {t};
      }
    }

    method Judge(r: Request) returns (decision: Decision)
      requires Valid(Value())
      ensures decision == Evaluate(Value(), r)
    {
      if r.taskId !in tasks {
        return Allow;
      }
      var contract, used := contracts[tasks[r.taskId]], usage[tasks[r.taskId]];
      if r.actionType in contract.forbiddenActions {
        return Deny;
      }
      if contract.allowedTools != {} && r.actionType !in contract.allowedTools {
        return Deny;
      }
      if contract.allowedPermissions != {} && r.permission !in contract.allowedPermissions {
        return Deny;
      }
      if used.actions >= contract.maxActions || used.failures >= contract.maxFailures {
        return Deny;
      }
      if r.confidence < contract.minimumConfidence || r.risky {
        return Approval;
      }
      return Allow;
    }

    method Count(taskId: TaskId, success: bool)
      requires Valid(Value())
      modifies this`usage
      ensures Valid(Value()) && Value() == Record(old(Value()), taskId, success)
    {
      if taskId in tasks {
        var used := usage[tasks[taskId]];
        used := used.(actions := used.actions + 1);
        if !success {
          used := used.(failures := used.failures + 1);
        }
        usage := usage[tasks[taskId] := used];
      }
    }
  }
}
