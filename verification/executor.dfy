/** `ActionRuntime`, proved against `ExecutorModel`. */
module Executor {
  import opened Wrappers
  import opened ExecutorModel
  import AgentManagers
  import AgentModel
  import AgentTheorems
  import Governor
  import ModePolicies
  import Permissions

  class ActionRuntime {
    const manager: AgentManagers.AgentManager
    const governor: Governor.AutonomyGovernor
    const modePolicy: ModePolicies.ModePolicy
    const risk: AgentModel.ToolId -> ModePolicies.Risk
    const hasHandler: bool
    var completed: map<ActionId, ActionResult>
    var audit: seq<ActionId>
    ghost var invoked: seq<Action>

    constructor (manager: AgentManagers.AgentManager, governor: Governor.AutonomyGovernor,
                 modePolicy: ModePolicies.ModePolicy, risk: AgentModel.ToolId -> ModePolicies.Risk, hasHandler: bool)
      requires manager.Valid() && Governor.Valid(governor.Value())
      ensures Valid() && Value() == Runtime(manager.Value(), governor.Value(), modePolicy.mode, map[], [], [])
      ensures this.manager == manager && this.governor == governor && this.modePolicy == modePolicy
      ensures this.risk == risk && this.hasHandler == hasHandler
    {
      this.manager, this.governor, this.modePolicy := manager, governor, modePolicy;
      this.risk, this.hasHandler := risk, hasHandler;
      completed, audit, invoked := map[], [], [];
    }

    ghost function Settings(): Config {
      Config(manager.Settings(), risk, hasHandler)
    }

    ghost predicate Valid()
      reads this, manager, manager.leases, manager.policy, governor
    {
      manager.Valid() && Governor.Valid(governor.Value())
    }

    ghost function Value(): Runtime
      reads this, manager, manager.leases, manager.policy, governor, modePolicy
    {
      Runtime(manager.Value(), governor.Value(), modePolicy.mode, completed, audit, invoked)
    }

    /** No result stands for an exception that leaves the method. */
    method PerformAction(a: Action, w: World) returns (r: Option<ActionResult>)
      requires Valid()
      modifies this, governor, manager, manager.leases, manager.policy
      ensures Valid() && (Value(), r) == Perform(Settings(), old(Value()), a, w)
    {
      hide Screen, Invoke, Finish, AgentManagers.AgentManager.Valid, Governor.Valid;
      if a.actionId in completed {
        return Some(completed[a.actionId]);
      }
      var stop := CheckGates(a, w);
      if stop.Some? {
        r := LeaveWith(a, ResultOf(stop.value));
        return;
      }
      stop := InvokeTool(a, w);
      if stop.Some? {
        r := LeaveWith(a, ResultOf(stop.value));
        return;
      }
      invoked := invoked + [a];
      if w.failure.Some? {
        r := LeaveWith(a, ResultOf(w.failure.value));
      } else {
        r := LeaveWith(a, Some(ActionResult(w.verified, if w.verified then None else Some(VerificationFailed))));
      }
    }

    /** Returns through `_result`, or leaves by an exception. */
    method LeaveWith(a: Action, result: Option<ActionResult>) returns (r: Option<ActionResult>)
      requires Valid()
      modifies this, governor
      ensures Valid() && (Value(), r) == Leave(old(Value()), a, result)
    {
      hide Finish, AgentManagers.AgentManager.Valid, Governor.Valid;
      if result.Some? {
        FinishAction(a, result.value);
      }
      return result;
    }

    method CheckGates(a: Action, w: World) returns (stop: Option<Exit>)
      requires Valid()
      ensures stop == Screen(Settings(), Value(), a, w)
    {
      hide Governor.Evaluate;
      if a.tool !in manager.tools {
        return Some(Returns(ToolNotFound));
      }
      if a.permission !in manager.tools[a.tool] {
        return Some(Returns(InvalidArgument));
      }
      var governed := governor.Judge(Governor.Request(a.taskId, a.tool, a.permission,
                                                        ModePolicies.IsRisky(risk(a.tool)), 1.0));
      if governed == Governor.Deny {
        return Some(Returns(PolicyDenied));
      }
      var mode := Governor.Approval;
      if governed != Governor.Approval {
        mode := modePolicy.Decision(risk(a.tool));
      }
      if mode == Governor.Deny {
        return Some(Returns(PolicyDenied));
      }
      if mode == Governor.Approval {
        if !hasHandler {
          return Some(Returns(ApprovalRequired));
        }
        if w.approvesMode == Raises {
          return Some(Escapes);
        }
        if w.approvesMode == No {
          return Some(Returns(PolicyDenied));
        }
      }
      if w.contract == Violated || w.contract == Unmet {
        return Some(Returns(InvalidArgument));
      }
      if w.contract == Interrupted {
        return Some(Escapes);
      }
      return None;
    }

    method AskPolicy(a: Action, w: World) returns (stop: Option<Exit>)
      modifies manager.policy
      ensures (manager.policy.Value(), stop) == PolicyGate(Settings(), old(manager.policy.Value()), a, w)
    {
      var verdict := manager.policy.CheckAccess(a.agent, a.permission);
      if verdict == Permissions.Denied {
        return Some(Returns(PolicyDenied));
      }
      if verdict == Permissions.NeedsApproval {
        if !hasHandler {
          return Some(Returns(ApprovalRequired));
        }
        if w.approvesPolicy == Raises {
          return Some(Escapes);
        }
        if w.approvesPolicy == No {
          return Some(Returns(PolicyDenied));
        }
        manager.policy.ApproveNext(a.agent, a.permission);
      }
      return None;
    }

    method InvokeTool(a: Action, w: World) returns (stop: Option<Exit>)
      requires manager.Valid()
      modifies manager, manager.leases, manager.policy
      ensures manager.Valid()
      ensures (manager.Value(), stop) == Invoke(Settings(), old(manager.Value()), a, w)
    {
      hide PolicyGate, AgentModel.Execute, AgentTheorems.Contained, AgentTheorems.Structured;
      ghost var before := manager.Value();
      stop := AskPolicy(a, w);
      PolicyKeepsContained(manager.Settings(), before, manager.policy.Value());
      assert manager.Value() == before.(policy := manager.policy.Value());
      if stop.Some? {
        return;
      }
      if w.unready.Some? {
        return w.unready;
      }
      var refusal := manager.ExecuteTool(a.agent, a.tool);
      stop := if refusal.Some? then Some(Returns(CodeOf(refusal.value))) else None;
    }

    /** `_result`. */
    method FinishAction(a: Action, r: ActionResult)
      requires Valid()
      modifies this, governor
      ensures Valid() && Value() == Finish(old(Value()), a, r)
    {
      hide Governor.Record;
      completed := completed[a.actionId := r];
      governor.Count(a.taskId, r.success);
      if a.agent < |manager.agents| {
        audit := audit + [a.actionId];
      }
    }
  }
}
