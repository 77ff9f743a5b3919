/** `PermissionPolicy`: global modes and one-shot approvals. */
module Permissions {
  import opened Leases

  datatype Mode = AutoApprove | RequireApproval | Deny

  datatype Verdict = Passed | Denied | NeedsApproval

  datatype Policy = Policy(modes: map<Permission, Mode>, approved: set<(AgentId, Permission)>)

  function ModeOf(modes: map<Permission, Mode>, permission: Permission): Mode {
    if permission in modes then modes[permission] else AutoApprove
  }

  function ApproveOnce(p: Policy, agent: AgentId, permission: Permission): Policy {
    p.(approved := p.approved + {(agent, permission)})
  }

  function Check(p: Policy, agent: AgentId, permission: Permission): (Policy, Verdict) {
    match ModeOf(p.modes, permission)
    case Deny => (p, Denied)
    case AutoApprove => (p, Passed)
    case RequireApproval =>
      if (agent, permission) in p.approved then (p.(approved := p.approved - {(agent, permission)}), Passed)
      else (p, NeedsApproval)
  }

  // ---- Runs ----------------------------------------------------------

  datatype Operation = Approve(agent: AgentId, permission: Permission) | Ask(agent: AgentId, permission: Permission)

  function Apply(p: Policy, op: Operation): Policy {
    match op
    case Approve(agent, permission) => ApproveOnce(p, agent, permission)
    case Ask(agent, permission) => Check(p, agent, permission).0
  }

  function After(modes: map<Permission, Mode>, ops: seq<Operation>): Policy
    decreases |ops|
  {
    if ops == [] then Policy(modes, {}) else Apply(After(modes, ops[..|ops| - 1]), ops[|ops| - 1])
  }

  function Approvals(ops: seq<Operation>, agent: AgentId, permission: Permission): nat {
    if ops == [] then 0
    else Approvals(ops[..|ops| - 1], agent, permission)
         + (if ops[|ops| - 1] == Approve(agent, permission) then 1 else 0)
  }

  function Passes(modes: map<Permission, Mode>, ops: seq<Operation>, agent: AgentId, permission: Permission): nat
    decreases |ops|
  {
    if ops == [] then 0
    else
      var before, op := ops[..|ops| - 1], ops[|ops| - 1];
      Passes(modes, before, agent, permission)
      + (if op == Ask(agent, permission) && Check(After(modes, before), agent, permission).1 == Passed then 1 else 0)
  }

  /** The reference: the last thing that happened to the pair was an approval. */
  predicate LastWasApproval(ops: seq<Operation>, agent: AgentId, permission: Permission) {
    ops != [] &&
    (ops[|ops| - 1] == Approve(agent, permission)
     || (ops[|ops| - 1] != Ask(agent, permission) && LastWasApproval(ops[..|ops| - 1], agent, permission)))
  }

  /** A check in approval mode passes exactly when an approval was given since the pair was last checked. */
  lemma {:induction false} PassesExactly(modes: map<Permission, Mode>, ops: seq<Operation>, agent: AgentId,
                                         permission: Permission)
    requires ModeOf(modes, permission) == RequireApproval
    ensures After(modes, ops).modes == modes
    ensures Check(After(modes, ops), agent, permission).1 == Passed <==> LastWasApproval(ops, agent, permission)
    decreases |ops|
  {
    if ops != [] {
      PassesExactly(modes, ops[..|ops| - 1], agent, permission);
    }
  }

  /** What a check answers, by the mode of the permission alone and, in approval mode, by what happened before. */
  lemma ChecksExactly(modes: map<Permission, Mode>, ops: seq<Operation>, agent: AgentId, permission: Permission)
    ensures
      var verdict := Check(After(modes, ops), agent, permission).1;
      var mode := if permission in modes then modes[permission] else AutoApprove;
      verdict == (if mode == Deny then Denied
                  else if mode == AutoApprove || LastWasApproval(ops, agent, permission) then Passed
                  else NeedsApproval)
  {
    ModesStay(modes, ops);
    if ModeOf(modes, permission) == RequireApproval {
      PassesExactly(modes, ops, agent, permission);
    }
  }

  lemma {:induction false} ModesStay(modes: map<Permission, Mode>, ops: seq<Operation>)
    ensures After(modes, ops).modes == modes
    decreases |ops|
  {
    if ops != [] {
      ModesStay(modes, ops[..|ops| - 1]);
    }
  }

  /** Passed checks, and an approval still open, never outnumber the approvals given. */
  lemma {:induction false} ApprovalsConserved(modes: map<Permission, Mode>, ops: seq<Operation>, agent: AgentId,
                                              permission: Permission)
    requires ModeOf(modes, permission) == RequireApproval
    ensures
      Passes(modes, ops, agent, permission) + (if LastWasApproval(ops, agent, permission) then 1 else 0)
      <= Approvals(ops, agent, permission)
    decreases |ops|
  {
    if ops != [] {
      ApprovalsConserved(modes, ops[..|ops| - 1], agent, permission);
      PassesExactly(modes, ops[..|ops| - 1], agent, permission);
    }
  }

  // ---- The class -----------------------------------------------------

  class PermissionPolicy {
    const modes: map<Permission, Mode>
    var approved: set<(AgentId, Permission)>

    constructor (modes: map<Permission, Mode>)
      ensures Value() == Policy(modes, {})
    {
      this.modes := modes;
      approved := {};
    }

    function Value(): Policy
      reads this
    {
      Policy(modes, approved)
    }

    method ApproveNext(agent: AgentId, permission: Permission)
      modifies this
      ensures Value() == ApproveOnce(old(Value()), agent, permission)
    {
      approved := approved + {(agent, permission)};
    }

    method CheckAccess(agent: AgentId, permission: Permission) returns (verdict: Verdict)
      modifies this
      ensures (Value(), verdict) == Check(old(Value()), agent, permission)
    {
      var mode := if permission in modes then modes[permission] else AutoApprove;
      if mode == Deny {
        return Denied;
      }
      if mode == RequireApproval {
        if (agent, permission) in approved {
          approved := approved - {(agent, permission)};
          return Passed;
        }
        return NeedsApproval;
      }
      return Passed;
    }
  }
}
