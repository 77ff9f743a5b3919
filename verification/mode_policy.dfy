/** `ModePolicy`: what the autonomy mode says of a tool. */
module ModePolicies {
  import opened Governor

  datatype AutonomyMode = ObserveOnly | Assisted | Autonomous | Supervised | Watch | Takeover | Paused

  datatype RiskLevel = Low | Medium | High

  datatype Risk = Risk(level: RiskLevel, destructive: bool)

  /** What the governor asks a human about. */
  predicate IsRisky(risk: Risk) {
    risk.level == High || risk.destructive
  }

  /** What supervision and watching are about. */
  predicate IsSensitive(risk: Risk) {
    risk.level != Low || risk.destructive
  }

  function Decide(mode: AutonomyMode, risk: Risk): Decision {
    if mode == Takeover || mode == Paused || mode == ObserveOnly then Deny
    else if mode == Assisted then Deny
    else if mode == Watch && IsSensitive(risk) then Deny
    else if mode == Supervised && IsSensitive(risk) then Approval
    else Allow
  }

  /**
   Four modes deny every tool; of the sensitive tools, those of medium or high risk or marked destructive,
   watching denies all and supervision asks about all; everything else is allowed.
   */
  lemma DecidesExactly(mode: AutonomyMode, risk: Risk)
    ensures
      var sensitive := risk.level == Medium || risk.level == High || risk.destructive;
      && (Decide(mode, risk) == Deny
          <==> mode in {ObserveOnly, Assisted, Takeover, Paused} || (mode == Watch && sensitive))
      && (Decide(mode, risk) == Approval <==> mode == Supervised && sensitive)
      && (Decide(mode, risk) == Allow <==> mode == Autonomous || (mode in {Supervised, Watch} && !sensitive))
    ensures mode != Autonomous && IsRisky(risk) ==> Decide(mode, risk) != Allow
  {
  }

  class ModePolicy {
    var mode: AutonomyMode

    constructor (mode: AutonomyMode)
      ensures this.mode == mode
    {
      this.mode := mode;
    }

    method Decision(risk: Risk) returns (decision: Decision)
      ensures decision == Decide(mode, risk)
    {
      if mode in {Takeover, Paused, ObserveOnly} {
        return Deny;
      }
      if mode == Assisted {
        return Deny;
      }
      if mode == Watch && (risk.level != Low || risk.destructive) {
        return Deny;
      }
      if mode == Supervised && (risk.level != Low || risk.destructive) {
        return Approval;
      }
      return Allow;
    }
  }
}
