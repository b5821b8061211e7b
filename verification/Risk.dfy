/** Risk-tiered autonomy: classification, session grants, and the policy of unattended runs. */
module RiskPolicy {
  import opened MemoryModel
  import opened Messages
  import opened AgentLoop

  datatype Decision = Auto | Confirm | Block

  datatype Finding = Finding(signal: string, blocking: bool)

  /** The command scanner and the substring hints, as arbitrary functions of the text they see. */
  datatype Scanner = Scanner(scan: string -> seq<Finding>, irreversibleHint: (string, Args) -> bool)

  const ALWAYS_CONFIRM := {"run_shell"}

  function Findings(sc: Scanner, call: ToolCall): seq<Finding> {
    if "command" in call.args && call.args["command"].Text? then sc.scan(call.args["command"].text) else []
  }

  predicate Blocked(sc: Scanner, call: ToolCall) {
    exists i :: 0 <= i < |Findings(sc, call)| && Findings(sc, call)[i].blocking
  }

  predicate Irreversible(sc: Scanner, call: ToolCall) { sc.irreversibleHint(call.name, call.args) }

  function Classify(sc: Scanner, grants: set<string>, call: ToolCall, base: Risk): Decision {
    if Blocked(sc, call) then Block
    else if base == Safe && !Irreversible(sc, call) then Auto
    else if Irreversible(sc, call) then Confirm
    else if call.name in grants then Auto
    else if base == Caution || base == Danger || call.name in ALWAYS_CONFIRM then Confirm
    else Auto
  }

  class RiskEngine {
    const scanner: Scanner
    var sessionGrants: set<string>

    constructor (scanner: Scanner)
      ensures this.scanner == scanner && sessionGrants == {}
    {
      this.scanner := scanner;
      sessionGrants := {};
    }

    method ClassifyCall(call: ToolCall, base: Risk) returns (d: Decision)
      ensures d == Classify(scanner, sessionGrants, call, base)
      ensures Irreversible(scanner, call) ==> d != Auto
    {
      var findings := Findings(scanner, call);
      for i := 0 to |findings|
        invariant forall j :: 0 <= j < i ==> !findings[j].blocking
      {
        if findings[i].blocking {
          return Block;
        }
      }
      if base == Safe && !Irreversible(scanner, call) {
        return Auto;
      }
      if Irreversible(scanner, call) {
        return Confirm;
      }
      if call.name in sessionGrants {
        return Auto;
      }
      if base == Caution || base == Danger || call.name in ALWAYS_CONFIRM {
        return Confirm;
      }
      return Auto;
    }

    /** A grant is by tool name, and the caller says whether the call was irreversible. */
    method GrantSession(call: ToolCall, irreversible: bool) returns (accepted: bool)
      modifies this
      ensures accepted <==> !irreversible
      ensures sessionGrants == if irreversible then old(sessionGrants) else old(sessionGrants) + {call.name}
    {
      if irreversible {
        return false;
      }
      sessionGrants := sessionGrants + {call.name};
      return true;
    }
  }

  /**
   * What grants can buy: with any set of grants a call runs unasked exactly when nothing blocks
   * it, it is not irreversible, and its tool is declared safe or has been granted.
   */
  lemma AutoExactly(sc: Scanner, grants: set<string>, call: ToolCall, base: Risk)
    ensures Classify(sc, grants, call, base) == Auto <==>
              !Blocked(sc, call) && !Irreversible(sc, call) && (base == Safe || call.name in grants)
  {
  }

  /** Every decision, said of the scanner and the hints: blocked commands, then irreversible calls, then grants. */
  lemma ClassifyExactly(sc: Scanner, grants: set<string>, call: ToolCall, base: Risk)
    ensures Classify(sc, grants, call, base) == Block <==>
              && "command" in call.args && call.args["command"].Text?
              && exists f :: f in sc.scan(call.args["command"].text) && f.blocking
    ensures Classify(sc, grants, call, base) == Auto <==>
              && Classify(sc, grants, call, base) != Block
              && !sc.irreversibleHint(call.name, call.args) && (base == Safe || call.name in grants)
  {
    var fs := Findings(sc, call);
    if f :| f in fs && f.blocking {
      var i :| 0 <= i < |fs| && fs[i] == f;
    }
  }

  datatype Autonomy = SafeOnly | Authorized

  /** The approver of a scheduled run, over a fresh engine. */
  function PolicyApprove(sc: Scanner, autonomy: Autonomy): (nat, ToolCall, Risk) -> Approval {
    (n, call, risk) =>
      match Classify(sc, {}, call, risk)
      case Block => Approval(false, Some(Denial(call.name, true)))
      case Auto => Approval(true, None)
      case Confirm =>
        if autonomy == Authorized then Approval(true, None) else Approval(false, Some(Denial(call.name, false)))
  }
}
