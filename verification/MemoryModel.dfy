/** Value types of the verified-memory system. */
module MemoryModel {

  datatype Option<+T> = None | Some(value: T)

  type Id = string
  type Time = real

  datatype Tier = T0 | T1 | T2 | T3 | T4

  datatype SourceKind = Operator | UserDirect | AgentObserved | ThirdParty | Subagent | Unknown

  datatype State = Pending | Active | Rejected | Revoked | Expired | Superseded | T0Staged

  datatype Sensitivity = Normal | Sensitive

  datatype Provenance = Provenance(
    kind: SourceKind,
    uri: Option<string>,
    session: Option<string>,
    turn: Option<int>,
    actor: Option<string>)

  datatype Verdict = Verdict(approved: bool, reason: string)

  /** How the operator key answers for a (message, base64 signature) pair. */
  datatype SignatureCheck = NotBase64 | BadSignature | GoodSignature

  /** One row of the `memory` table. */
  datatype Row = Row(
    content: string,
    tier: Tier,
    state: State,
    prov: Provenance,
    evidence: string,
    createdAt: Time,
    verifiedAt: Option<Time>,
    verdict: Option<string>,
    confirmations: int,
    expiresAt: Option<Time>,
    derivedFrom: Option<Id>,
    trustScore: real,
    lastReaffirmed: Option<Time>,
    reviewAt: Option<Time>,
    reaffirmCount: int,
    signature: Option<string>,
    fingerprint: Option<string>,
    trustCeiling: real,
    sensitivity: Sensitivity)

  type Rows = map<Id, Row>

  /** A row is live when the cascade's queries can still select it. */
  predicate Live(r: Row) {
    r.state == Active || r.state == Pending
  }

  function DefaultTier(kind: SourceKind): Tier {
    match kind
    case Operator => T0
    case UserDirect => T1
    case AgentObserved => T2
    case ThirdParty => T3
    case Subagent => T4
    case Unknown => T4
  }

  function Rank(t: Tier): nat {
    match t
    case T0 => 0
    case T1 => 1
    case T2 => 2
    case T3 => 3
    case T4 => 4
  }

  /** The order of trust, tier by tier. */
  lemma RankIsTrust(a: Tier, b: Tier)
    ensures Rank(a) <= Rank(b) <==>
              match a
              case T0 => true
              case T1 => b != T0
              case T2 => b != T0 && b != T1
              case T3 => b == T3 || b == T4
              case T4 => b == T4
  {
  }

  function Min(a: int, b: int): int { if a < b then a else b }

  function Max(a: real, b: real): real { if a < b then b else a }

  lemma SubsetSize<T>(a: set<T>, b: set<T>)
    requires a <= b
    ensures |a| <= |b|
  {
    assert b == a + (b - a);
  }

  /** A row as the INSERT statements leave it, every defaulted column at its default. */
  function NewRow(content: string, tier: Tier, state: State, prov: Provenance, evidence: string,
                  now: Time, derivedFrom: Option<Id>, sensitivity: Sensitivity): Row
  {
    Row(content, tier, state, prov, evidence, now, None, None, 0, None, derivedFrom,
        1.0, None, None, 0, None, None, 1.0, sensitivity)
  }
}
