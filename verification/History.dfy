/**
 * What the memory database goes through: one event per store statement group, the
 * database it leads to, and the guard under which the pipeline, the T0 service, the
 * consolidation pass and the revocation cascade issue it.
 */
module History {
  import opened MemoryModel
  import opened Ledger
  import opened Trust
  import opened Similarity

  /** Everything the engine calls but does not define, as arbitrary functions. */
  datatype Env = Env(
    config: Config,
    hasher: Hasher,
    evidenceHash: (string, Provenance) -> string,
    tokens: string -> Tokens,
    sensitivity: string -> Sensitivity,
    strip: string -> string,
    verify: (string, SourceKind, Tier, seq<string>, Time) -> Verdict,
    signed: (string, string) -> SignatureCheck,
    fingerprint: string)

  datatype Db = Db(rows: Rows, ledger: seq<Entry>, negatives: seq<string>)

  const EMPTY := Db(map[], [], [])

  /** Who promoted a row: a verifier pass that saw this listing of active rows, or the user. */
  datatype Cause = Auto(listing: seq<Id>) | UserApproval

  datatype Kind =
    | Ingest(row: Row)
    | Stage(row: Row)
    | Promote(verdict: string, confirmations: int, reviewAt: Option<Time>, cause: Cause)
    | Reaffirm(strong: bool, minInterval: real, weakFloor: real, reviewAt: Option<Time>)
    | Demote(reason: string)
    | Reject(reason: string)
    | Revoke(source: string)
    | Expire
    | Activate(signature: string)
    | SetTrust(score: real)
    | SetExpiry(expiresAt: Time)
    | Confirm(listing: seq<Id>)
    | AddNegative(content: string)

  datatype Event = Event(id: Id, at: Time, kind: Kind)

  type Trace = seq<Event>

  // ----- effect ----------------------------------------------------------

  /** The ceiling the n-th reaffirmation of a row restores. */
  function ReaffirmCeiling(strong: bool, weakFloor: real, n: int): real {
    if strong then 1.0 else Max(weakFloor, 1.0 - 0.1 * Max(0.0, (n - 3) as real))
  }

  function RowAfter(r: Row, at: Time, k: Kind): Row {
    match k
    case Ingest(row) => row
    case Stage(row) => row
    case Promote(v, n, review, _) =>
      r.(state := Active, verifiedAt := Some(at), verdict := Some(v), confirmations := n,
         trustScore := 1.0, trustCeiling := 1.0, lastReaffirmed := Some(at), reviewAt := review)
    case Reaffirm(strong, _, weakFloor, review) =>
      var ceiling := ReaffirmCeiling(strong, weakFloor, r.reaffirmCount + 1);
      r.(trustScore := ceiling, trustCeiling := ceiling, lastReaffirmed := Some(at),
         reviewAt := review, reaffirmCount := r.reaffirmCount + 1)
    case Demote(_) => r.(state := Pending)
    case Reject(_) => r.(state := Rejected)
    case Revoke(_) => r.(state := Revoked)
    case Expire => r.(state := Expired)
    case Activate(sig) =>
      r.(state := Active, verifiedAt := Some(at), verdict := Some("operator-signed"), trustScore := 1.0,
         lastReaffirmed := Some(at), reviewAt := None, signature := Some(sig))
    case SetTrust(score) => r.(trustScore := score)
    case SetExpiry(t) => r.(expiresAt := Some(t))
    case Confirm(_) => r.(confirmations := r.confirmations + 1)
    case AddNegative(_) => r
  }

  predicate Inserts(k: Kind) { k.Ingest? || k.Stage? }

  /** An UPDATE of a missing id changes no row. */
  function RowsAfter(rows: Rows, e: Event): Rows {
    if Inserts(e.kind) then rows[e.id := e.kind.row]
    else if e.id in rows then rows[e.id := RowAfter(rows[e.id], e.at, e.kind)]
    else rows
  }

  /** What an event writes to the ledger; trust scores, expiries and confirmations are not ledgered. */
  function Logged(rows: Rows, e: Event): Option<Body> {
    match e.kind
    case Ingest(row) => Some(Body(ActIngest, Some(e.id), IngestDetail(row.tier, row.evidence, row.sensitivity), e.at))
    case Stage(row) =>
      Some(Body(ActStage, Some(e.id),
                StageDetail(if row.fingerprint.Some? then row.fingerprint.value else "", row.evidence), e.at))
    case Promote(v, n, _, _) => Some(Body(ActPromote, Some(e.id), PromoteDetail(v, n), e.at))
    case Reaffirm(strong, _, weakFloor, _) =>
      var count := if e.id in rows then rows[e.id].reaffirmCount + 1 else 1;
      var last := if e.id in rows then rows[e.id].lastReaffirmed else None;
      Some(Body(ActReaffirm, Some(e.id),
                ReaffirmDetail(strong, ReaffirmCeiling(strong, weakFloor, count), count, Interval(last, e.at)), e.at))
    case Demote(reason) => Some(Body(ActDemote, Some(e.id), ReasonDetail(reason), e.at))
    case Reject(reason) => Some(Body(ActReject, Some(e.id), ReasonDetail(reason), e.at))
    case Revoke(source) => Some(Body(ActRevoke, Some(e.id), SourceDetail(source), e.at))
    case Expire => Some(Body(ActExpire, Some(e.id), EmptyDetail, e.at))
    case Activate(_) => Some(Body(ActActivate, Some(e.id), EmptyDetail, e.at))
    case SetTrust(_) => None
    case SetExpiry(_) => None
    case Confirm(_) => None
    case AddNegative(_) => None
  }

  /** A missing timestamp, an epoch timestamp and a zero interval are all recorded as null. */
  function Interval(last: Option<Time>, now: Time): Option<real> {
    if last.Some? && last.value != 0.0 && now - last.value != 0.0 then Some(now - last.value) else None
  }

  function Apply(env: Env, db: Db, e: Event): Db {
    var body := Logged(db.rows, e);
    Db(RowsAfter(db.rows, e),
       if body.Some? then db.ledger + [Chained(env.hasher, db.ledger, body.value)] else db.ledger,
       if e.kind.AddNegative? then db.negatives + [e.kind.content] else db.negatives)
  }

  function Exec(env: Env, t: Trace): Db {
    if t == [] then EMPTY else Apply(env, Exec(env, t[..|t| - 1]), t[|t| - 1])
  }

  lemma ExecSnoc(env: Env, t: Trace, e: Event)
    ensures Exec(env, t + [e]) == Apply(env, Exec(env, t), e)
  {
  }

  // ----- the ledger as an event log --------------------------------------

  function StateOf(a: Action, s: State): State {
    match a
    case ActIngest => Pending
    case ActStage => T0Staged
    case ActPromote => Active
    case ActActivate => Active
    case ActDemote => Pending
    case ActReject => Rejected
    case ActRevoke => Revoked
    case ActExpire => Expired
    case ActReaffirm => s
  }

  /** Reads the lifecycle states off the ledger alone, in order. */
  function Replay(ledger: seq<Entry>): map<Id, State> {
    if ledger == [] then map[]
    else
      var e := ledger[|ledger| - 1];
      ReplayStep(Replay(ledger[..|ledger| - 1]), e.action, e.item)
  }

  function ReplayStep(m: map<Id, State>, a: Action, item: Option<Id>): map<Id, State> {
    if item.None? then m
    else if a == ActIngest || a == ActStage then m[item.value := StateOf(a, Pending)]
    else if item.value in m then m[item.value := StateOf(a, m[item.value])]
    else m
  }

  function States(rows: Rows): map<Id, State> { map id | id in rows :: rows[id].state }

  /** An inserted row starts in the state its statement writes. */
  predicate WellInserted(e: Event) {
    (e.kind.Ingest? ==> e.kind.row.state == Pending) && (e.kind.Stage? ==> e.kind.row.state == T0Staged)
  }

  ghost predicate Faithful(env: Env, db: Db) {
    Intact(env.hasher, db.ledger) && Replay(db.ledger) == States(db.rows)
  }

  /** The recorded action moves the row the way the statement does; an unlogged event moves no row. */
  lemma StepFaithful(rows: Rows, e: Event)
    requires WellInserted(e)
    ensures var body := Logged(rows, e);
            States(RowsAfter(rows, e))
            == if body.Some? then ReplayStep(States(rows), body.value.action, body.value.item) else States(rows)
  {
  }

  lemma ApplyFaithful(env: Env, db: Db, e: Event)
    requires Faithful(env, db) && WellInserted(e)
    ensures Faithful(env, Apply(env, db, e))
  {
    StepFaithful(db.rows, e);
    var body := Logged(db.rows, e);
    if body.Some? {
      IntactAppend(env.hasher, db.ledger, body.value);
      ReplayAppend(db.ledger, Chained(env.hasher, db.ledger, body.value));
    }
  }

  lemma ReplayAppend(ledger: seq<Entry>, x: Entry)
    ensures Replay(ledger + [x]) == ReplayStep(Replay(ledger), x.action, x.item)
  {
  }

  /**
   * After any sequence of store calls, on known or unknown ids, the ledger verifies and
   * replaying its actions gives the current state of every row.
   */
  lemma {:induction false} LedgerIsFaithful(env: Env, t: Trace)
    requires forall e :: e in t ==> WellInserted(e)
    ensures Faithful(env, Exec(env, t))
  {
    if t == [] {
    } else {
      LedgerIsFaithful(env, t[..|t| - 1]);
      ApplyFaithful(env, Exec(env, t[..|t| - 1]), t[|t| - 1]);
    }
  }

  // ----- guards ------------------------------------------------------------

  const LIMIT := 200

  function InState(rows: Rows, s: State): set<Id> { set id | id in rows && rows[id].state == s }

  /** A possible answer of the "newest 200 rows in a state" query. */
  ghost predicate Listing(rows: Rows, s: State, ids: seq<Id>) {
    && (forall i, j :: 0 <= i < j < |ids| ==> ids[i] != ids[j])
    && (forall i :: 0 <= i < |ids| ==> ids[i] in rows && rows[ids[i]].state == s)
    && (forall i, j :: 0 <= i < j < |ids| ==> rows[ids[i]].createdAt >= rows[ids[j]].createdAt)
    && |ids| <= LIMIT
    && (forall id :: id in rows && rows[id].state == s && id !in ids
          ==> |ids| == LIMIT && forall i :: 0 <= i < |ids| ==> rows[ids[i]].createdAt >= rows[id].createdAt)
  }

  function Contents(rows: Rows, ids: seq<Id>): seq<string>
    requires forall i :: 0 <= i < |ids| ==> ids[i] in rows
  {
    seq(|ids|, i requires 0 <= i < |ids| => rows[ids[i]].content)
  }

  ghost predicate Rephrases(env: Env, db: Db, content: string) {
    SimilarToAny(env.tokens, content, db.negatives, env.config.rephraseSimilarity)
  }

  function Judge(env: Env, rows: Rows, r: Row, listing: seq<Id>, at: Time): Verdict
    requires forall i :: 0 <= i < |listing| ==> listing[i] in rows
  {
    env.verify(r.content, r.prov.kind, r.tier, Contents(rows, listing), at)
  }

  /** The row passed the negative-memory check and the verifier at this instant. */
  ghost predicate Passes(env: Env, db: Db, r: Row, listing: seq<Id>, at: Time) {
    && Listing(db.rows, Active, listing)
    && !Rephrases(env, db, r.content)
    && Judge(env, db.rows, r, listing, at).approved
  }

  /** The row fails one of the two checks at this instant. */
  ghost predicate Refused(env: Env, db: Db, r: Row, at: Time) {
    Rephrases(env, db, r.content)
    || exists listing :: Listing(db.rows, Active, listing) && !Judge(env, db.rows, r, listing, at).approved
  }

  predicate Outranks(env: Env, kept: Row, dropped: Row) {
    && kept.state == Active && env.strip(kept.content) == env.strip(dropped.content)
    && Rank(kept.tier) <= Rank(dropped.tier)
  }

  /** Another active row says the same, with at least the same trust. */
  ghost predicate Duplicated(env: Env, rows: Rows, id: Id)
  {
    id in rows && exists other :: other in rows && other != id && Outranks(env, rows[other], rows[id])
  }

  predicate TooSoon(r: Row, minInterval: real, now: Time) {
    r.reaffirmCount > 0 && r.lastReaffirmed.Some? && now - r.lastReaffirmed.value < minInterval
  }

  function ActivationMessage(id: Id, evidence: string): string { "activate:" + id + ":" + evidence }

  function ProposedRow(env: Env, content: string, tier: Tier, prov: Provenance, derivedFrom: Option<Id>, at: Time): Row
  {
    NewRow(content, tier, Pending, prov, env.evidenceHash(content, prov), at, derivedFrom, env.sensitivity(content))
  }

  /** A row exactly as insert_candidate writes it. */
  predicate Candidate(r: Row, at: Time) {
    r == NewRow(r.content, r.tier, Pending, r.prov, r.evidence, at, r.derivedFrom, r.sensitivity)
  }

  const OPERATOR := Provenance(Operator, None, None, None, Some("operator"))

  /** A row exactly as stage_t0 writes it. */
  function StagedRow(env: Env, content: string, signature: string, at: Time): Row {
    NewRow(content, T0, T0Staged, OPERATOR, env.evidenceHash(content, OPERATOR), at, None, Normal)
      .(signature := Some(signature), fingerprint := Some(env.fingerprint))
  }

  predicate StagedClaim(env: Env, r: Row, at: Time) {
    && r.signature.Some?
    && r == StagedRow(env, r.content, r.signature.value, at)
    && env.signed(r.content, r.signature.value) == GoodSignature
  }

  ghost predicate Guard(env: Env, db: Db, e: Event) {
    var rows := db.rows;
    match e.kind
    case Ingest(row) => e.id !in rows && Candidate(row, e.at)
    case Stage(row) => e.id !in rows && StagedClaim(env, row, e.at)
    case _ => e.id in rows && RowGuard(env, db, rows[e.id], e)
  }

  ghost predicate RowGuard(env: Env, db: Db, r: Row, e: Event) {
    match e.kind
    case Promote(verdict, n, review, Auto(listing)) =>
      && r.state == Pending && Passes(env, db, r, listing, e.at)
      && verdict == Judge(env, db.rows, r, listing, e.at).reason
      && review == ReviewAt(env.config, r.tier, e.at)
      && (r.tier == T1 || r.tier == T2 || (r.tier == T3 && r.confirmations + 1 >= env.config.t3Confirmations))
      && n == (if r.tier == T3 then r.confirmations + 1 else 1)
    case Promote(verdict, n, review, UserApproval) =>
      r.state == Pending && verdict == "user approval" && n == r.confirmations && review == None
    case Confirm(listing) =>
      && r.state == Pending && Passes(env, db, r, listing, e.at)
      && r.tier == T3 && r.confirmations + 1 < env.config.t3Confirmations
    case Reaffirm(_, minInterval, weakFloor, _) => 0.0 < weakFloor <= 1.0 && !TooSoon(r, minInterval, e.at)
    case Demote(_) => r.state == Active && RowTrust(env.config, r, e.at) < env.config.demoteFloor
    case Reject(_) =>
      || (r.state == Pending && Refused(env, db, r, e.at))
      || (r.state == Active && Duplicated(env, db.rows, e.id))
    case Revoke(_) => Live(r) || r.state == Revoked
    case Expire => r.state == Active && r.expiresAt.Some? && r.expiresAt.value < e.at
    case Activate(sig) =>
      && r.state == T0Staged
      && e.at - r.createdAt >= env.config.t0ReviewSeconds
      && env.signed(ActivationMessage(e.id, r.evidence), sig) == GoodSignature
    case SetTrust(score) => score == RowTrust(env.config, r, e.at)
    case SetExpiry(t) => r.state == Pending && r.tier == T3 && t == e.at + env.config.t3TtlDays as real * DAY
    case AddNegative(content) => r.state == Rejected && r.content == content
    case _ => false
  }

  /** A run of the engine under its own guards, on a clock that never goes back. */
  ghost predicate Legal(env: Env, t: Trace) {
    t == [] || (
      var t', e := t[..|t| - 1], t[|t| - 1];
      Legal(env, t') && Guard(env, Exec(env, t'), e) && (t' != [] ==> t'[|t'| - 1].at <= e.at))
  }

  ghost predicate ClockAt(t: Trace, now: Time) { t == [] || t[|t| - 1].at <= now }

  lemma LegalSnoc(env: Env, t: Trace, e: Event)
    requires Legal(env, t) && Guard(env, Exec(env, t), e) && ClockAt(t, e.at)
    ensures Legal(env, t + [e]) && Exec(env, t + [e]) == Apply(env, Exec(env, t), e)
    ensures ClockAt(t + [e], e.at)
  {
  }
}
