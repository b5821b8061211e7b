/** How much of the table the ledger alone tells. */
module Audit {
  import opened MemoryModel
  import opened Ledger
  import opened Trust
  import opened History
  import opened Runs

  /** What an auditor who only has the ledger can say of a row. */
  datatype Told = Told(
    state: State, tier: Tier, evidence: string, sensitivity: Sensitivity,
    verdict: Option<string>, verifiedAt: Option<Time>,
    ceiling: real, clock: Option<Time>, reaffirms: int)

  /** A fresh entry tells of a row never verified and fully trusted. */
  function Fresh(state: State, tier: Tier, evidence: string, sensitivity: Sensitivity): Told {
    Told(state, tier, evidence, sensitivity, None, None, 1.0, None, 0)
  }

  /** One entry, read on its own. */
  function Hear(known: Option<Told>, e: Entry): Option<Told> {
    match e.detail
    case None => known
    case Some(IngestDetail(tier, evidence, sensitivity)) => Some(Fresh(Pending, tier, evidence, sensitivity))
    case Some(StageDetail(_, evidence)) => Some(Fresh(T0Staged, T0, evidence, Normal))
    case Some(detail) =>
      if known.None? then None
      else
        var t := known.value;
        match e.action
        case ActPromote =>
          if detail.PromoteDetail?
          then Some(t.(state := Active, verdict := Some(detail.verdict), verifiedAt := Some(e.at), ceiling := 1.0,
                       clock := Some(e.at)))
          else known
        case ActReaffirm =>
          if detail.ReaffirmDetail?
          then Some(t.(ceiling := detail.ceiling, clock := Some(e.at), reaffirms := detail.count))
          else known
        case ActActivate =>
          Some(t.(state := Active, verdict := Some("operator-signed"), verifiedAt := Some(e.at), clock := Some(e.at)))
        case ActDemote => Some(t.(state := Pending))
        case ActReject => Some(t.(state := Rejected))
        case ActRevoke => Some(t.(state := Revoked))
        case ActExpire => Some(t.(state := Expired))
        case _ => known
  }

  /** Reading the ledger from the beginning. */
  function Hearsay(ledger: seq<Entry>): map<Id, Told> {
    if ledger == [] then map[]
    else
      var e, known := ledger[|ledger| - 1], Hearsay(ledger[..|ledger| - 1]);
      if e.item.None? then known
      else
        var told := Hear(if e.item.value in known then Some(known[e.item.value]) else None, e);
        if told.None? then known else known[e.item.value := told.value]
  }

  function ToldOf(r: Row): Told {
    Told(r.state, r.tier, r.evidence, r.sensitivity, r.verdict, r.verifiedAt, r.trustCeiling, r.lastReaffirmed,
         r.reaffirmCount)
  }

  function AllTold(rows: Rows): map<Id, Told> { map id | id in rows :: ToldOf(rows[id]) }

  lemma HearsaySnoc(ledger: seq<Entry>, e: Entry)
    requires e.item.Some?
    ensures var known := Hearsay(ledger);
            var told := Hear(if e.item.value in known then Some(known[e.item.value]) else None, e);
            Hearsay(ledger + [e]) == if told.None? then known else known[e.item.value := told.value]
  {
  }

  /** One event: its entry tells exactly what it did to its row, and an event without an entry changes nothing told. */
  lemma EventTold(env: Env, db: Db, e: Event)
    requires Guard(env, db, e) && Hearsay(db.ledger) == AllTold(db.rows)
    ensures Hearsay(Apply(env, db, e).ledger) == AllTold(Apply(env, db, e).rows)
  {
    hide Hearsay, Hear, Chained;
    EntryTold(env, db, e);
    var body := Logged(db.rows, e);
    if body.Some? {
      var x := Chained(env.hasher, db.ledger, body.value);
      ChainedBody(env.hasher, db.ledger, body.value);
      HearsaySnoc(db.ledger, x);
    }
  }

  predicate Records(x: Entry, b: Body) {
    x.action == b.action && x.item == b.item && x.detail == Some(b.detail) && x.at == b.at
  }

  lemma ChainedBody(h: Hasher, ledger: seq<Entry>, b: Body)
    ensures Records(Chained(h, ledger, b), b)
  {
  }

  lemma EntryTold(env: Env, db: Db, e: Event)
    requires Guard(env, db, e)
    ensures var body, rows' := Logged(db.rows, e), RowsAfter(db.rows, e);
            && (body.None? ==> AllTold(rows') == AllTold(db.rows))
            && (body.Some? ==>
                  && body.value.item == Some(e.id) && e.id in rows' && rows' == db.rows[e.id := rows'[e.id]]
                  && forall x: Entry | Records(x, body.value) ::
                       Hear(if e.id in db.rows then Some(ToldOf(db.rows[e.id])) else None, x)
                       == Some(ToldOf(rows'[e.id])))
  {
    hide ReaffirmCeiling, Interval, Rephrases, Judge, Passes, Refused, Duplicated, TooSoon, ReviewAt, RowTrust;
  }

  /**
   * The ledger alone tells, for every row of any guarded run, its state, tier, evidence and
   * sensitivity, the verdict that let it in and when, what its trust is capped at, when its trust
   * clock last started, and how often it was reaffirmed.
   */
  lemma {:induction false} LedgerTellsTable(env: Env, t: Trace)
    requires Legal(env, t)
    ensures Hearsay(Exec(env, t).ledger) == AllTold(Exec(env, t).rows)
  {
    if t == [] {
    } else {
      hide Guard, Apply, Hearsay;
      var n := |t| - 1;
      assert t[..n + 1] == t;
      StepAt(env, t, n);
      LedgerTellsTable(env, t[..n]);
      EventTold(env, Before(env, t, n), t[n]);
    }
  }
}
