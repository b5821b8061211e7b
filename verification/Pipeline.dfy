/** Ingest, verify, promote: the only way from a candidate to active memory, and the T0 service beside it. */
module Pipeline {
  import opened MemoryModel
  import opened Trust
  import opened Similarity
  import opened History
  import opened Cascade
  import opened Store
  import opened Runs

  datatype Outcome = Missing | Now(state: State)

  const REPHRASED := "rephrase of a rejected idea"

  /** The events of one pass over a row, given the active rows the verifier was shown. */
  function PassEvents(env: Env, db: Db, id: Id, rephrased: bool, listing: seq<Id>, now: Time): (es: Trace)
    requires forall i :: 0 <= i < |listing| ==> listing[i] in db.rows
    ensures forall e :: e in es ==> e.id == id && e.at == now
    ensures |es| <= 2
  {
    if id !in db.rows || db.rows[id].state != Pending then []
    else if rephrased then [Event(id, now, Reject(REPHRASED))]
    else
      var r := db.rows[id];
      var verdict := Judge(env, db.rows, r, listing, now);
      if !verdict.approved then
        [Event(id, now, Reject(verdict.reason)), Event(id, now, AddNegative(r.content))]
      else TierEvents(env.config, r, id, verdict.reason, listing, now)
  }

  /** What approval leads to, by tier: T4 and proposed T0 rows wait for the user. */
  function TierEvents(c: Config, r: Row, id: Id, reason: string, listing: seq<Id>, now: Time): (es: Trace)
    ensures forall e :: e in es ==> e.id == id && e.at == now
    ensures |es| <= 2
  {
    match r.tier
    case T1 => [Event(id, now, Promote(reason, 1, ReviewAt(c, r.tier, now), Auto(listing)))]
    case T2 => [Event(id, now, Promote(reason, 1, ReviewAt(c, r.tier, now), Auto(listing)))]
    case T3 =>
      if r.confirmations + 1 >= c.t3Confirmations then
        [Event(id, now, Promote(reason, r.confirmations + 1, ReviewAt(c, r.tier, now), Auto(listing)))]
      else
        [Event(id, now, Confirm(listing)), Event(id, now, SetExpiry(now + c.t3TtlDays as real * DAY))]
    case _ => []
  }

  /** The state a pass leaves the row in. */
  function PassState(env: Env, db: Db, id: Id, rephrased: bool, listing: seq<Id>, now: Time): State
    requires id in db.rows && forall i :: 0 <= i < |listing| ==> listing[i] in db.rows
  {
    var r := db.rows[id];
    if r.state != Pending then r.state
    else if rephrased || !Judge(env, db.rows, r, listing, now).approved then Rejected
    else if r.tier == T1 || r.tier == T2 then Active
    else if r.tier == T3 && r.confirmations + 1 >= env.config.t3Confirmations then Active
    else Pending
  }

  /** What a pass looked at: the negative memory, and for an unrejected pending row the active rows. */
  ghost predicate Examined(env: Env, db: Db, id: Id, rephrased: bool, listing: seq<Id>) {
    && (forall i :: 0 <= i < |listing| ==> listing[i] in db.rows)
    && (id in db.rows ==> (rephrased <==> Rephrases(env, db, db.rows[id].content)))
    && (id in db.rows && db.rows[id].state == Pending && !rephrased ==> Listing(db.rows, Active, listing))
  }

  /** A pass leaves its row in the specified state, with the identity it had, and no other row moves. */
  ghost predicate PassEffect(env: Env, db: Db, db': Db, id: Id, rephrased: bool, listing: seq<Id>, now: Time)
    requires forall i :: 0 <= i < |listing| ==> listing[i] in db.rows
  {
    && db'.rows.Keys == db.rows.Keys
    && (forall other :: other in db.rows && other != id ==> db'.rows[other] == db.rows[other])
    && (id in db.rows ==>
          && SameIdentity(db.rows[id], db'.rows[id])
          && db'.rows[id].state == PassState(env, db, id, rephrased, listing, now))
  }

  function ApplyAll(env: Env, db: Db, es: Trace): Db
    decreases |es|
  {
    if es == [] then db else ApplyAll(env, Apply(env, db, es[0]), es[1..])
  }

  /** The first event of a pass meets its guard. */
  lemma FirstAllowed(env: Env, db: Db, id: Id, rephrased: bool, listing: seq<Id>, now: Time)
    requires Examined(env, db, id, rephrased, listing)
    ensures var es := PassEvents(env, db, id, rephrased, listing, now); es != [] ==> Guard(env, db, es[0])
  {
    hide Listing, SimilarToAny, ReviewAt;
  }

  /** So does the second, after the first. */
  lemma SecondAllowed(env: Env, db: Db, id: Id, rephrased: bool, listing: seq<Id>, now: Time)
    requires Examined(env, db, id, rephrased, listing)
    ensures var es := PassEvents(env, db, id, rephrased, listing, now);
            |es| > 1 ==> Guard(env, Apply(env, db, es[0]), es[1])
  {
    hide Listing, SimilarToAny, ReviewAt, Judge, Logged;
  }

  lemma PassHasEffect(env: Env, db: Db, id: Id, rephrased: bool, listing: seq<Id>, now: Time)
    requires Examined(env, db, id, rephrased, listing)
    ensures var es := PassEvents(env, db, id, rephrased, listing, now);
            PassEffect(env, db, ApplyAll(env, db, es), id, rephrased, listing, now)
  {
    var es := PassEvents(env, db, id, rephrased, listing, now);
    hide Apply, ApplyAll, PassEvents, PassState, Moves, ResultingState, SameIdentity;
    ApplyFew(env, db, es);
    PassEnds(env, db, id, rephrased, listing, now);
    IdentityKept(db.rows, id);
    if es != [] {
      assert es[0] in es;
      EventEffect(env, db, es[0]);
      if |es| > 1 {
        assert es[1] in es;
        var db1 := Apply(env, db, es[0]);
        EventEffect(env, db1, es[1]);
        IdentityJoins(db.rows[id], db1.rows[id], Apply(env, db1, es[1]).rows[id]);
      }
    }
  }

  lemma IdentityKept(rows: Rows, id: Id)
    ensures id in rows ==> SameIdentity(rows[id], rows[id])
  {
  }

  lemma IdentityJoins(a: Row, b: Row, c: Row)
    requires SameIdentity(a, b) && SameIdentity(b, c)
    ensures SameIdentity(a, c)
  {
  }

  /** A pass writes only to its own, existing row, and its events add up to the specified state. */
  lemma PassEnds(env: Env, db: Db, id: Id, rephrased: bool, listing: seq<Id>, now: Time)
    requires forall i :: 0 <= i < |listing| ==> listing[i] in db.rows
    ensures var es := PassEvents(env, db, id, rephrased, listing, now);
            && (forall e :: e in es ==> Moves(e.kind))
            && (es != [] ==> id in db.rows)
            && (id in db.rows ==> PassState(env, db, id, rephrased, listing, now) == FinalState(es, db.rows[id].state))
  {
  }

  function FinalState(es: Trace, s: State): State
    requires |es| <= 2
  {
    if es == [] then s
    else if |es| == 1 then ResultingState(es[0].kind, s)
    else ResultingState(es[1].kind, ResultingState(es[0].kind, s))
  }

  predicate Moves(k: Kind) { k.Promote? || k.Reject? || k.Confirm? || k.SetExpiry? || k.AddNegative? }

  function ResultingState(k: Kind, s: State): State {
    match k
    case Promote(_, _, _, _) => Active
    case Reject(_) => Rejected
    case _ => s
  }

  lemma EventEffect(env: Env, db: Db, e: Event)
    requires e.id in db.rows
    requires Moves(e.kind)
    ensures var rows' := Apply(env, db, e).rows;
            && e.id in rows' && rows' == db.rows[e.id := rows'[e.id]]
            && SameIdentity(db.rows[e.id], rows'[e.id])
            && rows'[e.id].state == ResultingState(e.kind, db.rows[e.id].state)
  {
  }

  lemma ApplyFew(env: Env, db: Db, es: Trace)
    ensures es == [] ==> ApplyAll(env, db, es) == db
    ensures |es| == 1 ==> ApplyAll(env, db, es) == Apply(env, db, es[0])
    ensures |es| == 2 ==> ApplyAll(env, db, es) == Apply(env, Apply(env, db, es[0]), es[1])
  {
    hide Apply;
    if |es| == 2 {
      var rest := es[1..];
      assert rest == [es[1]] && rest[1..] == [];
      assert ApplyAll(env, db, es) == ApplyAll(env, Apply(env, db, es[0]), rest);
      assert ApplyAll(env, Apply(env, db, es[0]), rest)
             == ApplyAll(env, Apply(env, Apply(env, db, es[0]), es[1]), rest[1..]);
    }
  }

  lemma ShortRun(env: Env, t: Trace, es: Trace, now: Time)
    requires Legal(env, t) && ClockAt(t, now) && |es| <= 2 && forall e :: e in es ==> e.at == now
    requires es != [] ==> Guard(env, Exec(env, t), es[0])
    requires |es| > 1 ==> Guard(env, Apply(env, Exec(env, t), es[0]), es[1])
    ensures Legal(env, t + es) && ClockAt(t + es, now) && Exec(env, t + es) == ApplyAll(env, Exec(env, t), es)
  {
    hide Exec, Apply, Legal, Guard, ApplyAll;
    ApplyFew(env, Exec(env, t), es);
    if es == [] {
      assert t + es == t;
    } else {
      LegalSnoc(env, t, es[0]);
      if |es| == 1 {
        assert es == [es[0]];
      } else {
        LegalSnoc(env, t + [es[0]], es[1]);
        assert t + es == t + [es[0]] + [es[1]];
      }
    }
  }

  /** A pass continues a legal run, with the specified effect. */
  lemma PassIsLegal(env: Env, t: Trace, id: Id, rephrased: bool, listing: seq<Id>, now: Time)
    requires Legal(env, t) && ClockAt(t, now) && Examined(env, Exec(env, t), id, rephrased, listing)
    ensures var es := PassEvents(env, Exec(env, t), id, rephrased, listing, now);
            && Legal(env, t + es) && ClockAt(t + es, now)
            && PassEffect(env, Exec(env, t), Exec(env, t + es), id, rephrased, listing, now)
  {
    var db := Exec(env, t);
    FirstAllowed(env, db, id, rephrased, listing, now);
    SecondAllowed(env, db, id, rephrased, listing, now);
    PassHasEffect(env, db, id, rephrased, listing, now);
    ShortRun(env, t, PassEvents(env, db, id, rephrased, listing, now), now);
  }

  /**
   * Once content with a nonempty token set has been recorded as rejected, a pass over any pending
   * row with the same tokens rejects it, whatever the verifier would say.
   */
  lemma ResubmissionIsRejected(env: Env, t: Trace, k: nat, id: Id, rephrased: bool, listing: seq<Id>, now: Time)
    requires Legal(env, t) && ValidConfig(env.config) && k < |t| && t[k].kind.AddNegative?
    requires id in Exec(env, t).rows && Exec(env, t).rows[id].state == Pending
    requires env.tokens(Exec(env, t).rows[id].content) == env.tokens(t[k].kind.content) != {}
    requires Examined(env, Exec(env, t), id, rephrased, listing)
    ensures PassEvents(env, Exec(env, t), id, rephrased, listing, now) == [Event(id, now, Reject(REPHRASED))]
    ensures PassState(env, Exec(env, t), id, rephrased, listing, now) == Rejected
  {
    hide Exec, Legal;
    RejectionPersists(env, t, k, Exec(env, t).rows[id], listing, now);
  }

  /**
   * The promise that unconfirmed third-party claims expire fails: one proposed claim and one
   * approved pass, with more confirmations demanded, leave a pending row whose expiry comes and
   * goes without the row ever being due.
   */
  lemma UnconfirmedClaimOutlivesExpiry(env: Env, content: string, prov: Provenance, id: Id, at: Time, now: Time)
    returns (t: Trace)
    requires env.config.t3Confirmations >= 2 && env.config.t3TtlDays >= 0
    requires env.verify(content, prov.kind, T3, [], at).approved
    requires now > at + env.config.t3TtlDays as real * DAY
    ensures |t| > 0 && t[0] == Event(id, at, Ingest(ProposedRow(env, content, T3, prov, None, at)))
    ensures t[1..] == PassEvents(env, Exec(env, t[..1]), id, false, [], at)
    ensures Legal(env, t) && ClockAt(t, now) && id in Exec(env, t).rows
    ensures var r := Exec(env, t).rows[id];
            && r.state == Pending && r.tier == T3
            && r.expiresAt == Some(at + env.config.t3TtlDays as real * 86400.0) && r.expiresAt.value < now
    ensures id !in Due(Exec(env, t).rows, now)
  {
    hide Guard, Legal, Examined, PassEvents, PassEffect, Exec, Apply;
    var row := ProposedRow(env, content, T3, prov, None, at);
    var e := Event(id, at, Ingest(row));
    FreshProposal(env, e, row);
    LegalSnoc(env, [], e);
    assert [] + [e] == [e];
    var db := Exec(env, [e]);
    FirstPass(env, db, row, id, at);
    PassIsLegal(env, [e], id, false, [], at);
    ExecSnoc(env, [], e);
    var es := PassEvents(env, db, id, false, [], at);
    ConfirmedAndDated(env, db, row, id, at, at + env.config.t3TtlDays as real * DAY);
    ExecSnoc(env, [e], es[0]);
    ExecSnoc(env, [e] + [es[0]], es[1]);
    assert [e] + [es[0]] + [es[1]] == [e] + es;
    t := [e] + es;
    assert t[..1] == [e] && t[1..] == es;
  }

  /**
   * Exactly which rows past their expiry an expiry pass takes: those some guarded promotion or
   * activation let in and that have been active since. A claim still waiting is never among them.
   */
  lemma DueExactlyWhenAdmitted(env: Env, t: Trace, id: Id, now: Time)
    requires Legal(env, t) && id in Exec(env, t).rows
    requires Exec(env, t).rows[id].expiresAt.Some? && Exec(env, t).rows[id].expiresAt.value < now
    ensures id in Due(Exec(env, t).rows, now) <==> Exec(env, t).rows[id].state == Active
    ensures id in Due(Exec(env, t).rows, now) <==> exists k: nat :: Warrant(env, t, id, k)
  {
    hide Exec, Legal;
    assert t[..|t|] == t;
    forall k: nat | Warrant(env, t, id, k) ensures Exec(env, t).rows[id].state == Active {
      assert ActiveAt(env, t, id, |t|);
    }
    if Exec(env, t).rows[id].state == Active {
      var k := ActiveHasWarrant(env, t, id);
    }
  }

  lemma FreshProposal(env: Env, e: Event, row: Row)
    requires e.kind == Ingest(row) && Candidate(row, e.at)
    ensures Legal(env, []) && Guard(env, EMPTY, e) && Exec(env, []) == EMPTY
    ensures Apply(env, EMPTY, e).rows == map[e.id := row] && Apply(env, EMPTY, e).negatives == []
  {
  }

  lemma ConfirmedAndDated(env: Env, db: Db, row: Row, id: Id, at: Time, expiry: Time)
    requires db.rows == map[id := row]
    ensures Apply(env, Apply(env, db, Event(id, at, Confirm([]))), Event(id, at, SetExpiry(expiry))).rows
            == map[id := row.(confirmations := row.confirmations + 1, expiresAt := Some(expiry))]
  {
  }

  /** The first approved pass over a lone claim confirms and dates it. */
  lemma FirstPass(env: Env, db: Db, row: Row, id: Id, at: Time)
    requires db.rows == map[id := row] && db.negatives == []
    requires row.state == Pending && row.tier == T3 && row.confirmations + 1 < env.config.t3Confirmations
    requires env.verify(row.content, row.prov.kind, T3, [], at).approved
    ensures Examined(env, db, id, false, [])
    ensures PassEvents(env, db, id, false, [], at)
            == [Event(id, at, Confirm([])), Event(id, at, SetExpiry(at + env.config.t3TtlDays as real * DAY))]
  {
    assert Contents(db.rows, []) == [];
  }

  // ----- what a pass does, said of the verifier and the table ---------------------------

  /** The verifier is shown the contents of the newest active rows, at most 200, newest first. */
  ghost predicate Shown(rows: Rows, ids: seq<Id>, contents: seq<string>) {
    && Listing(rows, Active, ids) && |ids| <= 200
    && |contents| == |ids| && forall i :: 0 <= i < |ids| ==> ids[i] in rows && contents[i] == rows[ids[i]].content
  }

  /** Some recorded rejected content is at least as similar as the configured threshold. */
  ghost predicate SaidBefore(env: Env, negatives: seq<string>, content: string) {
    exists p :: p in negatives && Jaccard(env.tokens(content), env.tokens(p)) >= env.config.rephraseSimilarity
  }

  function Promoted(r: Row, verdict: string, confirmations: int, now: Time, days: int): Row {
    r.(state := Active, verifiedAt := Some(now), verdict := Some(verdict), confirmations := confirmations,
       trustScore := 1.0, trustCeiling := 1.0, lastReaffirmed := Some(now),
       reviewAt := Some(now + days as real * 86400.0))
  }

  /** What the verdict makes of a pending row, tier by tier. */
  function Ruled(c: Config, r: Row, v: Verdict, now: Time): Row {
    if !v.approved then r.(state := Rejected)
    else match r.tier
      case T1 => Promoted(r, v.reason, 1, now, c.t1ReviewDays)
      case T2 => Promoted(r, v.reason, 1, now, c.t2ReviewDays)
      case T3 =>
        if r.confirmations + 1 >= c.t3Confirmations then Promoted(r, v.reason, r.confirmations + 1, now, c.t3TtlDays)
        else r.(confirmations := r.confirmations + 1, expiresAt := Some(now + c.t3TtlDays as real * 86400.0))
      case T4 => r
      case T0 => r
  }

  ghost predicate RuledBy(env: Env, before: Db, after: Db, id: Id, now: Time, ids: seq<Id>, contents: seq<string>)
    requires id in before.rows
  {
    var r := before.rows[id];
    var v := env.verify(r.content, r.prov.kind, r.tier, contents, now);
    && Shown(before.rows, ids, contents)
    && after.rows == before.rows[id := Ruled(env.config, r, v, now)]
    && after.negatives == if v.approved then before.negatives else before.negatives + [r.content]
  }

  /** One pass: nothing for a row that is not pending, rejection of what was rejected before, else the verdict. */
  ghost predicate Judged(env: Env, before: Db, after: Db, id: Id, now: Time) {
    if id !in before.rows || before.rows[id].state != Pending then
      after.rows == before.rows && after.negatives == before.negatives
    else if SaidBefore(env, before.negatives, before.rows[id].content) then
      && after.rows == before.rows[id := before.rows[id].(state := Rejected)]
      && after.negatives == before.negatives
    else exists ids, contents :: RuledBy(env, before, after, id, now, ids, contents)
  }

  lemma ReviewDates(c: Config, now: Time)
    ensures ReviewAt(c, T1, now) == Some(now + c.t1ReviewDays as real * 86400.0)
    ensures ReviewAt(c, T2, now) == Some(now + c.t2ReviewDays as real * 86400.0)
    ensures ReviewAt(c, T3, now) == Some(now + c.t3TtlDays as real * 86400.0)
  {
    assert forall days: int :: Seconds(days, 1.0) == days as real * 86400.0;
  }

  lemma JudgedQuietly(env: Env, before: Db, after: Db, id: Id, now: Time)
    requires after.rows == before.rows && after.negatives == before.negatives
    requires id !in before.rows || before.rows[id].state != Pending
    ensures Judged(env, before, after, id, now)
  {
  }

  lemma JudgedBefore(env: Env, before: Db, after: Db, id: Id, now: Time)
    requires id in before.rows && before.rows[id].state == Pending && Rephrases(env, before, before.rows[id].content)
    requires after.rows == InNewState(before.rows, id, Rejected) && after.negatives == before.negatives
    ensures Judged(env, before, after, id, now)
  {
  }

  lemma JudgedByVerifier(env: Env, before: Db, after: Db, id: Id, now: Time, ids: seq<Id>)
    requires id in before.rows && before.rows[id].state == Pending && !Rephrases(env, before, before.rows[id].content)
    requires Listing(before.rows, Active, ids)
    requires var r := before.rows[id];
             var v := env.verify(r.content, r.prov.kind, r.tier, Contents(before.rows, ids), now);
             && after.rows == before.rows[id := Ruled(env.config, r, v, now)]
             && after.negatives == if v.approved then before.negatives else before.negatives + [r.content]
    ensures Judged(env, before, after, id, now)
  {
    hide Ruled;
    assert RuledBy(env, before, after, id, now, ids, Contents(before.rows, ids));
  }

  /** Pass after pass over the listed rows, each on the table the one before left. */
  ghost predicate PassedOver(env: Env, ids: seq<Id>, dbs: seq<Db>, clock: nat -> Time) {
    && |dbs| == |ids| + 1
    && forall i :: 0 <= i < |ids| ==> Judged(env, dbs[i], dbs[i + 1], ids[i], clock(i))
  }

  lemma PassedOverNone(env: Env, db: Db, clock: nat -> Time)
    ensures PassedOver(env, [], [db], clock)
  {
  }

  lemma PassedOverSnoc(env: Env, ids: seq<Id>, dbs: seq<Db>, clock: nat -> Time, id: Id, db: Db)
    requires PassedOver(env, ids, dbs, clock) && |dbs| == |ids| + 1 && Judged(env, dbs[|ids|], db, id, clock(|ids|))
    ensures PassedOver(env, ids + [id], dbs + [db], clock)
  {
    hide Judged;
  }

  class MemoryPipeline {
    const env: Env
    const store: MemoryStore

    /** The store is reached by a guarded run. */
    ghost predicate Valid()
      reads store
    {
      store.env == env && ValidConfig(env.config) && store.Valid() && Legal(env, store.trace)
    }

    constructor (store: MemoryStore)
      requires store.Valid() && ValidConfig(store.env.config) && Legal(store.env, store.trace)
      ensures Valid() && this.store == store
    {
      this.store := store;
      this.env := store.env;
    }

    /** Quarantines a candidate; whatever tier the caller names, the row starts pending. */
    method Propose(content: string, prov: Provenance, derivedFrom: Option<Id>, tier: Option<Tier>, mid: Id, now: Time)
      requires Valid() && ClockAt(store.trace, now) && mid !in store.rows
      modifies store
      ensures Valid() && ClockAt(store.trace, now)
      ensures var resolved := if tier.Some? then tier.value else DefaultTier(prov.kind);
              var row := ProposedRow(env, content, resolved, prov, derivedFrom, now);
              && store.trace == old(store.trace) + [Event(mid, now, Ingest(row))]
              && store.rows == old(store.rows)[mid := row]
      ensures mid in store.rows && store.rows[mid].state == Pending
      ensures tier.Some? ==> store.rows[mid].tier == tier.value
      ensures tier.None? ==>
                && (prov.kind == Operator <==> store.rows[mid].tier == T0)
                && (prov.kind == UserDirect <==> store.rows[mid].tier == T1)
                && (prov.kind == AgentObserved <==> store.rows[mid].tier == T2)
                && (prov.kind == ThirdParty <==> store.rows[mid].tier == T3)
    {
      var resolved := if tier.Some? then tier.value else DefaultTier(prov.kind);
      ghost var row := ProposedRow(env, content, resolved, prov, derivedFrom, now);
      LegalSnoc(env, store.trace, Event(mid, now, Ingest(row)));
      store.InsertCandidate(content, resolved, prov, derivedFrom, mid, now);
    }

    /**
     * One pass over one item: exactly the events of the specification, so no other row moves,
     * and the answer is the state the row is left in.
     */
    method ProcessOne(id: Id, now: Time) returns (result: Outcome, ghost rephrased: bool, ghost listing: seq<Id>)
      requires Valid() && ClockAt(store.trace, now)
      modifies store
      ensures Valid() && ClockAt(store.trace, now)
      ensures Examined(env, old(store.Contents()), id, rephrased, listing)
      ensures store.trace == old(store.trace) + PassEvents(env, old(store.Contents()), id, rephrased, listing, now)
      ensures PassEffect(env, old(store.Contents()), store.Contents(), id, rephrased, listing, now)
      ensures Judged(env, old(store.Contents()), store.Contents(), id, now)
      ensures result == if id in store.rows then Now(store.rows[id].state) else Missing
    {
      hide Exec, Apply, Legal, Guard, PassEffect, Listing, Judged;
      listing, rephrased := [], false;
      ghost var t0, db := store.trace, store.Contents();
      if id !in store.rows || store.rows[id].state != Pending {
        rephrased := id in store.rows && Rephrases(env, store.Contents(), store.rows[id].content);
        PassIsLegal(env, t0, id, rephrased, listing, now);
        assert t0 + [] == t0;
        JudgedQuietly(env, db, db, id, now);
        return if id in store.rows then Now(store.rows[id].state) else Missing, rephrased, listing;
      }
      var item := store.rows[id];
      var m := IsRephrase(env.tokens, item.content, store.negatives, env.config.rephraseSimilarity);
      rephrased := m.rephrase;
      if m.rephrase {
        PassIsLegal(env, t0, id, rephrased, listing, now);
        store.MarkRejected(id, REPHRASED, now);
        JudgedBefore(env, db, store.Contents(), id, now);
        return Now(Rejected), rephrased, listing;
      }
      var shown := store.ByState(Active);
      listing := shown;
      ListedKnown(store.rows, Active, shown);
      var verdict := env.verify(item.content, item.prov.kind, item.tier, Contents(store.rows, shown), now);
      PassIsLegal(env, t0, id, rephrased, listing, now);
      if !verdict.approved {
        store.MarkRejected(id, verdict.reason, now);
        store.RememberNegative(item.content, now, id);
        assert store.trace == t0 + [Event(id, now, Reject(verdict.reason)), Event(id, now, AddNegative(item.content))];
        JudgedByVerifier(env, db, store.Contents(), id, now, shown);
        return Now(Rejected), rephrased, listing;
      }
      result := PromoteByTier(id, verdict, now, listing);
      JudgedByVerifier(env, db, store.Contents(), id, now, shown);
    }

    /** The tier-specific rules for a pending row the verifier approved. */
    method PromoteByTier(id: Id, verdict: Verdict, now: Time, ghost listing: seq<Id>) returns (result: Outcome)
      requires store.Valid() && store.env == env && id in store.rows && store.rows[id].state == Pending
      requires verdict.approved
      modifies store
      ensures store.Valid()
      ensures store.trace
              == old(store.trace) + TierEvents(env.config, old(store.rows)[id], id, verdict.reason, listing, now)
      ensures id in store.rows && result == Now(store.rows[id].state)
      ensures store.rows == old(store.rows)[id := Ruled(env.config, old(store.rows)[id], verdict, now)]
      ensures store.negatives == old(store.negatives)
    {
      hide Exec, Apply;
      ReviewDates(env.config, now);
      var reason := verdict.reason;
      var item := store.rows[id];
      ghost var t0 := store.trace;
      if item.tier == T1 || item.tier == T2 {
        store.MarkActive(id, reason, 1, ReviewAt(env.config, item.tier, now), now, Auto(listing));
        return Now(Active);
      }
      if item.tier == T3 {
        var needed := env.config.t3Confirmations;
        if item.confirmations + 1 >= needed {
          store.MarkActive(
            id, reason, item.confirmations + 1, ReviewAt(env.config, item.tier, now), now, Auto(listing));
            return Now(Active);
        }
        var _ := store.AddConfirmation(id, now, listing);
        var expiry := now + env.config.t3TtlDays as real * DAY;
        store.SetExpiryTime(id, expiry, now);
        assert store.trace == t0 + [Event(id, now, Confirm(listing)), Event(id, now, SetExpiry(expiry))];
        return Now(Pending);
      }
      assert t0 + [] == t0;
      return Now(Pending);
    }

    /** The user's explicit approval: the only promotion open to every tier. */
    method ApprovePending(id: Id, now: Time) returns (result: Outcome)
      requires Valid() && ClockAt(store.trace, now)
      modifies store
      ensures Valid() && ClockAt(store.trace, now)
      ensures id in old(store.rows) && old(store.rows)[id].state == Pending
              ==> result == Now(Active) && store.trace == old(store.trace)
                    + [Event(id, now, Promote("user approval", old(store.rows)[id].confirmations, None, UserApproval))]
      ensures id !in old(store.rows) || old(store.rows)[id].state != Pending
              ==> result == Missing && store.trace == old(store.trace) && store.rows == old(store.rows)
      ensures id in old(store.rows) && old(store.rows)[id].state == Pending
              ==> store.rows == old(store.rows)[id := old(store.rows)[id].(
                    state := Active, verifiedAt := Some(now), verdict := Some("user approval"),
                    trustScore := 1.0, trustCeiling := 1.0, lastReaffirmed := Some(now), reviewAt := None)]
    {
      if id !in store.rows || store.rows[id].state != Pending {
        return Missing;
      }
      ghost var kind := Promote("user approval", store.rows[id].confirmations, None, UserApproval);
      LegalSnoc(env, store.trace, Event(id, now, kind));
      store.MarkActive(id, "user approval", store.rows[id].confirmations, None, now, UserApproval);
      return Now(Active);
    }

    /**
     * A pass over the newest 200 pending rows. Rows that were not pending are untouched, the
     * others end active, rejected or pending, and the counts are exactly the table's changes.
     */
    method ProcessPending(clock: nat -> Time) returns (counts: Counts, ghost ids: seq<Id>, ghost dbs: seq<Db>)
      requires Valid() && Ticking(clock) && ClockAt(store.trace, clock(0))
      modifies store
      ensures Valid() && ClockAt(store.trace, clock(LIMIT)) && old(store.trace) <= store.trace
      ensures Processed(old(store.rows), store.rows)
      ensures counts.active + counts.rejected + counts.pending == Min(LIMIT, |InState(old(store.rows), Pending)|)
      ensures Tallies(counts, old(store.rows), store.rows)
      ensures Listing(old(store.rows), Pending, ids) && |dbs| == |ids| + 1 && PassedOver(env, ids, dbs, clock)
      ensures dbs[0] == old(store.Contents()) && dbs[|ids|] == store.Contents()
    {
      hide Exec, Apply, Legal, Guard, PassEvents, PassState, Processed, SameIdentity, Judged, PassedOver, Listing,
        Tallies;
      IdentityReflexive(store.rows);
      NothingTallied(store.rows);
      dbs := [store.Contents()];
      PassedOverNone(env, store.Contents(), clock);
      counts := Counts(0, 0, 0);
      var items := store.ByState(Pending);
      ids := items;
      ghost var rows0 := store.rows;
      ListingSize(rows0, Pending, items);
      ListedApart(rows0, Pending, items);
      for i := 0 to |items|
        invariant Valid() && ClockAt(store.trace, clock(i)) && old(store.trace) <= store.trace
        invariant Processed(rows0, store.rows) && store.rows.Keys == rows0.Keys
        invariant forall j :: i <= j < |items| ==> store.rows[items[j]] == rows0[items[j]]
        invariant counts.active + counts.rejected + counts.pending == i
        invariant Tallies(counts, rows0, store.rows)
        invariant PassedOver(env, items[..i], dbs, clock) && |dbs| == i + 1
        invariant dbs[0] == old(store.Contents()) && dbs[i] == store.Contents()
      {
        counts := ProcessAndCount(items[i], clock(i), counts, rows0);
        PassedOverSnoc(env, items[..i], dbs, clock, items[i], store.Contents());
        assert items[..i] + [items[i]] == items[..i + 1];
        dbs := dbs + [store.Contents()];
        LaterClock(store.trace, clock, i, i + 1);
      }
      assert items[..|items|] == items;
      LaterClock(store.trace, clock, |items|, LIMIT);
    }

    method ProcessAndCount(id: Id, now: Time, counts: Counts, ghost rows0: Rows) returns (counts': Counts)
      requires Valid() && ClockAt(store.trace, now) && Processed(rows0, store.rows)
      requires Tallies(counts, rows0, store.rows)
      requires id in store.rows && id in rows0 && store.rows[id] == rows0[id] && rows0[id].state == Pending
      modifies store
      ensures Valid() && ClockAt(store.trace, now) && old(store.trace) <= store.trace
      ensures Processed(rows0, store.rows) && Tallies(counts', rows0, store.rows)
      ensures Judged(env, old(store.Contents()), store.Contents(), id, now)
      ensures store.rows.Keys == old(store.rows).Keys
      ensures forall other :: other in store.rows && other != id ==> store.rows[other] == old(store.rows)[other]
      ensures counts'.active + counts'.rejected + counts'.pending
              == counts.active + counts.rejected + counts.pending + 1
    {
      hide Exec, Apply, Legal, Guard, PassEvents, PassState, Processed, SameIdentity, Judged;
      ghost var before, db := store.rows, store.Contents();
      var result, rephrased, listing := ProcessOne(id, now);
      PassStateRange(env, db, id, rephrased, listing, now);
      ProcessedStep(rows0, before, store.rows, id);
      StateMoves(before, store.rows, id, Active);
      StateMoves(before, store.rows, id, Rejected);
      counts' := match result.state
        case Active => counts.(active := counts.active + 1)
        case Rejected => counts.(rejected := counts.rejected + 1)
        case _ => counts.(pending := counts.pending + 1);
    }
  }

  /** The counts are the change in how many rows are active and rejected. */
  ghost predicate Tallies(counts: Counts, rows0: Rows, rows: Rows) {
    && counts.active == |InState(rows, Active)| - |InState(rows0, Active)|
    && counts.rejected == |InState(rows, Rejected)| - |InState(rows0, Rejected)|
  }

  lemma NothingTallied(rows: Rows)
    ensures Tallies(Counts(0, 0, 0), rows, rows)
  {
  }

  lemma ListedApart(rows: Rows, s: State, ids: seq<Id>)
    requires Listing(rows, s, ids)
    ensures forall i :: 0 <= i < |ids| ==> ids[i] in rows && rows[ids[i]].state == s
    ensures forall i, j :: 0 <= i < j < |ids| ==> ids[i] != ids[j]
    ensures |ids| <= LIMIT
  {
  }

  datatype Counts = Counts(active: int, rejected: int, pending: int)

  /** Successive clock readings never go back. */
  ghost predicate Ticking(clock: nat -> Time) {
    forall i, j :: 0 <= i <= j ==> clock(i) <= clock(j)
  }

  lemma LaterClock(t: Trace, clock: nat -> Time, i: nat, j: nat)
    requires Ticking(clock) && i <= j && ClockAt(t, clock(i))
    ensures ClockAt(t, clock(j))
  {
  }

  /** What a pass over the quarantine may do to the table. */
  ghost predicate Processed(rows: Rows, rows': Rows) {
    && rows'.Keys == rows.Keys
    && (forall id :: id in rows ==> SameIdentity(rows[id], rows'[id]))
    && (forall id :: id in rows && rows[id].state != Pending ==> rows'[id] == rows[id])
    && (forall id :: id in rows && rows[id].state == Pending
          ==> rows'[id].state == Pending || rows'[id].state == Active || rows'[id].state == Rejected)
  }

  lemma PassStateRange(env: Env, db: Db, id: Id, rephrased: bool, listing: seq<Id>, now: Time)
    requires id in db.rows && forall i :: 0 <= i < |listing| ==> listing[i] in db.rows
    ensures var s := PassState(env, db, id, rephrased, listing, now);
            db.rows[id].state == Pending ==> s == Pending || s == Active || s == Rejected
    ensures db.rows[id].state != Pending ==> PassState(env, db, id, rephrased, listing, now) == db.rows[id].state
  {
  }

  /** Changing one row moves at most that row between the states. */
  lemma StateMoves(rows: Rows, rows': Rows, id: Id, s: State)
    requires id in rows && rows'.Keys == rows.Keys
    requires forall other :: other in rows && other != id ==> rows'[other].state == rows[other].state
    ensures |InState(rows', s)| - |InState(rows, s)|
            == (if rows'[id].state == s then 1 else 0) - (if rows[id].state == s then 1 else 0)
  {
    MembershipMoves(InState(rows, s), InState(rows', s), id);
  }

  lemma MembershipMoves(a: set<Id>, a': set<Id>, id: Id)
    requires forall x :: x != id ==> (x in a <==> x in a')
    ensures |a'| - |a| == (if id in a' then 1 else 0) - (if id in a then 1 else 0)
  {
    var rest := a - {id};
    assert a == if id in a then rest + {id} else rest;
    assert a' == if id in a' then rest + {id} else rest;
  }

  lemma IdentityReflexive(rows: Rows)
    ensures Processed(rows, rows)
  {
  }

  lemma ProcessedStep(rows0: Rows, rows: Rows, rows': Rows, id: Id)
    requires Processed(rows0, rows) && rows'.Keys == rows.Keys
    requires id in rows && rows[id] == rows0[id] && rows0[id].state == Pending
    requires forall other :: other in rows && other != id ==> rows'[other] == rows[other]
    requires SameIdentity(rows[id], rows'[id])
    requires rows'[id].state == Pending || rows'[id].state == Active || rows'[id].state == Rejected
    ensures Processed(rows0, rows')
  {
  }

  lemma ListedKnown(rows: Rows, s: State, ids: seq<Id>)
    requires Listing(rows, s, ids)
    ensures forall i :: 0 <= i < |ids| ==> ids[i] in rows
  {
  }

  lemma ListingSize(rows: Rows, s: State, ids: seq<Id>)
    requires Listing(rows, s, ids)
    ensures |ids| == Min(LIMIT, |InState(rows, s)|)
  {
    var listed := set id | id in ids;
    forall i | 0 <= i < |ids| ensures ids[i] in InState(rows, s) { assert ids[i] in ids; }
    EnumeratedLength(listed, ids);
    var rest := InState(rows, s) - listed;
    assert InState(rows, s) == listed + rest;
    if rest != {} {
      var id :| id in rest;
      assert id !in ids;
    }
  }
}
