/** What a row's trust is worth: the time since it was last renewed, in the half-lives of its tier. */
module TrustClock {
  import opened MemoryModel
  import opened Trust
  import opened History
  import opened Runs
  import opened Consolidate

  /** Event k renewed the row, and no later one did. */
  ghost predicate LastRenewal(t: Trace, id: Id, k: nat) {
    && k < |t| && t[k].id == id && (t[k].kind.Promote? || t[k].kind.Activate? || t[k].kind.Reaffirm?)
    && forall j :: k < j < |t| && t[j].id == id ==>
         !(t[j].kind.Promote? || t[j].kind.Activate? || t[j].kind.Reaffirm?)
  }

  /** The days a tier is trusted for before its trust has halved; T0 never decays. */
  function HalvingDays(c: Config, tier: Tier): int
    requires tier != T0
  {
    match tier
    case T1 => c.t1ReviewDays
    case T2 => c.t2ReviewDays
    case T3 => c.t3TtlDays
    case T4 => c.t3TtlDays
  }

  /** The half-life in seconds; sensitive rows decay by their own factor. */
  function HalvingSeconds(c: Config, r: Row): real
    requires r.tier != T0
  {
    var seconds := HalvingDays(c, r.tier) as real * 86400.0;
    if r.sensitivity == Sensitive then seconds * c.sensitiveFactor else seconds
  }

  /** What a renewal leaves of trust: all of it, or what a weak reaffirmation of that number earns. */
  function Granted(k: Kind, count: int): real
    requires k.Promote? || k.Activate? || k.Reaffirm?
  {
    if k.Reaffirm? && !k.strong then
      var earned := 1.0 - (if count > 3 then (count - 3) as real / 10.0 else 0.0);
      if earned < k.weakFloor then k.weakFloor else earned
    else 1.0
  }

  /** The clock of a row runs from its last renewal, and its ceiling is what that renewal granted. */
  ghost predicate ClockRuns(t: Trace, k: nat, r: Row)
    requires k < |t|
  {
    && r.lastReaffirmed == Some(t[k].at)
    && (t[k].kind.Promote? || t[k].kind.Reaffirm? ==>
          r.trustCeiling == Granted(t[k].kind, Reaffirms(t[..k + 1], t[k].id)))
  }

  lemma {:induction false} RenewalStartsClock(env: Env, t: Trace, id: Id, k: nat)
    requires Legal(env, t) && LastRenewal(t, id, k)
    ensures id in Exec(env, t).rows && ClockRuns(t, k, Exec(env, t).rows[id])
    decreases |t|
  {
    hide Exec, Legal, Apply, Guard, Reaffirms;
    var n := |t| - 1;
    var t', db := t[..n], Before(env, t, n);
    assert t[..n + 1] == t;
    StepAt(env, t, n);
    LegalPrefix(env, t, n);
    if k == n {
      GuardedRowExists(env, db, t[n]);
      if t[n].kind.Reaffirm? { ReaffirmStateKept(env, t', id); }
      assert t[..k + 1] == t;
      ReaffirmCounts(t, id);
      RenewalSets(env, db, t[n], Reaffirms(t, id));
    } else {
      assert LastRenewal(t', id, k);
      RenewalStartsClock(env, t', id, k);
      assert t'[..k + 1] == t[..k + 1];
      OtherKeepsClock(env, db, t[n], id);
    }
  }

  lemma GuardedRowExists(env: Env, db: Db, e: Event)
    requires Guard(env, db, e) && (e.kind.Promote? || e.kind.Activate? || e.kind.Reaffirm?)
    ensures e.id in db.rows
  {
  }

  lemma ReaffirmCounts(t: Trace, id: Id)
    requires t != []
    ensures Reaffirms(t, id)
            == Reaffirms(t[..|t| - 1], id) + if t[|t| - 1].id == id && t[|t| - 1].kind.Reaffirm? then 1 else 0
  {
  }

  lemma RenewalSets(env: Env, db: Db, e: Event, count: int)
    requires e.id in db.rows && (e.kind.Promote? || e.kind.Activate? || e.kind.Reaffirm?)
    requires e.kind.Reaffirm? ==> count == db.rows[e.id].reaffirmCount + 1
    ensures var rows := Apply(env, db, e).rows;
            && e.id in rows && rows[e.id].lastReaffirmed == Some(e.at)
            && (e.kind.Promote? || e.kind.Reaffirm? ==> rows[e.id].trustCeiling == Granted(e.kind, count))
  {
    hide Logged;
    if e.kind.Reaffirm? { GrantedIsCeiling(e.kind, count); }
  }

  lemma GrantedIsCeiling(k: Kind, count: int)
    requires k.Reaffirm?
    ensures ReaffirmCeiling(k.strong, k.weakFloor, count) == Granted(k, count)
  {
  }

  lemma OtherKeepsClock(env: Env, db: Db, e: Event, id: Id)
    requires Guard(env, db, e) && id in db.rows
    requires e.id == id ==> !(e.kind.Promote? || e.kind.Activate? || e.kind.Reaffirm?)
    ensures var rows := Apply(env, db, e).rows;
            && id in rows && rows[id].lastReaffirmed == db.rows[id].lastReaffirmed
            && rows[id].trustCeiling == db.rows[id].trustCeiling
  {
  }

  /**
   * Trust decays from the last renewal, whatever else happens to the row: at any later time it
   * is what the renewal granted, halved once for every half-life of the tier gone by.
   */
  lemma TrustSinceRenewal(env: Env, t: Trace, id: Id, k: nat, now: Time)
    requires Legal(env, t) && ValidConfig(env.config) && LastRenewal(t, id, k) && now >= t[k].at
    ensures id in Exec(env, t).rows
    ensures var r, c := Exec(env, t).rows[id], env.config;
            && (r.tier == T0 ==> RowTrust(c, r, now) == 1.0)
            && (r.tier != T0 && (t[k].kind.Promote? || t[k].kind.Reaffirm?) ==>
                  RowTrust(c, r, now) == Granted(t[k].kind, Reaffirms(t[..k + 1], id))
                                         * c.halve((now - t[k].at) / HalvingSeconds(c, r)))
  {
    hide Exec, Legal, Reaffirms, Granted;
    RenewalStartsClock(env, t, id, k);
    ScoreFormula(env.config, Exec(env, t).rows[id], t[k].at, now);
  }

  lemma ScoreFormula(c: Config, r: Row, last: Time, now: Time)
    requires ValidConfig(c) && r.lastReaffirmed == Some(last) && now >= last
    ensures r.tier == T0 ==> RowTrust(c, r, now) == 1.0
    ensures r.tier != T0 ==> RowTrust(c, r, now) == r.trustCeiling * c.halve((now - last) / HalvingSeconds(c, r))
  {
    if r.tier != T0 {
      HalfLifePositive(c, r.tier, r.sensitivity);
      var seconds := HalvingDays(c, r.tier) as real * 86400.0;
      assert seconds * 1.0 == seconds;
    }
  }

  /** Before its clock starts, and at any instant not after that, a row is worth its ceiling. */
  lemma NoDecayBeforeClock(c: Config, r: Row, now: Time)
    requires ValidConfig(c) && r.tier != T0 && (r.lastReaffirmed.None? || now <= r.lastReaffirmed.value)
    ensures RowTrust(c, r, now) == r.trustCeiling
  {
    HalfLifePositive(c, r.tier, r.sensitivity);
    assert Splits(c.halve, 0.0, 1.0);
    assert c.halve(0.0) * 0.5 == 0.5;
  }

  /** Only a staged T0 row can be activated, so any other row was last renewed by a promotion or reaffirmation. */
  lemma DecayingRowPromoted(env: Env, t: Trace, id: Id, k: nat)
    requires Legal(env, t) && LastRenewal(t, id, k) && t[k].kind.Activate?
    ensures id in Exec(env, t).rows && Exec(env, t).rows[id].tier == T0
  {
    hide Exec, Legal, Apply;
    StepAt(env, t, k);
    LegalPrefix(env, t, k);
    StagedIsAuthority(env, t[..k], id);
    RenewalStartsClock(env, t, id, k);
    IdentityFrom(env, t, k, id);
  }

  lemma {:induction false} IdentityFrom(env: Env, t: Trace, k: nat, id: Id)
    requires Legal(env, t) && k <= |t| && id in Before(env, t, k).rows
    ensures id in Exec(env, t).rows && SameIdentity(Before(env, t, k).rows[id], Exec(env, t).rows[id])
  {
    FinalStatesAbsorb(env, t, k, id);
  }

  /**
   * A decay pass that lists an active row demotes it exactly when what is left of its trust lies
   * below the floor, and never a T0 row.
   */
  lemma DecayDemotesExactly(env: Env, t: Trace, id: Id, k: nat, ids: seq<Id>, now: Time)
    requires Legal(env, t) && ValidConfig(env.config) && LastRenewal(t, id, k) && now >= t[k].at
    requires id in Exec(env, t).rows && Exec(env, t).rows[id].state == Active && id in ids
    ensures var r, r', c := Exec(env, t).rows[id], Decay(env.config, Exec(env, t).rows, ids, now)[id], env.config;
            if r.tier == T0 then r'.state == Active
            else if Granted(t[k].kind, Reaffirms(t[..k + 1], id)) * c.halve((now - t[k].at) / HalvingSeconds(c, r))
                    < c.demoteFloor then r'.state == Pending
            else r'.state == Active
  {
    hide Exec, Legal, Reaffirms, Granted, RowTrust, HalvingSeconds;
    TrustSinceRenewal(env, t, id, k, now);
    if t[k].kind.Activate? { DecayingRowPromoted(env, t, id, k); }
  }
}
