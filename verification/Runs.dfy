/** Safety of the memory engine over whole runs. */
module Runs {
  import opened MemoryModel
  import opened Trust
  import opened Similarity
  import opened History

  lemma {:induction false} LegalPrefix(env: Env, t: Trace, k: nat)
    requires Legal(env, t) && k <= |t|
    ensures Legal(env, t[..k])
  {
    if k < |t| {
      var t' := t[..|t| - 1];
      LegalPrefix(env, t', k);
      assert t'[..k] == t[..k];
    } else {
      assert t[..k] == t;
    }
  }

  /** The database just before the k-th event. */
  ghost function Before(env: Env, t: Trace, k: nat): Db
    requires k <= |t|
  {
    Exec(env, t[..k])
  }

  lemma StepAt(env: Env, t: Trace, k: nat)
    requires Legal(env, t) && k < |t|
    ensures Guard(env, Before(env, t, k), t[k])
    ensures Before(env, t, k + 1) == Apply(env, Before(env, t, k), t[k])
  {
    LegalPrefix(env, t, k + 1);
    assert t[..k + 1][..k] == t[..k];
  }

  lemma {:induction false} ClockForward(env: Env, t: Trace, j: nat, k: nat)
    requires Legal(env, t) && j <= k < |t|
    ensures t[j].at <= t[k].at
  {
    if j < k {
      LegalPrefix(env, t, k + 1);
      assert t[..k + 1][..k] == t[..k] && t[..k][k - 1] == t[k - 1];
      ClockForward(env, t, j, k - 1);
    }
  }

  // ----- one step ---------------------------------------------------------

  predicate Final(s: State) { s == Rejected || s == Revoked || s == Expired }

  /** What no guarded event changes in a row that exists. */
  ghost predicate SameIdentity(r: Row, r': Row) {
    && r'.content == r.content && r'.tier == r.tier && r'.prov == r.prov && r'.evidence == r.evidence
    && r'.createdAt == r.createdAt && r'.derivedFrom == r.derivedFrom && r'.sensitivity == r.sensitivity
  }

  predicate Admits(k: Kind) { k.Promote? || k.Activate? }

  predicate Renews(k: Kind) { Admits(k) || k.Reaffirm? }

  lemma StepKeepsRow(env: Env, db: Db, e: Event, id: Id)
    requires Guard(env, db, e) && id in db.rows
    ensures id in Apply(env, db, e).rows
    ensures var r, r' := db.rows[id], Apply(env, db, e).rows[id];
            && SameIdentity(r, r')
            && (Final(r.state) ==> r'.state == r.state)
            && (e.id != id ==> r' == r)
            && (r'.state == Active && !(e.id == id && Admits(e.kind)) ==> r.state == Active)
            && ((e.id == id && Renews(e.kind))
                || (r'.lastReaffirmed == r.lastReaffirmed && r'.trustCeiling == r.trustCeiling))
  {
  }

  /** Rejected, revoked and expired rows stay so on every continuation of the run. */
  lemma {:induction false} FinalStatesAbsorb(env: Env, t: Trace, k: nat, id: Id)
    requires Legal(env, t) && k <= |t| && id in Before(env, t, k).rows
    ensures id in Exec(env, t).rows && SameIdentity(Before(env, t, k).rows[id], Exec(env, t).rows[id])
    ensures Final(Before(env, t, k).rows[id].state)
            ==> Exec(env, t).rows[id].state == Before(env, t, k).rows[id].state
    decreases |t| - k
  {
    if k < |t| {
      StepAt(env, t, k);
      StepKeepsRow(env, Before(env, t, k), t[k], id);
      FinalStatesAbsorb(env, t, k + 1, id);
    } else {
      assert t[..k] == t;
    }
  }

  // ----- why a row is active ----------------------------------------------

  /** Event k admitted the row, under its guard, and the row has been active ever since. */
  ghost predicate Warrant(env: Env, t: Trace, id: Id, k: nat) {
    && k < |t| && t[k].id == id && Admits(t[k].kind)
    && Guard(env, Before(env, t, k), t[k])
    && forall j :: k < j <= |t| ==> ActiveAt(env, t, id, j)
  }

  ghost predicate ActiveAt(env: Env, t: Trace, id: Id, j: nat)
    requires j <= |t|
  {
    id in Before(env, t, j).rows && Before(env, t, j).rows[id].state == Active
  }

  /** Every active row was let in by a guarded promotion or T0 activation of its own. */
  lemma {:induction false} ActiveHasWarrant(env: Env, t: Trace, id: Id) returns (k: nat)
    requires Legal(env, t) && id in Exec(env, t).rows && Exec(env, t).rows[id].state == Active
    ensures Warrant(env, t, id, k)
  {
    var n := |t| - 1;
    StepAt(env, t, n);
    assert t[..n + 1] == t;
    if t[n].id == id && Admits(t[n].kind) {
      k := n;
    } else {
      ActiveBefore(env, Before(env, t, n), t[n], id);
      k := ActiveHasWarrant(env, t[..n], id);
      WarrantExtends(env, t, id, k);
    }
  }

  lemma ActiveBefore(env: Env, db: Db, e: Event, id: Id)
    requires Guard(env, db, e) && !(e.id == id && Admits(e.kind))
    requires id in Apply(env, db, e).rows && Apply(env, db, e).rows[id].state == Active
    ensures id in db.rows && db.rows[id].state == Active
  {
  }

  lemma WarrantExtends(env: Env, t: Trace, id: Id, k: nat)
    requires |t| > 0 && Warrant(env, t[..|t| - 1], id, k) && ActiveAt(env, t, id, |t|)
    ensures Warrant(env, t, id, k)
  {
    var n := |t| - 1;
    assert t[..n][..k] == t[..k];
    forall j | k < j <= |t| ensures ActiveAt(env, t, id, j) {
      if j <= n {
        assert t[..n][..j] == t[..j];
        assert ActiveAt(env, t[..n], id, j);
      }
    }
  }

  /**
   * Tier rules, over any run: an active T4 row was approved by the user; an active T0 row was
   * approved by the user or activated; an activated row was staged, its review gap had elapsed
   * and the signature over its own activation message was good.
   */
  lemma PromotionFollowsTier(env: Env, t: Trace, id: Id) returns (k: nat)
    requires Legal(env, t) && id in Exec(env, t).rows && Exec(env, t).rows[id].state == Active
    ensures Warrant(env, t, id, k)
    ensures var e, r := t[k], Exec(env, t).rows[id];
            && (r.tier == T4 ==> e.kind.Promote? && e.kind.cause == UserApproval)
            && (r.tier == T0 ==> (e.kind.Promote? && e.kind.cause == UserApproval) || e.kind.Activate?)
            && (e.kind.Activate? ==>
                  && e.at - r.createdAt >= env.config.t0ReviewSeconds
                  && env.signed(ActivationMessage(id, r.evidence), e.kind.signature) == GoodSignature)
  {
    hide Exec, Legal;
    k := ActiveHasWarrant(env, t, id);
    FinalStatesAbsorb(env, t, k, id);
    LegalPrefix(env, t, k);
    StagedIsAuthority(env, t[..k], id);
  }

  lemma {:induction false} StagedIsAuthority(env: Env, t: Trace, id: Id)
    requires Legal(env, t) && id in Exec(env, t).rows
    ensures Exec(env, t).rows[id].state == T0Staged ==> Exec(env, t).rows[id].tier == T0
  {
    if t == [] {
    } else {
      var n := |t| - 1;
      assert t[..n + 1] == t;
      StepAt(env, t, n);
      if id in Before(env, t, n).rows {
        StagedIsAuthority(env, t[..n], id);
      }
    }
  }

  /** Content no verifier call approves is active only by the user's approval or the T0 path. */
  lemma UnapprovedContentNeedsAuthority(env: Env, t: Trace, id: Id) returns (k: nat)
    requires Legal(env, t) && id in Exec(env, t).rows && Exec(env, t).rows[id].state == Active
    requires forall kind, tier, existing, at ::
               !env.verify(Exec(env, t).rows[id].content, kind, tier, existing, at).approved
    ensures Warrant(env, t, id, k) && (t[k].kind.Activate? || t[k].kind.cause == UserApproval)
  {
    k := ActiveHasWarrant(env, t, id);
    FinalStatesAbsorb(env, t, k, id);
  }

  /**
   * A claim nobody confirmed never expires, whatever expiry it carries: a row is expired only
   * if it was promoted or activated first.
   */
  lemma {:induction false} OnlyAdmittedRowsExpire(env: Env, t: Trace, id: Id) returns (k: nat)
    requires Legal(env, t) && id in Exec(env, t).rows && Exec(env, t).rows[id].state == Expired
    ensures k < |t| && t[k].id == id && Admits(t[k].kind)
  {
    hide Exec, Legal, Apply;
    assert t != [] by { EmptyRun(env); }
    var n := |t| - 1;
    assert t[..n + 1] == t;
    StepAt(env, t, n);
    LegalPrefix(env, t, n);
    if t[n].id == id && t[n].kind.Expire? {
      k := ActiveHasWarrant(env, t[..n], id);
    } else {
      ExpiredBefore(env, Before(env, t, n), t[n], id);
      k := OnlyAdmittedRowsExpire(env, t[..n], id);
    }
  }

  lemma EmptyRun(env: Env)
    ensures Exec(env, []) == EMPTY
  {
  }

  lemma ExpiredBefore(env: Env, db: Db, e: Event, id: Id)
    requires Guard(env, db, e) && !(e.id == id && e.kind.Expire?)
    requires id in Apply(env, db, e).rows && Apply(env, db, e).rows[id].state == Expired
    ensures id in db.rows && db.rows[id].state == Expired
  {
  }

  // ----- third-party confirmations ------------------------------------------

  predicate AutoPromotes(e: Event, id: Id) { e.id == id && e.kind.Promote? && e.kind.cause.Auto? }

  predicate NeverAuto(t: Trace, id: Id) { forall k :: 0 <= k < |t| ==> !AutoPromotes(t[k], id) }

  function Confirmations(t: Trace, id: Id): nat {
    if t == [] then 0
    else Confirmations(t[..|t| - 1], id) + (if t[|t| - 1].id == id && t[|t| - 1].kind.Confirm? then 1 else 0)
  }

  lemma {:induction false} UnknownHasNoConfirmations(env: Env, t: Trace, id: Id)
    requires Legal(env, t) && id !in Exec(env, t).rows
    ensures Confirmations(t, id) == 0
  {
    if t == [] {
    } else {
      UnknownHasNoConfirmations(env, t[..|t| - 1], id);
    }
  }

  lemma CounterStep(env: Env, db: Db, e: Event, id: Id)
    requires Guard(env, db, e) && id in db.rows && !AutoPromotes(e, id)
    requires db.rows[id].confirmations < env.config.t3Confirmations
    ensures id in Apply(env, db, e).rows
    ensures Apply(env, db, e).rows[id].confirmations
            == db.rows[id].confirmations + (if e.id == id && e.kind.Confirm? then 1 else 0)
            < env.config.t3Confirmations
  {
  }

  lemma {:induction false} CounterCountsPasses(env: Env, t: Trace, id: Id)
    requires Legal(env, t) && NeverAuto(t, id) && id in Exec(env, t).rows && env.config.t3Confirmations >= 1
    ensures Exec(env, t).rows[id].confirmations == Confirmations(t, id) < env.config.t3Confirmations
  {
    if t == [] {
    } else {
      var n := |t| - 1;
      assert t[..n + 1] == t;
      StepAt(env, t, n);
      if id in Before(env, t, n).rows {
        CounterCountsPasses(env, t[..n], id);
        CounterStep(env, Before(env, t, n), t[n], id);
      } else {
        UnknownHasNoConfirmations(env, t[..n], id);
      }
    }
  }

  /**
   * A third-party row is first promoted automatically on exactly its N-th approved pass:
   * N - 1 confirmation passes came before, whatever approvals and demotions lie between.
   */
  lemma ThirdPartyWaitsForConfirmations(env: Env, t: Trace, k: nat)
    requires Legal(env, t) && env.config.t3Confirmations >= 1
    requires k < |t| && AutoPromotes(t[k], t[k].id) && NeverAuto(t[..k], t[k].id)
    requires t[k].id in Before(env, t, k).rows && Before(env, t, k).rows[t[k].id].tier == T3
    ensures Confirmations(t[..k], t[k].id) == env.config.t3Confirmations - 1
  {
    StepAt(env, t, k);
    LegalPrefix(env, t, k);
    CounterCountsPasses(env, t[..k], t[k].id);
  }

  // ----- rejection persists ---------------------------------------------------

  lemma {:induction false} NegativesGrow(env: Env, t: Trace, k: nat)
    requires Legal(env, t) && k <= |t|
    ensures Before(env, t, k).negatives <= Exec(env, t).negatives
    decreases |t| - k
  {
    hide Exec, Legal, Guard, Logged, RowsAfter;
    if k < |t| {
      StepAt(env, t, k);
      NegativesGrow(env, t, k + 1);
    } else {
      assert t[..k] == t;
    }
  }

  /**
   * Once content with a nonempty token set has been recorded as rejected, no row with the
   * same tokens passes the checks again, on any continuation of the run.
   */
  lemma RejectionPersists(env: Env, t: Trace, k: nat, r: Row, listing: seq<Id>, at: Time)
    requires Legal(env, t) && ValidConfig(env.config)
    requires k < |t| && t[k].kind.AddNegative?
    requires env.tokens(r.content) == env.tokens(t[k].kind.content) != {}
    ensures Rephrases(env, Exec(env, t), r.content) && !Passes(env, Exec(env, t), r, listing, at)
  {
    StepAt(env, t, k);
    NegativesGrow(env, t, k + 1);
    var c := t[k].kind.content;
    assert c in Before(env, t, k + 1).negatives;
    assert c in Exec(env, t).negatives;
    JaccardBounds(env.tokens(r.content), env.tokens(c));
  }

  /** Hence no later automatic promotion or confirmation of any row with those tokens. */
  lemma RejectedNeverAutoPromoted(env: Env, t: Trace, k: nat, j: nat)
    requires Legal(env, t) && ValidConfig(env.config)
    requires k < j < |t| && t[k].kind.AddNegative?
    requires t[j].id in Before(env, t, j).rows
    requires env.tokens(Before(env, t, j).rows[t[j].id].content) == env.tokens(t[k].kind.content) != {}
    ensures !AutoPromotes(t[j], t[j].id) && !t[j].kind.Confirm?
  {
    hide Exec, Legal, Rephrases, Listing, Judge;
    StepAt(env, t, j);
    LegalPrefix(env, t, j);
    var r := Before(env, t, j).rows[t[j].id];
    assert t[..j][k] == t[k];
    forall listing ensures !Passes(env, Before(env, t, j), r, listing, t[j].at) {
      RejectionPersists(env, t[..j], k, r, listing, t[j].at);
    }
  }

  // ----- reaffirmation ---------------------------------------------------------

  function Reaffirms(t: Trace, id: Id): nat {
    if t == [] then 0
    else Reaffirms(t[..|t| - 1], id) + (if t[|t| - 1].id == id && t[|t| - 1].kind.Reaffirm? then 1 else 0)
  }

  ghost predicate ReaffirmState(t: Trace, id: Id, r: Row) {
    && r.reaffirmCount == Reaffirms(t, id)
    && (forall k :: 0 <= k < |t| && t[k].id == id && t[k].kind.Reaffirm?
          ==> r.lastReaffirmed.Some? && t[k].at <= r.lastReaffirmed.value)
  }

  predicate NeverReaffirmed(t: Trace, id: Id) {
    forall k :: 0 <= k < |t| ==> t[k].id != id || !t[k].kind.Reaffirm?
  }

  lemma {:induction false} UnknownHasNoReaffirms(env: Env, t: Trace, id: Id)
    requires Legal(env, t) && id !in Exec(env, t).rows
    ensures Reaffirms(t, id) == 0 && NeverReaffirmed(t, id)
  {
    if t == [] {
    } else {
      UnknownHasNoReaffirms(env, t[..|t| - 1], id);
      assert forall k :: 0 <= k < |t| - 1 ==> t[k] == t[..|t| - 1][k];
    }
  }

  lemma {:induction false} ReaffirmStateKept(env: Env, t: Trace, id: Id)
    requires Legal(env, t) && id in Exec(env, t).rows
    ensures ReaffirmState(t, id, Exec(env, t).rows[id])
  {
    if t == [] {
    } else {
      hide Legal, Exec, Guard, ReaffirmState, Apply, Reaffirms, NeverReaffirmed;
      var n := |t| - 1;
      assert t[..n + 1] == t;
      StepAt(env, t, n);
      LastIsLatest(env, t);
      var db := Before(env, t, n);
      if id in db.rows {
        ReaffirmStateKept(env, t[..n], id);
        ReaffirmStep(env, db, t, id);
      } else {
        LegalPrefix(env, t, n);
        UnknownHasNoReaffirms(env, t[..n], id);
        FreshReaffirmState(env, db, t, id);
      }
    }
  }

  lemma LastIsLatest(env: Env, t: Trace)
    requires Legal(env, t) && |t| > 0
    ensures Legal(env, t[..|t| - 1]) && forall k :: 0 <= k < |t| ==> t[k].at <= t[|t| - 1].at
  {
    forall k | 0 <= k < |t| ensures t[k].at <= t[|t| - 1].at { ClockForward(env, t, k, |t| - 1); }
  }

  lemma ReaffirmStep(env: Env, db: Db, t: Trace, id: Id)
    requires |t| > 0 && id in db.rows && ReaffirmState(t[..|t| - 1], id, db.rows[id]) && Guard(env, db, t[|t| - 1])
    requires forall k :: 0 <= k < |t| ==> t[k].at <= t[|t| - 1].at
    ensures id in Apply(env, db, t[|t| - 1]).rows && ReaffirmState(t, id, Apply(env, db, t[|t| - 1]).rows[id])
  {
  }

  lemma FreshReaffirmState(env: Env, db: Db, t: Trace, id: Id)
    requires |t| > 0 && id !in db.rows && Guard(env, db, t[|t| - 1]) && id in Apply(env, db, t[|t| - 1]).rows
    requires Reaffirms(t[..|t| - 1], id) == 0 && NeverReaffirmed(t[..|t| - 1], id)
    ensures ReaffirmState(t, id, Apply(env, db, t[|t| - 1]).rows[id])
  {
  }

  /**
   * Two accepted reaffirmations of one row are at least the demanded interval apart, whatever
   * promotions and demotions lie between.
   */
  lemma ReaffirmsAreSpaced(env: Env, t: Trace, j: nat, k: nat)
    requires Legal(env, t) && j < k < |t| && t[j].id == t[k].id
    requires t[j].kind.Reaffirm? && t[k].kind.Reaffirm?
    ensures t[k].at - t[j].at >= t[k].kind.minInterval
  {
    hide Exec, Legal;
    var id := t[k].id;
    StepAt(env, t, k);
    LegalPrefix(env, t, k);
    ReaffirmStateKept(env, t[..k], id);
    assert t[..k][j] == t[j];
    ReaffirmsCounted(t[..k], id, j);
  }

  lemma {:induction false} ReaffirmsCounted(t: Trace, id: Id, j: nat)
    requires j < |t| && t[j].id == id && t[j].kind.Reaffirm?
    ensures Reaffirms(t, id) > 0
  {
    if j < |t| - 1 {
      assert t[..|t| - 1][j] == t[j];
      ReaffirmsCounted(t[..|t| - 1], id, j);
    }
  }

  /** The n-th accepted reaffirmation of a row, if weak, sets its ceiling to max(floor, 1 - max(0, n - 3) / 10). */
  lemma NthReaffirmCeiling(env: Env, t: Trace, k: nat)
    requires Legal(env, t) && k < |t| && t[k].kind.Reaffirm?
    ensures t[k].id in Before(env, t, k + 1).rows
    ensures var r, n := Before(env, t, k + 1).rows[t[k].id], Reaffirms(t[..k + 1], t[k].id);
            r.trustCeiling == r.trustScore == (if t[k].kind.strong then 1.0
              else Max(t[k].kind.weakFloor, 1.0 - Max(0.0, (n - 3) as real) / 10.0))
  {
    hide Exec, Legal;
    StepAt(env, t, k);
    LegalPrefix(env, t, k);
    ReaffirmStateKept(env, t[..k], t[k].id);
    assert t[..k + 1][..k] == t[..k];
  }

  // ----- trust --------------------------------------------------------------------

  ghost predicate TrustSound(r: Row) {
    && 0.0 < r.trustCeiling <= 1.0
    && 0.0 < r.trustScore <= 1.0
    && (r.tier != T0 ==> r.trustScore <= r.trustCeiling)
  }

  lemma ScoreStep(env: Env, db: Db, e: Event, id: Id)
    requires Guard(env, db, e) && ValidConfig(env.config) && id in db.rows && TrustSound(db.rows[id])
    requires db.rows[id].state == T0Staged ==> db.rows[id].tier == T0
    ensures id in Apply(env, db, e).rows && TrustSound(Apply(env, db, e).rows[id])
  {
    hide RowTrust, ValidConfig;
    if e.id == id && e.kind.SetTrust? {
      RowTrustBound(env.config, db.rows[id], e.at);
    }
  }

  lemma FreshRowSound(env: Env, db: Db, e: Event, id: Id)
    requires Guard(env, db, e) && id !in db.rows && id in Apply(env, db, e).rows
    ensures TrustSound(Apply(env, db, e).rows[id])
  {
  }

  lemma RowTrustBound(c: Config, r: Row, now: Time)
    requires ValidConfig(c) && 0.0 < r.trustCeiling <= 1.0
    ensures 0.0 < RowTrust(c, r, now) <= 1.0
    ensures r.tier != T0 ==> RowTrust(c, r, now) <= r.trustCeiling
  {
    hide ValidConfig, CurrentTrust;
    TrustWithinCeiling(c, r.tier, r.lastReaffirmed, now, r.trustCeiling, r.sensitivity);
  }

  /** Ceilings and scores lie in (0, 1] in every reachable state, and outside T0 no score exceeds its ceiling. */
  lemma {:induction false} ScoreBelowCeiling(env: Env, t: Trace, id: Id)
    requires Legal(env, t) && ValidConfig(env.config) && id in Exec(env, t).rows
    ensures TrustSound(Exec(env, t).rows[id])
  {
    if t == [] {
    } else {
      hide Guard, RowTrust, ValidConfig;
      var n := |t| - 1;
      assert t[..n + 1] == t;
      StepAt(env, t, n);
      var e, db := t[n], Before(env, t, n);
      if id !in db.rows {
        FreshRowSound(env, db, e, id);
      } else {
        ScoreBelowCeiling(env, t[..n], id);
        StagedIsAuthority(env, t[..n], id);
        ScoreStep(env, db, e, id);
      }
    }
  }

  /** No guarded run ever demotes a T0 row. */
  lemma AuthorityNeverDemoted(env: Env, t: Trace, k: nat)
    requires Legal(env, t) && ValidConfig(env.config) && k < |t| && t[k].kind.Demote?
    ensures t[k].id in Before(env, t, k).rows && Before(env, t, k).rows[t[k].id].tier != T0
  {
    StepAt(env, t, k);
  }

  /**
   * Demotability is permanent: a row whose trust is below the floor stays below it at every
   * later time, unless a promotion, activation or reaffirmation of that row comes between.
   */
  lemma {:induction false} DemotableStaysDemotable(env: Env, t: Trace, k: nat, id: Id, now: Time, later: Time)
    requires Legal(env, t) && ValidConfig(env.config) && k <= |t| && now <= later
    requires id in Before(env, t, k).rows
    requires RowTrust(env.config, Before(env, t, k).rows[id], now) < env.config.demoteFloor
    requires forall j :: k <= j < |t| ==> t[j].id != id || !Renews(t[j].kind)
    ensures id in Exec(env, t).rows
    ensures RowTrust(env.config, Exec(env, t).rows[id], later) < env.config.demoteFloor
    decreases |t| - k
  {
    if k < |t| {
      StepAt(env, t, k);
      StepKeepsRow(env, Before(env, t, k), t[k], id);
      DemotableStaysDemotable(env, t, k + 1, id, now, later);
    } else {
      assert t[..k] == t;
      var r := Exec(env, t).rows[id];
      ScoreBelowCeiling(env, t, id);
      TrustDecays(env.config, r.tier, r.lastReaffirmed, now, later, r.trustCeiling, r.sensitivity, r.sensitivity);
    }
  }
}
