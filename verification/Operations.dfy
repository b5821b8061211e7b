/** The operator's commands: two-phase T0 claims, revocation, expiry and reaffirmation, each within its guard. */
module Operations {
  import opened MemoryModel
  import opened Ledger
  import opened Trust
  import opened History
  import opened Cascade
  import opened Store
  import opened Runs

  datatype T0Result = Done | SignatureNotBase64 | SignatureInvalid | NoSuchStaged | ReviewGapOpen

  /** A store reached by a guarded run. */
  ghost predicate Guarded(store: MemoryStore)
    reads store
  {
    store.Valid() && Legal(store.env, store.trace)
  }

  /** Phase one: a claim signed by the operator is staged; anything else changes nothing. */
  method StageClaim(store: MemoryStore, content: string, signature: string, mid: Id, now: Time) returns (r: T0Result)
    requires Guarded(store) && ClockAt(store.trace, now) && mid !in store.rows
    modifies store
    ensures Guarded(store) && ClockAt(store.trace, now) && old(store.trace) <= store.trace
    ensures r.Done? <==> store.env.signed(content, signature) == GoodSignature
    ensures r.Done? ==> var row := StagedRow(store.env, content, signature, now);
              && store.trace == old(store.trace) + [Event(mid, now, Stage(row))]
              && store.rows == old(store.rows)[mid := row]
              && row.content == content && row.tier == T0 && row.state == T0Staged && row.createdAt == now
              && row.signature == Some(signature) && row.prov.kind == Operator
    ensures !r.Done? ==> store.trace == old(store.trace) && store.rows == old(store.rows)
  {
    match store.env.signed(content, signature)
    case NotBase64 => return SignatureNotBase64;
    case BadSignature => return SignatureInvalid;
    case GoodSignature =>
      ghost var row := StagedRow(store.env, content, signature, now);
      LegalSnoc(store.env, store.trace, Event(mid, now, Stage(row)));
      store.StageT0(content, signature, mid, now);
      return Done;
  }

  /**
   * Phase two: a row becomes active exactly when it is staged, the review gap has elapsed and
   * the second signature is good over this row's own activation message.
   */
  method ActivateClaim(store: MemoryStore, id: Id, signature: string, now: Time) returns (r: T0Result)
    requires Guarded(store) && ClockAt(store.trace, now)
    modifies store
    ensures Guarded(store) && ClockAt(store.trace, now) && old(store.trace) <= store.trace
    ensures r.Done? <==>
              && id in old(store.rows) && old(store.rows)[id].state == T0Staged
              && now - old(store.rows)[id].createdAt >= store.env.config.t0ReviewSeconds
              && store.env.signed("activate:" + id + ":" + old(store.rows)[id].evidence, signature) == GoodSignature
    ensures r.Done? ==> store.trace == old(store.trace) + [Event(id, now, Activate(signature))]
    ensures r.Done? ==> store.rows == old(store.rows)[id := old(store.rows)[id].(
              state := Active, verifiedAt := Some(now), verdict := Some("operator-signed"), trustScore := 1.0,
              lastReaffirmed := Some(now), reviewAt := None, signature := Some(signature))]
    ensures !r.Done? ==> store.trace == old(store.trace) && store.rows == old(store.rows)
  {
    if id !in store.rows || store.rows[id].state != T0Staged {
      return NoSuchStaged;
    }
    var item := store.rows[id];
    var elapsed := now - item.createdAt;
    if elapsed < store.env.config.t0ReviewSeconds {
      return ReviewGapOpen;
    }
    match store.env.signed(ActivationMessage(id, item.evidence), signature)
    case NotBase64 => return SignatureNotBase64;
    case BadSignature => return SignatureInvalid;
    case GoodSignature =>
      LegalSnoc(store.env, store.trace, Event(id, now, Activate(signature)));
      store.ActivateT0(id, signature, now);
      return Done;
  }

  /** A cascade over rows that were live at its start continues a legal run. */
  lemma {:induction false} RevocationsLegal(env: Env, t: Trace, ids: seq<Id>, uri: string, now: Time)
    requires Legal(env, t) && ClockAt(t, now)
    requires forall id :: id in ids ==> id in Exec(env, t).rows && Live(Exec(env, t).rows[id])
    ensures Legal(env, t + Revocations(ids, uri, now)) && ClockAt(t + Revocations(ids, uri, now), now)
    ensures Exec(env, t + Revocations(ids, uri, now)).rows == Without(Exec(env, t).rows, ids)
  {
    hide Exec, Legal;
    if ids == [] {
      assert t + Revocations(ids, uri, now) == t;
      assert Without(Exec(env, t).rows, ids) == Exec(env, t).rows;
    } else {
      var n := |ids| - 1;
      var head, last := ids[..n], ids[n];
      assert ids == head + [last];
      RevocationsLegal(env, t, head, uri, now);
      var t' := t + Revocations(head, uri, now);
      var e := Event(last, now, Revoke(uri));
      LegalSnoc(env, t', e);
      RevocationsStep(head, last, uri, now);
      assert t' + [e] == t + Revocations(ids, uri, now);
      WithoutStep(Exec(env, t).rows, head, last);
    }
  }

  /** Revocation, as the command line issues it, keeps the run guarded. */
  method RevokeSource(store: MemoryStore, uri: string, now: Time) returns (revoked: seq<Id>)
    requires Guarded(store) && ClockAt(store.trace, now)
    modifies store
    ensures Guarded(store) && ClockAt(store.trace, now) && old(store.trace) <= store.trace
    ensures forall id :: id in revoked <==> Doomed(old(store.rows), uri, id)
    ensures store.rows == Without(old(store.rows), revoked)
  {
    ghost var t0 := store.trace;
    revoked := store.RevokeBySource(uri, now);
    forall id | id in revoked ensures id in old(store.rows) && Live(old(store.rows)[id]) {
      DoomedIsLive(old(store.rows), uri, id);
    }
    RevocationsLegal(store.env, t0, revoked, uri, now);
  }

  lemma {:induction false} ExpiriesLegal(env: Env, t: Trace, ids: seq<Id>, now: Time)
    requires Legal(env, t) && ClockAt(t, now)
    requires forall i, j :: 0 <= i < j < |ids| ==> ids[i] != ids[j]
    requires forall id :: id in ids ==> id in Due(Exec(env, t).rows, now)
    ensures Legal(env, t + Expiries(ids, now)) && ClockAt(t + Expiries(ids, now), now)
    ensures Exec(env, t + Expiries(ids, now)).rows == AfterExpiry(Exec(env, t).rows, ids)
  {
    hide Exec, Legal, Guard, Apply, Due;
    if ids == [] {
      assert t + Expiries(ids, now) == t;
      assert AfterExpiry(Exec(env, t).rows, ids) == Exec(env, t).rows;
    } else {
      var n := |ids| - 1;
      assert ids[..n + 1] == ids;
      assert ids[n] in ids && ids[n] !in ids[..n];
      ExpiriesLegal(env, t, ids[..n], now);
      var t' := t + Expiries(ids[..n], now);
      var e := Event(ids[n], now, Expire);
      ExpiryAllowed(env, Exec(env, t'), Exec(env, t).rows, ids[..n], e);
      ExpiriesStep(Exec(env, t).rows, ids, n, now);
      LegalSnoc(env, t', e);
      assert t' + [e] == t + Expiries(ids, now);
    }
  }

  lemma ExpiryAllowed(env: Env, db: Db, rows: Rows, done: seq<Id>, e: Event)
    requires db.rows == AfterExpiry(rows, done) && e.id in Due(rows, e.at) && e.id !in done && e.kind.Expire?
    ensures Guard(env, db, e) && e.id in rows && e.id in db.rows
    ensures Apply(env, db, e).rows == db.rows[e.id := db.rows[e.id].(state := Expired)]
  {
  }

  method ExpireClaims(store: MemoryStore, now: Time) returns (ids: seq<Id>)
    requires Guarded(store) && ClockAt(store.trace, now)
    modifies store
    ensures Guarded(store) && ClockAt(store.trace, now) && old(store.trace) <= store.trace
    ensures Enumerates(Due(old(store.rows), now), ids) && store.rows == AfterExpiry(old(store.rows), ids)
  {
    ghost var t0 := store.trace;
    ids := store.ExpireDue(now);
    ExpiriesLegal(store.env, t0, ids, now);
  }

  /** Reaffirmation with the configured floor: refused or recorded, the run stays guarded. */
  method RenewTrust(store: MemoryStore, id: Id, reviewAt: Option<Time>, minInterval: real, strong: bool,
                    weakFloor: real, now: Time)
    returns (r: ReaffirmResult)
    requires Guarded(store) && ClockAt(store.trace, now) && 0.0 < weakFloor <= 1.0
    modifies store
    ensures Guarded(store) && ClockAt(store.trace, now) && old(store.trace) <= store.trace
    ensures r.Ceiling? <==> id in old(store.rows) && !TooSoon(old(store.rows)[id], minInterval, now)
    ensures r.Ceiling? ==>
              store.trace == old(store.trace) + [Event(id, now, Reaffirm(strong, minInterval, weakFloor, reviewAt))]
    ensures !r.Ceiling? ==> store.trace == old(store.trace) && store.rows == old(store.rows)
  {
    ghost var t0 := store.trace;
    if id in store.rows && !TooSoon(store.rows[id], minInterval, now) {
      LegalSnoc(store.env, t0, Event(id, now, Reaffirm(strong, minInterval, weakFloor, reviewAt)));
    }
    r := store.ReaffirmMemory(id, reviewAt, minInterval, strong, weakFloor, now);
  }
}
