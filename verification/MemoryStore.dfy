/** The memory table, its ledger and the negative memory, updated in place. */
module Store {
  import opened MemoryModel
  import opened Ledger
  import opened Trust
  import opened History
  import opened Cascade

  datatype ReaffirmResult = NoSuchMemory | ReaffirmedTooRecently | Ceiling(value: real)

  class MemoryStore {
    const env: Env
    var rows: Rows
    var ledger: seq<Entry>
    var negatives: seq<string>
    /** Everything that has happened to this database. */
    ghost var trace: Trace

    ghost function Contents(): Db
      reads this
    {
      Db(rows, ledger, negatives)
    }

    ghost predicate Valid()
      reads this
    {
      Contents() == Exec(env, trace) && forall e :: e in trace ==> WellInserted(e)
    }

    constructor (env: Env)
      ensures Valid() && this.env == env && trace == []
    {
      this.env := env;
      rows, ledger, negatives, trace := map[], [], [], [];
    }

    /** In every state a store can reach the ledger verifies and replays to the table. */
    lemma LedgerAgrees()
      requires Valid()
      ensures Intact(env.hasher, ledger) && Replay(ledger) == States(rows)
    {
      LedgerIsFaithful(env, trace);
    }

    ghost method Record(e: Event)
      requires Exec(env, trace + [e]) == Contents() && WellInserted(e)
      requires forall e :: e in trace ==> WellInserted(e)
      modifies this`trace
      ensures Valid() && trace == old(trace) + [e]
    {
      trace := trace + [e];
    }

    method LedgerAppend(action: Action, id: Id, detail: Detail, now: Time)
      modifies this`ledger
      ensures ledger == old(ledger) + [Chained(env.hasher, old(ledger), Body(action, Some(id), detail, now))]
    {
      var prev := Head(ledger);
      var body := Body(action, Some(id), detail, now);
      var hash := env.hasher.digest(prev + env.hasher.encode(body));
      ledger := ledger + [Entry(prev, hash, action, Some(id), Some(detail), now)];
    }

    /** One entry more, linked to the last hash and hashed over its own body. */
    ghost predicate Wrote(before: seq<Entry>, action: Action, id: Id, detail: Detail, now: Time)
      reads this
    {
      && |ledger| == |before| + 1 && ledger[..|before|] == before
      && var e, prev := ledger[|before|], if before == [] then Genesis() else before[|before| - 1].entryHash;
         e == Entry(prev, env.hasher.digest(prev + env.hasher.encode(Body(action, Some(id), detail, now))),
                    action, Some(id), Some(detail), now)
    }

    method VerifyLedger() returns (ok: bool)
      ensures ok <==> Intact(env.hasher, ledger)
      ensures Valid() ==> ok
    {
      ok := Verify(env.hasher, ledger);
      if Valid() { LedgerAgrees(); }
    }

    // ----- insertion -------------------------------------------------------

    /** The fresh id stands for uuid4. */
    method InsertCandidate(content: string, tier: Tier, prov: Provenance, derivedFrom: Option<Id>, mid: Id, now: Time)
      requires Valid()
      modifies this
      ensures Valid()
      ensures trace == old(trace) + [Event(mid, now, Ingest(
                ProposedRow(env, content, tier, prov, derivedFrom, now)))]
      ensures rows == old(rows)[mid := Row(
                content, tier, Pending, prov, env.evidenceHash(content, prov), now, None, None, 0, None, derivedFrom,
                1.0, None, None, 0, None, None, 1.0, env.sensitivity(content))]
      ensures negatives == old(negatives) && Wrote(old(ledger), ActIngest, mid,
                IngestDetail(tier, env.evidenceHash(content, prov), env.sensitivity(content)), now)
    {
      var evidence := env.evidenceHash(content, prov);
      var sensitivity := env.sensitivity(content);
      var row := NewRow(content, tier, Pending, prov, evidence, now, derivedFrom, sensitivity);
      ghost var e := Event(mid, now, Ingest(row));
      ExecSnoc(env, trace, e);
      rows := rows[mid := row];
      LedgerAppend(ActIngest, mid, IngestDetail(tier, evidence, sensitivity), now);
      Record(e);
    }

    method StageT0(content: string, signature: string, mid: Id, now: Time)
      requires Valid()
      modifies this
      ensures Valid()
      ensures trace == old(trace) + [Event(mid, now, Stage(StagedRow(env, content, signature, now)))]
      ensures var operator := Provenance(Operator, None, None, None, Some("operator"));
              rows == old(rows)[mid := Row(
                content, T0, T0Staged, operator, env.evidenceHash(content, operator), now, None, None, 0, None, None,
                1.0, None, None, 0, Some(signature), Some(env.fingerprint), 1.0, Normal)]
              && Wrote(old(ledger), ActStage, mid,
                       StageDetail(env.fingerprint, env.evidenceHash(content, operator)), now)
      ensures negatives == old(negatives)
    {
      var evidence := env.evidenceHash(content, OPERATOR);
      var row := NewRow(content, T0, T0Staged, OPERATOR, evidence, now, None, Normal)
                   .(signature := Some(signature), fingerprint := Some(env.fingerprint));
      ghost var e := Event(mid, now, Stage(row));
      ExecSnoc(env, trace, e);
      rows := rows[mid := row];
      LedgerAppend(ActStage, mid, StageDetail(env.fingerprint, evidence), now);
      Record(e);
    }

    // ----- transitions -----------------------------------------------------

    method SetState(id: Id, state: State, action: Action, detail: Detail, now: Time)
      modifies this`rows, this`ledger
      ensures rows == if id in old(rows) then old(rows)[id := old(rows)[id].(state := state)] else old(rows)
      ensures ledger == old(ledger) + [Chained(env.hasher, old(ledger), Body(action, Some(id), detail, now))]
    {
      if id in rows {
        rows := rows[id := rows[id].(state := state)];
      }
      LedgerAppend(action, id, detail, now);
    }

    method MarkActive(id: Id, verdict: string, confirmations: int, reviewAt: Option<Time>, now: Time,
                      ghost cause: Cause)
      requires Valid()
      modifies this
      ensures Valid() && trace == old(trace) + [Event(id, now, Promote(verdict, confirmations, reviewAt, cause))]
      ensures rows == if id !in old(rows) then old(rows) else old(rows)[id := old(rows)[id].(
                state := Active, verifiedAt := Some(now), verdict := Some(verdict), confirmations := confirmations,
                trustScore := 1.0, trustCeiling := 1.0, lastReaffirmed := Some(now), reviewAt := reviewAt)]
      ensures negatives == old(negatives)
              && Wrote(old(ledger), ActPromote, id, PromoteDetail(verdict, confirmations), now)
    {
      ghost var e := Event(id, now, Promote(verdict, confirmations, reviewAt, cause));
      ExecSnoc(env, trace, e);
      if id in rows {
        rows := rows[id := rows[id].(state := Active, verifiedAt := Some(now), verdict := Some(verdict),
                       confirmations := confirmations, trustScore := 1.0, trustCeiling := 1.0,
                       lastReaffirmed := Some(now), reviewAt := reviewAt)];
      }
      LedgerAppend(ActPromote, id, PromoteDetail(verdict, confirmations), now);
      Record(e);
    }

    /** Refuses an unknown row and one reaffirmed less than the interval ago, leaving everything as it was. */
    method ReaffirmMemory(id: Id, reviewAt: Option<Time>, minInterval: real, strong: bool, weakFloor: real, now: Time)
      returns (result: ReaffirmResult)
      requires Valid()
      modifies this
      ensures Valid()
      ensures result == if id !in old(rows) then NoSuchMemory
                        else if TooSoon(old(rows)[id], minInterval, now) then ReaffirmedTooRecently
                        else Ceiling(ReaffirmCeiling(strong, weakFloor, old(rows)[id].reaffirmCount + 1))
      ensures result.Ceiling? ==>
                trace == old(trace) + [Event(id, now, Reaffirm(strong, minInterval, weakFloor, reviewAt))]
      ensures !result.Ceiling? ==> trace == old(trace) && Contents() == old(Contents())
      ensures result.Ceiling? <==>
                && id in old(rows)
                && !(old(rows)[id].reaffirmCount > 0 && old(rows)[id].lastReaffirmed.Some?
                     && now - old(rows)[id].lastReaffirmed.value < minInterval)
      ensures result.Ceiling? ==>
                var n := old(rows)[id].reaffirmCount + 1;
                var earned := if n <= 3 then 1.0 else 1.0 - (n - 3) as real / 10.0;
                && result.value == (if strong then 1.0 else if earned < weakFloor then weakFloor else earned)
                && rows == old(rows)[id := old(rows)[id].(
                     trustScore := result.value, trustCeiling := result.value, lastReaffirmed := Some(now),
                     reviewAt := reviewAt, reaffirmCount := n)]
                && negatives == old(negatives)
                && Wrote(old(ledger), ActReaffirm, id,
                         ReaffirmDetail(strong, result.value, n,
                                        match old(rows)[id].lastReaffirmed
                                        case None => None
                                        case Some(last) =>
                                          if last == 0.0 || now == last then None else Some(now - last)), now)
    {
      hide Exec, Apply, ReaffirmCeiling, Max, Interval;
      if id !in rows {
        return NoSuchMemory;
      }
      var item := rows[id];
      if item.reaffirmCount > 0 && item.lastReaffirmed.Some? && now - item.lastReaffirmed.value < minInterval {
        return ReaffirmedTooRecently;
      }
      ghost var e := Event(id, now, Reaffirm(strong, minInterval, weakFloor, reviewAt));
      ExecSnoc(env, trace, e);
      var newCount := item.reaffirmCount + 1;
      CeilingEarned(strong, weakFloor, newCount);
      var ceiling := if strong then 1.0 else Max(weakFloor, 1.0 - 0.1 * Max(0.0, (newCount - 3) as real));
      var interval := Interval(item.lastReaffirmed, now);
      IntervalSaid(item.lastReaffirmed, now);
      ReaffirmApplied(env, Contents(), e);
      rows := rows[id := item.(trustScore := ceiling, trustCeiling := ceiling, lastReaffirmed := Some(now),
                     reviewAt := reviewAt, reaffirmCount := newCount)];
      LedgerAppend(ActReaffirm, id, ReaffirmDetail(strong, ceiling, newCount, interval), now);
      Record(e);
      return Ceiling(ceiling);
    }

    method DemoteToQuarantine(id: Id, reason: string, now: Time)
      requires Valid()
      modifies this
      ensures Valid() && trace == old(trace) + [Event(id, now, Demote(reason))]
      ensures rows == InNewState(old(rows), id, Pending) && negatives == old(negatives)
      ensures Wrote(old(ledger), ActDemote, id, ReasonDetail(reason), now)
    {
      ExecSnoc(env, trace, Event(id, now, Demote(reason)));
      SetState(id, Pending, ActDemote, ReasonDetail(reason), now);
      Record(Event(id, now, Demote(reason)));
    }

    method ActivateT0(id: Id, signature: string, now: Time)
      requires Valid()
      modifies this
      ensures Valid() && trace == old(trace) + [Event(id, now, Activate(signature))]
      ensures rows == if id !in old(rows) then old(rows) else old(rows)[id := old(rows)[id].(
                state := Active, verifiedAt := Some(now), verdict := Some("operator-signed"), trustScore := 1.0,
                lastReaffirmed := Some(now), reviewAt := None, signature := Some(signature))]
      ensures negatives == old(negatives) && Wrote(old(ledger), ActActivate, id, EmptyDetail, now)
    {
      ghost var e := Event(id, now, Activate(signature));
      ExecSnoc(env, trace, e);
      if id in rows {
        rows := rows[id := rows[id].(state := Active, verifiedAt := Some(now), verdict := Some("operator-signed"),
                       trustScore := 1.0, lastReaffirmed := Some(now), reviewAt := None, signature := Some(signature))];
      }
      LedgerAppend(ActActivate, id, EmptyDetail, now);
      Record(e);
    }

    method MarkRejected(id: Id, reason: string, now: Time)
      requires Valid()
      modifies this
      ensures Valid() && trace == old(trace) + [Event(id, now, Reject(reason))]
      ensures rows == InNewState(old(rows), id, Rejected) && negatives == old(negatives)
      ensures Wrote(old(ledger), ActReject, id, ReasonDetail(reason), now)
    {
      ExecSnoc(env, trace, Event(id, now, Reject(reason)));
      SetState(id, Rejected, ActReject, ReasonDetail(reason), now);
      Record(Event(id, now, Reject(reason)));
    }

    method UpdateTrustScore(id: Id, score: real, now: Time)
      requires Valid()
      modifies this
      ensures Valid() && trace == old(trace) + [Event(id, now, SetTrust(score))]
      ensures rows == if id !in old(rows) then old(rows) else old(rows)[id := old(rows)[id].(trustScore := score)]
      ensures negatives == old(negatives) && ledger == old(ledger)
    {
      ExecSnoc(env, trace, Event(id, now, SetTrust(score)));
      if id in rows {
        rows := rows[id := rows[id].(trustScore := score)];
      }
      Record(Event(id, now, SetTrust(score)));
    }

    method SetExpiryTime(id: Id, expiresAt: Time, now: Time)
      requires Valid()
      modifies this
      ensures Valid() && trace == old(trace) + [Event(id, now, SetExpiry(expiresAt))]
      ensures rows == if id !in old(rows) then old(rows)
                      else old(rows)[id := old(rows)[id].(expiresAt := Some(expiresAt))]
      ensures negatives == old(negatives) && ledger == old(ledger)
    {
      ExecSnoc(env, trace, Event(id, now, SetExpiry(expiresAt)));
      if id in rows {
        rows := rows[id := rows[id].(expiresAt := Some(expiresAt))];
      }
      Record(Event(id, now, SetExpiry(expiresAt)));
    }

    method AddConfirmation(id: Id, now: Time, ghost listing: seq<Id>) returns (confirmations: int)
      requires Valid()
      modifies this
      ensures Valid() && trace == old(trace) + [Event(id, now, Confirm(listing))]
      ensures confirmations == if id in old(rows) then old(rows)[id].confirmations + 1 else 0
      ensures rows == if id !in old(rows) then old(rows)
                      else old(rows)[id := old(rows)[id].(confirmations := old(rows)[id].confirmations + 1)]
      ensures negatives == old(negatives) && ledger == old(ledger)
    {
      ExecSnoc(env, trace, Event(id, now, Confirm(listing)));
      if id in rows {
        rows := rows[id := rows[id].(confirmations := rows[id].confirmations + 1)];
      }
      Record(Event(id, now, Confirm(listing)));
      confirmations := if id in rows then rows[id].confirmations else 0;
    }

    method RememberNegative(content: string, now: Time, ghost id: Id)
      requires Valid()
      modifies this
      ensures Valid() && trace == old(trace) + [Event(id, now, AddNegative(content))]
      ensures rows == old(rows) && negatives == old(negatives) + [content] && ledger == old(ledger)
    {
      ghost var e := Event(id, now, AddNegative(content));
      ExecSnoc(env, trace, e);
      negatives := negatives + [content];
      assert id in rows ==> rows[id := rows[id]] == rows;
      Record(e);
    }

    // ----- queries ---------------------------------------------------------

    /** A query without ORDER BY: the ids in some order. */
    method SelectIds(ids: set<Id>) returns (listed: seq<Id>)
      ensures Enumerates(ids, listed)
    {
      listed := [];
      var left := ids;
      while left != {}
        invariant left <= ids && Enumerates(ids - left, listed)
        decreases left
      {
        var id :| id in left;
        EnumeratesSnoc(ids - left, listed, id);
        assert ids - left + {id} == ids - (left - {id});
        listed := listed + [id];
        left := left - {id};
      }
      assert ids - left == ids;
    }

    /** The newest rows in a state, at most 200; rows of one age come in any order. */
    method ByState(state: State) returns (ids: seq<Id>)
      ensures Listing(rows, state, ids) && |ids| <= 200
      ensures |InState(rows, state)| <= 200 ==> forall id :: id in InState(rows, state) ==> id in ids
    {
      hide Picked, Listing;
      ids := [];
      var left := InState(rows, state);
      NothingPicked(rows, left);
      while left != {} && |ids| < LIMIT
        invariant |ids| <= LIMIT && Picked(rows, InState(rows, state), left, ids)
        invariant |ids| + |left| == |InState(rows, state)|
        decreases left
      {
        PickedLeft(rows, InState(rows, state), left, ids);
        var newest := Newest(left);
        PickedStep(rows, InState(rows, state), left, ids, newest);
        ids := ids + [newest];
        left := left - {newest};
      }
      PickedIsListing(rows, state, left, ids);
    }

    /** The newest active rows attributed to one actor, at most 200. */
    method ActiveByActor(actor: string) returns (ids: seq<Id>)
      ensures ActorListing(rows, actor, ids)
      ensures |ids| <= 200 && forall i, j :: 0 <= i < j < |ids| ==> ids[i] != ids[j]
      ensures forall i :: 0 <= i < |ids| ==>
                ids[i] in rows && rows[ids[i]].state == Active && rows[ids[i]].prov.actor == Some(actor)
      ensures forall i, j :: 0 <= i < j < |ids| ==>
                ids[i] in rows && ids[j] in rows && rows[ids[i]].createdAt >= rows[ids[j]].createdAt
      ensures forall id ::
                id in rows && rows[id].state == Active && rows[id].prov.actor == Some(actor) && id !in ids ==>
                && |ids| == 200
                && forall i :: 0 <= i < |ids| ==> ids[i] in rows && rows[ids[i]].createdAt >= rows[id].createdAt
    {
      hide Picked, OfActor;
      ids := [];
      var all := OfActor(rows, actor);
      var left := all;
      NothingPicked(rows, all);
      while left != {} && |ids| < LIMIT
        invariant |ids| <= LIMIT && Picked(rows, all, left, ids)
        decreases left
      {
        ActorRowsKnown(rows, actor);
        PickedLeft(rows, all, left, ids);
        var newest := Newest(left);
        PickedStep(rows, all, left, ids, newest);
        ids := ids + [newest];
        left := left - {newest};
      }
      PickedIsActors(rows, actor, left, ids);
    }

    method Newest(ids: set<Id>) returns (newest: Id)
      requires ids != {} && forall id :: id in ids ==> id in rows
      ensures newest in ids && forall id :: id in ids ==> rows[newest].createdAt >= rows[id].createdAt
    {
      newest :| newest in ids;
      var left := ids - {newest};
      while left != {}
        invariant newest in ids && left <= ids
        invariant forall id :: id in ids - left ==> rows[newest].createdAt >= rows[id].createdAt
        decreases left
      {
        var id :| id in left;
        if rows[id].createdAt > rows[newest].createdAt {
          newest := id;
        }
        left := left - {id};
      }
    }

    // ----- revocation and expiry ------------------------------------------

    /**
     * Revokes exactly the rows a chain of live rows connects to a live row from the source,
     * leaves every other row as it was, and lists no id more than twice. Ends on any
     * derived_from graph, cyclic ones included.
     */
    method RevokeBySource(uri: string, now: Time) returns (revoked: seq<Id>)
      requires Valid()
      modifies this
      ensures Valid() && trace == old(trace) + Revocations(revoked, uri, now)
      ensures forall id :: id in revoked <==> Doomed(old(rows), uri, id)
      ensures forall id :: Count(id, revoked) <= Bound(old(rows), uri, revoked, id) <= 2
      ensures rows == Without(old(rows), revoked)
      ensures |ledger| == |old(ledger)| + |revoked| && negatives == old(negatives)
      ensures RevokedExactly(old(rows), rows, uri, revoked)
    {
      hide RevokedExactly;
      ghost var rows0, trace0 := rows, trace;
      revoked := [];
      var hits := set id | id in rows && Live(rows[id]) && rows[id].prov.uri == Some(uri);
      var frontier := SelectIds(hits);
      StartCascade(rows0, uri, hits, frontier);
      assert trace == trace0 + Revocations([], uri, now);
      while frontier != []
        invariant Inv(rows0, uri, frontier, revoked)
        invariant rows == Without(rows0, revoked)
        invariant Valid() && trace == trace0 + Revocations(revoked, uri, now)
        invariant |ledger| == |old(ledger)| + |revoked| && negatives == old(negatives)
        decreases LiveLeft(rows0, revoked), |frontier|
      {
        frontier, revoked := RevokeTop(frontier, revoked, uri, now, rows0, trace0);
      }
      InvDone(rows0, uri, revoked);
      CascadeClosed(rows0, uri, revoked);
    }

    /** One round of the worklist: revoke the top entry and push its children that are still live. */
    method RevokeTop(frontier: seq<Id>, revoked: seq<Id>, uri: string, now: Time, ghost rows0: Rows,
                     ghost trace0: Trace)
      returns (frontier': seq<Id>, revoked': seq<Id>)
      requires Valid() && Inv(rows0, uri, frontier, revoked) && frontier != [] && rows == Without(rows0, revoked)
      requires trace == trace0 + Revocations(revoked, uri, now)
      modifies this
      ensures Valid() && trace == trace0 + Revocations(revoked', uri, now)
      ensures revoked' == revoked + [frontier[|frontier| - 1]]
      ensures Inv(rows0, uri, frontier', revoked') && rows == Without(rows0, revoked')
      ensures LiveLeft(rows0, revoked') < LiveLeft(rows0, revoked)
              || (LiveLeft(rows0, revoked') == LiveLeft(rows0, revoked) && |frontier'| < |frontier|)
      ensures |ledger| == |old(ledger)| + 1 && negatives == old(negatives)
    {
      hide Inv, LiveLeft, Exec, Apply;
      var cur := frontier[|frontier| - 1];
      TopIsLive(rows0, uri, frontier, revoked);
      WithoutStep(rows0, revoked, cur);
      RevocationsStep(revoked, cur, uri, now);
      RevokeOne(cur, uri, now);
      revoked' := revoked + [cur];
      var selected := set id | id in rows && rows[id].derivedFrom == Some(cur) && Live(rows[id]);
      SelectedAreChildren(rows0, revoked', cur);
      var children := SelectIds(selected);
      frontier' := frontier[..|frontier| - 1] + children;
      CascadeRound(rows0, uri, frontier, revoked, children);
    }

    method RevokeOne(id: Id, uri: string, now: Time)
      requires Valid() && id in rows
      modifies this
      ensures Valid() && trace == old(trace) + [Event(id, now, Revoke(uri))]
      ensures rows == old(rows)[id := old(rows)[id].(state := Revoked)]
      ensures Wrote(old(ledger), ActRevoke, id, SourceDetail(uri), now)
      ensures |ledger| == |old(ledger)| + 1 && negatives == old(negatives)
    {
      ExecSnoc(env, trace, Event(id, now, Revoke(uri)));
      SetState(id, Revoked, ActRevoke, SourceDetail(uri), now);
      Record(Event(id, now, Revoke(uri)));
    }

    method ExpireOne(id: Id, now: Time)
      requires Valid() && id in rows
      modifies this
      ensures Valid() && trace == old(trace) + [Event(id, now, Expire)]
      ensures rows == old(rows)[id := old(rows)[id].(state := Expired)] && negatives == old(negatives)
      ensures Wrote(old(ledger), ActExpire, id, EmptyDetail, now)
    {
      ExecSnoc(env, trace, Event(id, now, Expire));
      SetState(id, Expired, ActExpire, EmptyDetail, now);
      Record(Event(id, now, Expire));
    }

    /** Expires exactly the active rows whose expiry has passed. */
    method ExpireDue(now: Time) returns (ids: seq<Id>)
      requires Valid()
      modifies this
      ensures Valid() && trace == old(trace) + Expiries(ids, now)
      ensures Enumerates(Due(old(rows), now), ids)
      ensures rows == AfterExpiry(old(rows), ids)
      ensures negatives == old(negatives)
    {
      ghost var rows0 := rows;
      ids := SelectIds(Due(rows, now));
      assert trace == old(trace) + Expiries(ids[..0], now) && rows == AfterExpiry(rows0, ids[..0]);
      for i := 0 to |ids|
        invariant Valid() && trace == old(trace) + Expiries(ids[..i], now)
        invariant rows == AfterExpiry(rows0, ids[..i])
        invariant negatives == old(negatives)
      {
        assert ids[i] in Due(rows0, now);
        ExpiriesStep(rows0, ids, i, now);
        ExpireOne(ids[i], now);
      }
      assert ids[..|ids|] == ids;
    }
  }

  lemma IntervalSaid(last: Option<Time>, now: Time)
    ensures Interval(last, now) == match last
              case None => None
              case Some(t) => if t == 0.0 || now == t then None else Some(now - t)
  {
  }

  lemma ReaffirmApplied(env: Env, db: Db, e: Event)
    requires e.kind.Reaffirm? && e.id in db.rows
    ensures var r := db.rows[e.id];
            var ceiling := ReaffirmCeiling(e.kind.strong, e.kind.weakFloor, r.reaffirmCount + 1);
            var detail := ReaffirmDetail(e.kind.strong, ceiling, r.reaffirmCount + 1, Interval(r.lastReaffirmed, e.at));
            Apply(env, db, e)
            == Db(db.rows[e.id := r.(trustScore := ceiling, trustCeiling := ceiling, lastReaffirmed := Some(e.at),
                                     reviewAt := e.kind.reviewAt, reaffirmCount := r.reaffirmCount + 1)],
                  db.ledger + [Chained(env.hasher, db.ledger, Body(ActReaffirm, Some(e.id), detail, e.at))],
                  db.negatives)
  {
    hide ReaffirmCeiling, Interval;
  }

  /** Full trust for the first three reaffirmations and a tenth less for every further one, but not below the floor. */
  lemma CeilingEarned(strong: bool, weakFloor: real, n: int)
    ensures var earned := if n <= 3 then 1.0 else 1.0 - (n - 3) as real / 10.0;
            && ReaffirmCeiling(strong, weakFloor, n)
               == (if strong then 1.0 else Max(weakFloor, 1.0 - 0.1 * Max(0.0, (n - 3) as real)))
               == (if strong then 1.0 else if earned < weakFloor then weakFloor else earned)
  {
  }

  /** An existing row, and no other, in the given state. */
  function InNewState(rows: Rows, id: Id, state: State): Rows {
    if id in rows then rows[id := rows[id].(state := state)] else rows
  }

  function OfActor(rows: Rows, actor: string): set<Id> {
    set id | id in rows && rows[id].state == Active && rows[id].prov.actor == Some(actor)
  }

  /** A possible answer of the per-actor query. */
  ghost predicate ActorListing(rows: Rows, actor: string, ids: seq<Id>) {
    |ids| <= LIMIT && exists left :: Picked(rows, OfActor(rows, actor), left, ids) && (left == {} || |ids| == LIMIT)
  }

  function CreatedAt(rows: Rows, id: Id): Time { if id in rows then rows[id].createdAt else 0.0 }

  /** The ids moved from `left` to the list so far: distinct, newest first, none older than what is left. */
  ghost predicate Picked(rows: Rows, all: set<Id>, left: set<Id>, ids: seq<Id>) {
    && left <= all
    && (forall id :: id in ids <==> id in all - left)
    && (forall i, j :: 0 <= i < j < |ids| ==> ids[i] != ids[j])
    && (forall i, j :: 0 <= i < j < |ids| ==> CreatedAt(rows, ids[i]) >= CreatedAt(rows, ids[j]))
    && (forall i, id :: 0 <= i < |ids| && id in left ==> CreatedAt(rows, ids[i]) >= CreatedAt(rows, id))
  }

  lemma ActorRowsKnown(rows: Rows, actor: string)
    ensures forall id :: id in OfActor(rows, actor) ==> id in rows
  {
  }

  lemma PickedIsActors(rows: Rows, actor: string, left: set<Id>, ids: seq<Id>)
    requires Picked(rows, OfActor(rows, actor), left, ids) && (left == {} || |ids| == LIMIT)
    ensures forall i, j :: 0 <= i < j < |ids| ==> ids[i] != ids[j]
    ensures forall i :: 0 <= i < |ids| ==>
              ids[i] in rows && rows[ids[i]].state == Active && rows[ids[i]].prov.actor == Some(actor)
    ensures forall i, j :: 0 <= i < j < |ids| ==>
              ids[i] in rows && ids[j] in rows && rows[ids[i]].createdAt >= rows[ids[j]].createdAt
    ensures forall id :: id in rows && rows[id].state == Active && rows[id].prov.actor == Some(actor) && id !in ids ==>
              && |ids| == LIMIT
              && forall i :: 0 <= i < |ids| ==> ids[i] in rows && rows[ids[i]].createdAt >= rows[id].createdAt
  {
    forall i | 0 <= i < |ids| ensures ids[i] in OfActor(rows, actor) {
      assert ids[i] in ids;
    }
    forall id | id in rows && rows[id].state == Active && rows[id].prov.actor == Some(actor) && id !in ids
      ensures |ids| == LIMIT
      ensures forall i :: 0 <= i < |ids| ==> rows[ids[i]].createdAt >= rows[id].createdAt
    {
      assert id in left;
      forall i | 0 <= i < |ids| ensures rows[ids[i]].createdAt >= rows[id].createdAt {
        assert CreatedAt(rows, ids[i]) >= CreatedAt(rows, id);
      }
    }
    forall i, j | 0 <= i < j < |ids| ensures rows[ids[i]].createdAt >= rows[ids[j]].createdAt {
      assert CreatedAt(rows, ids[i]) >= CreatedAt(rows, ids[j]);
    }
  }

  lemma NothingPicked(rows: Rows, all: set<Id>)
    ensures Picked(rows, all, all, [])
  {
  }

  lemma PickedLeft(rows: Rows, all: set<Id>, left: set<Id>, ids: seq<Id>)
    requires Picked(rows, all, left, ids)
    ensures left <= all
  {
  }

  lemma PickedIsListing(rows: Rows, s: State, left: set<Id>, ids: seq<Id>)
    requires Picked(rows, InState(rows, s), left, ids) && |ids| <= LIMIT && (left == {} || |ids| == LIMIT)
    requires |ids| + |left| == |InState(rows, s)|
    ensures Listing(rows, s, ids)
    ensures |InState(rows, s)| <= LIMIT ==> forall id :: id in InState(rows, s) ==> id in ids
  {
    forall i | 0 <= i < |ids| ensures ids[i] in InState(rows, s) {
      assert ids[i] in ids;
    }
    if |InState(rows, s)| <= LIMIT {
      assert left == {};
    }
  }

  lemma PickedStep(rows: Rows, all: set<Id>, left: set<Id>, ids: seq<Id>, newest: Id)
    requires Picked(rows, all, left, ids) && newest in left
    requires forall id :: id in left ==> CreatedAt(rows, newest) >= CreatedAt(rows, id)
    ensures Picked(rows, all, left - {newest}, ids + [newest])
  {
    forall i | 0 <= i < |ids| ensures ids[i] != newest {
      assert ids[i] in ids;
    }
  }

  function Due(rows: Rows, now: Time): set<Id> {
    set id | id in rows && rows[id].state == Active && rows[id].expiresAt.Some? && rows[id].expiresAt.value < now
  }

  function Revocations(ids: seq<Id>, uri: string, now: Time): Trace {
    seq(|ids|, i requires 0 <= i < |ids| => Event(ids[i], now, Revoke(uri)))
  }

  function Expiries(ids: seq<Id>, now: Time): Trace {
    seq(|ids|, i requires 0 <= i < |ids| => Event(ids[i], now, Expire))
  }

  /** The table after exactly these rows have expired. */
  function AfterExpiry(rows: Rows, ids: seq<Id>): Rows {
    map id | id in rows :: if id in ids then rows[id].(state := Expired) else rows[id]
  }

  lemma ExpiriesStep(rows: Rows, ids: seq<Id>, i: nat, now: Time)
    requires i < |ids| && ids[i] in rows
    ensures Expiries(ids[..i + 1], now) == Expiries(ids[..i], now) + [Event(ids[i], now, Expire)]
    ensures AfterExpiry(rows, ids[..i + 1])
            == AfterExpiry(rows, ids[..i])[ids[i] := AfterExpiry(rows, ids[..i])[ids[i]].(state := Expired)]
  {
  }

  lemma LiveLeftStep(rows: Rows, revoked: seq<Id>, id: Id)
    requires id in rows && Live(rows[id])
    ensures id in revoked ==> LiveLeft(rows, revoked + [id]) == LiveLeft(rows, revoked)
    ensures id !in revoked ==> LiveLeft(rows, revoked + [id]) < LiveLeft(rows, revoked)
  {
    if id !in revoked {
      assert id in LiveLeft(rows, revoked) && id !in LiveLeft(rows, revoked + [id]);
    }
  }

  lemma StartCascade(rows: Rows, uri: string, hits: set<Id>, frontier: seq<Id>)
    requires hits == set id | id in rows && Live(rows[id]) && rows[id].prov.uri == Some(uri)
    requires Enumerates(hits, frontier)
    ensures Inv(rows, uri, frontier, []) && Without(rows, []) == rows
  {
    assert hits == DirectHits(rows, uri);
    InvStart(rows, uri, frontier);
  }

  lemma SelectedAreChildren(rows: Rows, revoked: seq<Id>, cur: Id)
    ensures (set id | id in Without(rows, revoked) && Without(rows, revoked)[id].derivedFrom == Some(cur)
                      && Live(Without(rows, revoked)[id])) == ChildrenLeft(rows, revoked, cur)
  {
  }

  /** One round keeps the invariant and makes progress: a live row fewer, or the same and a shorter stack. */
  lemma CascadeRound(rows: Rows, uri: string, frontier: seq<Id>, revoked: seq<Id>, children: seq<Id>)
    requires Inv(rows, uri, frontier, revoked) && frontier != []
    requires Enumerates(ChildrenLeft(rows, revoked + [frontier[|frontier| - 1]], frontier[|frontier| - 1]), children)
    ensures var n := |frontier| - 1; var revoked' := revoked + [frontier[n]];
            && Inv(rows, uri, frontier[..n] + children, revoked')
            && (LiveLeft(rows, revoked') < LiveLeft(rows, revoked)
                || (LiveLeft(rows, revoked') == LiveLeft(rows, revoked) && |frontier[..n] + children| < |frontier|))
  {
    var cur := frontier[|frontier| - 1];
    TopIsLive(rows, uri, frontier, revoked);
    InvStep(rows, uri, frontier, revoked, children);
    RevokedHasNoChildrenLeft(rows, uri, frontier, revoked);
    LiveLeftStep(rows, revoked, cur);
    if cur in revoked { EnumeratedLength({}, children); }
  }

  lemma EnumeratesSnoc(s: set<Id>, ids: seq<Id>, id: Id)
    requires Enumerates(s, ids) && id !in s
    ensures Enumerates(s + {id}, ids + [id])
  {
  }

  lemma {:induction false} EnumeratedLength(s: set<Id>, ids: seq<Id>)
    requires Enumerates(s, ids)
    ensures |ids| == |s|
    decreases |ids|
  {
    if s == {} {
    } else {
      var id :| id in s;
      assert id in ids;
    }
    if ids == [] {
    } else {
      var n := |ids| - 1;
      assert ids == ids[..n] + [ids[n]] && ids[n] in ids;
      EnumeratedLength(s - {ids[n]}, ids[..n]);
    }
  }

  lemma TopIsLive(rows: Rows, uri: string, frontier: seq<Id>, revoked: seq<Id>)
    requires Inv(rows, uri, frontier, revoked) && frontier != []
    ensures var cur := frontier[|frontier| - 1]; cur in rows && Live(rows[cur])
  {
    DoomedIsLive(rows, uri, frontier[|frontier| - 1]);
  }

  lemma RevocationsStep(ids: seq<Id>, id: Id, uri: string, now: Time)
    ensures Revocations(ids + [id], uri, now) == Revocations(ids, uri, now) + [Event(id, now, Revoke(uri))]
  {
  }

  lemma WithoutStep(rows: Rows, gone: seq<Id>, id: Id)
    requires id in rows
    ensures Without(rows, gone + [id]) == Without(rows, gone)[id := Without(rows, gone)[id].(state := Revoked)]
  {
  }
}
