/** The sleep-time pass: process the quarantine, expire, decay, dedupe. */
module Consolidate {
  import opened MemoryModel
  import opened Trust
  import opened History
  import opened Cascade
  import opened Store
  import opened Runs
  import opened Pipeline
  import opened Operations
  import opened Sorting

  datatype Report = Report(processed: Counts, expired: int, demoted: int, deduped: int)

  // ----- decay ---------------------------------------------------------------

  function DecayedRow(c: Config, r: Row, now: Time): Row {
    var score := RowTrust(c, r, now);
    r.(trustScore := score, state := if score < c.demoteFloor then Pending else r.state)
  }

  /** The table after the listed rows have been rescored and, below the floor, demoted. */
  function Decay(c: Config, rows: Rows, ids: seq<Id>, now: Time): Rows {
    map id | id in rows :: if id in ids then DecayedRow(c, rows[id], now) else rows[id]
  }

  lemma DecayStep(c: Config, rows: Rows, ids: seq<Id>, i: nat, now: Time)
    requires i < |ids| && ids[i] in rows && ids[i] !in ids[..i]
    ensures Decay(c, rows, ids[..i + 1], now)
            == Decay(c, rows, ids[..i], now)[ids[i] := DecayedRow(c, rows[ids[i]], now)]
  {
  }

  method DecayOne(store: MemoryStore, id: Id, m: Row, now: Time) returns (demoted: int)
    requires Guarded(store) && ValidConfig(store.env.config) && ClockAt(store.trace, now)
    requires id in store.rows && store.rows[id] == m && m.state == Active
    modifies store
    ensures Guarded(store) && ClockAt(store.trace, now) && old(store.trace) <= store.trace
    ensures store.rows == old(store.rows)[id := DecayedRow(store.env.config, m, now)]
    ensures demoted == if RowTrust(store.env.config, m, now) < store.env.config.demoteFloor then 1 else 0
  {
    hide Exec, Legal, Apply, RowTrust, Logged;
    var c := store.env.config;
    var score := CurrentTrust(c, m.tier, m.lastReaffirmed, now, m.trustCeiling, m.sensitivity);
    ghost var t0 := store.trace;
    ScoreIsRowTrust(c, m, score, now);
    TrustEvents(store.env, t0, id, now, "trust decayed");
    store.UpdateTrustScore(id, score, now);
    if score < c.demoteFloor {
      store.DemoteToQuarantine(id, "trust decayed", now);
      return 1;
    }
    return 0;
  }

  lemma ScoreIsRowTrust(c: Config, m: Row, score: real, now: Time)
    requires score == CurrentTrust(c, m.tier, m.lastReaffirmed, now, m.trustCeiling, m.sensitivity)
    ensures score == RowTrust(c, m, now)
  {
  }

  /** Rescoring is always allowed, and demoting right after it is when the score is below the floor. */
  lemma TrustEvents(env: Env, t: Trace, id: Id, now: Time, reason: string)
    requires Legal(env, t) && ClockAt(t, now)
    requires id in Exec(env, t).rows && Exec(env, t).rows[id].state == Active
    ensures var rows := Exec(env, t).rows; var r := rows[id];
            var t1 := t + [Event(id, now, SetTrust(RowTrust(env.config, r, now)))];
            var t2 := t1 + [Event(id, now, Demote(reason))];
            && Legal(env, t1) && ClockAt(t1, now)
            && Exec(env, t1).rows == rows[id := r.(trustScore := RowTrust(env.config, r, now))]
            && (RowTrust(env.config, r, now) < env.config.demoteFloor ==>
                  && Legal(env, t2) && ClockAt(t2, now)
                  && Exec(env, t2).rows == rows[id := DecayedRow(env.config, r, now)])
  {
    hide Exec, Legal;
    var r := Exec(env, t).rows[id];
    var e1 := Event(id, now, SetTrust(RowTrust(env.config, r, now)));
    LegalSnoc(env, t, e1);
    assert RowTrust(env.config, r.(trustScore := RowTrust(env.config, r, now)), now) == RowTrust(env.config, r, now);
    if RowTrust(env.config, r, now) < env.config.demoteFloor {
      LegalSnoc(env, t + [e1], Event(id, now, Demote(reason)));
    }
  }

  /** Decays the newest active rows; the count is how many rows stopped being active. */
  method DecayPass(store: MemoryStore, now: Time) returns (demoted: int, ghost ids: seq<Id>)
    requires Guarded(store) && ValidConfig(store.env.config) && ClockAt(store.trace, now)
    modifies store
    ensures Guarded(store) && ClockAt(store.trace, now) && old(store.trace) <= store.trace
    ensures Listing(old(store.rows), Active, ids)
    ensures store.rows == Decay(store.env.config, old(store.rows), ids, now)
    ensures demoted == |InState(old(store.rows), Active)| - |InState(store.rows, Active)|
  {
    hide Exec, Legal, DecayedRow, Decay;
    ghost var rows0 := store.rows;
    demoted := 0;
    var active := store.ByState(Active);
    ids := active;
    var snapshot := store.rows;
    NothingDecayed(store.env.config, rows0, active, now);
    for i := 0 to |active|
      invariant Guarded(store) && ClockAt(store.trace, now) && old(store.trace) <= store.trace
      invariant store.rows == Decay(store.env.config, rows0, active[..i], now)
      invariant demoted == |InState(rows0, Active)| - |InState(store.rows, Active)|
    {
      var id := active[i];
      ghost var before := store.rows;
      StillActive(store.env.config, rows0, active, i, now);
      var d := DecayOne(store, id, snapshot[id], now);
      DecayStep(store.env.config, rows0, active, i, now);
      DecayMoves(store.env.config, snapshot[id], now);
      StateMoves(before, store.rows, id, Active);
      demoted := demoted + d;
    }
    assert active[..|active|] == active;
  }

  lemma NothingDecayed(c: Config, rows: Rows, ids: seq<Id>, now: Time)
    ensures Decay(c, rows, ids[..0], now) == rows
  {
  }

  lemma StillActive(c: Config, rows: Rows, ids: seq<Id>, i: nat, now: Time)
    requires Listing(rows, Active, ids) && i < |ids|
    ensures ids[i] in rows && rows[ids[i]].state == Active && ids[i] !in ids[..i]
    ensures var d := Decay(c, rows, ids[..i], now); ids[i] in d && d[ids[i]] == rows[ids[i]]
  {
  }

  lemma DecayMoves(c: Config, r: Row, now: Time)
    requires r.state == Active
    ensures DecayedRow(c, r, now).state == if RowTrust(c, r, now) < c.demoteFloor then Pending else Active
  {
  }

  // ----- dedupe --------------------------------------------------------------

  function Key(env: Env, rows: Rows, id: Id): string {
    if id in rows then env.strip(rows[id].content) else ""
  }

  function TierRank(rows: Rows, id: Id): int { if id in rows then Rank(rows[id].tier) else 9 }

  function ByTier(rows: Rows): (Id, Id) -> bool { (a, b) => TierRank(rows, a) <= TierRank(rows, b) }

  /** The listed ids with one stripped content, in listing order. */
  function GroupOf(env: Env, rows: Rows, ids: seq<Id>, key: string): seq<Id> {
    if ids == [] then []
    else
      var n := |ids| - 1;
      GroupOf(env, rows, ids[..n], key) + if Key(env, rows, ids[n]) == key then [ids[n]] else []
  }

  function KeysOf(env: Env, rows: Rows, ids: seq<Id>): seq<string> {
    if ids == [] then []
    else
      var n := |ids| - 1;
      var keys, k := KeysOf(env, rows, ids[..n]), Key(env, rows, ids[n]);
      if k in keys then keys else keys + [k]
  }

  lemma {:induction false} GroupMembers(env: Env, rows: Rows, ids: seq<Id>, key: string)
    ensures forall id :: id in GroupOf(env, rows, ids, key) <==> id in ids && Key(env, rows, id) == key
    ensures Distinct(ids) ==> Distinct(GroupOf(env, rows, ids, key))
  {
    if ids == [] {
    } else {
      var n := |ids| - 1;
      assert ids == ids[..n] + [ids[n]];
      GroupMembers(env, rows, ids[..n], key);
    }
  }

  lemma {:induction false} KeysMembers(env: Env, rows: Rows, ids: seq<Id>)
    ensures forall id :: id in ids ==> Key(env, rows, id) in KeysOf(env, rows, ids)
    ensures forall k :: k in KeysOf(env, rows, ids) ==> exists id :: id in ids && Key(env, rows, id) == k
    ensures Distinct(KeysOf(env, rows, ids))
  {
    hide Key;
    if ids == [] {
    } else {
      var n := |ids| - 1;
      var keys, k := KeysOf(env, rows, ids[..n]), Key(env, rows, ids[n]);
      assert ids == ids[..n] + [ids[n]] && ids[n] in ids;
      KeysMembers(env, rows, ids[..n]);
      if k !in keys { DistinctSnoc(keys, k); }
    }
  }

  function Ranked(env: Env, rows: Rows, ids: seq<Id>, key: string): seq<Id> {
    Sort(ByTier(rows), GroupOf(env, rows, ids, key))
  }

  /** The sorted group of a key: its members, each once, the best-trusted first. */
  lemma RankedGroup(env: Env, rows: Rows, ids: seq<Id>, key: string)
    requires Distinct(ids)
    ensures var g := Ranked(env, rows, ids, key);
            && (forall id :: id in g <==> id in ids && Key(env, rows, id) == key)
            && Distinct(g)
            && (forall i :: 0 <= i < |g| ==> TierRank(rows, g[0]) <= TierRank(rows, g[i]))
  {
    var raw := GroupOf(env, rows, ids, key);
    GroupMembers(env, rows, ids, key);
    SortDistinct(ByTier(rows), raw);
    SameLength(Ranked(env, rows, ids, key), raw);
    SortSorted(ByTier(rows), raw);
    var g := Ranked(env, rows, ids, key);
    forall i | 0 <= i < |g| ensures TierRank(rows, g[0]) <= TierRank(rows, g[i]) {
      if i > 0 { assert ByTier(rows)(g[0], g[i]); }
    }
  }

  /** The listed row that survives for its content. */
  predicate Keeps(env: Env, rows: Rows, ids: seq<Id>, id: Id) {
    var g := Ranked(env, rows, ids, Key(env, rows, id));
    g != [] && g[0] == id
  }

  /** The table after the groups of these keys have been merged. */
  function Deduped(env: Env, rows: Rows, ids: seq<Id>, keys: seq<string>): Rows {
    map id | id in rows ::
      if id in ids && Key(env, rows, id) in keys && !Keeps(env, rows, ids, id)
      then rows[id].(state := Rejected)
      else rows[id]
  }

  function RejectAll(rows: Rows, ids: seq<Id>): Rows {
    map id | id in rows :: if id in ids then rows[id].(state := Rejected) else rows[id]
  }

  /** The members are active and the first outranks them all. */
  ghost predicate ReadyGroup(env: Env, rows: Rows, g: seq<Id>) {
    && g != []
    && (forall i :: 0 <= i < |g| ==> g[i] in rows && rows[g[i]].state == Active)
    && (forall i :: 0 <= i < |g| ==> Outranks(env, rows[g[0]], rows[g[i]]))
  }

  const MERGED := "duplicate memory merged"

  /** Rejects every member of a group but the first. */
  method DropRest(store: MemoryStore, g: seq<Id>, now: Time) returns (dropped: int)
    requires Guarded(store) && ClockAt(store.trace, now) && Distinct(g)
    requires ReadyGroup(store.env, store.rows, g)
    modifies store
    ensures Guarded(store) && ClockAt(store.trace, now) && old(store.trace) <= store.trace
    ensures store.rows == RejectAll(old(store.rows), g[1..])
    ensures dropped == |InState(old(store.rows), Active)| - |InState(store.rows, Active)|
  {
    hide Exec, Legal, RejectAll, Outranks;
    ghost var rows0 := store.rows;
    dropped := 0;
    NothingRejected(rows0, g);
    for i := 1 to |g|
      invariant Guarded(store) && ClockAt(store.trace, now) && old(store.trace) <= store.trace
      invariant store.rows == RejectAll(rows0, g[1..i])
      invariant dropped == |InState(rows0, Active)| - |InState(store.rows, Active)|
    {
      ghost var before := store.rows;
      NextToReject(store.env, rows0, g, i);
      DropOne(store, g[0], g[i], now);
      StateMoves(before, store.rows, g[i], Active);
      dropped := dropped + 1;
    }
    assert g[1..|g|] == g[1..];
  }

  lemma NothingRejected(rows: Rows, g: seq<Id>)
    requires g != []
    ensures RejectAll(rows, g[1..1]) == rows
  {
  }

  /** The next duplicate and the kept row are as they were at the start. */
  lemma NextToReject(env: Env, rows: Rows, g: seq<Id>, i: nat)
    requires 1 <= i < |g| && Distinct(g) && ReadyGroup(env, rows, g)
    ensures var now := RejectAll(rows, g[1..i]);
            && g[i] != g[0] && g[0] in now && g[i] in now && now[g[0]] == rows[g[0]] && now[g[i]] == rows[g[i]]
            && now[g[i]].state == Active && Outranks(env, now[g[0]], now[g[i]])
            && RejectAll(rows, g[1..i + 1]) == now[g[i] := now[g[i]].(state := Rejected)]
  {
    hide Outranks;
    assert g[i] !in g[1..i] && g[0] !in g[1..i];
    assert g[1..i + 1] == g[1..i] + [g[i]];
  }

  method DropOne(store: MemoryStore, keeper: Id, id: Id, now: Time)
    requires Guarded(store) && ClockAt(store.trace, now)
    requires id in store.rows && store.rows[id].state == Active && keeper != id
    requires keeper in store.rows && Outranks(store.env, store.rows[keeper], store.rows[id])
    modifies store
    ensures Guarded(store) && ClockAt(store.trace, now) && old(store.trace) <= store.trace
    ensures store.rows == old(store.rows)[id := old(store.rows)[id].(state := Rejected)]
  {
    LegalSnoc(store.env, store.trace, Event(id, now, Reject(MERGED)));
    store.MarkRejected(id, MERGED, now);
  }

  method GroupByContent(store: MemoryStore, ids: seq<Id>) returns (groups: map<string, seq<Id>>, keys: seq<string>)
    requires forall id :: id in ids ==> id in store.rows
    ensures keys == KeysOf(store.env, store.rows, ids)
    ensures forall k :: k in keys ==> k in groups && groups[k] == GroupOf(store.env, store.rows, ids, k)
  {
    groups, keys := map[], [];
    for i := 0 to |ids|
      invariant keys == KeysOf(store.env, store.rows, ids[..i])
      invariant forall k :: k in groups <==> k in keys
      invariant forall k :: k in groups ==> groups[k] == GroupOf(store.env, store.rows, ids[..i], k)
      invariant forall k :: k !in groups ==> GroupOf(store.env, store.rows, ids[..i], k) == []
    {
      assert ids[..i + 1][..i] == ids[..i] && ids[i] in ids;
      var k := store.env.strip(store.rows[ids[i]].content);
      if k !in groups {
        groups := groups[k := []];
        keys := keys + [k];
      }
      groups := groups[k := groups[k] + [ids[i]]];
    }
    assert ids[..|ids|] == ids;
  }

  lemma DedupedStep(env: Env, rows: Rows, ids: seq<Id>, keys: seq<string>, j: nat)
    requires Distinct(ids)
    requires j < |keys| && keys[j] !in keys[..j]
    requires Ranked(env, rows, ids, keys[j]) != []
    ensures Deduped(env, rows, ids, keys[..j + 1])
            == RejectAll(Deduped(env, rows, ids, keys[..j]), Ranked(env, rows, ids, keys[j])[1..])
  {
    hide Ranked;
    var g := Ranked(env, rows, ids, keys[j]);
    RankedGroup(env, rows, ids, keys[j]);
    assert keys[..j + 1] == keys[..j] + [keys[j]];
    assert g == [g[0]] + g[1..];
    assert g[0] !in g[1..];
  }

  /** Merges listed active rows of one content into the best-trusted of them. */
  method DedupePass(store: MemoryStore, now: Time) returns (deduped: int, ghost ids: seq<Id>)
    requires Guarded(store) && ClockAt(store.trace, now)
    modifies store
    ensures Guarded(store) && ClockAt(store.trace, now) && old(store.trace) <= store.trace
    ensures Listing(old(store.rows), Active, ids)
    ensures store.rows == Deduped(store.env, old(store.rows), ids, KeysOf(store.env, old(store.rows), ids))
    ensures deduped == |InState(old(store.rows), Active)| - |InState(store.rows, Active)|
  {
    hide Exec, Legal, Ranked, KeysOf, GroupOf, Deduped, Keeps, Sort, Key;
    ghost var rows0 := store.rows;
    deduped := 0;
    var active := store.ByState(Active);
    ids := active;
    var snapshot := store.rows;
    ListingFacts(rows0, active);
    var groups, keys := GroupByContent(store, active);
    KeysMembers(store.env, rows0, active);
    NothingDeduped(store.env, rows0, active, keys);
    for j := 0 to |keys|
      invariant Guarded(store) && ClockAt(store.trace, now) && old(store.trace) <= store.trace
      invariant store.rows == Deduped(store.env, rows0, active, keys[..j])
      invariant deduped == |InState(rows0, Active)| - |InState(store.rows, Active)|
    {
      assert keys[j] !in keys[..j];
      var group := Sort(ByTier(snapshot), groups[keys[j]]);
      GroupReady(store.env, rows0, active, keys, j, group);
      DedupedStep(store.env, rows0, active, keys, j);
      var dropped := DropRest(store, group, now);
      deduped := deduped + dropped;
    }
    assert keys[..|keys|] == keys;
  }

  lemma NothingDeduped(env: Env, rows: Rows, ids: seq<Id>, keys: seq<string>)
    ensures Deduped(env, rows, ids, keys[..0]) == rows
  {
  }

  lemma ListingFacts(rows: Rows, ids: seq<Id>)
    requires Listing(rows, Active, ids)
    ensures Distinct(ids) && forall id :: id in ids ==> id in rows && rows[id].state == Active
  {
  }

  lemma RankedIs(env: Env, rows: Rows, ids: seq<Id>, key: string, g: seq<Id>)
    requires g == Sort(ByTier(rows), GroupOf(env, rows, ids, key))
    ensures g == Ranked(env, rows, ids, key)
  {
  }

  /** A group whose key has not been merged yet is still active throughout, its leader outranking it. */
  lemma GroupReady(env: Env, rows: Rows, ids: seq<Id>, keys: seq<string>, j: nat, g: seq<Id>)
    requires Listing(rows, Active, ids) && j < |keys| && keys == KeysOf(env, rows, ids) && keys[j] !in keys[..j]
    requires g == Sort(ByTier(rows), GroupOf(env, rows, ids, keys[j]))
    ensures g == Ranked(env, rows, ids, keys[j]) && Distinct(g)
    ensures ReadyGroup(env, Deduped(env, rows, ids, keys[..j]), g)
  {
    hide Ranked, KeysOf, GroupOf, Sort, Keeps, Listing;
    ListingFacts(rows, ids);
    RankedIs(env, rows, ids, keys[j], g);
    RankedGroup(env, rows, ids, keys[j]);
    KeysMembers(env, rows, ids);
    assert keys[j] in keys;
    var id :| id in ids && Key(env, rows, id) == keys[j];
    assert id in g;
    forall i | 0 <= i < |g|
      ensures g[i] in rows && rows[g[i]].state == Active && Key(env, rows, g[i]) == keys[j]
    {
      assert g[i] in g;
    }
  }

  // ----- what a whole pass achieves ------------------------------------------

  ghost predicate ActiveIn(rows: Rows, id: Id) { id in rows && rows[id].state == Active }

  /** The different stripped contents that are active. */
  function ActiveContents(env: Env, rows: Rows): set<string> {
    set id | id in InState(rows, Active) :: env.strip(rows[id].content)
  }

  lemma KeyIsText(env: Env, rows: Rows, id: Id)
    requires id in rows
    ensures Key(env, rows, id) == env.strip(rows[id].content)
  {
  }

  lemma ContentsAreKeys(env: Env, rows: Rows)
    ensures ActiveContents(env, rows) == Keys(env, rows, InState(rows, Active))
  {
  }

  ghost predicate AboveFloor(c: Config, rows: Rows, now: Time) {
    forall id :: ActiveIn(rows, id) ==> RowTrust(c, rows[id], now) >= c.demoteFloor
  }

  ghost predicate NoDuplicates(env: Env, rows: Rows) {
    forall a, b :: ActiveIn(rows, a) && ActiveIn(rows, b) && SameText(env, rows, a, b) ==> a == b
  }

  /** Two rows of one stripped content. */
  predicate SameText(env: Env, rows: Rows, a: Id, b: Id) {
    a in rows && b in rows && env.strip(rows[a].content) == env.strip(rows[b].content)
  }

  /** Every content active before still has a survivor that none of its rows outranked. */
  ghost predicate BestSurvives(env: Env, before: Rows, after: Rows) {
    forall id :: ActiveIn(before, id) ==> exists s :: Survives(env, before, after, id, s)
  }

  ghost predicate Survives(env: Env, before: Rows, after: Rows, id: Id, s: Id) {
    && ActiveIn(before, id) && ActiveIn(before, s) && ActiveIn(after, s)
    && env.strip(after[s].content) == env.strip(before[id].content)
    && Rank(before[s].tier) <= Rank(before[id].tier)
  }

  /** Decay only lowers: no row becomes active, T0 rows keep their state, inactive rows keep everything. */
  ghost predicate DecayOnlyDemotes(before: Rows, decayed: Rows) {
    && decayed.Keys == before.Keys
    && (forall id :: ActiveIn(decayed, id) ==> ActiveIn(before, id))
    && (forall id :: id in before && before[id].tier == T0 ==> decayed[id].state == before[id].state)
    && (forall id :: id in before && before[id].state != Active ==> decayed[id] == before[id])
  }

  lemma DecayOutcome(c: Config, rows: Rows, ids: seq<Id>, now: Time)
    requires ValidConfig(c) && Listing(rows, Active, ids)
    ensures DecayOnlyDemotes(rows, Decay(c, rows, ids, now))
    ensures |InState(rows, Active)| <= LIMIT ==> AboveFloor(c, Decay(c, rows, ids, now), now)
  {
    ListingFacts(rows, ids);
    if |InState(rows, Active)| <= LIMIT { ListingComplete(rows, ids); }
  }

  lemma ListingComplete(rows: Rows, ids: seq<Id>)
    requires Listing(rows, Active, ids) && |InState(rows, Active)| <= LIMIT
    ensures forall id :: id in InState(rows, Active) ==> id in ids
  {
    ListingFacts(rows, ids);
    ListingSize(rows, Active, ids);
    var listed := set id | id in ids;
    EnumeratedLength(listed, ids);
    var rest := InState(rows, Active) - listed;
    assert InState(rows, Active) == listed + rest;
  }

  lemma KeptFor(env: Env, rows: Rows, ids: seq<Id>, id: Id) returns (s: Id)
    requires Listing(rows, Active, ids) && id in ids
    ensures s in ids && Keeps(env, rows, ids, s) && Key(env, rows, s) == Key(env, rows, id)
    ensures s in rows && id in rows && Rank(rows[s].tier) <= Rank(rows[id].tier)
    ensures forall t :: t in ids && Keeps(env, rows, ids, t) && Key(env, rows, t) == Key(env, rows, id) ==> t == s
  {
    hide Ranked;
    ListingFacts(rows, ids);
    var g := Ranked(env, rows, ids, Key(env, rows, id));
    RankedGroup(env, rows, ids, Key(env, rows, id));
    assert id in g;
    s := g[0];
    assert s in g;
  }

  lemma DedupeOutcome(env: Env, rows: Rows, ids: seq<Id>)
    requires Listing(rows, Active, ids) && |InState(rows, Active)| <= LIMIT
    ensures var rows' := Deduped(env, rows, ids, KeysOf(env, rows, ids));
            && NoDuplicates(env, rows') && BestSurvives(env, rows, rows')
            && |InState(rows', Active)| == |ActiveContents(env, rows)|
  {
    hide Keeps, KeysOf, GroupOf, Ranked, Listing;
    var rows' := Deduped(env, rows, ids, KeysOf(env, rows, ids));
    ListingFacts(rows, ids);
    ListingComplete(rows, ids);
    KeysMembers(env, rows, ids);
    forall id | id in rows
      ensures ActiveIn(rows', id) <==> id in ids && Keeps(env, rows, ids, id)
      ensures Key(env, rows', id) == Key(env, rows, id)
    {
      assert ActiveIn(rows, id) ==> id in InState(rows, Active);
    }
    forall a, b | ActiveIn(rows', a) && ActiveIn(rows', b) && Key(env, rows', a) == Key(env, rows', b) ensures a == b {
      var s := KeptFor(env, rows, ids, a);
    }
    forall id | ActiveIn(rows, id) ensures exists s :: Survives(env, rows, rows', id, s) {
      assert id in InState(rows, Active);
      var s := KeptFor(env, rows, ids, id);
      assert Survives(env, rows, rows', id, s);
    }
    SameContents(env, rows, rows');
    ContentsAreKeys(env, rows');
    KeyedSize(env, rows', InState(rows', Active));
  }

  lemma SameContents(env: Env, rows: Rows, rows': Rows)
    requires BestSurvives(env, rows, rows')
    requires forall id :: ActiveIn(rows', id) ==> ActiveIn(rows, id) && Key(env, rows', id) == Key(env, rows, id)
    ensures ActiveContents(env, rows) == ActiveContents(env, rows')
  {
    hide Key;
    forall id | id in InState(rows, Active) ensures env.strip(rows[id].content) in ActiveContents(env, rows') {
      assert ActiveIn(rows, id);
      var s :| Survives(env, rows, rows', id, s);
      assert s in InState(rows', Active);
    }
    forall id | id in InState(rows', Active) ensures env.strip(rows'[id].content) in ActiveContents(env, rows) {
      assert ActiveIn(rows', id);
      assert id in InState(rows, Active);
      KeyIsText(env, rows, id);
      KeyIsText(env, rows', id);
    }
  }

  /** Different contents for different rows: as many contents as rows. */
  lemma {:induction false} KeyedSize(env: Env, rows: Rows, s: set<Id>)
    requires forall a, b :: a in s && b in s && Key(env, rows, a) == Key(env, rows, b) ==> a == b
    ensures |Keys(env, rows, s)| == |s|
    decreases s
  {
    hide Key, Keys;
    if s == {} {
      NoKeys(env, rows);
    } else {
      var x :| x in s;
      var rest := s - {x};
      KeyedSize(env, rows, rest);
      KeysWith(env, rows, rest, x);
      assert s == rest + {x};
      NewKey(env, rows, s, x);
    }
  }

  lemma NoKeys(env: Env, rows: Rows)
    ensures Keys(env, rows, {}) == {}
  {
  }

  lemma NewKey(env: Env, rows: Rows, s: set<Id>, x: Id)
    requires x in s && forall a, b :: a in s && b in s && Key(env, rows, a) == Key(env, rows, b) ==> a == b
    ensures |Keys(env, rows, s - {x}) + {Key(env, rows, x)}| == |Keys(env, rows, s - {x})| + 1
  {
  }

  function Keys(env: Env, rows: Rows, s: set<Id>): set<string> { set id | id in s :: Key(env, rows, id) }

  lemma KeysWith(env: Env, rows: Rows, s: set<Id>, x: Id)
    ensures Keys(env, rows, s + {x}) == Keys(env, rows, s) + {Key(env, rows, x)}
  {
  }

  lemma ActiveBound(rows0: Rows, rows1: Rows, ids: seq<Id>)
    requires Processed(rows0, rows1)
    ensures |InState(AfterExpiry(rows1, ids), Active)| <= |InState(rows0, Active)| + |InState(rows0, Pending)|
  {
    var a, p, final := InState(rows0, Active), InState(rows0, Pending), InState(AfterExpiry(rows1, ids), Active);
    forall id | id in final ensures id in a + p {
      assert id in rows1 && rows1[id].state == Active;
    }
    SubsetSize(final, a + p);
    UnionSize(a, p);
  }

  lemma UnionSize(a: set<Id>, b: set<Id>)
    ensures |a + b| <= |a| + |b|
  {
  }

  /** The active rows whose expiry has passed are expired, and nothing else changes. */
  ghost predicate ExpiredAt(rows: Rows, rows': Rows, now: Time) {
    && rows'.Keys == rows.Keys
    && forall id :: id in rows ==>
         rows'[id] == if rows[id].state == Active && rows[id].expiresAt.Some? && rows[id].expiresAt.value < now
                      then rows[id].(state := Expired) else rows[id]
  }

  /** The listed active rows get their current trust as score, and below the floor go back to pending. */
  ghost predicate RescoredAt(c: Config, rows: Rows, rows': Rows, ids: seq<Id>, now: Time) {
    && Listing(rows, Active, ids) && rows'.Keys == rows.Keys
    && forall id :: id in rows ==>
         rows'[id] == if id !in ids then rows[id]
                      else if RowTrust(c, rows[id], now) >= c.demoteFloor
                      then rows[id].(trustScore := RowTrust(c, rows[id], now))
                      else rows[id].(trustScore := RowTrust(c, rows[id], now), state := Pending)
  }

  ghost predicate Rescored(c: Config, rows: Rows, rows': Rows, now: Time) {
    exists ids :: RescoredAt(c, rows, rows', ids, now)
  }

  /**
   * Of the listed rows with one stripped content all but one of the most trusted are rejected, and
   * nothing else changes.
   */
  ghost predicate MergedAt(env: Env, rows: Rows, rows': Rows, ids: seq<Id>) {
    && Listing(rows, Active, ids) && rows'.Keys == rows.Keys
    && (forall id :: id in rows && rows'[id] != rows[id] ==> id in ids && rows'[id] == rows[id].(state := Rejected))
    && (forall id :: id in ids ==> exists kept :: KeptInstead(env, rows, rows', ids, id, kept))
    && (forall a, b :: a in ids && b in ids && ActiveIn(rows', a) && ActiveIn(rows', b) && SameText(env, rows', a, b)
          ==> a == b)
  }

  /** The kept row is the first listed, so the newest, of the most trusted ones with the same text. */
  ghost predicate KeptInstead(env: Env, rows: Rows, rows': Rows, ids: seq<Id>, id: Id, kept: Id) {
    && (forall j, k :: 0 <= j < k < |ids| && ids[k] == kept && SameText(env, rows, ids[j], kept) ==>
          kept in rows && Rank(rows[kept].tier) < Rank(rows[ids[j]].tier))
    && kept in ids && kept in rows && id in rows && kept in rows' && rows'[kept] == rows[kept]
    && env.strip(rows[kept].content) == env.strip(rows[id].content) && Rank(rows[kept].tier) <= Rank(rows[id].tier)
  }

  lemma DecayIsRescoring(c: Config, rows: Rows, ids: seq<Id>, now: Time)
    requires Listing(rows, Active, ids)
    ensures RescoredAt(c, rows, Decay(c, rows, ids, now), ids, now)
  {
    hide RowTrust;
    ListingFacts(rows, ids);
    hide Listing;
  }

  lemma ExpiryIsDue(rows: Rows, ids: seq<Id>, now: Time)
    requires Enumerates(Due(rows, now), ids)
    ensures ExpiredAt(rows, AfterExpiry(rows, ids), now)
  {
  }

  lemma DedupeIsMerging(env: Env, rows: Rows, ids: seq<Id>)
    requires Listing(rows, Active, ids)
    ensures MergedAt(env, rows, Deduped(env, rows, ids, KeysOf(env, rows, ids)), ids)
  {
    hide Keeps, KeysOf, Listing, Deduped, KeptInstead, SameText;
    var rows' := Deduped(env, rows, ids, KeysOf(env, rows, ids));
    ListingFacts(rows, ids);
    DedupedRows(env, rows, ids);
    forall id | id in ids ensures exists kept :: KeptInstead(env, rows, rows', ids, id, kept) {
      var s := KeptFor(env, rows, ids, id);
      forall j, k | 0 <= j < k < |ids| && ids[k] == s && SameText(env, rows, ids[j], s)
        ensures Rank(rows[s].tier) < Rank(rows[ids[j]].tier)
      {
        SameTextSameKey(env, rows, rows, ids[j], s);
        KeptIsFirst(env, rows, ids, j, k);
      }
      KeepsInstead(env, rows, rows', ids, id, s);
    }
    forall a, b | a in ids && b in ids && ActiveIn(rows', a) && ActiveIn(rows', b) && SameText(env, rows', a, b)
      ensures a == b
    {
      SameTextSameKey(env, rows, rows', a, b);
      var s := KeptFor(env, rows, ids, a);
    }
  }

  lemma KeepsInstead(env: Env, rows: Rows, rows': Rows, ids: seq<Id>, id: Id, s: Id)
    requires s in ids && id in rows && s in rows && s in rows' && rows'[s] == rows[s]
    requires Key(env, rows, s) == Key(env, rows, id) && Rank(rows[s].tier) <= Rank(rows[id].tier)
    requires forall j, k :: 0 <= j < k < |ids| && ids[k] == s && SameText(env, rows, ids[j], s) ==>
               Rank(rows[s].tier) < Rank(rows[ids[j]].tier)
    ensures KeptInstead(env, rows, rows', ids, id, s)
  {
  }

  /** A group keeps the order of the listing. */
  lemma {:induction false} GroupOrdered(env: Env, rows: Rows, ids: seq<Id>, key: string, j: nat, k: nat)
    requires j < k < |ids| && Key(env, rows, ids[j]) == Key(env, rows, ids[k]) == key
    ensures Precedes(GroupOf(env, rows, ids, key), ids[j], ids[k])
    decreases |ids|
  {
    hide Key;
    var n := |ids| - 1;
    var g, last := GroupOf(env, rows, ids[..n], key), if Key(env, rows, ids[n]) == key then [ids[n]] else [];
    assert GroupOf(env, rows, ids, key) == g + last;
    if k < n {
      GroupOrdered(env, rows, ids[..n], key, j, k);
      var p, q :| 0 <= p < q < |g| && g[p] == ids[j] && g[q] == ids[k];
      assert (g + last)[p] == ids[j] && (g + last)[q] == ids[k];
    } else {
      GroupMembers(env, rows, ids[..n], key);
      assert ids[..n][j] == ids[j];
      var p :| 0 <= p < |g| && g[p] == ids[j];
      assert (g + last)[p] == ids[j] && (g + last)[|g|] == ids[k];
    }
  }

  lemma KeptIsFirst(env: Env, rows: Rows, ids: seq<Id>, j: nat, k: nat)
    requires Distinct(ids) && j < k < |ids| && ids[j] in rows && ids[k] in rows
    requires Keeps(env, rows, ids, ids[k]) && Key(env, rows, ids[j]) == Key(env, rows, ids[k])
    ensures Rank(rows[ids[k]].tier) < Rank(rows[ids[j]].tier)
  {
    hide Key, GroupOf, Sort;
    var key := Key(env, rows, ids[k]);
    var raw, g := GroupOf(env, rows, ids, key), Ranked(env, rows, ids, key);
    RankedGroup(env, rows, ids, key);
    GroupOrdered(env, rows, ids, key, j, k);
    var p, q :| 0 <= p < q < |raw| && raw[p] == ids[j] && raw[q] == ids[k];
    NoneBeforeFirst(g, ids[j]);
    if Rank(rows[ids[j]].tier) <= Rank(rows[ids[k]].tier) { SortStable(ByTier(rows), raw, p, q); }
  }

  lemma NoneBeforeFirst(g: seq<Id>, id: Id)
    requires g != [] && Distinct(g)
    ensures !Precedes(g, id, g[0])
  {
  }

  lemma SameTextSameKey(env: Env, rows: Rows, rows': Rows, a: Id, b: Id)
    requires SameText(env, rows', a, b) && a in rows && b in rows
    requires rows'[a].content == rows[a].content && rows'[b].content == rows[b].content
    ensures Key(env, rows, a) == Key(env, rows, b)
  {
  }

  /** Merging rejects listed rows that are not kept, and changes nothing else. */
  lemma DedupedRows(env: Env, rows: Rows, ids: seq<Id>)
    requires Listing(rows, Active, ids)
    ensures var rows' := Deduped(env, rows, ids, KeysOf(env, rows, ids));
            && rows'.Keys == rows.Keys
            && (forall id :: id in rows ==> rows'[id].content == rows[id].content)
            && (forall id :: id in rows && rows'[id] != rows[id]
                  ==> id in ids && rows'[id] == rows[id].(state := Rejected))
            && (forall id :: id in ids && Keeps(env, rows, ids, id) ==> id in rows && rows'[id] == rows[id])
            && (forall id :: id in ids && ActiveIn(rows', id) ==> Keeps(env, rows, ids, id))
  {
    hide Keeps, KeysOf, Key;
    ListingFacts(rows, ids);
    hide Listing;
    KeysMembers(env, rows, ids);
  }

  /** The quarantine pass of a table: its listed rows, one by one. */
  ghost predicate Quarantined(env: Env, before: Db, after: Rows, clock: nat -> Time) {
    exists ids, dbs: seq<Db> ::
      && Listing(before.rows, Pending, ids) && PassedOver(env, ids, dbs, clock)
      && dbs[0] == before && dbs[|ids|].rows == after
  }

  /**
   * The sleep-time pass. `processed`, `before` and `decayed` are the tables after the quarantine,
   * after expiry and after decay. Always: the run stays guarded, decay rescores the listed rows and
   * demotes those below the floor, never a T0 row, and the report counts what happened.
   * When at most 200 rows were active or pending: every active row's trust at the decay instant
   * reaches the floor, active contents are distinct, the best-trusted row of each content
   * survives, and the duplicates merged are the active rows beyond the distinct contents.
   */
  method Run(p: MemoryPipeline, clock: nat -> Time)
    returns (report: Report, ghost processed: Rows, ghost before: Rows, ghost decayed: Rows)
    requires p.Valid() && Ticking(clock) && ClockAt(p.store.trace, clock(0))
    modifies p.store
    ensures p.Valid() && ClockAt(p.store.trace, clock(LIMIT + 3)) && old(p.store.trace) <= p.store.trace
    ensures Processed(old(p.store.rows), processed) && Tallies(report.processed, old(p.store.rows), processed)
    ensures report.expired == |Due(processed, clock(LIMIT + 1))|
    ensures Quarantined(p.env, old(p.store.Contents()), processed, clock)
    ensures ExpiredAt(processed, before, clock(LIMIT + 1))
    ensures Rescored(p.env.config, before, decayed, clock(LIMIT + 2))
    ensures exists ids :: MergedAt(p.env, decayed, p.store.rows, ids)
    ensures DecayOnlyDemotes(before, decayed)
    ensures report.demoted == |InState(before, Active)| - |InState(decayed, Active)|
    ensures report.deduped == |InState(decayed, Active)| - |InState(p.store.rows, Active)|
    ensures |InState(old(p.store.rows), Active)| + |InState(old(p.store.rows), Pending)| <= LIMIT ==>
      && AboveFloor(p.env.config, p.store.rows, clock(LIMIT + 2))
      && NoDuplicates(p.env, p.store.rows)
      && BestSurvives(p.env, decayed, p.store.rows)
      && report.deduped == |InState(decayed, Active)| - |ActiveContents(p.env, decayed)|
  {
    hide Exec, Legal, Listing, Processed, Decay, Deduped, KeysOf, AfterExpiry, Due, Enumerates, AboveFloor,
      PassedOver, ExpiredAt, RescoredAt, MergedAt, NoDuplicates, BestSurvives, DecayOnlyDemotes, ActiveContents,
      RowTrust, ValidConfig;
    ghost var rows0 := p.store.rows;
    var counts, waiting, dbs := p.ProcessPending(clock);
    processed := p.store.rows;
    assert Quarantined(p.env, dbs[0], processed, clock);
    LaterClock(p.store.trace, clock, LIMIT, LIMIT + 1);
    var expired := ExpireClaims(p.store, clock(LIMIT + 1));
    EnumeratedLength(Due(processed, clock(LIMIT + 1)), expired);
    ExpiryIsDue(processed, expired, clock(LIMIT + 1));
    before := p.store.rows;
    ActiveBound(rows0, processed, expired);
    LaterClock(p.store.trace, clock, LIMIT + 1, LIMIT + 2);
    ghost var listed: seq<Id>;
    var demoted;
    demoted, listed := DecayPass(p.store, clock(LIMIT + 2));
    decayed := p.store.rows;
    DecayOutcome(p.env.config, before, listed, clock(LIMIT + 2));
    DecayIsRescoring(p.env.config, before, listed, clock(LIMIT + 2));
    FewerActive(before, decayed);
    LaterClock(p.store.trace, clock, LIMIT + 2, LIMIT + 3);
    var deduped;
    deduped, listed := DedupePass(p.store, clock(LIMIT + 3));
    DedupeIsMerging(p.env, decayed, listed);
    if |InState(decayed, Active)| <= LIMIT {
      DedupeOutcome(p.env, decayed, listed);
      FloorKept(p.env, decayed, listed, KeysOf(p.env, decayed, listed), clock(LIMIT + 2));
    }
    report := Report(counts, |expired|, demoted, deduped);
  }

  lemma FewerActive(before: Rows, decayed: Rows)
    requires DecayOnlyDemotes(before, decayed)
    ensures |InState(decayed, Active)| <= |InState(before, Active)|
  {
    forall id | id in InState(decayed, Active) ensures id in InState(before, Active) {
      assert ActiveIn(decayed, id);
    }
    SubsetSize(InState(decayed, Active), InState(before, Active));
  }

  lemma FloorKept(env: Env, rows: Rows, ids: seq<Id>, keys: seq<string>, now: Time)
    ensures AboveFloor(env.config, rows, now) ==> AboveFloor(env.config, Deduped(env, rows, ids, keys), now)
  {
  }
}
