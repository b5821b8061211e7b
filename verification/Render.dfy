/** Packing durable memory into the prompt snapshot. */
module Render {
  import opened MemoryModel
  import opened History
  import opened Store
  import opened Sorting

  /** Highest trust first, then newest. */
  predicate Before(a: Row, b: Row) {
    Rank(a.tier) < Rank(b.tier) || (Rank(a.tier) == Rank(b.tier) && a.createdAt >= b.createdAt)
  }

  function TierTag(t: Tier): string {
    match t
    case T0 => "[T0] "
    case T1 => "[T1] "
    case T2 => "[T2] "
    case T3 => "[T3] "
    case T4 => "[T4] "
  }

  function Line(strip: string -> string, r: Row): string { TierTag(r.tier) + strip(r.content) }

  /** A choice says, line by line in priority order, whether it is in. */
  type Choice = seq<bool>

  /** Characters a choice takes, each line with its separator. */
  function Used(lines: seq<string>, c: Choice): nat
    requires |c| == |lines|
  {
    if c == [] then 0
    else
      var n := |c| - 1;
      Used(lines[..n], c[..n]) + if c[n] then |lines[n]| + 1 else 0
  }

  function Greedy(lines: seq<string>, budget: int): (c: Choice)
    ensures |c| == |lines|
  {
    if lines == [] then []
    else
      var n := |lines| - 1;
      var c := Greedy(lines[..n], budget);
      c + [Used(lines[..n], c) + |lines[n]| + 1 <= budget]
  }

  function Chosen(lines: seq<string>, c: Choice): seq<string>
    requires |c| == |lines|
  {
    if c == [] then []
    else
      var n := |c| - 1;
      Chosen(lines[..n], c[..n]) + if c[n] then [lines[n]] else []
  }

  function JoinLines(ls: seq<string>): string {
    if ls == [] then "" else if |ls| == 1 then ls[0] else JoinLines(ls[..|ls| - 1]) + "\n" + ls[|ls| - 1]
  }

  /** The packing loop. */
  method Pack(strip: string -> string, items: seq<Row>, budget: int)
    returns (text: string, ghost ordered: seq<Row>, ghost lines: seq<string>)
    ensures multiset(ordered) == multiset(items)
    ensures forall i, j :: 0 <= i < j < |ordered| ==> Before(ordered[i], ordered[j])
    ensures |lines| == |ordered| && forall i :: 0 <= i < |lines| ==> lines[i] == Line(strip, ordered[i])
    ensures text == JoinLines(Chosen(lines, Greedy(lines, budget)))
    ensures 0 <= budget ==> |text| <= budget
    ensures PackSays(strip, items, budget, text)
  {
    hide PackSays, Chosen, Greedy, Used, JoinLines, Sort;
    var sorted := Sort(Before, items);
    OrderedItems(items);
    ordered := sorted;
    lines := seq(|sorted|, i requires 0 <= i < |sorted| => Line(strip, sorted[i]));
    var chosen: seq<string> := [];
    var used := 0;
    NothingPacked(budget);
    assert lines[..0] == [];
    for i := 0 to |sorted|
      invariant chosen == Chosen(lines[..i], Greedy(lines[..i], budget))
      invariant used == Used(lines[..i], Greedy(lines[..i], budget))
    {
      assert lines[..i + 1][..i] == lines[..i] && lines[..i + 1][i] == lines[i];
      GreedySnoc(lines[..i + 1], budget);
      var line := Line(strip, sorted[i]);
      if used + |line| + 1 > budget {
        assert chosen + [] == chosen;
        continue;
      }
      chosen := chosen + [line];
      used := used + |line| + 1;
    }
    assert lines[..|lines|] == lines;
    text := JoinLines(chosen);
    if 0 <= budget { WithinBudget(lines, budget); }
    JoinedLength(lines, Greedy(lines, budget));
    PackIsSaid(strip, items, budget, ordered, lines);
  }

  lemma OrderedItems(items: seq<Row>)
    ensures forall i, j :: 0 <= i < j < |Sort(Before, items)| ==> Before(Sort(Before, items)[i], Sort(Before, items)[j])
  {
    SortSorted(Before, items);
  }

  lemma NothingPacked(budget: int)
    ensures Greedy([], budget) == [] && Used([], []) == 0 && Chosen([], []) == []
  {
  }

  lemma GreedySnoc(lines: seq<string>, budget: int)
    requires lines != []
    ensures var n := |lines| - 1; var c := Greedy(lines[..n], budget);
            var fits := Used(lines[..n], c) + |lines[n]| + 1 <= budget;
            && Greedy(lines, budget) == c + [fits]
            && Chosen(lines, Greedy(lines, budget)) == Chosen(lines[..n], c) + (if fits then [lines[n]] else [])
            && Used(lines, Greedy(lines, budget)) == Used(lines[..n], c) + (if fits then |lines[n]| + 1 else 0)
  {
  }

  lemma {:induction false} WithinBudget(lines: seq<string>, budget: int)
    requires 0 <= budget
    ensures Used(lines, Greedy(lines, budget)) <= budget
  {
    if lines == [] {
    } else {
      GreedySnoc(lines, budget);
      WithinBudget(lines[..|lines| - 1], budget);
    }
  }

  lemma JoinSnoc(ls: seq<string>, l: string)
    ensures JoinLines(ls + [l]) == if ls == [] then l else JoinLines(ls) + "\n" + l
  {
  }

  lemma {:induction false} JoinedLength(lines: seq<string>, c: Choice)
    requires |c| == |lines|
    ensures |JoinLines(Chosen(lines, c))| <= Used(lines, c)
    ensures Chosen(lines, c) != [] ==> |JoinLines(Chosen(lines, c))| + 1 == Used(lines, c)
    ensures Chosen(lines, c) == [] ==> Used(lines, c) == 0
  {
    if c == [] {
    } else {
      var n := |c| - 1;
      JoinedLength(lines[..n], c[..n]);
      var before := Chosen(lines[..n], c[..n]);
      JoinSnoc(before, lines[n]);
      assert Chosen(lines, c) == before + (if c[n] then [lines[n]] else []);
      if !c[n] { assert before + [] == before; }
    }
  }

  lemma {:induction false} UsedGrows(lines: seq<string>, c: Choice, k: nat)
    requires |c| == |lines| && k <= |c|
    ensures Used(lines[..k], c[..k]) <= Used(lines, c)
    decreases |c| - k
  {
    if k < |c| {
      var n := |c| - 1;
      assert lines[..n][..k] == lines[..k] && c[..n][..k] == c[..k];
      if k < n { UsedGrows(lines[..n], c[..n], k); }
    } else {
      assert lines[..k] == lines && c[..k] == c;
    }
  }

  lemma {:induction false} GreedyPrefix(lines: seq<string>, budget: int, k: nat)
    requires k <= |lines|
    ensures Greedy(lines, budget)[..k] == Greedy(lines[..k], budget)
    decreases |lines| - k
  {
    if k < |lines| {
      var n := |lines| - 1;
      GreedySnoc(lines, budget);
      assert lines[..n][..k] == lines[..k];
      GreedyPrefix(lines[..n], budget, k);
      assert Greedy(lines, budget)[..k] == Greedy(lines[..n], budget)[..k];
    } else {
      assert lines[..k] == lines;
    }
  }

  /**
   * A line is in exactly when it fits after everything chosen before it; a line left out does not fit in
   * the end either.
   */
  lemma ChosenExactlyWhenItFits(lines: seq<string>, budget: int, k: nat)
    requires k < |lines|
    ensures var c := Greedy(lines, budget);
            && (c[k] <==> Used(lines[..k], c[..k]) + |lines[k]| + 1 <= budget)
            && (!c[k] ==> Used(lines, c) + |lines[k]| + 1 > budget)
  {
    var c := Greedy(lines, budget);
    GreedyPrefix(lines, budget, k);
    GreedyPrefix(lines, budget, k + 1);
    GreedySnoc(lines[..k + 1], budget);
    assert lines[..k + 1][..k] == lines[..k];
    assert c[..k + 1][k] == c[k];
    UsedGrows(lines, c, k);
  }

  /**
   * Greedy packing is the lexicographically first feasible choice: any other choice within the
   * budget leaves out, at the first line where they differ, a line that greedy packing has.
   */
  lemma GreedyIsFirstFeasible(lines: seq<string>, budget: int, other: Choice, k: nat)
    requires |other| == |lines| && k < |lines| && Used(lines, other) <= budget
    requires other[..k] == Greedy(lines, budget)[..k] && other[k] != Greedy(lines, budget)[k]
    ensures Greedy(lines, budget)[k] && !other[k]
  {
    ChosenExactlyWhenItFits(lines, budget, k);
    UsedGrows(lines, other, k + 1);
    assert lines[..k + 1][..k] == lines[..k] && other[..k + 1][..k] == other[..k];
  }

  // ----- the packed text, said of the rows ---------------------------------------------

  function TierName(t: Tier): string {
    match t
    case T0 => "T0"
    case T1 => "T1"
    case T2 => "T2"
    case T3 => "T3"
    case T4 => "T4"
  }

  /** The tier in brackets, a blank, and the stripped content. */
  function TaggedLine(strip: string -> string, r: Row): string { "[" + TierName(r.tier) + "] " + strip(r.content) }

  /** Characters the chosen rows take, each with its line break. */
  function Taken(strip: string -> string, rows: seq<Row>, chosen: seq<bool>): int
    requires |rows| == |chosen|
  {
    if rows == [] then 0
    else (if chosen[0] then |TaggedLine(strip, rows[0])| + 1 else 0) + Taken(strip, rows[1..], chosen[1..])
  }

  /** The lines of the chosen rows, one below the other. */
  function Column(strip: string -> string, rows: seq<Row>, chosen: seq<bool>): seq<string>
    requires |rows| == |chosen|
  {
    if rows == [] then []
    else (if chosen[0] then [TaggedLine(strip, rows[0])] else []) + Column(strip, rows[1..], chosen[1..])
  }

  function Below(ls: seq<string>): string {
    if ls == [] then "" else if |ls| == 1 then ls[0] else ls[0] + "\n" + Below(ls[1..])
  }

  /**
   * The text of some rows: most trusted tier first and newest first within a tier; a row is in
   * exactly when its line still fits after the lines already in; and the text is those lines.
   */
  ghost predicate PackedAs(strip: string -> string, items: seq<Row>, budget: int, text: string,
                           ordered: seq<Row>, chosen: seq<bool>)
  {
    && multiset(ordered) == multiset(items) && |chosen| == |ordered|
    && (forall i, j :: 0 <= i < j < |ordered| ==>
          && Rank(ordered[i].tier) <= Rank(ordered[j].tier)
          && (ordered[i].tier == ordered[j].tier ==> ordered[i].createdAt >= ordered[j].createdAt))
    && (forall k :: 0 <= k < |ordered| ==>
          (chosen[k] <==>
            Taken(strip, ordered[..k], chosen[..k]) + |TaggedLine(strip, ordered[k])| + 1 <= budget))
    && text == Below(Column(strip, ordered, chosen))
  }

  ghost predicate PackSays(strip: string -> string, items: seq<Row>, budget: int, text: string) {
    exists ordered, chosen :: PackedAs(strip, items, budget, text, ordered, chosen)
  }

  lemma LineIsTagged(strip: string -> string, r: Row)
    ensures Line(strip, r) == TaggedLine(strip, r)
  {
  }

  lemma {:induction false} TakenSnoc(strip: string -> string, rows: seq<Row>, chosen: seq<bool>, r: Row, c: bool)
    requires |rows| == |chosen|
    ensures Taken(strip, rows + [r], chosen + [c])
            == Taken(strip, rows, chosen) + if c then |TaggedLine(strip, r)| + 1 else 0
    ensures Column(strip, rows + [r], chosen + [c])
            == Column(strip, rows, chosen) + if c then [TaggedLine(strip, r)] else []
  {
    hide TaggedLine;
    if rows == [] {
      assert [r][1..] == [] && [c][1..] == [] && rows + [r] == [r] && chosen + [c] == [c];
    } else {
      assert (rows + [r])[1..] == rows[1..] + [r] && (chosen + [c])[1..] == chosen[1..] + [c];
      TakenSnoc(strip, rows[1..], chosen[1..], r, c);
    }
  }

  lemma {:induction false} BelowSnoc(ls: seq<string>, l: string)
    ensures Below(ls + [l]) == if ls == [] then l else Below(ls) + "\n" + l
  {
    if |ls| == 0 {
      assert ls + [l] == [l];
    } else {
      assert (ls + [l])[1..] == ls[1..] + [l];
      BelowSnoc(ls[1..], l);
      if |ls| == 1 { assert ls[1..] == []; }
    }
  }

  lemma {:induction false} JoinIsBelow(ls: seq<string>)
    ensures JoinLines(ls) == Below(ls)
  {
    if ls == [] {
    } else {
      var n := |ls| - 1;
      assert ls == ls[..n] + [ls[n]];
      JoinIsBelow(ls[..n]);
      JoinSnoc(ls[..n], ls[n]);
      BelowSnoc(ls[..n], ls[n]);
    }
  }

  lemma {:induction false} ChosenIsColumn(strip: string -> string, rows: seq<Row>, lines: seq<string>, c: Choice)
    requires |rows| == |lines| == |c| && forall i :: 0 <= i < |rows| ==> lines[i] == TaggedLine(strip, rows[i])
    ensures Chosen(lines, c) == Column(strip, rows, c) && Used(lines, c) == Taken(strip, rows, c)
  {
    hide TaggedLine;
    if rows == [] {
    } else {
      var n := |rows| - 1;
      assert rows == rows[..n] + [rows[n]] && c == c[..n] + [c[n]];
      ChosenIsColumn(strip, rows[..n], lines[..n], c[..n]);
      TakenSnoc(strip, rows[..n], c[..n], rows[n], c[n]);
    }
  }

  /** The greedy text says of the rows what a packing should. */
  lemma PackIsSaid(strip: string -> string, items: seq<Row>, budget: int, ordered: seq<Row>, lines: seq<string>)
    requires multiset(ordered) == multiset(items)
    requires forall i, j :: 0 <= i < j < |ordered| ==> Before(ordered[i], ordered[j])
    requires |lines| == |ordered| && forall i :: 0 <= i < |lines| ==> lines[i] == Line(strip, ordered[i])
    ensures PackSays(strip, items, budget, JoinLines(Chosen(lines, Greedy(lines, budget))))
  {
    hide TaggedLine, Line, Taken, Column, Used, Chosen, Greedy;
    var c := Greedy(lines, budget);
    forall i | 0 <= i < |lines| ensures lines[i] == TaggedLine(strip, ordered[i]) {
      LineIsTagged(strip, ordered[i]);
    }
    ChosenIsColumn(strip, ordered, lines, c);
    JoinIsBelow(Chosen(lines, c));
    forall k | 0 <= k < |ordered|
      ensures c[k] <==> Taken(strip, ordered[..k], c[..k]) + |TaggedLine(strip, ordered[k])| + 1 <= budget
    {
      ChosenExactlyWhenItFits(lines, budget, k);
      ChosenIsColumn(strip, ordered[..k], lines[..k], c[..k]);
    }
    assert PackedAs(strip, items, budget, JoinLines(Chosen(lines, c)), ordered, c);
  }

  /** The rows at the picked places of a list, which are all the places of profile rows, or all the others. */
  ghost predicate Selected(rows: Rows, ids: seq<Id>, items: seq<Row>, profile: bool) {
    exists picks :: SelectedAt(rows, ids, items, profile, picks)
  }

  ghost predicate SelectedAt(rows: Rows, ids: seq<Id>, items: seq<Row>, profile: bool, picks: seq<nat>) {
    && |picks| == |items|
    && (forall n :: 0 <= n < |picks| ==> picks[n] < |ids| && ids[picks[n]] in rows && items[n] == rows[ids[picks[n]]])
    && (forall m, n :: 0 <= m < n < |picks| ==> picks[m] < picks[n])
    && (forall i: nat :: i < |ids| && ids[i] in rows ==>
          (i in picks <==> (profile <==> rows[ids[i]].prov.kind in {UserDirect, Operator})))
  }

  lemma SelectedSnoc(rows: Rows, ids: seq<Id>, items: seq<Row>, profile: bool, id: Id)
    requires Selected(rows, ids, items, profile) && id in rows
    ensures var chosen := profile <==> rows[id].prov.kind in {UserDirect, Operator};
            Selected(rows, ids + [id], items + if chosen then [rows[id]] else [], profile)
  {
    var chosen := profile <==> rows[id].prov.kind in {UserDirect, Operator};
    var picks: seq<nat> :| SelectedAt(rows, ids, items, profile, picks);
    assert items + [] == items;
    if chosen {
      PickLast(rows, ids, items, profile, id, picks);
    } else {
      LeaveLast(rows, ids, items, profile, id, picks);
    }
  }

  lemma PickLast(rows: Rows, ids: seq<Id>, items: seq<Row>, profile: bool, id: Id, picks: seq<nat>)
    requires SelectedAt(rows, ids, items, profile, picks) && id in rows
    requires profile <==> rows[id].prov.kind in {UserDirect, Operator}
    ensures SelectedAt(rows, ids + [id], items + [rows[id]], profile, picks + [|ids|])
  {
    var all, picks': seq<nat> := ids + [id], picks + [|ids|];
    assert forall i: nat :: i < |ids| ==> all[i] == ids[i];
    forall i: nat | i < |all| && all[i] in rows
      ensures i in picks' <==> (profile <==> rows[all[i]].prov.kind in {UserDirect, Operator})
    {
      assert i in picks' <==> i in picks || i == |ids|;
    }
  }

  lemma LeaveLast(rows: Rows, ids: seq<Id>, items: seq<Row>, profile: bool, id: Id, picks: seq<nat>)
    requires SelectedAt(rows, ids, items, profile, picks) && id in rows
    requires !(profile <==> rows[id].prov.kind in {UserDirect, Operator})
    ensures SelectedAt(rows, ids + [id], items, profile, picks)
  {
    var all := ids + [id];
    assert forall i: nat :: i < |ids| ==> all[i] == ids[i];
    assert |ids| !in picks;
  }

  lemma NothingSelected(rows: Rows, profile: bool)
    ensures Selected(rows, [], [], profile)
  {
    assert SelectedAt(rows, [], [], profile, []);
  }

  predicate IsUserProfile(r: Row) { r.prov.kind == UserDirect || r.prov.kind == Operator }

  /** The same active rows of one actor, whatever anybody else has. */
  ghost predicate AgreeOnActor(rows: Rows, rows': Rows, actor: string) {
    && (forall id :: id in rows && rows[id].state == Active && rows[id].prov.actor == Some(actor)
          ==> id in rows' && rows'[id] == rows[id])
    && (forall id :: id in rows' && rows'[id].state == Active && rows'[id].prov.actor == Some(actor)
          ==> id in rows && rows[id] == rows'[id])
  }

  function UserItems(rows: Rows, ids: seq<Id>): seq<Row>
    requires forall id :: id in ids ==> id in rows
  {
    if ids == [] then []
    else
      var n := |ids| - 1;
      UserItems(rows, ids[..n]) + if IsUserProfile(rows[ids[n]]) then [rows[ids[n]]] else []
  }

  /**
   * The user half of a snapshot depends on that user's rows alone: any listing the per-actor
   * query may give for one table it may give for another that agrees on the actor, and it
   * selects the same rows to pack.
   */
  lemma UserHalfIsIsolated(rows: Rows, rows': Rows, actor: string, ids: seq<Id>)
    requires AgreeOnActor(rows, rows', actor) && ActorListing(rows, actor, ids)
    ensures ActorListing(rows', actor, ids)
    ensures (forall id :: id in ids ==> id in rows && id in rows') && UserItems(rows, ids) == UserItems(rows', ids)
  {
    var all := OfActor(rows, actor);
    assert all == OfActor(rows', actor);
    var left :| Picked(rows, all, left, ids) && (left == {} || |ids| == LIMIT);
    assert forall id :: id in all ==> CreatedAt(rows, id) == CreatedAt(rows', id);
    forall i | 0 <= i < |ids| ensures ids[i] in all { assert ids[i] in ids; }
    assert Picked(rows', all, left, ids);
    SameItems(rows, rows', ids);
  }

  lemma {:induction false} SameItems(rows: Rows, rows': Rows, ids: seq<Id>)
    requires forall id :: id in ids ==> id in rows && id in rows' && rows[id] == rows'[id]
    ensures UserItems(rows, ids) == UserItems(rows', ids)
  {
    if ids == [] {
    } else {
      SameItems(rows, rows', ids[..|ids| - 1]);
    }
  }

  function AgentItems(rows: Rows, ids: seq<Id>): seq<Row>
    requires forall id :: id in ids ==> id in rows
  {
    if ids == [] then []
    else
      var n := |ids| - 1;
      AgentItems(rows, ids[..n]) + if IsUserProfile(rows[ids[n]]) then [] else [rows[ids[n]]]
  }

  lemma {:induction false} ItemsSelected(rows: Rows, ids: seq<Id>)
    requires forall id :: id in ids ==> id in rows
    ensures Selected(rows, ids, UserItems(rows, ids), true) && Selected(rows, ids, AgentItems(rows, ids), false)
  {
    hide Selected;
    if ids == [] {
      NothingSelected(rows, true);
      NothingSelected(rows, false);
    } else {
      var n := |ids| - 1;
      assert ids == ids[..n] + [ids[n]];
      ItemsSelected(rows, ids[..n]);
      SelectedSnoc(rows, ids[..n], UserItems(rows, ids[..n]), true, ids[n]);
      SelectedSnoc(rows, ids[..n], AgentItems(rows, ids[..n]), false, ids[n]);
    }
  }

  datatype Snapshot = Snapshot(userProfile: string, agentNotes: string)

  /** A text a packing of these items may give, whatever order ties come in. */
  ghost predicate Packs(strip: string -> string, items: seq<Row>, budget: int, text: string) {
    exists ordered: seq<Row>, lines: seq<string> :: PackedFrom(strip, items, budget, text, ordered, lines)
  }

  ghost predicate PackedFrom(strip: string -> string, items: seq<Row>, budget: int, text: string,
                             ordered: seq<Row>, lines: seq<string>)
  {
    && multiset(ordered) == multiset(items)
    && (forall i, j :: 0 <= i < j < |ordered| ==> Before(ordered[i], ordered[j]))
    && |lines| == |ordered| && (forall i :: 0 <= i < |lines| ==> lines[i] == Line(strip, ordered[i]))
    && text == JoinLines(Chosen(lines, Greedy(lines, budget)))
  }

  /** What the user half of one actor may read. */
  ghost predicate UserHalf(env: Env, rows: Rows, actor: string, budget: int, text: string) {
    exists ids :: ActorListing(rows, actor, ids) && (forall id :: id in ids ==> id in rows)
      && Packs(env.strip, UserItems(rows, ids), budget, text)
  }

  /**
   * Both halves within their budgets: the agent notes from the newest active rows, the user half
   * from the named actor's, or from those same rows when no user is named.
   */
  method BuildSnapshot(store: MemoryStore, userBudget: nat, agentBudget: nat, user: Option<string>)
    returns (s: Snapshot)
    ensures |s.userProfile| <= userBudget && |s.agentNotes| <= agentBudget
    ensures user.Some? ==> UserHalf(store.env, store.rows, user.value, userBudget, s.userProfile)
    ensures exists ids :: Listing(store.rows, Active, ids)
              && Packs(store.env.strip, AgentItems(store.rows, ids), agentBudget, s.agentNotes)
              && (user.None? ==> Packs(store.env.strip, UserItems(store.rows, ids), userBudget, s.userProfile))
    ensures exists ids, items :: Listing(store.rows, Active, ids) && Selected(store.rows, ids, items, false)
              && PackSays(store.env.strip, items, agentBudget, s.agentNotes)
    ensures exists ids, items ::
              && (if user.Some? then ActorListing(store.rows, user.value, ids) else Listing(store.rows, Active, ids))
              && Selected(store.rows, ids, items, true)
              && PackSays(store.env.strip, items, userBudget, s.userProfile)
  {
    hide Picked, UserItems, AgentItems, PackedFrom, PackSays, Selected;
    var active := store.ByState(Active);
    var listed := active;
    if user.Some? {
      listed := store.ActiveByActor(user.value);
      ActorKnown(store.rows, user.value, listed);
    }
    ghost var ordered, lines;
    var userText, agentText;
    userText, ordered, lines := Pack(store.env.strip, UserItems(store.rows, listed), userBudget);
    PackedWitness(store.env.strip, UserItems(store.rows, listed), userBudget, userText, ordered, lines);
    agentText, ordered, lines := Pack(store.env.strip, AgentItems(store.rows, active), agentBudget);
    PackedWitness(store.env.strip, AgentItems(store.rows, active), agentBudget, agentText, ordered, lines);
    ItemsSelected(store.rows, listed);
    ItemsSelected(store.rows, active);
    return Snapshot(userText, agentText);
  }

  lemma ActorKnown(rows: Rows, actor: string, ids: seq<Id>)
    requires ActorListing(rows, actor, ids)
    ensures forall id :: id in ids ==> id in rows
  {
  }

  lemma PackedWitness(strip: string -> string, items: seq<Row>, budget: int, text: string, ordered: seq<Row>,
                      lines: seq<string>)
    requires multiset(ordered) == multiset(items)
    requires forall i, j :: 0 <= i < j < |ordered| ==> Before(ordered[i], ordered[j])
    requires |lines| == |ordered| && forall i :: 0 <= i < |lines| ==> lines[i] == Line(strip, ordered[i])
    requires text == JoinLines(Chosen(lines, Greedy(lines, budget)))
    ensures Packs(strip, items, budget, text)
  {
    assert PackedFrom(strip, items, budget, text, ordered, lines);
  }

  /** Isolation: what an actor's half may read is settled by that actor's own active rows. */
  lemma UserHalfUnchangedByOthers(env: Env, rows: Rows, rows': Rows, actor: string, budget: int, text: string)
    requires AgreeOnActor(rows, rows', actor)
    ensures UserHalf(env, rows, actor, budget, text) ==> UserHalf(env, rows', actor, budget, text)
  {
    hide Packs, Picked;
    if UserHalf(env, rows, actor, budget, text) {
      var ids :| ActorListing(rows, actor, ids) && (forall id :: id in ids ==> id in rows)
                 && Packs(env.strip, UserItems(rows, ids), budget, text);
      UserHalfIsIsolated(rows, rows', actor, ids);
    }
  }
}
