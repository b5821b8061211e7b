/** Reassembling tool calls from streamed fragments, for both providers. */
module ToolAssembly {
  import opened MemoryModel
  import opened Messages

  /** json.loads on argument text, None when it raises, and "only whitespace". */
  datatype ArgReader = ArgReader(loads: string -> Option<Args>, blank: string -> bool)

  /** The arguments of accumulated text: the empty text stands for "{}". */
  function ReadArgs(rd: ArgReader, text: string): Option<Args> {
    var raw := if text == "" then "{}" else text;
    if rd.blank(raw) then Some(map[]) else rd.loads(raw)
  }

  /** What was emitted before the stream's tool calls ended or the reader raised. */
  datatype Emitted = Emitted(calls: seq<ToolCall>, raised: bool)

  // ----- indexed deltas ------------------------------------------------------------

  /** One tool-call delta; an absent id, name or argument fragment is empty. */
  datatype Delta = Delta(index: int, id: string, name: string, args: string)

  datatype Slot = Slot(id: string, name: string, args: string)

  const NEW := Slot("", "", "")

  function Filled(s: Slot, d: Delta): Slot {
    Slot(if d.id != "" then d.id else s.id, if d.name != "" then d.name else s.name, s.args + d.args)
  }

  /** The deltas of one index, in order. */
  function Of(ds: seq<Delta>, index: int): seq<Delta> {
    if ds == [] then []
    else Of(ds[..|ds| - 1], index) + if ds[|ds| - 1].index == index then [ds[|ds| - 1]] else []
  }

  /** The indices in the order of their first delta. */
  function Indices(ds: seq<Delta>): seq<int> {
    if ds == [] then []
    else
      var seen, i := Indices(ds[..|ds| - 1]), ds[|ds| - 1].index;
      if i in seen then seen else seen + [i]
  }

  function LastId(ds: seq<Delta>): string {
    if ds == [] then "" else if ds[|ds| - 1].id != "" then ds[|ds| - 1].id else LastId(ds[..|ds| - 1])
  }

  function LastName(ds: seq<Delta>): string {
    if ds == [] then "" else if ds[|ds| - 1].name != "" then ds[|ds| - 1].name else LastName(ds[..|ds| - 1])
  }

  function JoinedArgs(ds: seq<Delta>): string {
    if ds == [] then "" else JoinedArgs(ds[..|ds| - 1]) + ds[|ds| - 1].args
  }

  /** The slot an index ends with: its last id and name, and all its argument fragments joined in order. */
  function SlotOf(ds: seq<Delta>): Slot { Slot(LastId(ds), LastName(ds), JoinedArgs(ds)) }

  /** Emission at the finishing choice: named slots in first-seen order, until one does not parse. */
  function Emit(rd: ArgReader, slots: seq<Slot>): Emitted {
    if slots == [] then Emitted([], false)
    else if slots[0].name == "" then Emit(rd, slots[1..])
    else if ReadArgs(rd, slots[0].args).None? then Emitted([], true)
    else
      var rest := Emit(rd, slots[1..]);
      Emitted([ToolCall(slots[0].id, slots[0].name, ReadArgs(rd, slots[0].args).value)] + rest.calls, rest.raised)
  }

  function SlotsOf(ds: seq<Delta>): seq<Slot> {
    seq(|Indices(ds)|, i requires 0 <= i < |Indices(ds)| => SlotOf(Of(ds, Indices(ds)[i])))
  }

  lemma {:induction false} SeenExactly(ds: seq<Delta>, index: int)
    ensures index in Indices(ds) <==> Of(ds, index) != []
  {
    if ds == [] {
    } else {
      SeenExactly(ds[..|ds| - 1], index);
    }
  }

  lemma OfSnoc(ds: seq<Delta>, d: Delta, index: int)
    ensures Of(ds + [d], index) == Of(ds, index) + if d.index == index then [d] else []
    ensures Indices(ds + [d]) == if d.index in Indices(ds) then Indices(ds) else Indices(ds) + [d.index]
  {
  }

  lemma SlotSnoc(ds: seq<Delta>, d: Delta)
    ensures SlotOf(ds + [d]) == Filled(SlotOf(ds), d)
  {
  }

  /** The dictionary of slots, in insertion order, after these deltas. */
  ghost predicate Accumulated(order: seq<int>, tools: map<int, Slot>, ds: seq<Delta>) {
    && order == Indices(ds)
    && (forall i :: i in tools <==> i in order)
    && (forall i :: i in tools ==> tools[i] == SlotOf(Of(ds, i)))
  }

  lemma AccumulatedSnoc(order: seq<int>, tools: map<int, Slot>, ds: seq<Delta>, d: Delta)
    requires Accumulated(order, tools, ds)
    ensures var slot := if d.index in tools then tools[d.index] else NEW;
            Accumulated(if d.index in tools then order else order + [d.index],
                        tools[d.index := Filled(slot, d)], ds + [d])
  {
    hide SlotOf, Of, Indices, Filled;
    var tools' := tools[d.index := Filled(if d.index in tools then tools[d.index] else NEW, d)];
    OfSnoc(ds, d, d.index);
    SeenExactly(ds, d.index);
    EmptySlot();
    SlotSnoc(Of(ds, d.index), d);
    forall i | i in tools' ensures tools'[i] == SlotOf(Of(ds + [d], i)) {
      OfSnoc(ds, d, i);
      if i != d.index { assert Of(ds, i) + [] == Of(ds, i); }
    }
  }

  lemma NothingAccumulated()
    ensures Accumulated([], map[], [])
  {
  }

  lemma EmptySlot()
    ensures SlotOf([]) == NEW
  {
  }

  /** Fills the slots delta by delta, each slot created at its index's first delta. */
  method Accumulate(ds: seq<Delta>) returns (order: seq<int>, tools: map<int, Slot>)
    ensures Accumulated(order, tools, ds)
  {
    hide Accumulated, Of, Indices, SlotOf;
    order, tools := [], map[];
    NothingAccumulated();
    assert ds[..0] == [];
    for n := 0 to |ds|
      invariant Accumulated(order, tools, ds[..n])
    {
      var tc := ds[n];
      assert ds[..n + 1] == ds[..n] + [tc];
      AccumulatedSnoc(order, tools, ds[..n], tc);
      ghost var before := tools;
      if tc.index !in tools {
        tools := tools[tc.index := NEW];
        order := order + [tc.index];
      }
      var slot := tools[tc.index];
      if tc.id != "" {
        slot := slot.(id := tc.id);
      }
      if tc.name != "" {
        slot := slot.(name := tc.name);
      }
      slot := slot.(args := slot.args + tc.args);
      tools := tools[tc.index := slot];
      assert tools == before[tc.index := Filled(if tc.index in before then before[tc.index] else NEW, tc)];
    }
    assert ds[..|ds|] == ds;
  }

  function Prefixed(calls: seq<ToolCall>, e: Emitted): Emitted { Emitted(calls + e.calls, e.raised) }

  lemma PrefixedCons(calls: seq<ToolCall>, c: ToolCall, e: Emitted)
    ensures Prefixed(calls, Emitted([c] + e.calls, e.raised)) == Prefixed(calls + [c], e)
  {
  }

  /** The finishing choice drains the slots in insertion order. */
  method Drain(rd: ArgReader, order: seq<int>, tools: map<int, Slot>, ghost slots: seq<Slot>) returns (out: Emitted)
    requires |slots| == |order| && forall k :: 0 <= k < |order| ==> order[k] in tools && tools[order[k]] == slots[k]
    ensures out == Emit(rd, slots)
  {
    hide ReadArgs, Prefixed;
    var calls: seq<ToolCall> := [];
    PrefixedNone(Emit(rd, slots));
    assert slots[0..] == slots;
    for k := 0 to |order|
      invariant Emit(rd, slots) == Prefixed(calls, Emit(rd, slots[k..]))
    {
      var slot := tools[order[k]];
      assert slots[k..][0] == slot && slots[k..][1..] == slots[k + 1..];
      if slot.name != "" {
        var args := ReadArgs(rd, slot.args);
        if args.None? {
          PrefixedRaised(calls);
          return Emitted(calls, true);
        }
        PrefixedCons(calls, ToolCall(slot.id, slot.name, args.value), Emit(rd, slots[k + 1..]));
        calls := calls + [ToolCall(slot.id, slot.name, args.value)];
      }
    }
    assert slots[|order|..] == [];
    PrefixedEnd(calls);
    return Emitted(calls, false);
  }

  lemma PrefixedNone(e: Emitted)
    ensures Prefixed([], e) == e
  {
  }

  lemma PrefixedRaised(calls: seq<ToolCall>)
    ensures Prefixed(calls, Emitted([], true)) == Emitted(calls, true)
  {
  }

  lemma PrefixedEnd(calls: seq<ToolCall>)
    ensures Prefixed(calls, Emitted([], false)) == Emitted(calls, false)
  {
  }

  /** The whole stream: accumulate, then drain. */
  method Assemble(rd: ArgReader, ds: seq<Delta>) returns (out: Emitted)
    ensures out == Emit(rd, SlotsOf(ds))
    ensures exists named :: NamedInOrder(ds, named) && Assembled(rd, ds, named, out)
  {
    hide Emit, NamedInOrder, Assembled, SlotsOf;
    var order, tools := Accumulate(ds);
    SlotsByIndex(ds);
    out := Drain(rd, order, tools, SlotsOf(ds));
    ghost var named := CallsEmitted(rd, ds);
  }

  lemma SlotsByIndex(ds: seq<Delta>)
    ensures |SlotsOf(ds)| == |Indices(ds)|
    ensures forall k :: 0 <= k < |SlotsOf(ds)| ==> SlotsOf(ds)[k] == SlotOf(Of(ds, Indices(ds)[k]))
  {
  }

  // ----- what is emitted, said of the deltas themselves --------------------------------

  /** Argument text that is read: the empty text as "{}", only whitespace as no arguments, all else by the parser. */
  predicate ReadsAs(rd: ArgReader, text: string, args: Args) {
    var raw := if |text| == 0 then "{}" else text;
    if rd.blank(raw) then args == map[] else rd.loads(raw) == Some(args)
  }

  predicate Unreadable(rd: ArgReader, text: string) {
    var raw := if |text| == 0 then "{}" else text;
    !rd.blank(raw) && rd.loads(raw) == None
  }

  /** The argument fragments of one index, joined in the order they came. */
  function Joined(ds: seq<Delta>, index: int): string {
    if ds == [] then "" else (if ds[0].index == index then ds[0].args else "") + Joined(ds[1..], index)
  }

  /** The last nonempty id of the index, or none at all. */
  predicate IsId(ds: seq<Delta>, index: int, id: string) {
    if id == "" then forall i :: 0 <= i < |ds| && ds[i].index == index ==> ds[i].id == ""
    else exists i :: 0 <= i < |ds| && ds[i].index == index && ds[i].id == id
           && forall j :: i < j < |ds| && ds[j].index == index ==> ds[j].id == ""
  }

  predicate IsName(ds: seq<Delta>, index: int, name: string) {
    if name == "" then forall i :: 0 <= i < |ds| && ds[i].index == index ==> ds[i].name == ""
    else exists i :: 0 <= i < |ds| && ds[i].index == index && ds[i].name == name
           && forall j :: i < j < |ds| && ds[j].index == index ==> ds[j].name == ""
  }

  /** Delta i is the first of its index. */
  predicate FirstOf(ds: seq<Delta>, i: nat) {
    i < |ds| && forall j :: 0 <= j < i ==> ds[j].index != ds[i].index
  }

  predicate Named(ds: seq<Delta>, index: int) { exists i :: 0 <= i < |ds| && ds[i].index == index && ds[i].name != "" }

  /** The first delta of a comes before the first delta of b. */
  ghost predicate SeenBefore(ds: seq<Delta>, a: int, b: int) {
    exists i, j :: 0 <= i < j < |ds| && FirstOf(ds, i) && FirstOf(ds, j) && ds[i].index == a && ds[j].index == b
  }

  ghost predicate FirstSeenOrder(ds: seq<Delta>, order: seq<int>) {
    forall a, b :: 0 <= a < b < |order| ==> SeenBefore(ds, order[a], order[b])
  }

  /** Exactly the indices that got a name, by first appearance. */
  ghost predicate NamedInOrder(ds: seq<Delta>, named: seq<int>) {
    && (forall index :: index in named <==> Named(ds, index))
    && FirstSeenOrder(ds, named)
  }

  predicate CallOf(rd: ArgReader, ds: seq<Delta>, index: int, c: ToolCall) {
    IsId(ds, index, c.id) && IsName(ds, index, c.name) && ReadsAs(rd, Joined(ds, index), c.args)
  }

  /** One call per named index, in order, all of them or those before the first whose text does not parse. */
  ghost predicate Assembled(rd: ArgReader, ds: seq<Delta>, named: seq<int>, out: Emitted) {
    && |out.calls| <= |named| && (out.raised <==> |out.calls| < |named|)
    && (forall k :: 0 <= k < |out.calls| ==> CallOf(rd, ds, named[k], out.calls[k]))
    && (out.raised ==> Unreadable(rd, Joined(ds, named[|out.calls|])))
  }

  lemma {:induction false} JoinedSnoc(ds: seq<Delta>, d: Delta, index: int)
    ensures Joined(ds + [d], index) == Joined(ds, index) + if d.index == index then d.args else ""
  {
    if ds == [] {
      assert [d][1..] == [];
    } else {
      assert (ds + [d])[1..] == ds[1..] + [d];
      JoinedSnoc(ds[1..], d, index);
    }
  }

  lemma IsIdSnoc(ds: seq<Delta>, d: Delta, index: int, id: string)
    requires IsId(ds, index, id)
    ensures IsId(ds + [d], index, if d.index == index && d.id != "" then d.id else id)
  {
    var r := ds + [d];
    assert forall i :: 0 <= i < |ds| ==> r[i] == ds[i];
    assert r[|ds|] == d;
  }

  lemma IsNameSnoc(ds: seq<Delta>, d: Delta, index: int, name: string)
    requires IsName(ds, index, name)
    ensures IsName(ds + [d], index, if d.index == index && d.name != "" then d.name else name)
  {
    var r := ds + [d];
    assert forall i :: 0 <= i < |ds| ==> r[i] == ds[i];
    assert r[|ds|] == d;
  }

  /** A slot is what the deltas of its index say. */
  lemma {:induction false} SlotSays(ds: seq<Delta>, index: int)
    ensures var s := SlotOf(Of(ds, index));
            IsId(ds, index, s.id) && IsName(ds, index, s.name) && s.args == Joined(ds, index)
  {
    hide IsId, IsName;
    if ds == [] {
      NothingSaid(index);
    } else {
      var t, d := ds[..|ds| - 1], ds[|ds| - 1];
      assert ds == t + [d];
      SlotSays(t, index);
      var s := SlotOf(Of(t, index));
      IsIdSnoc(t, d, index, s.id);
      IsNameSnoc(t, d, index, s.name);
      JoinedSnoc(t, d, index);
      OfSnoc(t, d, index);
      if d.index == index {
        SlotSnoc(Of(t, index), d);
      } else {
        assert Of(t, index) + [] == Of(t, index);
      }
    }
  }

  lemma NothingSaid(index: int)
    ensures IsId([], index, "") && IsName([], index, "") && SlotOf(Of([], index)) == NEW
  {
  }

  lemma SeenBeforeSnoc(ds: seq<Delta>, d: Delta, a: int, b: int)
    requires SeenBefore(ds, a, b)
    ensures SeenBefore(ds + [d], a, b)
  {
    var i, j :| 0 <= i < j < |ds| && FirstOf(ds, i) && FirstOf(ds, j) && ds[i].index == a && ds[j].index == b;
    var r := ds + [d];
    assert forall k :: 0 <= k < |ds| ==> r[k] == ds[k];
    assert FirstOf(r, i) && FirstOf(r, j);
  }

  lemma {:induction false} FirstDelta(ds: seq<Delta>, index: int) returns (i: nat)
    requires index in Indices(ds)
    ensures FirstOf(ds, i) && ds[i].index == index
  {
    var n := |ds| - 1;
    if index in Indices(ds[..n]) {
      i := FirstDelta(ds[..n], index);
    } else {
      i := n;
      forall j | 0 <= j < n ensures ds[j].index != index {
        if ds[j].index == index { MentionedIsSeen(ds[..n], j); }
      }
    }
  }

  lemma {:induction false} MentionedIsSeen(ds: seq<Delta>, j: nat)
    requires j < |ds|
    ensures ds[j].index in Indices(ds)
  {
    if j < |ds| - 1 { MentionedIsSeen(ds[..|ds| - 1], j); }
  }

  lemma {:induction false} IndicesByFirst(ds: seq<Delta>)
    ensures FirstSeenOrder(ds, Indices(ds))
  {
    hide SeenBefore;
    if ds == [] {
    } else {
      var n := |ds| - 1;
      var t, d := ds[..n], ds[n];
      assert ds == t + [d];
      IndicesByFirst(t);
      OfSnoc(t, d, 0);
      forall a, b | 0 <= a < b < |Indices(ds)| ensures SeenBefore(ds, Indices(ds)[a], Indices(ds)[b]) {
        if b < |Indices(t)| {
          SeenBeforeSnoc(t, d, Indices(t)[a], Indices(t)[b]);
        } else {
          NewIsLast(t, d, Indices(t)[a]);
        }
      }
    }
  }

  lemma NewIsLast(ds: seq<Delta>, d: Delta, a: int)
    requires a in Indices(ds) && d.index !in Indices(ds)
    ensures SeenBefore(ds + [d], a, d.index)
  {
    var r := ds + [d];
    var i := FirstDelta(ds, a);
    assert FirstOf(r, i);
    forall j | 0 <= j < |ds| ensures r[j].index != d.index { MentionedIsSeen(ds, j); }
    assert FirstOf(r, |ds|);
  }

  /** The indices of a list whose slots have a name, in order. */
  function WithName(ds: seq<Delta>, order: seq<int>): seq<int> {
    if order == [] then []
    else (if SlotOf(Of(ds, order[0])).name != "" then [order[0]] else []) + WithName(ds, order[1..])
  }

  function Slots(ds: seq<Delta>, order: seq<int>): seq<Slot> {
    seq(|order|, i requires 0 <= i < |order| => SlotOf(Of(ds, order[i])))
  }

  lemma {:induction false} WithNameMembers(ds: seq<Delta>, order: seq<int>)
    ensures forall i :: i in WithName(ds, order) <==> i in order && SlotOf(Of(ds, i)).name != ""
  {
    hide SlotOf, Of;
    if order == [] {
    } else {
      WithNameMembers(ds, order[1..]);
      assert order == [order[0]] + order[1..];
    }
  }

  lemma {:induction false} WithNameOrdered(ds: seq<Delta>, order: seq<int>)
    requires FirstSeenOrder(ds, order)
    ensures FirstSeenOrder(ds, WithName(ds, order))
  {
    hide SlotOf, Of, SeenBefore;
    if order == [] {
    } else {
      var rest := WithName(ds, order[1..]);
      TailOrdered(ds, order);
      WithNameOrdered(ds, order[1..]);
      WithNameMembers(ds, order[1..]);
      forall b | 0 <= b < |rest| ensures SeenBefore(ds, order[0], rest[b]) {
        assert rest[b] in order[1..];
        var j :| 1 <= j < |order| && order[j] == rest[b];
      }
      PrependOrdered(ds, order[0], rest);
      assert WithName(ds, order) == rest || WithName(ds, order) == [order[0]] + rest;
    }
  }

  lemma TailOrdered(ds: seq<Delta>, order: seq<int>)
    requires order != [] && FirstSeenOrder(ds, order)
    ensures FirstSeenOrder(ds, order[1..])
  {
    hide SeenBefore;
  }

  lemma PrependOrdered(ds: seq<Delta>, index: int, rest: seq<int>)
    requires FirstSeenOrder(ds, rest)
    requires forall b :: 0 <= b < |rest| ==> SeenBefore(ds, index, rest[b])
    ensures FirstSeenOrder(ds, [index] + rest)
  {
    hide SeenBefore;
    var named := [index] + rest;
    forall a, b | 0 <= a < b < |named| ensures SeenBefore(ds, named[a], named[b]) {
      assert named[b] == rest[b - 1];
      if a > 0 { assert named[a] == rest[a - 1]; }
    }
  }

  lemma {:induction false} EmitsNamed(rd: ArgReader, ds: seq<Delta>, order: seq<int>)
    ensures Assembled(rd, ds, WithName(ds, order), Emit(rd, Slots(ds, order)))
    decreases |order|
  {
    hide SlotOf, Of, Assembled, CallOf;
    var out := Emit(rd, Slots(ds, order));
    if order == [] {
      NothingAssembled(rd, ds);
    } else {
      var slot, rest := SlotOf(Of(ds, order[0])), Slots(ds, order[1..]);
      assert Slots(ds, order)[0] == slot && Slots(ds, order)[1..] == rest;
      EmitsNamed(rd, ds, order[1..]);
      SlotSays(ds, order[0]);
      if slot.name != "" {
        ReadOrNot(rd, slot.args);
        AssembledCons(rd, ds, order[0], slot, WithName(ds, order[1..]), Emit(rd, rest));
        assert WithName(ds, order) == [order[0]] + WithName(ds, order[1..]);
      } else {
        assert WithName(ds, order) == WithName(ds, order[1..]) && out == Emit(rd, rest);
      }
    }
  }

  lemma ReadOrNot(rd: ArgReader, text: string)
    ensures ReadArgs(rd, text).Some? ==> ReadsAs(rd, text, ReadArgs(rd, text).value)
    ensures ReadArgs(rd, text).None? ==> Unreadable(rd, text)
  {
  }

  lemma NothingAssembled(rd: ArgReader, ds: seq<Delta>)
    ensures Assembled(rd, ds, [], Emitted([], false))
  {
  }

  lemma AssembledCons(rd: ArgReader, ds: seq<Delta>, index: int, slot: Slot, named: seq<int>, rest: Emitted)
    requires IsId(ds, index, slot.id) && IsName(ds, index, slot.name) && slot.args == Joined(ds, index)
    requires Assembled(rd, ds, named, rest)
    ensures Unreadable(rd, slot.args) ==> Assembled(rd, ds, [index] + named, Emitted([], true))
    ensures forall args | ReadsAs(rd, slot.args, args) ::
              Assembled(rd, ds, [index] + named,
                        Emitted([ToolCall(slot.id, slot.name, args)] + rest.calls, rest.raised))
  {
    hide IsId, IsName, Joined, ReadsAs, Unreadable;
    forall args | ReadsAs(rd, slot.args, args)
      ensures Assembled(rd, ds, [index] + named,
                        Emitted([ToolCall(slot.id, slot.name, args)] + rest.calls, rest.raised))
    {
      var calls := [ToolCall(slot.id, slot.name, args)] + rest.calls;
      forall k | 0 <= k < |calls| ensures CallOf(rd, ds, ([index] + named)[k], calls[k]) {
        if k > 0 { assert calls[k] == rest.calls[k - 1]; }
      }
    }
  }

  /**
   * The calls of a stream, read off its deltas: one for each index that got a name, by first
   * appearance, with that index's last id and name and its joined fragments parsed; or those
   * before the first index whose fragments do not parse.
   */
  lemma CallsEmitted(rd: ArgReader, ds: seq<Delta>) returns (named: seq<int>)
    ensures NamedInOrder(ds, named) && Assembled(rd, ds, named, Emit(rd, SlotsOf(ds)))
  {
    hide SlotOf, Of, IsId, Assembled, Emit, SeenBefore;
    var order := Indices(ds);
    named := WithName(ds, order);
    assert SlotsOf(ds) == Slots(ds, order);
    EmitsNamed(rd, ds, order);
    IndicesByFirst(ds);
    WithNameOrdered(ds, order);
    WithNameMembers(ds, order);
    forall index ensures index in named <==> Named(ds, index) {
      SlotSays(ds, index);
      if i :| 0 <= i < |ds| && ds[i].index == index && ds[i].name != "" { MentionedIsSeen(ds, i); }
    }
  }

  /** Two streams say the same, index by index. */
  ghost predicate SameSlots(a: seq<Delta>, b: seq<Delta>) {
    Indices(a) == Indices(b) && forall i :: i in Indices(a) ==> SlotOf(Of(a, i)) == SlotOf(Of(b, i))
  }

  lemma SameSlotsSameCalls(rd: ArgReader, a: seq<Delta>, b: seq<Delta>)
    requires SameSlots(a, b)
    ensures Emit(rd, SlotsOf(a)) == Emit(rd, SlotsOf(b))
  {
    assert SlotsOf(a) == SlotsOf(b);
  }

  lemma {:induction false} OfAppend(a: seq<Delta>, b: seq<Delta>, index: int)
    ensures Of(a + b, index) == Of(a, index) + Of(b, index)
    decreases |b|
  {
    if b == [] {
      assert a + b == a;
    } else {
      var t, d := b[..|b| - 1], b[|b| - 1];
      assert a + b == (a + t) + [d] && b == t + [d];
      OfAppend(a, t, index);
      OfSnoc(a + t, d, index);
    }
  }

  lemma {:induction false} IndicesAppend(a: seq<Delta>, b: seq<Delta>, c: seq<Delta>)
    requires Indices(a) == Indices(b)
    ensures Indices(a + c) == Indices(b + c)
    decreases |c|
  {
    if c == [] {
      assert a + c == a && b + c == b;
    } else {
      var t, d := c[..|c| - 1], c[|c| - 1];
      IndicesAppend(a, b, t);
      assert a + c == (a + t) + [d] && b + c == (b + t) + [d];
      OfSnoc(a + t, d, d.index);
      OfSnoc(b + t, d, d.index);
    }
  }

  /**
   * Interleaving does not matter: two streams that first mention the indices in the same order
   * and agree on the deltas of each index emit the same calls, however the indices interleave.
   */
  lemma InterleavingIrrelevant(rd: ArgReader, a: seq<Delta>, b: seq<Delta>)
    requires Indices(a) == Indices(b) && forall i :: i in Indices(a) ==> Of(a, i) == Of(b, i)
    ensures Emit(rd, SlotsOf(a)) == Emit(rd, SlotsOf(b))
  {
    SameSlotsSameCalls(rd, a, b);
  }

  /** In particular adjacent deltas of different, already mentioned indices may change places. */
  lemma SwapIrrelevant(rd: ArgReader, pre: seq<Delta>, x: Delta, y: Delta, post: seq<Delta>)
    requires x.index != y.index && x.index in Indices(pre) && y.index in Indices(pre)
    ensures Emit(rd, SlotsOf(pre + [x, y] + post)) == Emit(rd, SlotsOf(pre + [y, x] + post))
  {
    var a, b := pre + [x, y], pre + [y, x];
    assert a == (pre + [x]) + [y] && b == (pre + [y]) + [x];
    OfSnoc(pre, x, 0);
    OfSnoc(pre + [x], y, 0);
    OfSnoc(pre, y, 0);
    OfSnoc(pre + [y], x, 0);
    IndicesAppend(a, b, post);
    forall i ensures Of(a + post, i) == Of(b + post, i) {
      OfAppend(a, post, i);
      OfAppend(b, post, i);
      OfSnoc(pre, x, i);
      OfSnoc(pre + [x], y, i);
      OfSnoc(pre, y, i);
      OfSnoc(pre + [y], x, i);
    }
    InterleavingIrrelevant(rd, a + post, b + post);
  }

  lemma {:induction false} SlotAppend(a: seq<Delta>, b: seq<Delta>, c: seq<Delta>)
    requires SlotOf(a) == SlotOf(b)
    ensures SlotOf(a + c) == SlotOf(b + c)
    decreases |c|
  {
    if c == [] {
      assert a + c == a && b + c == b;
    } else {
      var t, d := c[..|c| - 1], c[|c| - 1];
      SlotAppend(a, b, t);
      assert a + c == (a + t) + [d] && b + c == (b + t) + [d];
      SlotSnoc(a + t, d);
      SlotSnoc(b + t, d);
    }
  }

  /** Chunking does not matter: an argument fragment may be split anywhere. */
  lemma SplitIrrelevant(rd: ArgReader, pre: seq<Delta>, d: Delta, tail: string, post: seq<Delta>)
    ensures Emit(rd, SlotsOf(pre + [d.(args := d.args + tail)] + post))
            == Emit(rd, SlotsOf(pre + [d, Delta(d.index, "", "", tail)] + post))
  {
    var whole, rest := d.(args := d.args + tail), Delta(d.index, "", "", tail);
    var a, b := pre + [whole], pre + [d, rest];
    assert b == (pre + [d]) + [rest];
    OfSnoc(pre, whole, d.index);
    OfSnoc(pre, d, d.index);
    OfSnoc(pre + [d], rest, d.index);
    IndicesAppend(a, b, post);
    forall i ensures SlotOf(Of(a + post, i)) == SlotOf(Of(b + post, i)) {
      OfAppend(a, post, i);
      OfAppend(b, post, i);
      SplitSlot(pre, d, tail, i);
      SlotAppend(Of(a, i), Of(b, i), Of(post, i));
    }
    SameSlotsSameCalls(rd, a + post, b + post);
  }

  lemma SplitSlot(pre: seq<Delta>, d: Delta, tail: string, i: int)
    ensures SlotOf(Of(pre + [d.(args := d.args + tail)], i)) == SlotOf(Of(pre + [d, Delta(d.index, "", "", tail)], i))
  {
    hide SlotOf, Of, Indices;
    var whole, rest := d.(args := d.args + tail), Delta(d.index, "", "", tail);
    assert pre + [d, rest] == (pre + [d]) + [rest];
    OfSnoc(pre, whole, i);
    OfSnoc(pre, d, i);
    OfSnoc(pre + [d], rest, i);
    if i == d.index {
      var s := SlotOf(Of(pre, i));
      SlotSnoc(Of(pre, i), whole);
      SlotSnoc(Of(pre, i), d);
      SlotSnoc(Of(pre, i) + [d], rest);
      assert s.args + (d.args + tail) == (s.args + d.args) + tail;
    } else {
      assert Of(pre, i) + [] == Of(pre, i);
    }
  }

  // ----- content blocks ---------------------------------------------------------------

  datatype BlockEvent =
    | StartTool(id: string, name: string)
    | StartOther
    | JsonChunk(text: string)
    | TextDelta(text: string)
    | Stop

  /** A block as the provider meant it, with its text cut into any number of chunks. */
  datatype StreamedBlock = ToolBlock(id: string, name: string, chunks: seq<string>) | ProseBlock(chunks: seq<string>)

  function Join(chunks: seq<string>): string {
    if chunks == [] then "" else Join(chunks[..|chunks| - 1]) + chunks[|chunks| - 1]
  }

  datatype Current = NoTool | InTool(id: string, name: string)

  datatype BlockState = BlockState(cur: Current, json: seq<string>, out: Emitted)

  /** One event of the block accumulator; nothing happens after the reader has raised. */
  function OnEvent(rd: ArgReader, s: BlockState, e: BlockEvent): BlockState {
    if s.out.raised then s
    else match e
      case StartTool(id, name) => s.(cur := InTool(id, name), json := [])
      case StartOther => s
      case JsonChunk(t) => s.(json := s.json + [t])
      case TextDelta(_) => s
      case Stop =>
        if s.cur.NoTool? then s
        else
          var args := ReadArgs(rd, Join(s.json));
          if args.None? then s.(out := s.out.(raised := true))
          else s.(cur := NoTool, out := s.out.(calls := s.out.calls + [ToolCall(s.cur.id, s.cur.name, args.value)]))
  }

  function OnEvents(rd: ArgReader, s: BlockState, es: seq<BlockEvent>): BlockState
    decreases |es|
  {
    if es == [] then s else OnEvents(rd, OnEvent(rd, s, es[0]), es[1..])
  }

  method AssembleBlocks(rd: ArgReader, es: seq<BlockEvent>) returns (out: Emitted)
    ensures out == OnEvents(rd, IDLE, es).out
    ensures exists cs :: Closings(es, cs) && BlocksAssembled(rd, es, cs, out)
  {
    hide Closings, BlocksAssembled;
    ghost var cs := BlockCallsEmitted(rd, es);
    var cur, json := NoTool, [];
    out := Emitted([], false);
    for n := 0 to |es|
      invariant !out.raised
      invariant OnEvents(rd, IDLE, es) == OnEvents(rd, BlockState(cur, json, out), es[n..])
    {
      assert es[n..][1..] == es[n + 1..];
      match es[n]
      case StartTool(id, name) => cur, json := InTool(id, name), [];
      case StartOther =>
      case JsonChunk(t) => json := json + [t];
      case TextDelta(_) =>
      case Stop =>
        if cur.InTool? {
          var args := ReadArgs(rd, Join(json));
          if args.None? {
            out := out.(raised := true);
            RaisedStays(rd, BlockState(cur, json, out), es[n + 1..]);
            return;
          }
          out := out.(calls := out.calls + [ToolCall(cur.id, cur.name, args.value)]);
          cur := NoTool;
        }
    }
    assert es[|es|..] == [];
  }

  lemma {:induction false} RaisedStays(rd: ArgReader, s: BlockState, es: seq<BlockEvent>)
    requires s.out.raised
    ensures OnEvents(rd, s, es) == s
    decreases |es|
  {
    if es == [] {
    } else {
      RaisedStays(rd, s, es[1..]);
    }
  }

  function Chunks(b: StreamedBlock): seq<BlockEvent> {
    seq(|b.chunks|, i requires 0 <= i < |b.chunks| =>
      if b.ToolBlock? then JsonChunk(b.chunks[i]) else TextDelta(b.chunks[i]))
  }

  function EventsOf(b: StreamedBlock): seq<BlockEvent> {
    [if b.ToolBlock? then StartTool(b.id, b.name) else StartOther] + (Chunks(b) + [Stop])
  }

  function Stream(bs: seq<StreamedBlock>): seq<BlockEvent> {
    if bs == [] then [] else EventsOf(bs[0]) + Stream(bs[1..])
  }

  /** The calls the blocks meant, until one whose text does not parse. */
  function Meant(rd: ArgReader, bs: seq<StreamedBlock>): Emitted {
    if bs == [] then Emitted([], false)
    else if bs[0].ProseBlock? then Meant(rd, bs[1..])
    else
      var args := ReadArgs(rd, Join(bs[0].chunks));
      if args.None? then Emitted([], true)
      else
        var rest := Meant(rd, bs[1..]);
        Emitted([ToolCall(bs[0].id, bs[0].name, args.value)] + rest.calls, rest.raised)
  }

  lemma {:induction false} OnEventsAppend(rd: ArgReader, s: BlockState, a: seq<BlockEvent>, b: seq<BlockEvent>)
    ensures OnEvents(rd, s, a + b) == OnEvents(rd, OnEvents(rd, s, a), b)
    decreases |a|
  {
    if a == [] {
      assert a + b == b;
    } else {
      assert (a + b)[1..] == a[1..] + b;
      OnEventsAppend(rd, OnEvent(rd, s, a[0]), a[1..], b);
    }
  }

  lemma {:induction false} ChunksCollected(rd: ArgReader, s: BlockState, b: StreamedBlock, k: nat)
    requires !s.out.raised && k <= |b.chunks|
    ensures OnEvents(rd, s, Chunks(b)[..k]) == if b.ToolBlock? then s.(json := s.json + b.chunks[..k]) else s
  {
    if k == 0 {
      assert s.json + b.chunks[..0] == s.json;
    } else {
      ChunksCollected(rd, s, b, k - 1);
      assert Chunks(b)[..k] == Chunks(b)[..k - 1] + [Chunks(b)[k - 1]];
      OnEventsAppend(rd, s, Chunks(b)[..k - 1], [Chunks(b)[k - 1]]);
      assert [Chunks(b)[k - 1]][1..] == [];
      assert s.json + b.chunks[..k] == s.json + b.chunks[..k - 1] + [b.chunks[k - 1]];
    }
  }

  /** One whole block turns an idle accumulator into an idle one, with its call emitted. */
  lemma BlockDelivered(rd: ArgReader, s: BlockState, b: StreamedBlock)
    requires !s.out.raised && s.cur == NoTool
    ensures var s', args := OnEvents(rd, s, EventsOf(b)), ReadArgs(rd, Join(b.chunks));
            if b.ProseBlock? then s' == s
            else if args.None? then s'.out == s.out.(raised := true)
            else s'.cur == NoTool && s'.out == s.out.(calls := s.out.calls + [ToolCall(b.id, b.name, args.value)])
  {
    var start := EventsOf(b)[0];
    var s1 := OnEvent(rd, s, start);
    assert EventsOf(b)[1..] == Chunks(b) + [Stop];
    OnEventsAppend(rd, s1, Chunks(b), [Stop]);
    ChunksCollected(rd, s1, b, |b.chunks|);
    assert Chunks(b)[..|b.chunks|] == Chunks(b) && b.chunks[..|b.chunks|] == b.chunks;
    assert [] + b.chunks == b.chunks;
    var s2 := OnEvents(rd, s1, Chunks(b));
    assert [Stop][1..] == [];
    assert OnEvents(rd, s2, [Stop]) == OnEvent(rd, s2, Stop);
  }

  /**
   * The block accumulator recovers exactly the calls the stream meant, in order, with each
   * call's JSON joined, however the blocks were chunked and whatever prose lies between.
   */
  lemma {:induction false} BlocksRecovered(rd: ArgReader, s: BlockState, bs: seq<StreamedBlock>)
    requires !s.out.raised && s.cur == NoTool
    ensures var m := Meant(rd, bs);
            OnEvents(rd, s, Stream(bs)).out == Emitted(s.out.calls + m.calls, m.raised)
    decreases |bs|
  {
    hide OnEvent, EventsOf;
    if bs == [] {
    } else {
      var s' := OnEvents(rd, s, EventsOf(bs[0]));
      BlockDelivered(rd, s, bs[0]);
      OnEventsAppend(rd, s, EventsOf(bs[0]), Stream(bs[1..]));
      if s'.out.raised {
        RaisedStays(rd, s', Stream(bs[1..]));
      } else {
        BlocksRecovered(rd, s', bs[1..]);
      }
    }
  }

  // ----- what the block accumulator emits, said of the events themselves ---------------

  predicate StartsOrStops(e: BlockEvent) { e.StartTool? || e.Stop? }

  /** The tool block started at q is still open after these events. */
  ghost predicate OpenAt(es: seq<BlockEvent>, q: nat) {
    q < |es| && es[q].StartTool? && forall r :: q < r < |es| ==> !StartsOrStops(es[r])
  }

  /** Event p stops the tool block that event q started. */
  ghost predicate ClosedBy(es: seq<BlockEvent>, q: nat, p: nat) {
    && q < p < |es| && es[q].StartTool? && es[p].Stop?
    && forall r :: q < r < p ==> !StartsOrStops(es[r])
  }

  /** The JSON chunks among these events, joined in order. */
  function ChunkText(es: seq<BlockEvent>): string {
    if es == [] then "" else ChunkOf(es[0]) + ChunkText(es[1..])
  }

  function ChunkOf(e: BlockEvent): string { if e.JsonChunk? then e.text else "" }

  /** All closed tool blocks, as they closed. */
  ghost predicate Closings(es: seq<BlockEvent>, cs: seq<(nat, nat)>) {
    && (forall q: nat, p: nat :: ClosedBy(es, q, p) <==> (q, p) in cs)
    && (forall a, b :: 0 <= a < b < |cs| ==> cs[a].1 < cs[b].1)
  }

  predicate BlockCall(rd: ArgReader, es: seq<BlockEvent>, c: (nat, nat), call: ToolCall) {
    && c.0 < c.1 < |es| && es[c.0].StartTool?
    && call.id == es[c.0].id && call.name == es[c.0].name
    && ReadsAs(rd, ChunkText(es[c.0 + 1..c.1]), call.args)
  }

  predicate BlockUnreadable(rd: ArgReader, es: seq<BlockEvent>, c: (nat, nat)) {
    c.0 < c.1 < |es| && Unreadable(rd, ChunkText(es[c.0 + 1..c.1]))
  }

  /** One call per closed tool block, all of them or those before the first whose text does not parse. */
  ghost predicate BlocksAssembled(rd: ArgReader, es: seq<BlockEvent>, cs: seq<(nat, nat)>, out: Emitted) {
    && |out.calls| <= |cs| && (out.raised <==> |out.calls| < |cs|)
    && (forall k :: 0 <= k < |out.calls| ==> BlockCall(rd, es, cs[k], out.calls[k]))
    && (out.raised ==> BlockUnreadable(rd, es, cs[|out.calls|]))
  }

  /** The accumulator holds the open block, if there is one, and its chunks so far. */
  ghost predicate Holds(es: seq<BlockEvent>, s: BlockState) {
    if s.cur.NoTool? then forall q: nat :: !OpenAt(es, q)
    else exists q: nat :: HoldsAt(es, s, q)
  }

  ghost predicate HoldsAt(es: seq<BlockEvent>, s: BlockState, q: nat) {
    OpenAt(es, q) && s.cur == InTool(es[q].id, es[q].name) && Join(s.json) == ChunkText(es[q + 1..])
  }

  lemma {:induction false} ChunkTextSnoc(es: seq<BlockEvent>, e: BlockEvent)
    ensures ChunkText(es + [e]) == ChunkText(es) + ChunkOf(e)
  {
    hide ChunkOf;
    if es == [] {
      assert [e][1..] == [] && ([] + [e])[0] == e;
    } else {
      assert (es + [e])[1..] == es[1..] + [e] && (es + [e])[0] == es[0];
      ChunkTextSnoc(es[1..], e);
    }
  }

  lemma OneOpen(es: seq<BlockEvent>, q: nat, q': nat)
    requires OpenAt(es, q) && OpenAt(es, q')
    ensures q == q'
  {
  }

  lemma OpenSnoc(es: seq<BlockEvent>, e: BlockEvent, q: nat)
    ensures OpenAt(es + [e], q) <==> (if q == |es| then e.StartTool? else OpenAt(es, q) && !StartsOrStops(e))
  {
    var r := es + [e];
    assert forall i :: 0 <= i < |es| ==> r[i] == es[i];
    assert r[|es|] == e;
  }

  lemma ClosedSnoc(es: seq<BlockEvent>, e: BlockEvent, q: nat, p: nat)
    ensures ClosedBy(es + [e], q, p) <==> ClosedBy(es, q, p) || (p == |es| && e.Stop? && OpenAt(es, q))
  {
    var r := es + [e];
    assert forall i :: 0 <= i < |es| ==> r[i] == es[i];
    assert r[|es|] == e;
  }

  lemma ClosingsSnoc(es: seq<BlockEvent>, e: BlockEvent, cs: seq<(nat, nat)>)
    requires Closings(es, cs)
    ensures !e.Stop? || (forall q: nat :: !OpenAt(es, q)) ==> Closings(es + [e], cs)
    ensures forall q: nat :: e.Stop? && OpenAt(es, q) ==> Closings(es + [e], cs + [(q, |es|)])
  {
    hide OpenAt, ClosedBy;
    forall q: nat, p: nat
      ensures ClosedBy(es + [e], q, p) <==> ClosedBy(es, q, p) || (p == |es| && e.Stop? && OpenAt(es, q))
    {
      ClosedSnoc(es, e, q, p);
    }
    forall q: nat | e.Stop? && OpenAt(es, q) ensures Closings(es + [e], cs + [(q, |es|)]) {
      OneMoreClosing(es, e, cs, q);
    }
  }

  lemma OneMoreClosing(es: seq<BlockEvent>, e: BlockEvent, cs: seq<(nat, nat)>, q: nat)
    requires Closings(es, cs) && e.Stop? && OpenAt(es, q)
    ensures Closings(es + [e], cs + [(q, |es|)])
  {
    var r := cs + [(q, |es|)];
    forall q': nat, p: nat ensures ClosedBy(es + [e], q', p) <==> (q', p) in r {
      ClosedSnoc(es, e, q', p);
      if OpenAt(es, q') { OneOpen(es, q, q'); }
    }
    forall a | 0 <= a < |cs| ensures cs[a].1 < |es| {
      assert (cs[a].0, cs[a].1) in cs;
      assert ClosedBy(es, cs[a].0, cs[a].1);
    }
  }

  lemma BlocksAssembledKept(rd: ArgReader, es: seq<BlockEvent>, e: BlockEvent, cs: seq<(nat, nat)>, out: Emitted)
    requires BlocksAssembled(rd, es, cs, out)
    ensures BlocksAssembled(rd, es + [e], cs, out)
  {
    hide ReadsAs, Unreadable, ChunkText;
    var r := es + [e];
    forall k | 0 <= k < |out.calls| ensures BlockCall(rd, r, cs[k], out.calls[k]) {
      assert BlockCall(rd, es, cs[k], out.calls[k]);
      assert r[cs[k].0 + 1..cs[k].1] == es[cs[k].0 + 1..cs[k].1];
    }
    if out.raised {
      var c := cs[|out.calls|];
      assert r[c.0 + 1..c.1] == es[c.0 + 1..c.1];
    }
  }

  /** A closing block adds its call, or the error, unless the reader had raised before. */
  lemma BlocksAssembledSnoc(rd: ArgReader, es: seq<BlockEvent>, cs: seq<(nat, nat)>, out: Emitted, q: nat, p: nat)
    requires BlocksAssembled(rd, es, cs, out) && q < p < |es| && es[q].StartTool?
    ensures var c, read := (q, p), ReadArgs(rd, ChunkText(es[q + 1..p]));
            && (out.raised ==> BlocksAssembled(rd, es, cs + [c], out))
            && (!out.raised && read.None? ==> BlocksAssembled(rd, es, cs + [c], out.(raised := true)))
            && (!out.raised && read.Some? ==>
                  BlocksAssembled(rd, es, cs + [c],
                                  out.(calls := out.calls + [ToolCall(es[q].id, es[q].name, read.value)])))
  {
    hide ReadsAs, Unreadable, ChunkText, ReadArgs;
    var c, text := (q, p), ChunkText(es[q + 1..p]);
    ReadOrNot(rd, text);
    if !out.raised && ReadArgs(rd, text).Some? {
      var call := ToolCall(es[q].id, es[q].name, ReadArgs(rd, text).value);
      assert BlockCall(rd, es, c, call);
    }
  }

  lemma HoldsSnoc(rd: ArgReader, es: seq<BlockEvent>, e: BlockEvent, s: BlockState)
    requires Holds(es, s) && !s.out.raised
    ensures var s' := OnEvent(rd, s, e); !s'.out.raised ==> Holds(es + [e], s')
  {
    hide OpenAt, ReadArgs, ChunkText;
    var s', r := OnEvent(rd, s, e), es + [e];
    forall q: nat ensures OpenAt(r, q) <==> (if q == |es| then e.StartTool? else OpenAt(es, q) && !StartsOrStops(e)) {
      OpenSnoc(es, e, q);
    }
    if e.StartTool? {
      assert r[|es| + 1..] == [];
      assert HoldsAt(r, s', |es|) by { EmptyChunks(); }
    } else if s'.cur.InTool? && !s'.out.raised {
      var q: nat :| HoldsAt(es, s, q);
      OpenInside(es, q);
      assert r[q + 1..] == es[q + 1..] + [e] && r[q] == es[q];
      ChunkTextSnoc(es[q + 1..], e);
      JoinSnoc(s.json, if e.JsonChunk? then e.text else "");
      assert HoldsAt(r, s', q);
    } else if s.cur.InTool? && !s'.out.raised {
      assert e.Stop?;
    }
  }

  lemma OpenInside(es: seq<BlockEvent>, q: nat)
    requires OpenAt(es, q)
    ensures q < |es| && es[q].StartTool?
  {
  }

  lemma EmptyChunks()
    ensures ChunkText([]) == Join([]) == ""
  {
  }

  lemma JoinSnoc(chunks: seq<string>, t: string)
    ensures Join(chunks + [t]) == Join(chunks) + t
  {
  }

  /**
   * The calls of any stream of block events, well formed or not: one for each tool block that was
   * stopped, as the blocks closed, under its own id and name, with the JSON chunks since its
   * start parsed; or those before the first block whose text does not parse.
   */
  lemma {:induction false} BlockCallsEmitted(rd: ArgReader, es: seq<BlockEvent>) returns (cs: seq<(nat, nat)>)
    ensures var s := OnEvents(rd, IDLE, es);
            && Closings(es, cs) && BlocksAssembled(rd, es, cs, s.out)
            && (!s.out.raised ==> Holds(es, s))
    decreases |es|
  {
    hide Closings, BlocksAssembled, Holds, OnEvent, OpenAt;
    if es == [] {
      NothingClosed(rd);
      cs := [];
    } else {
      var n := |es| - 1;
      var t, e := es[..n], es[n];
      assert es == t + [e];
      cs := BlockCallsEmitted(rd, t);
      var s := OnEvents(rd, IDLE, t);
      OnEventsAppend(rd, IDLE, t, [e]);
      assert OnEvents(rd, s, [e]) == OnEvent(rd, s, e) by { assert [e][1..] == []; }
      ClosingsSnoc(t, e, cs);
      BlocksAssembledKept(rd, t, e, cs, s.out);
      if !s.out.raised { HoldsSnoc(rd, t, e, s); }
      if e.Stop? && exists q: nat :: OpenAt(t, q) {
        var q: nat :| OpenAt(t, q);
        OpenInside(t, q);
        assert es[q] == t[q];
        BlocksAssembledSnoc(rd, es, cs, s.out, q, n);
        StopClosed(rd, t, e, s, q);
        cs := cs + [(q, n)];
      } else {
        QuietEvent(rd, t, e, s);
      }
    }
  }

  const IDLE := BlockState(NoTool, [], Emitted([], false))

  lemma NothingClosed(rd: ArgReader)
    ensures Closings([], []) && BlocksAssembled(rd, [], [], IDLE.out) && Holds([], IDLE)
  {
  }

  lemma StopClosed(rd: ArgReader, es: seq<BlockEvent>, e: BlockEvent, s: BlockState, q: nat)
    requires e.Stop? && OpenAt(es, q) && (!s.out.raised ==> Holds(es, s))
    ensures var out, args := OnEvent(rd, s, e).out, ReadArgs(rd, ChunkText((es + [e])[q + 1..|es|]));
            out == if s.out.raised then s.out
                   else if args.None? then s.out.(raised := true)
                   else s.out.(calls := s.out.calls + [ToolCall(es[q].id, es[q].name, args.value)])
  {
    assert (es + [e])[q + 1..|es|] == es[q + 1..];
    if !s.out.raised {
      var q': nat :| HoldsAt(es, s, q');
      OneOpen(es, q, q');
    }
  }

  lemma QuietEvent(rd: ArgReader, es: seq<BlockEvent>, e: BlockEvent, s: BlockState)
    requires !s.out.raised ==> Holds(es, s)
    requires !e.Stop? || forall q: nat :: !OpenAt(es, q)
    ensures OnEvent(rd, s, e).out == s.out
  {
    hide OpenAt;
  }
}
