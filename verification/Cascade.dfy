/** What a revocation cascade reaches, and the invariant of its worklist. */
module Cascade {
  import opened MemoryModel

  ghost predicate DirectHit(rows: Rows, uri: string, id: Id) {
    id in rows && Live(rows[id]) && rows[id].prov.uri == Some(uri)
  }

  ghost predicate LiveChild(rows: Rows, child: Id, parent: Id) {
    child in rows && Live(rows[child]) && rows[child].derivedFrom == Some(parent)
  }

  /** A derivation chain that starts at a direct hit and stays within live rows. */
  ghost predicate Chain(rows: Rows, uri: string, p: seq<Id>) {
    && p != [] && DirectHit(rows, uri, p[0])
    && forall i :: 0 < i < |p| ==> LiveChild(rows, p[i], p[i - 1])
  }

  /** Reached from a direct hit by a chain of live rows. */
  ghost predicate Doomed(rows: Rows, uri: string, id: Id) {
    exists p :: Chain(rows, uri, p) && p[|p| - 1] == id
  }

  /** The table after exactly the rows in `gone` have been revoked. */
  function Without(rows: Rows, gone: seq<Id>): Rows {
    map id | id in rows :: if id in gone then rows[id].(state := Revoked) else rows[id]
  }

  function Count(id: Id, s: seq<Id>): nat { multiset(s)[id] }

  ghost function Bound(rows: Rows, uri: string, revoked: seq<Id>, id: Id): nat {
    (if DirectHit(rows, uri, id) then 1 else 0)
    + (if id in rows && rows[id].derivedFrom.Some? && rows[id].derivedFrom.value in revoked then 1 else 0)
  }

  /** Every still-live child of the i-th entry lies above it on the stack. */
  ghost predicate ChildrenAbove(rows: Rows, frontier: seq<Id>, revoked: seq<Id>, i: nat)
    requires i < |frontier|
  {
    forall c :: LiveChild(rows, c, frontier[i]) && c !in revoked ==> c in frontier[i + 1..]
  }

  /**
   * The worklist invariant, in terms of the rows at the start. The fifth clause is the one
   * termination needs: a frontier entry that is already revoked has every child that is still
   * live above it on the stack.
   */
  ghost predicate Inv(rows: Rows, uri: string, frontier: seq<Id>, revoked: seq<Id>) {
    && (forall id :: id in revoked ==> Doomed(rows, uri, id))
    && (forall id :: id in frontier ==> Doomed(rows, uri, id))
    && (forall id :: DirectHit(rows, uri, id) ==> id in revoked || id in frontier)
    && (forall c, p :: p in revoked && LiveChild(rows, c, p) ==> c in revoked || c in frontier)
    && (forall i :: 0 <= i < |frontier| && frontier[i] in revoked ==> ChildrenAbove(rows, frontier, revoked, i))
    && (forall id :: Count(id, revoked) + Count(id, frontier) <= Bound(rows, uri, revoked, id))
  }

  ghost predicate Enumerates(s: set<Id>, ids: seq<Id>) {
    && (forall id :: id in s <==> id in ids)
    && (forall i, j :: 0 <= i < j < |ids| ==> ids[i] != ids[j])
  }

  function LiveLeft(rows: Rows, revoked: seq<Id>): set<Id> {
    set id | id in rows && Live(rows[id]) && id !in revoked
  }

  ghost function ChildrenLeft(rows: Rows, revoked: seq<Id>, parent: Id): set<Id> {
    set id | id in rows && LiveChild(rows, id, parent) && id !in revoked
  }

  ghost function DirectHits(rows: Rows, uri: string): set<Id> {
    set id | id in rows && DirectHit(rows, uri, id)
  }

  lemma DistinctCount(ids: seq<Id>, id: Id)
    requires forall i, j :: 0 <= i < j < |ids| ==> ids[i] != ids[j]
    ensures Count(id, ids) == if id in ids then 1 else 0
  {
    if ids != [] {
      assert ids == [ids[0]] + ids[1..];
      DistinctCount(ids[1..], id);
    }
  }

  lemma DirectIsDoomed(rows: Rows, uri: string, id: Id)
    requires DirectHit(rows, uri, id)
    ensures Doomed(rows, uri, id)
  {
    assert Chain(rows, uri, [id]);
    assert [id][|[id]| - 1] == id;
  }

  lemma ChildIsDoomed(rows: Rows, uri: string, parent: Id, child: Id)
    requires Doomed(rows, uri, parent) && LiveChild(rows, child, parent)
    ensures Doomed(rows, uri, child)
  {
    var p :| Chain(rows, uri, p) && p[|p| - 1] == parent;
    var q := p + [child];
    assert Chain(rows, uri, q) && q[|q| - 1] == child;
  }

  lemma InvStart(rows: Rows, uri: string, frontier: seq<Id>)
    requires Enumerates(DirectHits(rows, uri), frontier)
    ensures Inv(rows, uri, frontier, [])
  {
    forall id | id in frontier ensures Doomed(rows, uri, id) {
      DirectIsDoomed(rows, uri, id);
    }
    forall id ensures Count(id, []) + Count(id, frontier) <= Bound(rows, uri, [], id) {
      DistinctCount(frontier, id);
    }
  }

  /** Popping an entry that is already revoked pushes nothing. */
  lemma RevokedHasNoChildrenLeft(rows: Rows, uri: string, frontier: seq<Id>, revoked: seq<Id>)
    requires Inv(rows, uri, frontier, revoked) && frontier != []
    ensures var cur := frontier[|frontier| - 1];
            cur in revoked ==> ChildrenLeft(rows, revoked + [cur], cur) == {}
  {
  }

  lemma InvStep(rows: Rows, uri: string, frontier: seq<Id>, revoked: seq<Id>, children: seq<Id>)
    requires Inv(rows, uri, frontier, revoked) && frontier != []
    requires Enumerates(ChildrenLeft(rows, revoked + [frontier[|frontier| - 1]], frontier[|frontier| - 1]), children)
    ensures Inv(rows, uri, frontier[..|frontier| - 1] + children, revoked + [frontier[|frontier| - 1]])
  {
    var n := |frontier| - 1;
    var cur := frontier[n];
    var f, r := frontier[..n] + children, revoked + [cur];
    assert frontier == frontier[..n] + [cur];
    assert Doomed(rows, uri, cur);
    forall id | id in f ensures Doomed(rows, uri, id) {
      if id in children { ChildIsDoomed(rows, uri, cur, id); }
    }
    forall i | 0 <= i < |f| && f[i] in r ensures ChildrenAbove(rows, f, r, i) {
      StackStep(rows, uri, frontier, revoked, children, i);
    }
    forall id ensures Count(id, r) + Count(id, f) <= Bound(rows, uri, r, id) {
      CountStep(rows, uri, frontier, revoked, children, id);
    }
  }

  lemma StackStep(rows: Rows, uri: string, frontier: seq<Id>, revoked: seq<Id>, children: seq<Id>, i: nat)
    requires Inv(rows, uri, frontier, revoked) && frontier != []
    requires var cur := frontier[|frontier| - 1];
             Enumerates(ChildrenLeft(rows, revoked + [cur], cur), children)
    requires var f := frontier[..|frontier| - 1] + children;
             i < |f| && f[i] in revoked + [frontier[|frontier| - 1]]
    ensures ChildrenAbove(rows, frontier[..|frontier| - 1] + children, revoked + [frontier[|frontier| - 1]], i)
  {
    hide Doomed, Bound, Count, DirectHit;
    var n := |frontier| - 1;
    var cur, f := frontier[n], frontier[..n] + children;
    assert forall id :: id in children ==> id !in revoked + [cur];
    if i < n {
      assert f[i] == frontier[i];
      assert f[i + 1..] == frontier[i + 1..n] + children;
      assert frontier[i + 1..] == frontier[i + 1..n] + [cur];
      if f[i] != cur {
        assert ChildrenAbove(rows, frontier, revoked, i);
      }
    }
  }

  lemma CountStep(rows: Rows, uri: string, frontier: seq<Id>, revoked: seq<Id>, children: seq<Id>, id: Id)
    requires Inv(rows, uri, frontier, revoked) && frontier != []
    requires var cur := frontier[|frontier| - 1];
             Enumerates(ChildrenLeft(rows, revoked + [cur], cur), children)
    ensures var n := |frontier| - 1; var r := revoked + [frontier[n]];
            Count(id, r) + Count(id, frontier[..n] + children) <= Bound(rows, uri, r, id)
  {
    var n := |frontier| - 1;
    var cur := frontier[n];
    assert frontier == frontier[..n] + [cur];
    DistinctCount(children, id);
    RevokedHasNoChildrenLeft(rows, uri, frontier, revoked);
    assert Count(id, revoked) + Count(id, frontier) <= Bound(rows, uri, revoked, id);
    if id in children {
      assert cur !in revoked;
    }
  }

  lemma {:induction false} ChainRevoked(rows: Rows, uri: string, revoked: seq<Id>, p: seq<Id>, k: nat)
    requires Inv(rows, uri, [], revoked) && Chain(rows, uri, p) && k < |p|
    ensures p[k] in revoked
  {
    if k == 0 {
    } else {
      ChainRevoked(rows, uri, revoked, p, k - 1);
      assert LiveChild(rows, p[k], p[k - 1]);
    }
  }

  /** With an empty worklist the revoked ids are exactly the doomed ones. */
  lemma InvDone(rows: Rows, uri: string, revoked: seq<Id>)
    requires Inv(rows, uri, [], revoked)
    ensures forall id :: id in revoked <==> Doomed(rows, uri, id)
    ensures forall id :: Count(id, revoked) <= Bound(rows, uri, revoked, id) <= 2
  {
    forall id | Doomed(rows, uri, id) ensures id in revoked {
      var p :| Chain(rows, uri, p) && p[|p| - 1] == id;
      ChainRevoked(rows, uri, revoked, p, |p| - 1);
    }
    forall id ensures Count(id, revoked) <= Bound(rows, uri, revoked, id) <= 2 {
      assert Count(id, revoked) + Count(id, []) <= Bound(rows, uri, revoked, id);
    }
  }

  /**
   * What a cascade leaves: the revoked rows were active or pending, each came from the source or
   * from another revoked row, no row that is active or pending comes from either, and nothing but
   * the state of the revoked rows has changed.
   */
  ghost predicate RevokedExactly(before: Rows, after: Rows, uri: string, revoked: seq<Id>) {
    && after.Keys == before.Keys
    && (forall id :: id in before ==>
          after[id] == if id in revoked then before[id].(state := Revoked) else before[id])
    && (forall id :: id in revoked ==>
          && id in before && (before[id].state == Active || before[id].state == Pending)
          && (before[id].prov.uri == Some(uri)
              || exists parent :: parent in revoked && before[id].derivedFrom == Some(parent)))
    && (forall id :: id in after && (after[id].state == Active || after[id].state == Pending) ==>
          && after[id].prov.uri != Some(uri)
          && (after[id].derivedFrom.Some? ==> after[id].derivedFrom.value !in revoked))
  }

  lemma CascadeClosed(rows: Rows, uri: string, revoked: seq<Id>)
    requires forall id :: id in revoked <==> Doomed(rows, uri, id)
    ensures RevokedExactly(rows, Without(rows, revoked), uri, revoked)
  {
    forall id | id in revoked
      ensures id in rows && (rows[id].state == Active || rows[id].state == Pending)
      ensures rows[id].prov.uri == Some(uri)
              || exists parent :: parent in revoked && rows[id].derivedFrom == Some(parent)
    {
      DoomedIsLive(rows, uri, id);
      DoomedComesFrom(rows, uri, id);
    }
    forall id | id in rows && id !in revoked && (rows[id].state == Active || rows[id].state == Pending)
      ensures rows[id].prov.uri != Some(uri)
      ensures rows[id].derivedFrom.Some? ==> rows[id].derivedFrom.value !in revoked
    {
      if rows[id].prov.uri == Some(uri) { DirectIsDoomed(rows, uri, id); }
      if rows[id].derivedFrom.Some? && rows[id].derivedFrom.value in revoked {
        ChildIsDoomed(rows, uri, rows[id].derivedFrom.value, id);
      }
    }
  }

  lemma DoomedComesFrom(rows: Rows, uri: string, id: Id)
    requires Doomed(rows, uri, id)
    ensures id in rows && (rows[id].prov.uri == Some(uri)
              || exists parent :: Doomed(rows, uri, parent) && rows[id].derivedFrom == Some(parent))
  {
    var p :| Chain(rows, uri, p) && p[|p| - 1] == id;
    if |p| > 1 {
      var parent := p[|p| - 2];
      var q := p[..|p| - 1];
      assert Chain(rows, uri, q) && q[|q| - 1] == parent;
      assert LiveChild(rows, id, parent);
    }
  }

  lemma DoomedIsLive(rows: Rows, uri: string, id: Id)
    requires Doomed(rows, uri, id)
    ensures id in rows && Live(rows[id])
  {
    var p :| Chain(rows, uri, p) && p[|p| - 1] == id;
    if |p| > 1 {
      assert LiveChild(rows, p[|p| - 1], p[|p| - 2]);
    }
  }
}
