/** The stable list sort the program uses, specified by an ordering of the elements. */
module Sorting {

  ghost predicate TotalPreorder<T(!new)>(leq: (T, T) -> bool) {
    && (forall x, y :: leq(x, y) || leq(y, x))
    && (forall x, y, z :: leq(x, y) && leq(y, z) ==> leq(x, z))
  }

  ghost predicate Sorted<T(!new)>(leq: (T, T) -> bool, s: seq<T>) {
    forall i, j :: 0 <= i < j < |s| ==> leq(s[i], s[j])
  }

  /** Puts x before the first element it need not follow. */
  function Insert<T>(leq: (T, T) -> bool, x: T, s: seq<T>): (r: seq<T>)
    ensures multiset(r) == multiset{x} + multiset(s)
  {
    if s == [] then [x]
    else if leq(x, s[0]) then [x] + s
    else
      assert s == [s[0]] + s[1..];
      [s[0]] + Insert(leq, x, s[1..])
  }

  function Sort<T>(leq: (T, T) -> bool, s: seq<T>): (r: seq<T>)
    ensures multiset(r) == multiset(s)
  {
    if s == [] then []
    else
      assert s == [s[0]] + s[1..];
      Insert(leq, s[0], Sort(leq, s[1..]))
  }

  lemma SameLength<T>(a: seq<T>, b: seq<T>)
    requires multiset(a) == multiset(b)
    ensures |a| == |b|
    ensures forall x :: x in a <==> x in b
  {
    assert |a| == |multiset(a)| == |multiset(b)| == |b|;
    forall x ensures x in a <==> x in b {
      assert x in a <==> x in multiset(a);
      assert x in b <==> x in multiset(b);
    }
  }

  lemma {:induction false} InsertSorted<T(!new)>(leq: (T, T) -> bool, x: T, s: seq<T>)
    requires TotalPreorder(leq) && Sorted(leq, s)
    ensures Sorted(leq, Insert(leq, x, s))
  {
    if s != [] && !leq(x, s[0]) {
      InsertSorted(leq, x, s[1..]);
      var t := Insert(leq, x, s[1..]);
      forall y | y in t ensures leq(s[0], y) {
        assert y in multiset{x} + multiset(s[1..]);
        if y != x { assert y in s[1..]; }
      }
    } else if s != [] {
      forall y | y in s ensures leq(x, y) {}
    }
  }

  lemma {:induction false} SortSorted<T(!new)>(leq: (T, T) -> bool, s: seq<T>)
    requires TotalPreorder(leq)
    ensures Sorted(leq, Sort(leq, s))
  {
    if s == [] {
    } else {
      SortSorted(leq, s[1..]);
      InsertSorted(leq, s[0], Sort(leq, s[1..]));
    }
  }

  /** x stands before y somewhere in the list. */
  ghost predicate Precedes<T(!new)>(s: seq<T>, x: T, y: T) {
    exists i, j :: 0 <= i < j < |s| && s[i] == x && s[j] == y
  }

  lemma {:induction false} InsertKeeps<T(!new)>(leq: (T, T) -> bool, x: T, s: seq<T>, y: T, z: T)
    requires Precedes(s, y, z)
    ensures Precedes(Insert(leq, x, s), y, z)
  {
    var i, j :| 0 <= i < j < |s| && s[i] == y && s[j] == z;
    var r := Insert(leq, x, s);
    if leq(x, s[0]) {
      assert r[i + 1] == y && r[j + 1] == z;
    } else if i == 0 {
      InsertHolds(leq, x, s[1..], z);
      assert s[1..][j - 1] == z;
      var q :| 0 <= q < |r| - 1 && r[1..][q] == z;
      assert r[0] == y && r[q + 1] == z;
    } else {
      assert s[1..][i - 1] == y && s[1..][j - 1] == z;
      InsertKeeps(leq, x, s[1..], y, z);
      var p, q :| 0 <= p < q < |r| - 1 && r[1..][p] == y && r[1..][q] == z;
      assert r[p + 1] == y && r[q + 1] == z;
    }
  }

  lemma InsertHolds<T(!new)>(leq: (T, T) -> bool, x: T, s: seq<T>, y: T)
    requires y in s
    ensures y in Insert(leq, x, s)
  {
    assert y in multiset(s);
    assert y in multiset(Insert(leq, x, s));
  }

  lemma {:induction false} InsertBefore<T(!new)>(leq: (T, T) -> bool, x: T, s: seq<T>, y: T)
    requires y in s && leq(x, y)
    ensures Precedes(Insert(leq, x, s), x, y)
  {
    var r := Insert(leq, x, s);
    var j :| 0 <= j < |s| && s[j] == y;
    if leq(x, s[0]) {
      assert r[0] == x && r[j + 1] == y;
    } else {
      assert s[1..][j - 1] == y;
      InsertBefore(leq, x, s[1..], y);
      var p, q :| 0 <= p < q < |r| - 1 && r[1..][p] == x && r[1..][q] == y;
      assert r[p + 1] == x && r[q + 1] == y;
    }
  }

  /** The sort is stable: what need not be moved past a later element stays before it. */
  lemma {:induction false} SortStable<T(!new)>(leq: (T, T) -> bool, s: seq<T>, i: nat, j: nat)
    requires i < j < |s| && leq(s[i], s[j])
    ensures Precedes(Sort(leq, s), s[i], s[j])
  {
    if i == 0 {
      SameLength(Sort(leq, s[1..]), s[1..]);
      assert s[1..][j - 1] == s[j];
      InsertBefore(leq, s[0], Sort(leq, s[1..]), s[j]);
    } else {
      assert s[1..][i - 1] == s[i] && s[1..][j - 1] == s[j];
      SortStable(leq, s[1..], i - 1, j - 1);
      InsertKeeps(leq, s[0], Sort(leq, s[1..]), s[i], s[j]);
    }
  }

  ghost predicate Distinct<T(!new)>(s: seq<T>) {
    forall i, j :: 0 <= i < j < |s| ==> s[i] != s[j]
  }

  lemma DistinctSnoc<T(!new)>(s: seq<T>, x: T)
    requires Distinct(s) && x !in s
    ensures Distinct(s + [x])
  {
  }

  lemma {:induction false} DistinctCounts<T(!new)>(s: seq<T>)
    requires Distinct(s)
    ensures forall x :: multiset(s)[x] <= 1
  {
    if s == [] {
    } else {
      var n := |s| - 1;
      assert s == s[..n] + [s[n]];
      DistinctCounts(s[..n]);
      assert s[n] !in s[..n];
    }
  }

  lemma CountsDistinct<T(!new)>(s: seq<T>)
    requires forall x :: multiset(s)[x] <= 1
    ensures Distinct(s)
  {
    forall i, j | 0 <= i < j < |s| ensures s[i] != s[j] {
      assert s == s[..j] + s[j..];
      assert s[..j][i] in multiset(s[..j]) && s[j..][0] in multiset(s[j..]);
      assert multiset(s)[s[i]] <= 1;
    }
  }

  /** Sorting repeats nothing. */
  lemma SortDistinct<T(!new)>(leq: (T, T) -> bool, s: seq<T>)
    requires Distinct(s)
    ensures Distinct(Sort(leq, s))
  {
    DistinctCounts(s);
    CountsDistinct(Sort(leq, s));
  }
}
