/** Trust-weighted recall: over-fetch by cosine, re-rank by cosine times trust. */
module Recall {
  import opened MemoryModel
  import opened Trust
  import opened History
  import opened Store
  import opened Sorting
  import opened Runs
  import opened Operations

  type Vector = seq<real>

  // ----- vectors ---------------------------------------------------------------

  /** Products are paired up to the shorter vector. */
  function Dot(a: Vector, b: Vector): real {
    if a == [] || b == [] then 0.0 else a[0] * b[0] + Dot(a[1..], b[1..])
  }

  function Square(x: real): real { x * x }

  function SumSquares(a: Vector): real { if a == [] then 0.0 else Square(a[0]) + SumSquares(a[1..]) }

  function Scaled(a: Vector, f: real): Vector { if a == [] then [] else [a[0] * f] + Scaled(a[1..], f) }

  /** The embedder's normalisation; `norm` stands for the square root of the sum of squares. */
  function Normalised(a: Vector, norm: real): Vector { if norm == 0.0 then a else Scaled(a, 1.0 / norm) }

  lemma {:induction false} SumSquaresNonNegative(a: Vector)
    ensures 0.0 <= SumSquares(a)
  {
    if a == [] {
    } else {
      SumSquaresNonNegative(a[1..]);
    }
  }

  lemma {:induction false} ScaledSquares(a: Vector, f: real)
    ensures SumSquares(Scaled(a, f)) == SumSquares(a) * Square(f)
  {
    if a == [] {
    } else {
      ScaledSquares(a[1..], f);
      assert Scaled(a, f)[1..] == Scaled(a[1..], f);
      SquareDistributes(a[0], f, SumSquares(a[1..]));
    }
  }

  lemma SquareDistributes(x: real, f: real, s: real)
    ensures Square(x * f) + s * Square(f) == (Square(x) + s) * Square(f)
  {
    assert x * f * (x * f) == x * x * (f * f);
  }

  /** A normalised vector has unit length, the zero vector length zero. */
  lemma NormalisedLength(a: Vector, norm: real)
    requires norm * norm == SumSquares(a)
    ensures SumSquares(Normalised(a, norm)) == if norm == 0.0 then 0.0 else 1.0
  {
    if norm != 0.0 {
      ScaledSquares(a, 1.0 / norm);
      Reciprocal(norm);
    }
  }

  /** And points the same way: its length times its product with any vector is the product of the original. */
  lemma NormalisedDirection(a: Vector, b: Vector, norm: real)
    requires norm != 0.0
    ensures Dot(Normalised(a, norm), b) * norm == Dot(a, b)
  {
    ScaledDot(a, b, 1.0 / norm);
    Cancelled(Dot(a, b), norm);
  }

  lemma Cancelled(d: real, n: real)
    requires n != 0.0
    ensures d * (1.0 / n) * n == d
  {
    var r := 1.0 / n;
    assert r * n == 1.0;
    assert d * r * n == d * (r * n);
  }

  lemma Reciprocal(n: real)
    requires n != 0.0
    ensures n * n * Square(1.0 / n) == 1.0
  {
    var r := 1.0 / n;
    assert n * r == 1.0;
    assert n * n * (r * r) == (n * r) * (n * r);
  }

  /** The dot product is the sum of the products, component by component. */
  lemma {:induction false} DotIsSum(a: Vector, b: Vector, x: real, y: real)
    requires |a| == |b|
    ensures Dot(a + [x], b + [y]) == Dot(a, b) + x * y
    ensures Dot([], b) == 0.0
  {
    if a == [] {
      assert [x][1..] == [] && [y][1..] == [] && [] + [x] == [x] && [] + [y] == [y];
      assert Dot([x], [y]) == x * y + Dot([], []);
    } else {
      assert (a + [x])[1..] == a[1..] + [x] && (b + [y])[1..] == b[1..] + [y];
      DotIsSum(a[1..], b[1..], x, y);
    }
  }

  /** Components the other vector lacks do not count. */
  lemma {:induction false} DotIgnoresSurplus(a: Vector, b: Vector)
    requires |a| <= |b|
    ensures Dot(a, b) == Dot(a, b[..|a|]) && Dot(b, a) == Dot(b[..|a|], a)
    ensures Dot(a, b) == Dot(b, a)
  {
    if a == [] {
    } else {
      assert b[..|a|][1..] == b[1..][..|a| - 1];
      DotIgnoresSurplus(a[1..], b[1..]);
    }
  }

  /** Normalising keeps the direction: it divides every dot product by the length. */
  lemma {:induction false} ScaledDot(a: Vector, b: Vector, f: real)
    ensures Dot(Scaled(a, f), b) == Dot(a, b) * f
  {
    if a == [] || b == [] {
    } else {
      assert Scaled(a, f)[1..] == Scaled(a[1..], f);
      ScaledDot(a[1..], b[1..], f);
      Factor(a[0], b[0], f, Dot(a[1..], b[1..]));
    }
  }

  lemma Factor(x: real, y: real, f: real, d: real)
    ensures x * f * y + d * f == (x * y + d) * f
  {
  }

  /** A vector's own dot product is its squared length. */
  lemma {:induction false} SelfDot(a: Vector)
    ensures Dot(a, a) == SumSquares(a)
  {
    if a == [] {
    } else {
      SelfDot(a[1..]);
    }
  }

  lemma TwiceProduct(x: real, y: real)
    ensures 2.0 * (x * y) <= Square(x) + Square(y)
  {
    assert Square(x - y) >= 0.0;
    assert Square(x - y) == Square(x) - 2.0 * (x * y) + Square(y);
  }

  lemma {:induction false} DotBound(a: Vector, b: Vector)
    ensures 2.0 * Dot(a, b) <= SumSquares(a) + SumSquares(b)
  {
    if a == [] || b == [] {
      SumSquaresNonNegative(a);
      SumSquaresNonNegative(b);
    } else {
      DotBound(a[1..], b[1..]);
      TwiceProduct(a[0], b[0]);
    }
  }

  /** The cosine of two normalised vectors is at most one. */
  lemma CosineAtMostOne(a: Vector, b: Vector)
    requires SumSquares(a) <= 1.0 && SumSquares(b) <= 1.0
    ensures Dot(a, b) <= 1.0
  {
    DotBound(a, b);
  }

  // ----- the index -------------------------------------------------------------

  datatype Stored = Stored(model: string, vec: Vector)

  datatype Hit = Hit(id: Id, cosine: real)

  predicate CloserFirst(a: Hit, b: Hit) { a.cosine >= b.cosine }

  /** The ids a search may return. */
  function Eligible(vectors: map<Id, Stored>, model: string, allowed: set<Id>): set<Id> {
    set id | id in vectors && vectors[id].model == model && id in allowed
  }

  function CosineOf(vectors: map<Id, Stored>, query: Vector, id: Id): real {
    if id in vectors then Dot(query, vectors[id].vec) else 0.0
  }

  /** A top-k answer: distinct eligible ids with their cosines, closest first, none left out closer than one listed. */
  ghost predicate TopHits(vectors: map<Id, Stored>, query: Vector, eligible: set<Id>, k: nat, hits: seq<Hit>) {
    && (forall i :: 0 <= i < |hits|
          ==> hits[i].id in eligible && hits[i].cosine == CosineOf(vectors, query, hits[i].id))
    && (forall i, j :: 0 <= i < j < |hits| ==> hits[i].id != hits[j].id && hits[i].cosine >= hits[j].cosine)
    && |hits| == Min(k, |eligible|)
    && (forall id :: id in eligible ==> Found(hits, id) || Beaten(hits, k, CosineOf(vectors, query, id)))
  }

  ghost predicate Found(hits: seq<Hit>, id: Id) { exists i :: 0 <= i < |hits| && hits[i].id == id }

  /** The list is full of hits at least this close. */
  ghost predicate Beaten(hits: seq<Hit>, k: nat, cosine: real) {
    |hits| == k && forall i :: 0 <= i < |hits| ==> hits[i].cosine >= cosine
  }

  class VectorIndex {
    var vectors: map<Id, Stored>

    constructor ()
      ensures vectors == map[]
    {
      vectors := map[];
    }

    method Upsert(id: Id, vec: Vector, model: string)
      modifies this
      ensures vectors == old(vectors)[id := Stored(model, vec)]
    {
      vectors := vectors[id := Stored(model, vec)];
    }

    method Delete(id: Id)
      modifies this
      ensures vectors == old(vectors) - {id}
    {
      vectors := vectors - {id};
    }

    method Search(query: Vector, model: string, k: nat, allowed: set<Id>) returns (hits: seq<Hit>)
      ensures TopHits(vectors, query, Eligible(vectors, model, allowed), k, hits)
    {
      hide AllScored, TopHits, Dot, Sort;
      var all := Eligible(vectors, model, allowed);
      var left, scored := all, [];
      NothingScored(vectors, query);
      assert all - left == {};
      while left != {}
        invariant left <= all && AllScored(vectors, query, all - left, scored)
        decreases left
      {
        var id :| id in left;
        ScoredStep(vectors, query, all - left, scored, id);
        scored := scored + [Hit(id, Dot(query, vectors[id].vec))];
        assert all - left + {id} == all - (left - {id});
        left := left - {id};
      }
      assert all - left == all;
      var ranked := Sort(CloserFirst, scored);
      SearchIsTop(vectors, query, all, scored, k);
      hits := ranked[..Min(k, |ranked|)];
    }
  }

  /** Every id once, with its cosine. */
  ghost predicate AllScored(vectors: map<Id, Stored>, query: Vector, ids: set<Id>, scored: seq<Hit>) {
    && (forall i :: 0 <= i < |scored|
          ==> scored[i].id in ids && scored[i].cosine == CosineOf(vectors, query, scored[i].id))
    && (forall i, j :: 0 <= i < j < |scored| ==> scored[i].id != scored[j].id)
    && |scored| == |ids|
    && (forall id :: id in ids ==> Hit(id, CosineOf(vectors, query, id)) in scored)
  }

  lemma NothingScored(vectors: map<Id, Stored>, query: Vector)
    ensures AllScored(vectors, query, {}, [])
  {
  }

  lemma ScoredStep(vectors: map<Id, Stored>, query: Vector, ids: set<Id>, scored: seq<Hit>, id: Id)
    requires AllScored(vectors, query, ids, scored) && id !in ids
    ensures AllScored(vectors, query, ids + {id}, scored + [Hit(id, CosineOf(vectors, query, id))])
  {
  }

  lemma SearchIsTop(vectors: map<Id, Stored>, query: Vector, all: set<Id>, scored: seq<Hit>, k: nat)
    requires AllScored(vectors, query, all, scored)
    ensures var ranked := Sort(CloserFirst, scored);
            |ranked| == |scored| && TopHits(vectors, query, all, k, ranked[..Min(k, |ranked|)])
  {
    hide Sort, CosineOf, AllScored;
    RankedHits(vectors, query, all, scored);
    var ranked := Sort(CloserFirst, scored);
    var hits := ranked[..Min(k, |ranked|)];
    forall id | id in all ensures Found(hits, id) || Beaten(hits, k, CosineOf(vectors, query, id)) {
      var j :| 0 <= j < |ranked| && ranked[j] == Hit(id, CosineOf(vectors, query, id));
      if j < |hits| { assert hits[j].id == id; }
    }
  }

  /** The sorted hits: every id once, closest first. */
  lemma RankedHits(vectors: map<Id, Stored>, query: Vector, all: set<Id>, scored: seq<Hit>)
    requires AllScored(vectors, query, all, scored)
    ensures var ranked := Sort(CloserFirst, scored);
            && |ranked| == |scored| == |all|
            && (forall i :: 0 <= i < |ranked|
                  ==> ranked[i].id in all && ranked[i].cosine == CosineOf(vectors, query, ranked[i].id))
            && (forall i, j :: 0 <= i < j < |ranked|
                  ==> ranked[i].id != ranked[j].id && ranked[i].cosine >= ranked[j].cosine)
            && (forall id :: id in all
                  ==> exists j :: 0 <= j < |ranked| && ranked[j] == Hit(id, CosineOf(vectors, query, id)))
  {
    hide Sort, CosineOf;
    var ranked := Sort(CloserFirst, scored);
    SameLength(ranked, scored);
    SortSorted(CloserFirst, scored);
    SortDistinct(CloserFirst, scored);
    forall i | 0 <= i < |ranked|
      ensures ranked[i].id in all && ranked[i].cosine == CosineOf(vectors, query, ranked[i].id)
    {
      assert ranked[i] in scored;
    }
    forall i, j | 0 <= i < j < |ranked| ensures ranked[i].id != ranked[j].id && ranked[i].cosine >= ranked[j].cosine {
      assert CloserFirst(ranked[i], ranked[j]);
      assert ranked[i] != ranked[j];
    }
    forall id | id in all ensures Hit(id, CosineOf(vectors, query, id)) in ranked {
    }
  }

  // ----- recall ------------------------------------------------------------------

  datatype Recalled = Recalled(id: Id, cosine: real, trust: real)

  function Score(r: Recalled): real { r.cosine * r.trust }

  predicate HigherScore(a: Recalled, b: Recalled) { Score(a) >= Score(b) }

  /** All a recall looks at: the rows it weighs, the vectors it searches, the query and the instant. */
  datatype Question = Question(config: Config, rows: Rows, vectors: map<Id, Stored>, query: Vector, now: Time)

  /** A row with its own cosine and its trust at this instant. */
  function Weighed(q: Question, id: Id): Recalled {
    Recalled(id, CosineOf(q.vectors, q.query, id), if id in q.rows then RowTrust(q.config, q.rows[id], q.now) else 0.0)
  }

  /** The ids a recall may return: those of positive cosine. */
  function Matching(q: Question, eligible: set<Id>): set<Id> {
    set id | id in eligible && CosineOf(q.vectors, q.query, id) > 0.0
  }

  function PositiveIds(hits: seq<Hit>): set<Id> { set h | h in hits && h.cosine > 0.0 :: h.id }

  ghost predicate Listed(out: seq<Recalled>, id: Id) { exists i :: 0 <= i < |out| && out[i].id == id }

  /** The answer is full of results that score at least this much. */
  ghost predicate Outscored(out: seq<Recalled>, k: nat, score: real) {
    |out| == k && forall i :: 0 <= i < |out| ==> Score(out[i]) >= score
  }

  /** The exact top k of some ids by score: each once, with its own weights, best first, as many as there are. */
  ghost predicate TopMatches(q: Question, ids: set<Id>, k: nat, out: seq<Recalled>) {
    && (forall i :: 0 <= i < |out| ==> out[i].id in ids && out[i] == Weighed(q, out[i].id))
    && (forall i, j :: 0 <= i < j < |out| ==> out[i].id != out[j].id && Score(out[i]) >= Score(out[j]))
    && (forall i, j :: 0 <= i < j < |out| && Score(out[i]) == Score(out[j]) ==> out[i].cosine >= out[j].cosine)
    && |out| == Min(k, |ids|)
    && (forall id :: id in ids ==> Listed(out, id) || Outscored(out, k, Score(Weighed(q, id))))
  }

  /** Over-fetches 3k hits and answers with the exact top k of the positive ones by score. */
  method RecallTop(index: VectorIndex, c: Config, rows: Rows, listed: seq<Id>, query: Vector, model: string,
                   k: nat, now: Time)
    returns (out: seq<Recalled>, ghost hits: seq<Hit>)
    requires forall id :: id in listed ==> id in rows
    ensures TopHits(index.vectors, query, Eligible(index.vectors, model, set id | id in listed), 3 * k, hits)
    ensures TopMatches(Question(c, rows, index.vectors, query, now), PositiveIds(hits), k, out)
    ensures var q := Question(c, rows, index.vectors, query, now);
            var eligible := Eligible(index.vectors, model, set id | id in listed);
            && |out| == Min(k, |Matching(q, eligible)|)
            && (|eligible| <= 3 * k ==> TopMatches(q, Matching(q, eligible), k, out))
  {
    hide RowTrust, Dot, TopHits, Eligible, Sort, WeighedAll, TopMatches, PositiveIds, Matching;
    ghost var q := Question(c, rows, index.vectors, query, now);
    var found := index.Search(query, model, 3 * k, set id | id in listed);
    hits := found;
    HitsListed(index.vectors, query, model, listed, 3 * k, found);
    out := [];
    NothingWeighed(q, found);
    for i := 0 to |found|
      invariant WeighedAll(q, PositiveIds(found[..i]), out)
      invariant CloserEarlier(out)
      invariant forall j, k :: 0 <= j < |out| && i <= k < |found| ==> out[j].cosine >= found[k].cosine
    {
      PositiveStep(found, i);
      if found[i].cosine <= 0.0 {
        continue;
      }
      var m := rows[found[i].id];
      var trust := CurrentTrust(c, m.tier, m.lastReaffirmed, now, m.trustCeiling, m.sensitivity);
      TrustOfRow(c, m, trust, now);
      WeighedStep(q, PositiveIds(found[..i]), out, found[i].id);
      out := out + [Recalled(found[i].id, found[i].cosine, trust)];
    }
    assert found[..|found|] == found;
    RankIsTop(q, PositiveIds(found), out, k);
    out := Sort(HigherScore, out);
    out := out[..Min(k, |out|)];
    RecallIsTop(q, Eligible(index.vectors, model, set id | id in listed), k, hits, out);
  }

  /** Every id once, with its weights. */
  ghost predicate WeighedAll(q: Question, ids: set<Id>, all: seq<Recalled>) {
    && (forall i :: 0 <= i < |all| ==> all[i].id in ids && all[i] == Weighed(q, all[i].id))
    && (forall i, j :: 0 <= i < j < |all| ==> all[i].id != all[j].id)
    && |all| == |ids|
    && (forall id :: id in ids ==> Weighed(q, id) in all)
  }

  /** The weights come in the order of the hits, closest first. */
  ghost predicate CloserEarlier(all: seq<Recalled>) {
    forall i, j :: 0 <= i < j < |all| ==> all[i].cosine >= all[j].cosine
  }

  lemma NothingWeighed(q: Question, hits: seq<Hit>)
    ensures WeighedAll(q, PositiveIds(hits[..0]), [])
  {
    assert PositiveIds(hits[..0]) == {};
  }

  lemma WeighedStep(q: Question, ids: set<Id>, all: seq<Recalled>, id: Id)
    requires WeighedAll(q, ids, all) && id !in ids
    ensures WeighedAll(q, ids + {id}, all + [Weighed(q, id)])
  {
    hide CosineOf, RowTrust;
  }

  lemma PositiveStep(hits: seq<Hit>, i: nat)
    requires i < |hits| && forall j, k :: 0 <= j < k < |hits| ==> hits[j].id != hits[k].id
    ensures PositiveIds(hits[..i + 1]) == PositiveIds(hits[..i]) + if hits[i].cosine > 0.0 then {hits[i].id} else {}
    ensures hits[i].id !in PositiveIds(hits[..i])
  {
    assert hits[..i + 1] == hits[..i] + [hits[i]];
  }

  lemma TrustOfRow(c: Config, m: Row, trust: real, now: Time)
    requires trust == CurrentTrust(c, m.tier, m.lastReaffirmed, now, m.trustCeiling, m.sensitivity)
    ensures trust == RowTrust(c, m, now)
  {
  }

  lemma HitsListed(vectors: map<Id, Stored>, query: Vector, model: string, listed: seq<Id>, k: nat, hits: seq<Hit>)
    requires TopHits(vectors, query, Eligible(vectors, model, set id | id in listed), k, hits)
    ensures forall i :: 0 <= i < |hits|
              ==> hits[i].id in listed && hits[i].cosine == CosineOf(vectors, query, hits[i].id)
    ensures forall i, j :: 0 <= i < j < |hits| ==> hits[i].id != hits[j].id && hits[i].cosine >= hits[j].cosine
  {
  }

  /** Sorting by score and cutting at k gives the top k. */
  lemma RankIsTop(q: Question, ids: set<Id>, all: seq<Recalled>, k: nat)
    requires WeighedAll(q, ids, all) && CloserEarlier(all)
    ensures TopMatches(q, ids, k, Sort(HigherScore, all)[..Min(k, |Sort(HigherScore, all)|)])
  {
    hide Sort, Weighed, WeighedAll, Score, CloserEarlier;
    RankedAll(q, ids, all);
    TiesCloserFirst(q, ids, all);
    var ranked := Sort(HigherScore, all);
    var out := ranked[..Min(k, |ranked|)];
    forall id | id in ids ensures Listed(out, id) || Outscored(out, k, Score(Weighed(q, id))) {
      var j :| 0 <= j < |ranked| && ranked[j] == Weighed(q, id);
      assert ranked[j].id == id by { WeighedId(q, id); }
      if j < |out| { assert out[j].id == id; }
    }
  }

  /** Results of one score stay closest first. */
  lemma TiesCloserFirst(q: Question, ids: set<Id>, all: seq<Recalled>)
    requires WeighedAll(q, ids, all) && CloserEarlier(all)
    ensures var ranked := Sort(HigherScore, all);
            forall i, j :: 0 <= i < j < |ranked| && Score(ranked[i]) == Score(ranked[j])
              ==> ranked[i].cosine >= ranked[j].cosine
  {
    hide Sort, Weighed, WeighedAll, Score, Precedes;
    var ranked := Sort(HigherScore, all);
    RankedAll(q, ids, all);
    SameLength(ranked, all);
    forall i, j | 0 <= i < j < |ranked| && Score(ranked[i]) == Score(ranked[j])
      ensures ranked[i].cosine >= ranked[j].cosine
    {
      assert ranked[i] in all && ranked[j] in all;
      var p :| 0 <= p < |all| && all[p] == ranked[i];
      var r :| 0 <= r < |all| && all[r] == ranked[j];
      OnlyOnce(ranked, i, j);
      if r < p { SortStable(HigherScore, all, r, p); }
    }
  }

  lemma OnlyOnce(s: seq<Recalled>, i: nat, j: nat)
    requires i < j < |s| && forall a, b :: 0 <= a < b < |s| ==> s[a].id != s[b].id
    ensures !Precedes(s, s[j], s[i])
  {
    forall a, b | 0 <= a < b < |s| && s[a] == s[j] ensures s[b] != s[i] {
      assert a == j;
    }
  }

  lemma WeighedId(q: Question, id: Id)
    ensures Weighed(q, id).id == id
  {
  }

  /** The sorted weights: every id once, best first. */
  lemma RankedAll(q: Question, ids: set<Id>, all: seq<Recalled>)
    requires WeighedAll(q, ids, all)
    ensures var ranked := Sort(HigherScore, all);
            && |ranked| == |all| == |ids|
            && (forall i :: 0 <= i < |ranked| ==> ranked[i].id in ids && ranked[i] == Weighed(q, ranked[i].id))
            && (forall i, j :: 0 <= i < j < |ranked|
                  ==> ranked[i].id != ranked[j].id && Score(ranked[i]) >= Score(ranked[j]))
            && (forall id :: id in ids ==> exists j :: 0 <= j < |ranked| && ranked[j] == Weighed(q, id))
  {
    hide Sort, Weighed, Score;
    var ranked := Sort(HigherScore, all);
    SameLength(ranked, all);
    SortSorted(HigherScore, all);
    SortDistinct(HigherScore, all);
    forall i | 0 <= i < |ranked| ensures ranked[i].id in ids && ranked[i] == Weighed(q, ranked[i].id) {
      assert ranked[i] in all;
    }
    forall i, j | 0 <= i < j < |ranked| ensures ranked[i].id != ranked[j].id && Score(ranked[i]) >= Score(ranked[j]) {
      assert HigherScore(ranked[i], ranked[j]);
      assert ranked[i] != ranked[j];
    }
    forall id | id in ids ensures Weighed(q, id) in ranked {
    }
  }

  // ----- what over-fetching costs ------------------------------------------------

  /**
   * Over-fetching never shortens the answer, returns eligible positive matches only, and costs
   * nothing when at most 3k vectors are eligible: the answer is then the exact top k of all matches.
   */
  lemma RecallIsTop(q: Question, eligible: set<Id>, k: nat, hits: seq<Hit>, out: seq<Recalled>)
    requires TopHits(q.vectors, q.query, eligible, 3 * k, hits) && TopMatches(q, PositiveIds(hits), k, out)
    ensures PositiveIds(hits) <= Matching(q, eligible)
    ensures |out| == Min(k, |Matching(q, eligible)|)
    ensures |eligible| <= 3 * k ==> TopMatches(q, Matching(q, eligible), k, out)
  {
    hide CosineOf, Weighed, Score, Outscored, Listed, Beaten;
    PositiveHits(q, eligible, 3 * k, hits);
    var found, all := PositiveIds(hits), Matching(q, eligible);
    if id :| id in all && id !in found {
      assert !Found(hits, id);
      MissedIsFarther(q.vectors, q.query, eligible, 3 * k, hits, id);
      AllPositive(hits);
      SubsetSize(found, all);
    } else {
      assert found == all;
    }
  }

  lemma PositiveHits(q: Question, eligible: set<Id>, n: nat, hits: seq<Hit>)
    requires TopHits(q.vectors, q.query, eligible, n, hits)
    ensures PositiveIds(hits) <= Matching(q, eligible)
    ensures forall id :: id in Matching(q, eligible) && Found(hits, id) ==> id in PositiveIds(hits)
  {
    hide CosineOf, Beaten;
  }

  /** Distinct hits of positive cosine are as many positive ids. */
  lemma {:induction false} AllPositive(hits: seq<Hit>)
    requires forall i, j :: 0 <= i < j < |hits| ==> hits[i].id != hits[j].id
    requires forall i :: 0 <= i < |hits| ==> hits[i].cosine > 0.0
    ensures |PositiveIds(hits)| == |hits|
  {
    if hits == [] {
    } else {
      var n := |hits| - 1;
      AllPositive(hits[..n]);
      PositiveStep(hits, n);
      assert hits[..n + 1] == hits;
    }
  }

  /** A match scores no more than any over-fetched cosine, and more vectors are eligible than were fetched. */
  ghost predicate Missed(q: Question, eligible: set<Id>, k: nat, hits: seq<Hit>, id: Id) {
    |eligible| > 3 * k && forall i :: 0 <= i < |hits| ==> Score(Weighed(q, id)) <= hits[i].cosine
  }

  /**
   * What may be left out: every eligible positive match is in the answer, or the answer is full
   * and the match scores no more than the k-th result, or no more than the smallest over-fetched cosine.
   */
  ghost predicate OmissionsBounded(q: Question, eligible: set<Id>, k: nat, hits: seq<Hit>, out: seq<Recalled>) {
    forall id :: id in Matching(q, eligible) ==>
      || Listed(out, id)
      || Outscored(out, k, Score(Weighed(q, id)))
      || (|out| == k && Missed(q, eligible, k, hits, id))
  }

  /** Ceilings as every reachable store has them. */
  ghost predicate CeilingsSound(rows: Rows) {
    forall id :: id in rows ==> 0.0 < rows[id].trustCeiling <= 1.0
  }

  lemma RecallOmissions(q: Question, eligible: set<Id>, k: nat, hits: seq<Hit>, out: seq<Recalled>)
    requires TopHits(q.vectors, q.query, eligible, 3 * k, hits) && TopMatches(q, PositiveIds(hits), k, out)
    requires ValidConfig(q.config) && CeilingsSound(q.rows) && eligible <= q.rows.Keys
    ensures OmissionsBounded(q, eligible, k, hits, out)
  {
    hide CosineOf, TopHits, ValidConfig, Score, Weighed, Listed, Outscored, PositiveIds, Missed;
    RecallIsTop(q, eligible, k, hits, out);
    PositiveHits(q, eligible, 3 * k, hits);
    forall id | id in Matching(q, eligible) && id !in PositiveIds(hits)
      ensures |out| == k && Missed(q, eligible, k, hits, id)
    {
      MissedIsBounded(q, eligible, k, hits, id);
      MissedFills(q, eligible, k, hits, id);
    }
  }

  /** A match missed by the over-fetch has k matches before it. */
  lemma MissedFills(q: Question, eligible: set<Id>, k: nat, hits: seq<Hit>, id: Id)
    requires TopHits(q.vectors, q.query, eligible, 3 * k, hits) && id in Matching(q, eligible) && !Found(hits, id)
    ensures |PositiveIds(hits)| >= k
  {
    hide CosineOf;
    MissedIsFarther(q.vectors, q.query, eligible, 3 * k, hits, id);
    AllPositive(hits);
  }

  /**
   * What over-fetching can miss: a positive match outside the over-fetched hits scores no more
   * than any of their cosines; and when at most 3k vectors are eligible there is no such match.
   */
  lemma MissedIsBounded(q: Question, eligible: set<Id>, k: nat, hits: seq<Hit>, id: Id)
    requires TopHits(q.vectors, q.query, eligible, 3 * k, hits)
    requires id in Matching(q, eligible) && !Found(hits, id)
    requires id in q.rows && ValidConfig(q.config) && 0.0 < q.rows[id].trustCeiling <= 1.0
    ensures Missed(q, eligible, k, hits, id)
  {
    hide CosineOf, RowTrust, TopHits, ValidConfig;
    RowTrustBound(q.config, q.rows[id], q.now);
    MissedIsFarther(q.vectors, q.query, eligible, 3 * k, hits, id);
    WeightShrinks(CosineOf(q.vectors, q.query, id), RowTrust(q.config, q.rows[id], q.now));
  }

  lemma WeightShrinks(x: real, w: real)
    requires 0.0 < x && 0.0 < w <= 1.0
    ensures x * w <= x
  {
  }

  lemma MissedIsFarther(vectors: map<Id, Stored>, query: Vector, eligible: set<Id>, k: nat, hits: seq<Hit>, id: Id)
    requires TopHits(vectors, query, eligible, k, hits) && id in eligible && !Found(hits, id)
    ensures |eligible| > k == |hits| && forall i :: 0 <= i < |hits| ==> CosineOf(vectors, query, id) <= hits[i].cosine
  {
    hide CosineOf;
    if |eligible| <= k {
      AllHit(eligible, hits, id);
    }
  }

  /** As many distinct hits as eligible ids leave none out. */
  lemma AllHit(eligible: set<Id>, hits: seq<Hit>, id: Id)
    requires forall i :: 0 <= i < |hits| ==> hits[i].id in eligible
    requires forall i, j :: 0 <= i < j < |hits| ==> hits[i].id != hits[j].id
    requires |hits| >= |eligible| && id in eligible
    ensures Found(hits, id)
    decreases |hits|
  {
    assert eligible == eligible - {id} + {id};
    var n := |hits| - 1;
    if hits[n].id != id {
      AllHit(eligible - {hits[n].id}, hits[..n], id);
      var i :| 0 <= i < n && hits[..n][i].id == id;
      assert hits[i].id == id;
    }
  }

  // ----- trust as a weight ---------------------------------------------------------

  /** Vectors as the embedder leaves them: no longer than one. */
  ghost predicate UnitVectors(vectors: map<Id, Stored>, query: Vector) {
    SumSquares(query) <= 1.0 && forall id :: id in vectors ==> SumSquares(vectors[id].vec) <= 1.0
  }

  /** No recalled row scores above its trust when the vectors are normalised. */
  lemma ScoreAtMostTrust(q: Question, id: Id)
    requires id in q.rows && ValidConfig(q.config) && 0.0 < q.rows[id].trustCeiling
    requires id in q.vectors && SumSquares(q.query) <= 1.0 && SumSquares(q.vectors[id].vec) <= 1.0
    ensures Score(Weighed(q, id)) <= Weighed(q, id).trust
  {
    hide ValidConfig, CurrentTrust, SumSquares, Dot;
    var r := q.rows[id];
    CosineAtMostOne(q.query, q.vectors[id].vec);
    TrustWithinCeiling(q.config, r.tier, r.lastReaffirmed, q.now, r.trustCeiling, r.sensitivity);
    WeightBound(CosineOf(q.vectors, q.query, id), RowTrust(q.config, r, q.now));
  }

  lemma WeightBound(x: real, w: real)
    requires x <= 1.0 && 0.0 < w
    ensures x * w <= w
  {
  }

  // ----- recall over a store ---------------------------------------------------------

  /** In a store reached by a guarded run every ceiling is sound. */
  lemma StoreCeilings(store: MemoryStore)
    requires Guarded(store) && ValidConfig(store.env.config)
    ensures CeilingsSound(store.rows)
  {
    hide Legal, Exec;
    forall id | id in store.rows ensures 0.0 < store.rows[id].trustCeiling <= 1.0 {
      ScoreBelowCeiling(store.env, store.trace, id);
    }
  }

  /** The active rows a recall may draw on, scoped to one actor when one is named. */
  ghost predicate InScope(rows: Rows, actor: Option<string>, listed: seq<Id>) {
    if actor.Some? then ActorListing(rows, actor.value, listed) else Listing(rows, Active, listed)
  }

  /**
   * Recall as callers use it. Every result is an active row, of the named actor if one is named,
   * so one user's memory never answers for another; the answer has every match or k of them, is
   * the exact top k when at most 3k vectors are eligible, and otherwise leaves out only bounded
   * matches; with normalised vectors nothing scores above its trust, which is at most one.
   */
  method RecallFor(store: MemoryStore, index: VectorIndex, query: Vector, model: string, k: nat,
                   actor: Option<string>, now: Time)
    returns (out: seq<Recalled>, ghost listed: seq<Id>, ghost hits: seq<Hit>)
    ensures InScope(store.rows, actor, listed)
    ensures forall r :: r in out ==> r.id in store.rows && store.rows[r.id].state == Active
    ensures actor.Some? ==> forall r :: r in out ==>
              r.id in store.rows && store.rows[r.id].prov.actor == Some(actor.value)
    ensures var q := Question(store.env.config, store.rows, index.vectors, query, now);
            var eligible := Eligible(index.vectors, model, set id | id in listed);
            && TopHits(index.vectors, query, eligible, 3 * k, hits)
            && TopMatches(q, PositiveIds(hits), k, out)
            && |out| == Min(k, |Matching(q, eligible)|)
            && (|eligible| <= 3 * k ==> TopMatches(q, Matching(q, eligible), k, out))
            && (Guarded(store) && ValidConfig(store.env.config) ==> OmissionsBounded(q, eligible, k, hits, out))
    ensures Guarded(store) && ValidConfig(store.env.config) && UnitVectors(index.vectors, query)
            ==> forall r :: r in out ==> Score(r) <= r.trust <= 1.0
    ensures var q := Question(store.env.config, store.rows, index.vectors, query, now);
            TruthfulAnswers(q, model, listed, out) && BestFirst(out) && NothingBetter(q, model, listed, k, out)
  {
    hide Dot, Sort, TopHits, TopMatches, RowTrust, Picked, Matching, PositiveIds, OmissionsBounded,
      CeilingsSound, Listing, OfActor, Exec, Legal, ValidConfig, UnitVectors, Guarded, Score,
      TruthfulAnswers, BestFirst, NothingBetter;
    var ids;
    if actor.Some? {
      ids := store.ActiveByActor(actor.value);
      ActorListed(store.rows, actor.value, ids);
    } else {
      ids := store.ByState(Active);
      ActiveListed(store.rows, ids);
    }
    listed := ids;
    out, hits := RecallTop(index, store.env.config, store.rows, ids, query, model, k, now);
    ghost var q := Question(store.env.config, store.rows, index.vectors, query, now);
    ghost var eligible := Eligible(index.vectors, model, set id | id in ids);
    RecallIsTop(q, eligible, k, hits, out);
    AnswersListed(q, eligible, k, hits, out);
    AnswersTruthful(q, model, ids, k, out, hits);
    AnswersComplete(q, model, ids, k, out);
    if Guarded(store) && ValidConfig(store.env.config) {
      StoreCeilings(store);
      RecallOmissions(q, eligible, k, hits, out);
      if UnitVectors(index.vectors, query) {
        AnswerScores(q, eligible, k, hits, out);
      }
    }
  }

  /** The same embedder's vector points the query's way. */
  predicate Relevant(vectors: map<Id, Stored>, model: string, query: Vector, id: Id) {
    id in vectors && vectors[id].model == model && Dot(query, vectors[id].vec) > 0.0
  }

  /** Every result is a listed row with a vector of this embedder, its own positive cosine and its current trust. */
  ghost predicate TruthfulAnswers(q: Question, model: string, listed: seq<Id>, out: seq<Recalled>) {
    forall i :: 0 <= i < |out| ==>
      var r := out[i];
      && r.id in listed && r.id in q.rows && Relevant(q.vectors, model, q.query, r.id)
      && r.cosine == Dot(q.query, q.vectors[r.id].vec) && r.trust == RowTrust(q.config, q.rows[r.id], q.now)
  }

  /** Best score first, and of equal scores the closest first. */
  ghost predicate BestFirst(out: seq<Recalled>) {
    forall i, j :: 0 <= i < j < |out| ==>
      && out[i].id != out[j].id && out[i].cosine * out[i].trust >= out[j].cosine * out[j].trust
      && (out[i].cosine * out[i].trust == out[j].cosine * out[j].trust ==> out[i].cosine >= out[j].cosine)
  }

  /** With at most 3k rows listed, every relevant one is in the answer, or k results score at least as much. */
  ghost predicate NothingBetter(q: Question, model: string, listed: seq<Id>, k: nat, out: seq<Recalled>) {
    |listed| <= 3 * k ==>
      forall id :: id in listed && id in q.rows && Relevant(q.vectors, model, q.query, id) ==> NotBetter(q, k, out, id)
  }

  ghost predicate NotBetter(q: Question, k: nat, out: seq<Recalled>, id: Id)
    requires id in q.vectors && id in q.rows
  {
    Listed(out, id) || AllScore(out, k, Dot(q.query, q.vectors[id].vec) * RowTrust(q.config, q.rows[id], q.now))
  }

  ghost predicate AllScore(out: seq<Recalled>, k: nat, score: real) {
    |out| == k && forall i :: 0 <= i < |out| ==> out[i].cosine * out[i].trust >= score
  }

  lemma AnswersTruthful(q: Question, model: string, ids: seq<Id>, k: nat, out: seq<Recalled>, hits: seq<Hit>)
    requires forall id :: id in ids ==> id in q.rows
    requires TopMatches(q, PositiveIds(hits), k, out)
    requires PositiveIds(hits) <= Matching(q, Eligible(q.vectors, model, set id | id in ids))
    ensures TruthfulAnswers(q, model, ids, out) && BestFirst(out)
  {
    hide Dot, RowTrust, PositiveIds;
    forall i, j | 0 <= i < j < |out|
      ensures out[i].id != out[j].id && out[i].cosine * out[i].trust >= out[j].cosine * out[j].trust
      ensures out[i].cosine * out[i].trust == out[j].cosine * out[j].trust ==> out[i].cosine >= out[j].cosine
    {
      assert Score(out[i]) >= Score(out[j]);
    }
  }

  lemma AnswersComplete(q: Question, model: string, ids: seq<Id>, k: nat, out: seq<Recalled>)
    requires var eligible := Eligible(q.vectors, model, set id | id in ids);
             |eligible| <= 3 * k ==> TopMatches(q, Matching(q, eligible), k, out)
    ensures NothingBetter(q, model, ids, k, out)
  {
    hide Dot, RowTrust, Score, NotBetter, Outscored, Weighed, Listed;
    if |ids| <= 3 * k {
      var eligible := Eligible(q.vectors, model, set id | id in ids);
      SetNoLarger(ids);
      SubsetSize(eligible, set id | id in ids);
      forall id | id in ids && id in q.rows && Relevant(q.vectors, model, q.query, id)
        ensures NotBetter(q, k, out, id)
      {
        MatchIsRelevant(q, model, ids, id);
        assert Listed(out, id) || Outscored(out, k, Score(Weighed(q, id)));
        MatchNotBetter(q, k, out, id);
      }
    }
  }

  lemma MatchIsRelevant(q: Question, model: string, ids: seq<Id>, id: Id)
    requires id in ids && Relevant(q.vectors, model, q.query, id)
    ensures id in Matching(q, Eligible(q.vectors, model, set id | id in ids))
  {
  }

  lemma MatchNotBetter(q: Question, k: nat, out: seq<Recalled>, id: Id)
    requires id in q.vectors && id in q.rows && (Listed(out, id) || Outscored(out, k, Score(Weighed(q, id))))
    ensures NotBetter(q, k, out, id)
  {
    hide Dot, RowTrust;
    ScoreOf(q, id);
  }

  lemma ScoreOf(q: Question, id: Id)
    requires id in q.vectors && id in q.rows
    ensures Score(Weighed(q, id)) == Dot(q.query, q.vectors[id].vec) * RowTrust(q.config, q.rows[id], q.now)
  {
  }

  lemma {:induction false} SetNoLarger(ids: seq<Id>)
    ensures |set id | id in ids| <= |ids|
  {
    if ids == [] {
    } else {
      var n := |ids| - 1;
      SetNoLarger(ids[..n]);
      assert (set id | id in ids) == (set id | id in ids[..n]) + {ids[n]} by { assert ids == ids[..n] + [ids[n]]; }
    }
  }

  lemma AnswersListed(q: Question, eligible: set<Id>, k: nat, hits: seq<Hit>, out: seq<Recalled>)
    requires TopMatches(q, PositiveIds(hits), k, out) && PositiveIds(hits) <= Matching(q, eligible)
    ensures forall r :: r in out ==> r.id in eligible
  {
    hide Weighed, PositiveIds;
  }

  lemma AnswerScores(q: Question, eligible: set<Id>, k: nat, hits: seq<Hit>, out: seq<Recalled>)
    requires TopMatches(q, PositiveIds(hits), k, out) && PositiveIds(hits) <= Matching(q, eligible)
    requires eligible <= q.rows.Keys && eligible <= q.vectors.Keys
    requires ValidConfig(q.config) && CeilingsSound(q.rows) && UnitVectors(q.vectors, q.query)
    ensures forall r :: r in out ==> Score(r) <= r.trust <= 1.0
  {
    hide ValidConfig, Score, PositiveIds;
    forall i | 0 <= i < |out| ensures Score(out[i]) <= out[i].trust <= 1.0 {
      var id := out[i].id;
      ScoreAtMostTrust(q, id);
      RowTrustBound(q.config, q.rows[id], q.now);
    }
  }

  lemma ActorListed(rows: Rows, actor: string, ids: seq<Id>)
    requires ActorListing(rows, actor, ids)
    ensures forall id :: id in ids ==> id in rows && rows[id].state == Active && rows[id].prov.actor == Some(actor)
  {
  }

  lemma ActiveListed(rows: Rows, ids: seq<Id>)
    requires Listing(rows, Active, ids)
    ensures forall id :: id in ids ==> id in rows && rows[id].state == Active
  {
  }
}
