/** Lexical similarity between token sets, and the rephrase test built on it. */
module Similarity {
  import opened MemoryModel

  type Tokens = set<string>

  function Jaccard(a: Tokens, b: Tokens): real {
    if a == {} || b == {} then 0.0
    else Fraction(|a * b|, |a + b|)
  }

  function Fraction(n: nat, d: nat): real {
    if d == 0 then 0.0 else n as real / d as real
  }

  function Distance(a: Tokens, b: Tokens): real { 1.0 - Jaccard(a, b) }

  lemma FractionBounds(n: nat, d: nat)
    requires n <= d
    ensures 0.0 <= Fraction(n, d) <= 1.0
    ensures d > 0 ==> (Fraction(n, d) == 1.0 <==> n == d)
  {
    if d > 0 {
      var f := n as real / d as real;
      assert f * d as real == n as real;
    }
  }

  /** Adding the same count above and below never lowers a fraction. */
  lemma FractionGrows(n: nat, d: nat, k: nat)
    requires 0 < d && n <= d
    ensures Fraction(n, d) <= Fraction(n + k, d + k)
  {
    var x, y := n as real, d as real;
    var z := k as real;
    var f, g := x / y, (x + z) / (y + z);
    assert f * y == x && g * (y + z) == x + z;
    assert f <= 1.0;
    assert f * (y + z) <= x + z by {
      assert f * (y + z) == x + f * z;
      assert f * z <= z;
    }
    Divided(f - g, y + z);
  }

  lemma Divided(x: real, d: real)
    requires d > 0.0 && x * d <= 0.0
    ensures x <= 0.0
  {
  }

  lemma FractionOrder(n: nat, n': nat, d: nat, d': nat)
    requires n <= n' && 0 < d' <= d
    ensures Fraction(n, d) <= Fraction(n', d')
  {
    var f, f' := n as real / d as real, n' as real / d' as real;
    assert f' * d' as real == n' as real && f * d as real == n as real;
    assert 0.0 <= f;
    assert f * d' as real <= f * d as real;
    Divided(f - f', d' as real);
  }

  lemma SubsetCard(a: Tokens, b: Tokens)
    requires a <= b
    ensures |a| <= |b| && |b - a| == |b| - |a|
  {
  }

  lemma JaccardBounds(a: Tokens, b: Tokens)
    ensures 0.0 <= Jaccard(a, b) <= 1.0 && Jaccard(a, b) == Jaccard(b, a)
    ensures Jaccard(a, b) == 1.0 <==> a == b && a != {}
  {
    assert a * b == b * a && a + b == b + a;
    SubsetCard(a * b, a + b);
    FractionBounds(|a * b|, |a + b|);
    if a != {} && b != {} && |a * b| == |a + b| {
      assert a + b == a * b + (a + b - a * b);
      assert a + b - a * b == {};
      forall t ensures t in a <==> t in b {
        assert t in a + b - a * b <==> (t in a) != (t in b);
      }
    }
    if a == b && a != {} {
      assert a * b == a && a + b == a;
      var x :| x in a;
      assert |a + b| > 0;
    }
  }

  /** Similarity is the number of shared tokens over the number of all tokens. */
  lemma JaccardIsShare(a: Tokens, b: Tokens)
    ensures a != {} && b != {} ==> |a + b| > 0 && Jaccard(a, b) * |a + b| as real == |a * b| as real
    ensures a == {} || b == {} ==> Jaccard(a, b) == 0.0
  {
    if x :| x in a {
      assert x in a + b;
    }
  }

  /** J(a, b) is at most the share of u = a + b + c lying in both or in neither of a and b. */
  lemma JaccardPadded(a: Tokens, b: Tokens, c: Tokens)
    requires a != {} && b != {}
    ensures Jaccard(a, b) <= Fraction(|a * b| + |c - (a + b)|, |a + b + c|)
  {
    var x :| x in a;
    assert x in a + b;
    SubsetCard(a * b, a + b);
    var k := c - (a + b);
    assert a + b + c == (a + b) + k && (a + b) !! k;
    FractionGrows(|a * b|, |a + b|, |k|);
  }

  lemma FractionSum(n: nat, m: nat, d: nat, r: nat)
    requires d > 0 && n + m <= d + r
    ensures Fraction(n, d) + Fraction(m, d) <= 1.0 + Fraction(r, d)
  {
    var f, g, h := n as real / d as real, m as real / d as real, r as real / d as real;
    assert f * d as real == n as real && g * d as real == m as real && h * d as real == r as real;
    Divided(f + g - 1.0 - h, d as real);
  }

  /** Counting: the padded overlaps of (a, b) and (b, c) exceed |u| by at most |a * c|. */
  lemma OverlapCount(a: Tokens, b: Tokens, c: Tokens)
    ensures |a * b| + |c - (a + b)| + |b * c| + |a - (b + c)| <= |a + b + c| + |a * c|
  {
    var abc := a * b * c;
    var ab, bc, ac := a * b - c, b * c - a, a * c - b;
    var a1, b1, c1 := a - (b + c), b - (a + c), c - (a + b);
    assert a * b == ab + abc && b * c == bc + abc && a * c == ac + abc;
    assert a + b + c == a1 + (b1 + (c1 + (ab + (bc + (ac + abc)))));
  }

  /**
   * The triangle inequality of Jaccard distance, for all token sets (an empty set is at
   * distance one from everything).
   */
  lemma Triangle(a: Tokens, b: Tokens, c: Tokens)
    ensures Distance(a, c) <= Distance(a, b) + Distance(b, c)
  {
    JaccardBounds(a, b);
    JaccardBounds(b, c);
    JaccardBounds(a, c);
    if a != {} && b != {} && c != {} {
      var x :| x in a;
      assert x in a + c && x in a + b + c;
      JaccardPadded(a, b, c);
      JaccardPadded(b, c, a);
      assert b + c + a == a + b + c;
      var n, m, d := |a * b| + |c - (a + b)|, |b * c| + |a - (b + c)|, |a + b + c|;
      OverlapCount(a, b, c);
      FractionSum(n, m, d, |a * c|);
      SubsetCard(a + c, a + b + c);
      FractionOrder(|a * c|, |a * c|, d, |a + c|);
    }
  }

  /** Two texts each similar to a third are similar to one another. */
  lemma SharedNeighbour(a: Tokens, rep: Tokens, b: Tokens, threshold: real)
    requires Jaccard(a, rep) >= threshold && Jaccard(b, rep) >= threshold
    ensures Jaccard(a, b) >= 2.0 * threshold - 1.0
  {
    Triangle(a, rep, b);
    JaccardBounds(rep, b);
  }

  datatype Match = Match(rephrase: bool, prior: Option<string>, score: real)

  ghost predicate SimilarToAny(tokens: string -> Tokens, candidate: string, prior: seq<string>, threshold: real) {
    exists p :: p in prior && Jaccard(tokens(candidate), tokens(p)) >= threshold
  }

  ghost predicate FirstBest(tokens: string -> Tokens, candidate: string, prior: seq<string>, k: nat,
                            best: string, score: real)
  {
    && k < |prior| && prior[k] == best && Jaccard(tokens(candidate), tokens(best)) == score
    && forall j :: 0 <= j < k ==> Jaccard(tokens(candidate), tokens(prior[j])) < score
  }

  /**
   * The scan keeps the true maximum: no prior text scores higher, the reported text is the
   * first to reach the score, and with a positive threshold the flag says exactly whether some
   * prior text meets it.
   */
  method IsRephrase(tokens: string -> Tokens, candidate: string, prior: seq<string>, threshold: real)
    returns (m: Match)
    ensures forall p :: p in prior ==> Jaccard(tokens(candidate), tokens(p)) <= m.score
    ensures m.prior.None? ==> m.score == 0.0
    ensures m.prior.Some? ==> exists k :: FirstBest(tokens, candidate, prior, k, m.prior.value, m.score)
    ensures m.rephrase <==> m.score >= threshold
    ensures threshold > 0.0 ==> (m.rephrase <==> SimilarToAny(tokens, candidate, prior, threshold))
  {
    var best, found := 0.0, None;
    ghost var k := 0;
    for i := 0 to |prior|
      invariant best >= 0.0
      invariant forall j :: 0 <= j < i ==> Jaccard(tokens(candidate), tokens(prior[j])) <= best
      invariant found.None? ==> best == 0.0
      invariant found.Some? ==> k < i && FirstBest(tokens, candidate, prior, k, found.value, best)
    {
      var score := Jaccard(tokens(candidate), tokens(prior[i]));
      if score > best {
        best, found, k := score, Some(prior[i]), i;
      }
    }
    return Match(best >= threshold, found, best);
  }
}
