/** Leader clustering of repeated user requests. */
module Cluster {
  import opened Similarity
  import Sorting

  /** A cluster in the making; its leader is the first message that found no home. */
  type Group = g: seq<string> | g != [] witness [""]

  datatype Recurring = Recurring(representative: string, count: int)

  function Near(tokens: string -> Tokens, a: string, b: string): real {
    Jaccard(tokens(a), tokens(b))
  }

  /** Index of the first group whose leader is near enough, or the number of groups. */
  function FirstHome(tokens: string -> Tokens, groups: seq<Group>, msg: string, threshold: real): (k: nat)
    ensures k <= |groups|
    ensures k < |groups| ==> Near(tokens, msg, groups[k][0]) >= threshold
    ensures forall j :: 0 <= j < k ==> Near(tokens, msg, groups[j][0]) < threshold
  {
    if groups == [] then 0
    else if Near(tokens, msg, groups[0][0]) >= threshold then 0
    else 1 + FirstHome(tokens, groups[1..], msg, threshold)
  }

  function Place(tokens: string -> Tokens, groups: seq<Group>, msg: string, threshold: real): (r: seq<Group>)
  {
    var k := FirstHome(tokens, groups, msg, threshold);
    if k < |groups| then groups[k := groups[k] + [msg]] else groups + [[msg]]
  }

  function Groups(tokens: string -> Tokens, messages: seq<string>, threshold: real): (r: seq<Group>)
  {
    if messages == [] then []
    else
      var n := |messages| - 1;
      Place(tokens, Groups(tokens, messages[..n], threshold), messages[n], threshold)
  }

  function Summaries(groups: seq<Group>): (r: seq<Recurring>)
    ensures |r| == |groups|
    ensures forall i :: 0 <= i < |r| ==> r[i] == Recurring(groups[i][0], |groups[i]|)
  {
    if groups == [] then [] else [Recurring(groups[0][0], |groups[0]|)] + Summaries(groups[1..])
  }

  predicate MoreFrequent(a: Recurring, b: Recurring) { a.count >= b.count }

  function Total(rs: seq<Recurring>): int {
    if rs == [] then 0 else rs[0].count + Total(rs[1..])
  }

  /** What the groups guarantee: leaders are apart, members near their own leader and not near any earlier one. */
  ghost predicate WellClustered(tokens: string -> Tokens, groups: seq<Group>, threshold: real) {
    && (forall i, j :: 0 <= i < j < |groups| ==> Near(tokens, groups[i][0], groups[j][0]) < threshold)
    && (forall i, j :: 0 <= i < |groups| && 1 <= j < |groups[i]|
          ==> Near(tokens, groups[i][j], groups[i][0]) >= threshold)
    && (forall i, i', j :: 0 <= i' < i < |groups| && 0 <= j < |groups[i]|
          ==> Near(tokens, groups[i][j], groups[i'][0]) < threshold)
  }

  lemma {:induction false} GroupsWellClustered(tokens: string -> Tokens, messages: seq<string>, threshold: real)
    ensures WellClustered(tokens, Groups(tokens, messages, threshold), threshold)
  {
    hide WellClustered, Place;
    if messages == [] {
      NoGroups(tokens, threshold);
    } else {
      var n := |messages| - 1;
      GroupsWellClustered(tokens, messages[..n], threshold);
      PlaceKeepsClusters(tokens, Groups(tokens, messages[..n], threshold), messages[n], threshold);
    }
  }

  lemma NoGroups(tokens: string -> Tokens, threshold: real)
    ensures WellClustered(tokens, [], threshold)
  {
  }

  lemma PlaceKeepsClusters(tokens: string -> Tokens, gs: seq<Group>, msg: string, threshold: real)
    requires WellClustered(tokens, gs, threshold)
    ensures WellClustered(tokens, Place(tokens, gs, msg, threshold), threshold)
  {
    hide Near, WellClustered;
    var k := FirstHome(tokens, gs, msg, threshold);
    if k < |gs| {
      JoinKeepsClusters(tokens, gs, msg, threshold, k);
    } else {
      LeaderKeepsClusters(tokens, gs, msg, threshold);
    }
  }

  lemma JoinKeepsClusters(tokens: string -> Tokens, gs: seq<Group>, msg: string, threshold: real, k: nat)
    requires WellClustered(tokens, gs, threshold) && k < |gs| && Near(tokens, msg, gs[k][0]) >= threshold
    requires forall j :: 0 <= j < k ==> Near(tokens, msg, gs[j][0]) < threshold
    ensures WellClustered(tokens, gs[k := gs[k] + [msg]], threshold)
  {
    hide Near;
    var gs' := gs[k := gs[k] + [msg]];
    assert forall i :: 0 <= i < |gs| ==> gs'[i][0] == gs[i][0];
    forall i, i', j | 0 <= i' < i < |gs'| && 0 <= j < |gs'[i]| ensures Near(tokens, gs'[i][j], gs'[i'][0]) < threshold {
      if i == k && j == |gs[k]| { assert gs'[i][j] == msg; } else { assert gs'[i][j] == gs[i][j]; }
    }
    forall i, j | 0 <= i < |gs'| && 1 <= j < |gs'[i]| ensures Near(tokens, gs'[i][j], gs'[i][0]) >= threshold {
      if i == k && j == |gs[k]| { assert gs'[i][j] == msg; } else { assert gs'[i][j] == gs[i][j]; }
    }
  }

  lemma LeaderKeepsClusters(tokens: string -> Tokens, gs: seq<Group>, msg: string, threshold: real)
    requires WellClustered(tokens, gs, threshold)
    requires forall j :: 0 <= j < |gs| ==> Near(tokens, msg, gs[j][0]) < threshold
    ensures WellClustered(tokens, gs + [[msg]], threshold)
  {
    hide Near;
    forall j | 0 <= j < |gs| ensures Near(tokens, gs[j][0], msg) < threshold {
      NearSymmetric(tokens, msg, gs[j][0]);
    }
  }

  lemma NearSymmetric(tokens: string -> Tokens, a: string, b: string)
    ensures Near(tokens, a, b) == Near(tokens, b, a)
  {
    JaccardBounds(tokens(a), tokens(b));
  }

  /** Any two members of one cluster have similarity at least 2 * threshold - 1. */
  lemma ClusterDiameter(tokens: string -> Tokens, messages: seq<string>, threshold: real, g: nat, i: nat, j: nat)
    requires var gs := Groups(tokens, messages, threshold); g < |gs| && i < j < |gs[g]|
    ensures var c := Groups(tokens, messages, threshold)[g];
            Jaccard(tokens(c[i]), tokens(c[j])) >= 2.0 * threshold - 1.0
  {
    GroupsWellClustered(tokens, messages, threshold);
    var c := Groups(tokens, messages, threshold)[g];
    var a, b, rep := tokens(c[i]), tokens(c[j]), tokens(c[0]);
    assert Jaccard(b, rep) >= threshold;
    JaccardBounds(b, rep);
    if i == 0 {
      JaccardBounds(a, b);
    } else {
      SharedNeighbour(a, rep, b, threshold);
    }
  }

  function Flatten(groups: seq<Group>): seq<string> {
    if groups == [] then [] else groups[0] + Flatten(groups[1..])
  }

  lemma {:induction false} FlattenAppend(groups: seq<Group>, g: Group)
    ensures Flatten(groups + [g]) == Flatten(groups) + g
  {
    if groups == [] {
      assert [g][1..] == [];
    } else {
      FlattenAppend(groups[1..], g);
      assert (groups + [g])[1..] == groups[1..] + [g];
    }
  }

  lemma {:induction false} FlattenUpdate(groups: seq<Group>, k: nat, msg: string)
    requires k < |groups|
    ensures multiset(Flatten(groups[k := groups[k] + [msg]])) == multiset(Flatten(groups)) + multiset{msg}
  {
    var r := groups[k := groups[k] + [msg]];
    if k == 0 {
      assert r[1..] == groups[1..];
    } else {
      FlattenUpdate(groups[1..], k - 1, msg);
      assert r[1..] == groups[1..][k - 1 := groups[k] + [msg]];
    }
  }

  /** Clustering only regroups: every message is in exactly one cluster, as often as it came. */
  lemma {:induction false} GroupsPartition(tokens: string -> Tokens, messages: seq<string>, threshold: real)
    ensures multiset(Flatten(Groups(tokens, messages, threshold))) == multiset(messages)
  {
    if messages == [] {
    } else {
      var n := |messages| - 1;
      var gs, msg := Groups(tokens, messages[..n], threshold), messages[n];
      GroupsPartition(tokens, messages[..n], threshold);
      assert messages == messages[..n] + [msg];
      var k := FirstHome(tokens, gs, msg, threshold);
      if k < |gs| {
        FlattenUpdate(gs, k, msg);
      } else {
        FlattenAppend(gs, [msg]);
      }
    }
  }

  lemma {:induction false} TotalIsFlattened(groups: seq<Group>)
    ensures Total(Summaries(groups)) == |Flatten(groups)|
  {
    if groups == [] {
    } else {
      TotalIsFlattened(groups[1..]);
      assert Summaries(groups)[1..] == Summaries(groups[1..]);
    }
  }

  lemma {:induction false} TotalInsert(x: Recurring, s: seq<Recurring>)
    ensures Total(Sorting.Insert(MoreFrequent, x, s)) == x.count + Total(s)
  {
    if s == [] {
      assert [x][1..] == [];
    } else if MoreFrequent(x, s[0]) {
      assert ([x] + s)[1..] == s;
    } else {
      TotalInsert(x, s[1..]);
      assert Sorting.Insert(MoreFrequent, x, s)[1..] == Sorting.Insert(MoreFrequent, x, s[1..]);
    }
  }

  lemma {:induction false} TotalSort(s: seq<Recurring>)
    ensures Total(Sorting.Sort(MoreFrequent, s)) == Total(s)
  {
    if s == [] {
    } else {
      TotalSort(s[1..]);
      TotalInsert(s[0], Sorting.Sort(MoreFrequent, s[1..]));
    }
  }

  /**
   * The messages regrouped: every message in exactly one group, similar enough to its leader, and to
   * no leader of an earlier group; leaders of different groups are not similar.
   */
  ghost predicate Clustering(tokens: string -> Tokens, messages: seq<string>, threshold: real, groups: seq<Group>) {
    && multiset(Flatten(groups)) == multiset(messages)
    && (forall g, m :: 0 <= g < |groups| && 1 <= m < |groups[g]|
          ==> Jaccard(tokens(groups[g][m]), tokens(groups[g][0])) >= threshold)
    && (forall g, g', m :: 0 <= g' < g < |groups| && 0 <= m < |groups[g]|
          ==> Jaccard(tokens(groups[g][m]), tokens(groups[g'][0])) < threshold)
  }

  /** Each group by its leader and its size. */
  ghost predicate Summarises(out: seq<Recurring>, groups: seq<Group>) {
    exists rs: seq<Recurring> :: multiset(out) == multiset(rs) && Summary(rs, groups) && TiesInOrder(out, rs)
  }

  /** Clusters of one size stay in the order in which they were opened. */
  ghost predicate TiesInOrder(out: seq<Recurring>, rs: seq<Recurring>) {
    forall i, j :: 0 <= i < j < |rs| && rs[i].count == rs[j].count ==> Sorting.Precedes(out, rs[i], rs[j])
  }

  lemma SortKeepsTies(rs: seq<Recurring>)
    ensures TiesInOrder(Sorting.Sort(MoreFrequent, rs), rs)
  {
    forall i, j | 0 <= i < j < |rs| && rs[i].count == rs[j].count
      ensures Sorting.Precedes(Sorting.Sort(MoreFrequent, rs), rs[i], rs[j])
    {
      Sorting.SortStable(MoreFrequent, rs, i, j);
    }
  }

  ghost predicate Summary(rs: seq<Recurring>, groups: seq<Group>) {
    |rs| == |groups| && forall i :: 0 <= i < |rs| ==> rs[i] == Recurring(groups[i][0], |groups[i]|)
  }

  lemma ClusteringSaid(tokens: string -> Tokens, messages: seq<string>, threshold: real)
    ensures Clustering(tokens, messages, threshold, Groups(tokens, messages, threshold))
  {
    GroupsWellClustered(tokens, messages, threshold);
    GroupsPartition(tokens, messages, threshold);
  }

  lemma SummariesSaid(groups: seq<Group>)
    ensures Summary(Summaries(groups), groups)
  {
  }

  /** Joins the first cluster whose leader is near enough, or opens a new one. */
  method PlaceMessage(tokens: string -> Tokens, clusters: seq<Group>, msg: string, threshold: real)
    returns (r: seq<Group>)
    ensures r == Place(tokens, clusters, msg, threshold)
  {
    for c := 0 to |clusters|
      invariant c <= FirstHome(tokens, clusters, msg, threshold)
    {
      if Near(tokens, msg, clusters[c][0]) >= threshold {
        return clusters[c := clusters[c] + [msg]];
      }
    }
    return clusters + [[msg]];
  }

  /**
   * The clustering pass: the clusters of the specification, most frequent first, their
   * counts adding up to the number of messages.
   */
  method FindClusters(tokens: string -> Tokens, messages: seq<string>, threshold: real)
    returns (out: seq<Recurring>)
    ensures multiset(out) == multiset(Summaries(Groups(tokens, messages, threshold)))
    ensures forall i, j :: 0 <= i < j < |out| ==> out[i].count >= out[j].count
    ensures Total(out) == |messages|
    ensures exists groups: seq<Group> :: Clustering(tokens, messages, threshold, groups) && Summarises(out, groups)
  {
    hide Place, Summaries, Total, Sorting.Sort, Flatten, Clustering, Summary, Groups, TiesInOrder;
    NoMessages(tokens, threshold);
    var clusters: seq<Group> := [];
    for i := 0 to |messages|
      invariant clusters == Groups(tokens, messages[..i], threshold)
    {
      assert messages[..i + 1][..i] == messages[..i];
      GroupsStep(tokens, messages[..i + 1], threshold);
      clusters := PlaceMessage(tokens, clusters, messages[i], threshold);
    }
    assert messages[..|messages|] == messages;
    out := Sorting.Sort(MoreFrequent, Summaries(clusters));
    MostFrequentFirst(Summaries(clusters));
    TotalSort(Summaries(clusters));
    TotalIsFlattened(clusters);
    GroupsPartition(tokens, messages, threshold);
    Sorting.SameLength(Flatten(clusters), messages);
    ClusteringSaid(tokens, messages, threshold);
    SummariesSaid(clusters);
    SortKeepsTies(Summaries(clusters));
    assert Summarises(out, clusters);
  }

  lemma NoMessages(tokens: string -> Tokens, threshold: real)
    ensures Groups(tokens, [], threshold) == []
  {
  }

  lemma GroupsStep(tokens: string -> Tokens, messages: seq<string>, threshold: real)
    requires messages != []
    ensures var n := |messages| - 1;
            Groups(tokens, messages, threshold)
            == Place(tokens, Groups(tokens, messages[..n], threshold), messages[n], threshold)
  {
  }

  lemma MostFrequentFirst(rs: seq<Recurring>)
    ensures var out := Sorting.Sort(MoreFrequent, rs);
            forall i, j :: 0 <= i < j < |out| ==> out[i].count >= out[j].count
  {
    Sorting.SortSorted(MoreFrequent, rs);
    var out := Sorting.Sort(MoreFrequent, rs);
    forall i, j | 0 <= i < j < |out| ensures out[i].count >= out[j].count {
      assert MoreFrequent(out[i], out[j]);
    }
  }
}
