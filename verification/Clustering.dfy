// Greedy badcase clustering of app/application/badcase_service.py, over character bigrams. The
// quotient of the similarity is a real.
module Clustering {
  import opened Common

  // A missing correction or identity is the empty string.
  datatype Badcase = Badcase(correction: string, feedbackId: string)

  datatype Cluster = Cluster(id: nat, representative: string, ids: seq<string>, corrections: seq<string>)

  datatype ClusterAnalysis = ClusterAnalysis(id: nat, representative: string, feedbackIds: seq<string>, size: nat)

  // ----- Similarity -----

  function Bigram(text: string, i: nat): string
    requires i + 2 <= |text|
  {
    text[i..i + 2]
  }

  function Bigrams(text: string): set<string> {
    if |text| >= 2 then set i | 0 <= i < |text| - 1 :: Bigram(text, i) else {text}
  }

  function Jaccard(a: string, b: string): real {
    if a == "" || b == "" then 0.0 else Overlap(Bigrams(a), Bigrams(b))
  }

  function Overlap(a: set<string>, b: set<string>): real {
    if a == {} || b == {} then 0.0
    else
      assert a <= a + b;
      Union(a, b);
      |a * b| as real / |a + b| as real
  }

  lemma Union(a: set<string>, b: set<string>)
    ensures |a * b| <= |a + b| && (a != {} ==> |a + b| > 0)
  {
    Smaller(a * b, a + b);
    assert a != {} ==> a + b != {};
  }

  lemma {:induction false} Smaller(a: set<string>, b: set<string>)
    requires a <= b
    ensures |a| <= |b| && (|a| == |b| ==> a == b)
    decreases a
  {
    if a != {} {
      var x :| x in a;
      Smaller(a - {x}, b - {x});
      if |a| == |b| {
        assert a == (a - {x}) + {x} && b == (b - {x}) + {x};
      }
    }
  }

  lemma HasBigram(text: string)
    ensures Bigrams(text) != {}
  {
    if |text| >= 2 {
      assert Bigram(text, 0) in Bigrams(text);
    }
  }

  // The similarity lies between 0 and 1 and does not depend on the order.
  lemma {:induction false} JaccardIsASimilarity(a: string, b: string)
    ensures 0.0 <= Jaccard(a, b) <= 1.0
    ensures Jaccard(a, b) == Jaccard(b, a)
  {
    var x, y := Bigrams(a), Bigrams(b);
    Union(x, y);
    assert x * y == y * x && x + y == y + x;
    if x != {} {
      AtMostOne(|x * y|, |x + y|);
    }
  }

  lemma AtMostOne(n: nat, m: nat)
    requires n <= m && m > 0
    ensures 0.0 <= n as real / m as real <= 1.0
    ensures n as real / m as real == 1.0 <==> n == m
  {
    var q := n as real / m as real;
    FactorAtMostOne(q, n as real, m as real);
  }

  lemma FactorAtMostOne(q: real, x: real, y: real)
    requires q * y == x && 0.0 <= x <= y && y > 0.0
    ensures 0.0 <= q <= 1.0 && (q == 1.0 <==> x == y)
  {
    AtMostAfterScaling(q, 1.0, y);
    AtMostAfterScaling(0.0, q, y);
    if q < 1.0 {
      LessAfterScaling(q, 1.0, y);
    }
  }

  // It is 1 exactly between texts with the same bigrams: in particular between a text and itself.
  lemma JaccardIsOneExactlyWhen(a: string, b: string)
    requires a != "" && b != ""
    ensures Jaccard(a, b) == 1.0 <==> Bigrams(a) == Bigrams(b)
  {
    var x, y := Bigrams(a), Bigrams(b);
    HasBigram(a);
    HasBigram(b);
    Union(x, y);
    AtMostOne(|x * y|, |x + y|);
    Smaller(x * y, x + y);
    MeetIsJoinExactlyWhen(x, y);
  }

  lemma MeetIsJoinExactlyWhen(x: set<string>, y: set<string>)
    ensures x * y == x + y <==> x == y
  {
    if x * y == x + y {
      assert forall g | g in x + y :: g in x * y;
    }
  }

  // ----- Clustering -----

  // What Python's str.strip takes for white space.
  predicate IsSpace(c: char) {
    var n := c as int;
    || 9 <= n <= 13 || 28 <= n <= 32 || n == 0x85 || n == 0xA0 || n == 0x1680 || 0x2000 <= n <= 0x200A
    || n == 0x2028 || n == 0x2029 || n == 0x202F || n == 0x205F || n == 0x3000
  }

  function Strip(text: string): (r: string)
    ensures r != "" ==> !IsSpace(r[0]) && !IsSpace(r[|r| - 1])
  {
    if text == "" then ""
    else if IsSpace(text[0]) then Strip(text[1..])
    else if IsSpace(text[|text| - 1]) then Strip(text[..|text| - 1])
    else text
  }

  predicate IsValid(b: Badcase) {
    Strip(b.correction) != "" && b.feedbackId != ""
  }

  // The number of the first cluster whose representative is similar enough, or of no cluster.
  function First(sim: (string, string) -> real, t: real, clusters: seq<Cluster>, correction: string): (j: nat)
    ensures j <= |clusters| && (j < |clusters| ==> sim(correction, clusters[j].representative) >= t)
    ensures forall k | 0 <= k < j :: sim(correction, clusters[k].representative) < t
    decreases clusters
  {
    if clusters == [] || sim(correction, clusters[0].representative) >= t then 0
    else 1 + First(sim, t, clusters[1..], correction)
  }

  function Join(c: Cluster, id: string, correction: string): Cluster {
    c.(ids := c.ids + [id], corrections := c.corrections + [correction])
  }

  function Found(n: nat, id: string, correction: string): Cluster {
    Cluster(n, correction, [id], [correction])
  }

  function Add(sim: (string, string) -> real, t: real, clusters: seq<Cluster>, b: Badcase): seq<Cluster> {
    if !IsValid(b) then clusters else Place(sim, t, clusters, Strip(b.correction), b.feedbackId)
  }

  function Place(sim: (string, string) -> real, t: real, clusters: seq<Cluster>, correction: string,
                 id: string): seq<Cluster> {
    var j := First(sim, t, clusters, correction);
    if j < |clusters| then clusters[j := Join(clusters[j], id, correction)]
    else clusters + [Found(|clusters|, id, correction)]
  }

  function Clusters(sim: (string, string) -> real, t: real, cases: seq<Badcase>): seq<Cluster> {
    if cases == [] then [] else Add(sim, t, Clusters(sim, t, cases[..|cases| - 1]), cases[|cases| - 1])
  }

  function Analysis(c: Cluster): ClusterAnalysis {
    ClusterAnalysis(c.id, c.representative, c.ids, |c.ids|)
  }

  function Analyses(clusters: seq<Cluster>): (r: seq<ClusterAnalysis>)
    ensures |r| == |clusters| && forall j | 0 <= j < |r| :: r[j] == Analysis(clusters[j])
  {
    seq(|clusters|, j requires 0 <= j < |clusters| => Analysis(clusters[j]))
  }

  method ClusterBadcases(t: real, badcases: seq<Badcase>) returns (analyses: seq<ClusterAnalysis>)
    ensures analyses == Analyses(Clusters(Jaccard, t, badcases))
  {
    if badcases == [] {
      return [];
    }
    var clusters: seq<Cluster> := [];
    for i := 0 to |badcases|
      invariant clusters == Clusters(Jaccard, t, badcases[..i])
    {
      OneMoreCase(Jaccard, t, badcases, i);
      var correction, feedbackId := Strip(badcases[i].correction), badcases[i].feedbackId;
      if correction == "" || feedbackId == "" {
        continue;
      }
      clusters := Assign(t, clusters, correction, feedbackId);
    }
    assert badcases[..|badcases|] == badcases;
    return Analyses(clusters);
  }

  // The inner loop over the clusters.
  method Assign(t: real, before: seq<Cluster>, correction: string, feedbackId: string) returns (clusters: seq<Cluster>)
    ensures clusters == Place(Jaccard, t, before, correction, feedbackId)
  {
    clusters := before;
    ghost var found := First(Jaccard, t, clusters, correction);
    var isAssigned := false;
    for j := 0 to |clusters|
      invariant !isAssigned && j <= found && clusters == before
    {
      if Jaccard(correction, clusters[j].representative) >= t {
        clusters := clusters[j := Join(clusters[j], feedbackId, correction)];
        isAssigned := true;
        break;
      }
    }
    if !isAssigned {
      clusters := clusters + [Found(|clusters|, feedbackId, correction)];
    }
  }

  lemma OneMoreCase(sim: (string, string) -> real, t: real, cases: seq<Badcase>, i: nat)
    requires i < |cases|
    ensures Clusters(sim, t, cases[..i + 1]) == Add(sim, t, Clusters(sim, t, cases[..i]), cases[i])
  {
    assert cases[..i + 1][..i] == cases[..i];
  }

  // ----- A longer list extends the clustering -----

  ghost predicate Extends(longer: seq<Cluster>, shorter: seq<Cluster>) {
    && |shorter| <= |longer|
    && forall j | 0 <= j < |shorter| ::
         && longer[j].id == shorter[j].id && longer[j].representative == shorter[j].representative
         && shorter[j].ids <= longer[j].ids && shorter[j].corrections <= longer[j].corrections
  }

  lemma {:induction false} LongerListExtends(sim: (string, string) -> real, t: real, cases: seq<Badcase>,
                                             more: seq<Badcase>)
    ensures Extends(Clusters(sim, t, cases + more), Clusters(sim, t, cases))
    decreases more
  {
    if more == [] {
      assert cases + more == cases;
    } else {
      LongerListExtends(sim, t, cases, more[..|more| - 1]);
      assert (cases + more)[..|cases + more| - 1] == cases + more[..|more| - 1];
    }
  }

  lemma PrefixExtends(sim: (string, string) -> real, t: real, cases: seq<Badcase>, i: nat)
    requires i <= |cases|
    ensures Extends(Clusters(sim, t, cases), Clusters(sim, t, cases[..i]))
  {
    assert cases == cases[..i] + cases[i..];
    LongerListExtends(sim, t, cases[..i], cases[i..]);
  }

  // ----- An ordered partition -----

  // The cluster that took badcase i when it came.
  function Slot(sim: (string, string) -> real, t: real, cases: seq<Badcase>, i: nat): nat
    requires i < |cases|
  {
    First(sim, t, Clusters(sim, t, cases[..i]), Strip(cases[i].correction))
  }

  predicate GoesTo(sim: (string, string) -> real, t: real, cases: seq<Badcase>, i: nat, j: nat)
    requires i < |cases|
  {
    IsValid(cases[i]) && Slot(sim, t, cases, i) == j
  }

  // The valid badcases that went to cluster j, in order.
  function IndicesIn(sim: (string, string) -> real, t: real, cases: seq<Badcase>, j: nat): seq<nat> {
    if cases == [] then []
    else
      var n := |cases| - 1;
      Append(IndicesIn(sim, t, cases[..n], j), n, GoesTo(sim, t, cases, n, j))
  }

  lemma GoesThereAlready(sim: (string, string) -> real, t: real, cases: seq<Badcase>, n: nat, i: nat, j: nat)
    requires i < n <= |cases|
    ensures GoesTo(sim, t, cases[..n], i, j) == GoesTo(sim, t, cases, i, j)
  {
    assert cases[..n][..i] == cases[..i];
  }

  function Append(s: seq<nat>, n: nat, keep: bool): seq<nat> {
    s + if keep then [n] else []
  }

  lemma InAppend(s: seq<nat>, n: nat, keep: bool, i: nat)
    ensures i in Append(s, n, keep) <==> i in s || (keep && i == n)
  {}

  lemma {:induction false} IndicesAre(sim: (string, string) -> real, t: real, cases: seq<Badcase>, j: nat, i: nat)
    ensures i in IndicesIn(sim, t, cases, j) <==> i < |cases| && GoesTo(sim, t, cases, i, j)
  {
    if cases != [] {
      var n := |cases| - 1;
      IndicesAre(sim, t, cases[..n], j, i);
      InAppend(IndicesIn(sim, t, cases[..n], j), n, GoesTo(sim, t, cases, n, j), i);
      if i < n {
        GoesThereAlready(sim, t, cases, n, i, j);
      }
    }
  }

  ghost predicate IsIncreasing(s: seq<nat>, bound: nat) {
    (forall m, n | 0 <= m < n < |s| :: s[m] < s[n]) && forall m | 0 <= m < |s| :: s[m] < bound
  }

  lemma IncreasingMore(s: seq<nat>, n: nat, keep: bool)
    requires IsIncreasing(s, n)
    ensures IsIncreasing(Append(s, n, keep), n + 1)
  {}

  lemma {:induction false} IndicesIncrease(sim: (string, string) -> real, t: real, cases: seq<Badcase>, j: nat)
    ensures IsIncreasing(IndicesIn(sim, t, cases, j), |cases|)
  {
    if cases != [] {
      var n := |cases| - 1;
      IndicesIncrease(sim, t, cases[..n], j);
      IncreasingMore(IndicesIn(sim, t, cases[..n], j), n, GoesTo(sim, t, cases, n, j));
    }
  }

  // The contents of a cluster are those badcases.
  ghost predicate Holds(c: Cluster, cases: seq<Badcase>, indices: seq<nat>) {
    && |indices| == |c.ids| == |c.corrections|
    && forall m | 0 <= m < |indices| ::
         && indices[m] < |cases| && c.ids[m] == cases[indices[m]].feedbackId
         && c.corrections[m] == Strip(cases[indices[m]].correction)
  }

  ghost predicate IsCluster(c: Cluster, j: nat, cases: seq<Badcase>, indices: seq<nat>) {
    c.id == j && Holds(c, cases, indices) && c.corrections != [] && c.representative == c.corrections[0]
  }

  lemma HoldsMore(c: Cluster, j: nat, cases: seq<Badcase>, indices: seq<nat>, b: Badcase)
    requires IsCluster(c, j, cases, indices)
    ensures IsCluster(c, j, cases + [b], indices)
    ensures IsCluster(Join(c, b.feedbackId, Strip(b.correction)), j, cases + [b], indices + [|cases|])
  {}

  // The clusters are an ordered partition of the valid badcases: cluster j holds, in order, exactly
  // those that went to it, and every one of them went to a cluster.
  lemma {:induction false} IsOrderedPartition(sim: (string, string) -> real, t: real, cases: seq<Badcase>)
    ensures var R := Clusters(sim, t, cases);
            && (forall j: nat | j < |R| :: IsCluster(R[j], j, cases, IndicesIn(sim, t, cases, j)))
            && (forall j: nat | j >= |R| :: IndicesIn(sim, t, cases, j) == [])
  {
    if cases != [] {
      var n := |cases| - 1;
      var R, before, b := Clusters(sim, t, cases), Clusters(sim, t, cases[..n]), cases[n];
      IsOrderedPartition(sim, t, cases[..n]);
      assert cases == cases[..n] + [b];
      forall j: nat | j < |R|
        ensures IsCluster(R[j], j, cases, IndicesIn(sim, t, cases, j))
      {
        if j < |before| {
          HoldsMore(before[j], j, cases[..n], IndicesIn(sim, t, cases[..n], j), b);
        }
      }
    }
  }

  // ----- Thresholds -----

  ghost predicate IsSymmetric(sim: (string, string) -> real) {
    forall a, b :: sim(a, b) == sim(b, a)
  }

  // Representatives are pairwise below the threshold.
  ghost predicate RepresentativesApart(sim: (string, string) -> real, t: real, R: seq<Cluster>) {
    forall i, j | 0 <= i < |R| && 0 <= j < |R| && i != j :: sim(R[i].representative, R[j].representative) < t
  }

  lemma {:induction false} RepresentativesAreApart(sim: (string, string) -> real, t: real, cases: seq<Badcase>)
    requires IsSymmetric(sim)
    ensures RepresentativesApart(sim, t, Clusters(sim, t, cases))
  {
    if cases != [] {
      var n := |cases| - 1;
      RepresentativesAreApart(sim, t, cases[..n]);
      ApartStep(sim, t, Clusters(sim, t, cases[..n]), cases[n]);
    }
  }

  lemma ApartStep(sim: (string, string) -> real, t: real, R: seq<Cluster>, b: Badcase)
    requires IsSymmetric(sim) && RepresentativesApart(sim, t, R)
    ensures RepresentativesApart(sim, t, Add(sim, t, R, b))
  {
    var correction := Strip(b.correction);
    var k := First(sim, t, R, correction);
    if IsValid(b) && k == |R| {
      forall i | 0 <= i < |R|
        ensures sim(R[i].representative, correction) < t
      {
        assert sim(correction, R[i].representative) < t;
      }
    }
  }

  // A badcase joins the first cluster whose representative is similar enough, or founds one.
  lemma {:induction false} JoinsOrFounds(sim: (string, string) -> real, t: real, cases: seq<Badcase>, i: nat)
    requires i < |cases| && IsValid(cases[i])
    ensures var (R, j, c) := (Clusters(sim, t, cases), Slot(sim, t, cases, i), Strip(cases[i].correction));
            && j < |R| && (forall k | 0 <= k < j :: sim(c, R[k].representative) < t)
            && (sim(c, R[j].representative) >= t || R[j].representative == c)
  {
    var before := Clusters(sim, t, cases[..i]);
    PrefixExtends(sim, t, cases, i);
    PrefixExtends(sim, t, cases, i + 1);
    assert cases[..i + 1][..i] == cases[..i];
    assert forall k | 0 <= k < Slot(sim, t, cases, i) ::
        Clusters(sim, t, cases)[k].representative == before[k].representative;
  }

  // With a threshold of at most 1, the clusters as they end up tell where each badcase is: in the
  // first whose representative is similar enough.
  lemma {:induction false} LandsInFirstSimilar(t: real, cases: seq<Badcase>, i: nat)
    requires i < |cases| && IsValid(cases[i]) && t <= 1.0
    ensures Slot(Jaccard, t, cases, i) == First(Jaccard, t, Clusters(Jaccard, t, cases), Strip(cases[i].correction))
    ensures Slot(Jaccard, t, cases, i) < |Clusters(Jaccard, t, cases)|
  {
    var c := Strip(cases[i].correction);
    JoinsOrFounds(Jaccard, t, cases, i);
    JaccardIsOneExactlyWhen(c, c);
  }

  // Every valid badcase meets the threshold against its representative exactly when the threshold
  // is at most 1: above 1 nobody meets it and every badcase founds its own cluster.
  lemma MembersMeetExactlyWhen(t: real, cases: seq<Badcase>, i: nat)
    requires i < |cases| && IsValid(cases[i])
    ensures var R := Clusters(Jaccard, t, cases);
            && Slot(Jaccard, t, cases, i) < |R|
            && (Jaccard(Strip(cases[i].correction), R[Slot(Jaccard, t, cases, i)].representative) >= t <==> t <= 1.0)
  {
    var R, c := Clusters(Jaccard, t, cases), Strip(cases[i].correction);
    JoinsOrFounds(Jaccard, t, cases, i);
    JaccardIsOneExactlyWhen(c, c);
    JaccardIsASimilarity(c, R[Slot(Jaccard, t, cases, i)].representative);
  }

  lemma {:induction false} JaccardKeepsRepresentativesApart(t: real, cases: seq<Badcase>)
    ensures RepresentativesApart(Jaccard, t, Clusters(Jaccard, t, cases))
  {
    forall a: string, b: string
      ensures Jaccard(a, b) == Jaccard(b, a)
    {
      JaccardIsASimilarity(a, b);
    }
    RepresentativesAreApart(Jaccard, t, cases);
  }

  // ----- What the texts contribute -----

  ghost predicate IsPairAt(text: string, i: nat, g: string) {
    i + 1 < |text| && |g| == 2 && g[0] == text[i] && g[1] == text[i + 1]
  }

  // The bigrams of a text are its pairs of neighbours; a shorter text is its own.
  lemma BigramsAre(text: string, g: string)
    ensures g in Bigrams(text) <==> if |text| < 2 then g == text else exists i: nat :: IsPairAt(text, i, g)
  {
    if |text| >= 2 {
      forall i: nat | i < |text| - 1
        ensures IsPairAt(text, i, Bigram(text, i))
      {}
      if exists i: nat :: IsPairAt(text, i, g) {
        var i: nat :| IsPairAt(text, i, g);
        assert g == Bigram(text, i);
      }
    }
  }

  // q is the quotient of n and m.
  ghost predicate IsQuotient(q: real, n: real, m: real) { m > 0.0 && q * m == n }

  lemma QuotientIs(n: real, m: real)
    requires m > 0.0
    ensures IsQuotient(n / m, n, m)
  {}

  lemma OverlapIsTheShare(x: set<string>, y: set<string>)
    requires x != {} && y != {}
    ensures IsQuotient(Overlap(x, y), |x * y| as real, |x + y| as real)
  {
    Union(x, y);
    QuotientIs(|x * y| as real, |x + y| as real);
  }

  // The similarity of an empty text is 0; any other is the share of common bigrams among all.
  lemma JaccardIsTheShare(a: string, b: string, x: set<string>, y: set<string>)
    requires x == Bigrams(a) && y == Bigrams(b)
    ensures a == "" || b == "" ==> Jaccard(a, b) == 0.0
    ensures a != "" && b != "" ==> IsQuotient(Jaccard(a, b), |x * y| as real, |x + y| as real)
  {
    if a != "" && b != "" {
      HasBigram(a);
      HasBigram(b);
      OverlapIsTheShare(x, y);
    }
  }

  ghost predicate IsAllSpace(s: string) { forall i | 0 <= i < |s| :: IsSpace(s[i]) }

  // Stripping takes white space away at both ends and nothing else.
  lemma {:induction false} StripTakes(text: string) returns (a: string, b: string)
    ensures text == a + Strip(text) + b && IsAllSpace(a) && IsAllSpace(b)
    decreases |text|
  {
    a, b := "", "";
    if text == "" {
    } else if IsSpace(text[0]) {
      a, b := StripTakes(text[1..]);
      Associate([text[0]], a, Strip(text));
      Associate([text[0]], a + Strip(text), b);
      assert text == [text[0]] + text[1..];
      a := [text[0]] + a;
    } else if IsSpace(text[|text| - 1]) {
      a, b := StripTakes(text[..|text| - 1]);
      Associate(a + Strip(text), b, [text[|text| - 1]]);
      assert text == text[..|text| - 1] + [text[|text| - 1]];
      b := b + [text[|text| - 1]];
    }
  }

  // A badcase counts exactly when it has an identity and its correction is not all white space.
  lemma ValidExactlyWhen(b: Badcase)
    ensures IsValid(b) <==> b.feedbackId != "" && !IsAllSpace(b.correction)
  {
    var before, after := StripTakes(b.correction);
    var text := Strip(b.correction);
    if text == "" {
      assert b.correction == before + after;
    } else {
      assert b.correction[|before|] == text[0];
    }
  }

  // The analyses are numbered in the order the clusters were founded; each is represented by its first
  // correction and lists its members, none missing from the size.
  lemma AnalysesTell(sim: (string, string) -> real, t: real, cases: seq<Badcase>, j: nat)
    requires j < |Clusters(sim, t, cases)|
    ensures var (a, indices) := (Analyses(Clusters(sim, t, cases))[j], IndicesIn(sim, t, cases, j));
            && a.id == j && a.size == |a.feedbackIds| == |indices| && indices != []
            && indices[0] < |cases| && a.representative == Strip(cases[indices[0]].correction)
            && forall m | 0 <= m < |indices| ::
                 indices[m] < |cases| && a.feedbackIds[m] == cases[indices[m]].feedbackId
  {
    IsOrderedPartition(sim, t, cases);
    assert IsCluster(Clusters(sim, t, cases)[j], j, cases, IndicesIn(sim, t, cases, j));
  }
}
