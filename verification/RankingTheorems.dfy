/**
  No ranking of distinct posts gains more than the ideal one, for any positive non-increasing discount;
  and distinct posts are exactly what the bound needs.
 */
module RankingTheorems {
  import opened FiniteSums
  import opened Sequences
  import opened RankingMetrics

  // ----- Sums of grades

  ghost function SumInts(s: seq<int>): int {
    if s == [] then 0 else s[0] + SumInts(s[1..])
  }

  lemma {:induction false} SumConcat(s: seq<int>, t: seq<int>)
    ensures SumInts(s + t) == SumInts(s) + SumInts(t)
  {
    if s == [] {
      assert s + t == t;
    } else {
      SumConcat(s[1..], t);
      assert (s + t)[1..] == s[1..] + t;
    }
  }

  lemma SumSnoc(s: seq<int>, j: nat)
    requires j < |s|
    ensures SumInts(s[..j + 1]) == SumInts(s[..j]) + s[j]
  {
    assert s[..j + 1] == s[..j] + [s[j]];
    SumConcat(s[..j], [s[j]]);
    assert [s[j]][1..] == [];
  }

  lemma SumWithout(s: seq<int>, i: nat)
    requires i < |s|
    ensures SumInts(s) == SumInts(Without(s, i)) + s[i]
  {
    assert s == s[..i + 1] + s[i + 1..];
    SumConcat(s[..i + 1], s[i + 1..]);
    SumSnoc(s, i);
    SumConcat(s[..i], s[i + 1..]);
  }

  ghost predicate NonNegative(s: seq<int>) {
    forall i :: 0 <= i < |s| ==> s[i] >= 0
  }

  lemma {:induction false} SumAtMost(s: seq<int>, t: seq<int>)
    requires |s| <= |t| && NonNegative(t) && forall i :: 0 <= i < |s| ==> s[i] <= t[i]
    ensures SumInts(s) <= SumInts(t)
  {
    if s == [] {
      if t != [] {
        SumAtMost(s, t[1..]);
      }
    } else {
      SumAtMost(s[1..], t[1..]);
    }
  }

  /** Among n grades, no a of them total more than the a highest. */
  lemma {:induction false} TopGradesTotalMost(a: seq<int>, g: seq<int>)
    requires SortedDesc(g) && NonNegative(g) && multiset(a) <= multiset(g) && |a| <= |g|
    ensures SumInts(a) <= SumInts(g[..|a|])
    decreases |g|
  {
    if a != [] {
      BagHead(a, g);
      var n := |a|;
      if g[0] in a {
        var i := Find(a, g[0]);
        TopGradesTotalMost(Without(a, i), g[1..]);
        SumWithout(a, i);
        assert g[..n][1..] == g[1..][..n - 1];
      } else {
        BagLength(a, g[1..]);
        TopGradesTotalMost(a, g[1..]);
        SumAtMost(g[1..][..n], g[..n]);
      }
    }
  }

  // ----- Distinct hits collect distinct grades

  ghost predicate DistinctPosts(hits: seq<Hit>) {
    forall i, j :: 0 <= i < j < |hits| ==> hits[i].postId != hits[j].postId
  }

  /** The graded posts among the hits, in order. */
  ghost function GradedIds(relevant: map<int, int>, hits: seq<Hit>): (r: seq<int>)
    ensures |r| <= |hits|
    ensures forall x :: x in r ==> x in relevant && exists i :: 0 <= i < |hits| && hits[i].postId == x
  {
    if hits == [] then []
    else
      var init, last := GradedIds(relevant, hits[..|hits| - 1]), hits[|hits| - 1].postId;
      if last in relevant then init + [last] else init
  }

  lemma {:induction false} GradedIdsDistinct(relevant: map<int, int>, hits: seq<Hit>)
    requires DistinctPosts(hits)
    ensures Distinct(GradedIds(relevant, hits))
    decreases |hits|
  {
    if hits != [] {
      GradedIdsDistinct(relevant, hits[..|hits| - 1]);
    }
  }

  lemma {:induction false} GainsOfGraded(relevant: map<int, int>, hits: seq<Hit>)
    ensures SumInts(Gains(relevant, hits)) == SumInts(MapSeq(GradeOf(relevant), GradedIds(relevant, hits)))
    decreases |hits|
  {
    if hits != [] {
      var n := |hits| - 1;
      var init, last := hits[..n], hits[n].postId;
      GainsOfGraded(relevant, init);
      assert Gains(relevant, hits)[..n] == Gains(relevant, init);
      SumSnoc(Gains(relevant, hits), n);
      assert Gains(relevant, hits)[..n + 1] == Gains(relevant, hits);
      if last in relevant {
        var ids := GradedIds(relevant, init);
        var values := MapSeq(GradeOf(relevant), ids + [last]);
        assert values[..|ids|] == MapSeq(GradeOf(relevant), ids);
        SumSnoc(values, |ids|);
        assert values[..|ids| + 1] == values;
      }
    }
  }

  ghost predicate NonNegativeGrades(relevant: map<int, int>) {
    forall x :: x in relevant ==> relevant[x] >= 0
  }

  lemma IdealNonNegative(relevant: map<int, int>, order: seq<int>, ideal: seq<int>)
    requires Lists(order, relevant.Keys) && Permutes(ideal, MapSeq(GradeOf(relevant), order))
    requires NonNegativeGrades(relevant)
    ensures NonNegative(ideal)
  {
    var grades := MapSeq(GradeOf(relevant), order);
    forall i | 0 <= i < |ideal|
      ensures ideal[i] >= 0
    {
      PermutesMember(ideal, grades, ideal[i]);
      var k := Find(grades, ideal[i]);
      GradeNonNegative(relevant, order[k]);
    }
  }

  lemma GradeNonNegative(relevant: map<int, int>, x: int)
    requires NonNegativeGrades(relevant)
    ensures GradeOf(relevant)(x) >= 0
  {
  }

  /** The graded posts among distinct hits form a sub-bag of all grades. */
  lemma GradedSubBag(relevant: map<int, int>, order: seq<int>, hits: seq<Hit>)
    requires Lists(order, relevant.Keys) && DistinctPosts(hits)
    ensures multiset(MapSeq(GradeOf(relevant), GradedIds(relevant, hits))) <= multiset(MapSeq(GradeOf(relevant), order))
  {
    var ids := GradedIds(relevant, hits);
    GradedIdsDistinct(relevant, hits);
    ListsContains(order, relevant.Keys, ids);
    MapSubBag(GradeOf(relevant), ids, order);
  }

  lemma SubBagDominated(a: seq<int>, ideal: seq<int>, j: nat)
    requires SortedDesc(ideal) && NonNegative(ideal) && multiset(a) <= multiset(ideal) && |a| <= j
    ensures SumInts(a) <= SumInts(ideal[..Cut(|ideal|, j)])
  {
    BagLength(a, ideal);
    TopGradesTotalMost(a, ideal);
    SumAtMost(ideal[..|a|], ideal[..Cut(|ideal|, j)]);
  }

  /** The gains of any distinct hits total at most as many of the best grades. */
  lemma PrefixDominated(relevant: map<int, int>, hits: seq<Hit>, ideal: seq<int>)
    requires IsIdeal(relevant, ideal) && NonNegativeGrades(relevant) && DistinctPosts(hits)
    ensures NonNegative(ideal)
    ensures SumInts(Gains(relevant, hits)) <= SumInts(ideal[..Cut(|ideal|, |hits|)])
  {
    var order :| Lists(order, relevant.Keys) && Permutes(ideal, MapSeq(GradeOf(relevant), order));
    IdealNonNegative(relevant, order, ideal);
    GradedSubBag(relevant, order, hits);
    GainsOfGraded(relevant, hits);
    SubBagDominated(MapSeq(GradeOf(relevant), GradedIds(relevant, hits)), ideal, |hits|);
  }

  // ----- Summation by parts

  lemma WeightsDecrease(log2: nat -> real, i: nat)
    requires IsLog(log2)
    ensures 0.0 <= Weight(log2, i + 1) <= Weight(log2, i)
  {
    var p, q := log2(i + 2), log2(i + 3);
    Reciprocals(p, q);
  }

  lemma Reciprocals(p: real, q: real)
    requires 0.0 < p <= q
    ensures 0.0 <= Quot(1.0, q) <= Quot(1.0, p)
  {
    var x, y := 1.0 / p, 1.0 / q;
    assert x * p == 1.0 && y * q == 1.0;
    assert x > 0.0 && y > 0.0;
    assert y * p <= 1.0;
    assert (x - y) * p >= 0.0;
  }

  lemma QuotIsWeighted(log2: nat -> real, g: int, i: nat)
    requires IsLog(log2)
    ensures Quot(g as real, log2(i + 2)) == Prod(Weight(log2, i), g as real)
  {
    var d := log2(i + 2);
    var w := Quot(1.0, d);
    assert w * d == 1.0;
    assert w * g as real * d == g as real;
  }

  /** Leading by `lead` in total at the old weight is leading by at least as much at the lower new one. */
  lemma OneMorePosition(ahead: real, lead: int, w: real, w': real, g: int, h: int)
    requires 0.0 <= w' <= w && lead >= 0 && ahead >= Prod(w, lead as real)
    ensures ahead + Prod(w', h as real) - Prod(w', g as real) >= Prod(w', (lead + h - g) as real)
  {
    ProdSplits(w', w - w', lead as real);
    assert Prod(w - w', lead as real) >= 0.0;
    ProdAdds(w', lead as real, (h - g) as real);
    ProdAdds(w', (h - g) as real, g as real);
    assert (h - g) as real + g as real == h as real;
    assert lead as real + (h - g) as real == (lead + h - g) as real;
  }

  ghost predicate Dominates(h: seq<int>, g: seq<int>) {
    |h| == |g| && forall j :: 0 <= j <= |g| ==> SumInts(g[..j]) <= SumInts(h[..j])
  }

  lemma {:induction false} SummationByParts(log2: nat -> real, g: seq<int>, h: seq<int>)
    requires IsLog(log2) && Dominates(h, g) && g != []
    ensures Dcg(log2, h) - Dcg(log2, g) >= Prod(Weight(log2, |g| - 1), (SumInts(h) - SumInts(g)) as real)
    decreases |g|
  {
    var n := |g| - 1;
    var g', h' := g[..n], h[..n];
    SumSnoc(g, n);
    SumSnoc(h, n);
    assert g[..n + 1] == g && h[..n + 1] == h;
    QuotIsWeighted(log2, g[n], n);
    QuotIsWeighted(log2, h[n], n);
    var lead := SumInts(h') - SumInts(g');
    if n == 0 {
      ProdAdds(Weight(log2, 0), (h[0] - g[0]) as real, g[0] as real);
      assert (h[0] - g[0]) as real + g[0] as real == h[0] as real;
    } else {
      forall j | 0 <= j <= n
        ensures SumInts(g'[..j]) <= SumInts(h'[..j])
      {
        assert g'[..j] == g[..j] && h'[..j] == h[..j];
      }
      SummationByParts(log2, g', h');
      WeightsDecrease(log2, n - 1);
      OneMorePosition(Dcg(log2, h') - Dcg(log2, g'), lead, Weight(log2, n - 1), Weight(log2, n), g[n], h[n]);
    }
  }

  lemma DominatedGain(log2: nat -> real, g: seq<int>, h: seq<int>)
    requires IsLog(log2) && Dominates(h, g)
    ensures Dcg(log2, g) <= Dcg(log2, h)
  {
    if g != [] {
      SummationByParts(log2, g, h);
      assert g[..|g|] == g && h[..|h|] == h;
      Reciprocals(log2(|g| + 1), log2(|g| + 1));
      assert Prod(Weight(log2, |g| - 1), (SumInts(h) - SumInts(g)) as real) >= 0.0;
    }
  }

  // ----- The bound

  /** The ideal grades followed by zeros, m entries in all. */
  ghost function Padded(ideal: seq<int>, m: nat): (r: seq<int>)
    ensures |r| == m && forall i :: 0 <= i < m ==> r[i] == if i < |ideal| then ideal[i] else 0
  {
    seq(m, i => if 0 <= i < |ideal| then ideal[i] else 0)
  }

  lemma {:induction false} ZerosTotalNothing(s: seq<int>)
    requires forall i :: 0 <= i < |s| ==> s[i] == 0
    ensures SumInts(s) == 0
  {
    if s != [] {
      ZerosTotalNothing(s[1..]);
    }
  }

  lemma PaddedPrefix(ideal: seq<int>, m: nat, j: nat)
    requires j <= m
    ensures SumInts(Padded(ideal, m)[..j]) == SumInts(ideal[..Cut(|ideal|, j)])
  {
    var c := Cut(|ideal|, j);
    var p := Padded(ideal, m)[..j];
    assert p == ideal[..c] + p[c..];
    SumConcat(ideal[..c], p[c..]);
    ZerosTotalNothing(p[c..]);
  }

  lemma {:induction false} DcgGrows(log2: nat -> real, s: seq<int>, j: nat)
    requires IsLog(log2) && NonNegative(s) && j <= |s|
    ensures 0.0 <= Dcg(log2, s[..j]) <= Dcg(log2, s)
    decreases |s|
  {
    if s == [] {
    } else {
      var n := |s| - 1;
      QuotNonNegative(s[n] as real, log2(n + 2));
      if j == |s| {
        assert s[..j] == s;
        DcgGrows(log2, s[..n], n);
        assert s[..n][..n] == s[..n];
      } else {
        DcgGrows(log2, s[..n], j);
        assert s[..n][..j] == s[..j];
      }
    }
  }

  lemma QuotNonNegative(x: real, d: real)
    requires x >= 0.0 && d > 0.0
    ensures Quot(x, d) >= 0.0
  {
    var q := x / d;
    assert q * d == x;
  }

  lemma DcgSnoc(log2: nat -> real, gains: seq<int>, n: nat)
    requires IsLog(log2) && |gains| == n + 1
    ensures log2(n + 2) != 0.0
    ensures Dcg(log2, gains) == Dcg(log2, gains[..n]) + Quot(gains[n] as real, log2(n + 2))
  {
  }

  lemma NoGain(log2: nat -> real, i: nat)
    requires IsLog(log2)
    ensures log2(i + 2) != 0.0 && Quot(0.0, log2(i + 2)) == 0.0
  {
  }

  lemma PaddedSnoc(ideal: seq<int>, m: nat)
    ensures Padded(ideal, m + 1)[..m] == Padded(ideal, m)
    ensures m < |ideal| ==> ideal[..Cut(|ideal|, m + 1)] == ideal[..Cut(|ideal|, m)] + [ideal[m]]
    ensures m >= |ideal| ==> ideal[..Cut(|ideal|, m + 1)] == ideal[..Cut(|ideal|, m)]
  {
  }

  lemma {:induction false} PaddedGain(log2: nat -> real, ideal: seq<int>, m: nat)
    requires IsLog(log2)
    ensures Dcg(log2, Padded(ideal, m)) == Dcg(log2, ideal[..Cut(|ideal|, m)])
    decreases m
  {
    hide *;
    if m == 0 {
      NothingPadded(ideal);
    } else {
      PaddedGain(log2, ideal, m - 1);
      PaddedSnoc(ideal, m - 1);
      DcgSnoc(log2, Padded(ideal, m), m - 1);
      NoGain(log2, m - 1);
      if m <= |ideal| {
        var shorter := ideal[..Cut(|ideal|, m - 1)];
        CutLength(|ideal|, m - 1);
        assert (shorter + [ideal[m - 1]])[..m - 1] == shorter;
        DcgSnoc(log2, shorter + [ideal[m - 1]], m - 1);
      }
    }
  }

  lemma NothingPadded(ideal: seq<int>)
    ensures Padded(ideal, 0) == [] == ideal[..Cut(|ideal|, 0)]
  {
  }

  lemma CutLength(n: nat, m: nat)
    requires m <= n
    ensures Cut(n, m) == m
  {
  }

  lemma IdealDominates(relevant: map<int, int>, top: seq<Hit>, ideal: seq<int>)
    requires IsIdeal(relevant, ideal) && NonNegativeGrades(relevant) && DistinctPosts(top)
    ensures Dominates(Padded(ideal, |top|), Gains(relevant, top))
  {
    var g, h := Gains(relevant, top), Padded(ideal, |top|);
    forall j | 0 <= j <= |g|
      ensures SumInts(g[..j]) <= SumInts(h[..j])
    {
      PrefixDominated(relevant, top[..j], ideal);
      assert g[..j] == Gains(relevant, top[..j]);
      PaddedPrefix(ideal, |top|, j);
    }
  }

  lemma CutDeeper(log2: nat -> real, ideal: seq<int>, m: nat, k: int)
    requires IsLog(log2) && NonNegative(ideal) && (m == 0 || m <= k)
    ensures Dcg(log2, ideal[..Cut(|ideal|, m)]) <= Dcg(log2, ideal[..Cut(|ideal|, k)])
  {
    var best, c := ideal[..Cut(|ideal|, k)], Cut(|ideal|, m);
    assert best[..c] == ideal[..c];
    DcgGrows(log2, best, c);
  }

  lemma GainsNonNegative(relevant: map<int, int>, hits: seq<Hit>)
    requires NonNegativeGrades(relevant)
    ensures NonNegative(Gains(relevant, hits))
  {
  }

  /** DCG at k never exceeds the ideal DCG at k when the first k hits are distinct and grades are not negative. */
  lemma DcgAtMostIdeal(log2: nat -> real, hits: seq<Hit>, relevant: map<int, int>, ideal: seq<int>, k: int)
    requires IsLog(log2) && IsIdeal(relevant, ideal) && NonNegativeGrades(relevant)
    requires DistinctPosts(hits[..Cut(|hits|, k)])
    ensures 0.0 <= Dcg(log2, Gains(relevant, hits[..Cut(|hits|, k)])) <= Dcg(log2, ideal[..Cut(|ideal|, k)])
  {
    var top := hits[..Cut(|hits|, k)];
    var g := Gains(relevant, top);
    IdealDominates(relevant, top, ideal);
    DominatedGain(log2, g, Padded(ideal, |top|));
    PaddedGain(log2, ideal, |top|);
    PrefixDominated(relevant, [], ideal);
    CutDeeper(log2, ideal, |top|, k);
    GainsNonNegative(relevant, top);
    DcgGrows(log2, g, 0);
  }

  /** NDCG lies between 0 and 1. */
  lemma NdcgInUnitInterval(log2: nat -> real, hits: seq<Hit>, relevant: map<int, int>, ideal: seq<int>, k: int)
    requires IsLog(log2) && IsIdeal(relevant, ideal) && NonNegativeGrades(relevant)
    requires DistinctPosts(hits[..Cut(|hits|, k)])
    ensures 0.0 <= Ndcg(log2, hits, relevant, ideal, k) <= 1.0
  {
    DcgAtMostIdeal(log2, hits, relevant, ideal, k);
    var idcg := Dcg(log2, ideal[..Cut(|ideal|, k)]);
    if idcg != 0.0 {
      QuotNonNegative(Dcg(log2, Gains(relevant, hits[..Cut(|hits|, k)])), idcg);
      QuotAtMostOne(Dcg(log2, Gains(relevant, hits[..Cut(|hits|, k)])), idcg);
    }
  }

  lemma QuotAtMostOne(x: real, d: real)
    requires d > 0.0
    ensures Quot(x, d) <= 1.0 <==> x <= d
  {
    var q := Quot(x, d);
    assert q * d == x;
    if x <= d {
      assert (1.0 - q) * d >= 0.0;
    } else {
      assert (q - 1.0) * d > 0.0;
    }
  }

  // ----- Repeated posts break the bound

  /** The shortest prefix that ends in a repetition. */
  lemma {:induction false} FirstRepeat(hits: seq<Hit>) returns (i: nat, j: nat)
    requires !DistinctPosts(hits)
    ensures i < j < |hits| && hits[i].postId == hits[j].postId && DistinctPosts(hits[..j])
    decreases |hits|
  {
    var n := |hits| - 1;
    if DistinctPosts(hits[..n]) {
      i, j :| 0 <= i < j < |hits| && hits[i].postId == hits[j].postId;
    } else {
      i, j := FirstRepeat(hits[..n]);
      assert hits[..n][..j] == hits[..j];
    }
  }

  ghost function IdsOf(hits: seq<Hit>): (r: seq<int>)
    ensures |r| == |hits| && forall i :: 0 <= i < |hits| ==> r[i] == hits[i].postId
  {
    seq(|hits|, i requires 0 <= i < |hits| => hits[i].postId)
  }

  /** Grade 1 for each of the given posts, and its ideal ranking. */
  ghost function OneEach(hits: seq<Hit>): (relevant: map<int, int>)
    ensures forall x :: x in relevant <==> x in IdsOf(hits)
    ensures forall x :: x in relevant ==> relevant[x] == 1
  {
    map x | x in IdsOf(hits) :: 1
  }

  ghost function Ones(n: nat): (r: seq<int>)
    ensures |r| == n && forall i :: 0 <= i < n ==> r[i] == 1
  {
    seq(n, _ => 1)
  }

  lemma OnesAreIdeal(hits: seq<Hit>)
    requires DistinctPosts(hits)
    ensures IsIdeal(OneEach(hits), Ones(|hits|)) && NonNegativeGrades(OneEach(hits))
  {
    var relevant, order := OneEach(hits), IdsOf(hits);
    var grades := MapSeq(GradeOf(relevant), order);
    forall i | 0 <= i < |order|
      ensures grades[i] == 1
    {
      assert order[i] in order;
    }
    assert Ones(|hits|) == grades;
    assert Lists(order, relevant.Keys);
  }

  lemma QuotPositive(x: real, d: real)
    requires x > 0.0 && d > 0.0
    ensures Quot(x, d) > 0.0
  {
    var q := x / d;
    assert q * d == x;
  }

  lemma OnesGain(log2: nat -> real, j: nat)
    requires IsLog(log2)
    ensures Dcg(log2, Ones(j + 1)) > Dcg(log2, Ones(j)) >= 0.0
  {
    QuotPositive(1.0, log2(j + 2));
    DcgGrows(log2, Ones(j), 0);
    DcgSnoc(log2, Ones(j + 1), j);
    hide Dcg;
    assert Ones(j + 1)[..j] == Ones(j);
  }

  lemma GradedOneEach(top: seq<Hit>, i: nat, j: nat)
    requires i < j < |top| && top[i].postId == top[j].postId
    ensures NonNegative(Gains(OneEach(top[..j]), top))
    ensures Gains(OneEach(top[..j]), top)[..j + 1] == Ones(j + 1)
  {
    var g := Gains(OneEach(top[..j]), top);
    forall p | 0 <= p <= j
      ensures g[p] == 1
    {
      assert IdsOf(top[..j])[if p < j then p else i] in IdsOf(top[..j]);
    }
    hide Gains, OneEach, IdsOf;
    assert g[..j + 1] == Ones(j + 1);
  }

  /** Graded 1 up to the first repetition, the hits gain one term more than the ideal ranking has. */
  lemma RepeatGainsMore(log2: nat -> real, top: seq<Hit>, i: nat, j: nat)
    requires IsLog(log2) && i < j < |top| && top[i].postId == top[j].postId
    ensures Dcg(log2, Gains(OneEach(top[..j]), top)) > Dcg(log2, Ones(j)) > 0.0
  {
    GradedOneEach(top, i, j);
    hide *;
    DcgGrows(log2, Gains(OneEach(top[..j]), top), j + 1);
    OnesGain(log2, j);
    OnesGain(log2, j - 1);
  }

  lemma RepeatBreaksNdcg(log2: nat -> real, hits: seq<Hit>, k: int) returns (relevant: map<int, int>, ideal: seq<int>)
    requires IsLog(log2) && !DistinctPosts(hits[..Cut(|hits|, k)])
    ensures NonNegativeGrades(relevant) && IsIdeal(relevant, ideal)
    ensures Ndcg(log2, hits, relevant, ideal, k) > 1.0
  {
    hide Gains, DistinctPosts, NonNegativeGrades, IsIdeal;
    var top := hits[..Cut(|hits|, k)];
    var i, j := FirstRepeat(top);
    relevant, ideal := OneEach(top[..j]), Ones(j);
    OnesAreIdeal(top[..j]);
    RepeatGainsMore(log2, top, i, j);
    assert ideal[..Cut(|ideal|, k)] == ideal;
    QuotAtMostOne(Dcg(log2, Gains(relevant, top)), Dcg(log2, ideal));
  }

  /** NDCG at k stays within 1 for all relevance judgments exactly when the first k hits are distinct posts. */
  lemma NdcgBoundedIffDistinct(log2: nat -> real, hits: seq<Hit>, k: int)
    requires IsLog(log2)
    ensures DistinctPosts(hits[..Cut(|hits|, k)]) <==>
            forall relevant: map<int, int>, ideal: seq<int> ::
              NonNegativeGrades(relevant) && IsIdeal(relevant, ideal) ==> Ndcg(log2, hits, relevant, ideal, k) <= 1.0
  {
    if DistinctPosts(hits[..Cut(|hits|, k)]) {
      forall relevant: map<int, int>, ideal: seq<int> | NonNegativeGrades(relevant) && IsIdeal(relevant, ideal)
        ensures Ndcg(log2, hits, relevant, ideal, k) <= 1.0
      {
        NdcgInUnitInterval(log2, hits, relevant, ideal, k);
      }
    } else {
      var relevant, ideal := RepeatBreaksNdcg(log2, hits, k);
    }
  }

  // ----- Recall

  lemma {:induction false} FoundAtMost(hits: seq<Hit>, ids: set<int>)
    requires DistinctPosts(hits)
    ensures FoundIn(hits, ids) <= |ids|
    decreases |hits|
  {
    if hits != [] {
      var init, last := hits[..|hits| - 1], hits[|hits| - 1].postId;
      if last in ids {
        FoundAtMost(init, ids - {last});
        FoundIgnores(init, ids, last);
      } else {
        FoundAtMost(init, ids);
      }
    }
  }

  lemma {:induction false} FoundIgnores(hits: seq<Hit>, ids: set<int>, x: int)
    requires forall i :: 0 <= i < |hits| ==> hits[i].postId != x
    ensures FoundIn(hits, ids) == FoundIn(hits, ids - {x})
    decreases |hits|
  {
    if hits != [] {
      FoundIgnores(hits[..|hits| - 1], ids, x);
    }
  }

  lemma {:induction false} FoundTwice(hits: seq<Hit>, i: nat, j: nat)
    requires i < j < |hits| && hits[i].postId == hits[j].postId
    ensures FoundIn(hits, {hits[i].postId}) >= 2
    decreases |hits|
  {
    var n := |hits| - 1;
    if j == n {
      FoundOnce(hits[..n], i);
    } else {
      FoundTwice(hits[..n], i, j);
    }
  }

  lemma {:induction false} FoundOnce(hits: seq<Hit>, i: nat)
    requires i < |hits|
    ensures FoundIn(hits, {hits[i].postId}) >= 1
    decreases |hits|
  {
    var n := |hits| - 1;
    if i < n {
      FoundOnce(hits[..n], i);
    }
  }

  /** Recall at k stays within 1 for all relevance judgments exactly when the first k hits are distinct posts. */
  lemma RecallBoundedIffDistinct(hits: seq<Hit>, k: int)
    ensures DistinctPosts(hits[..Cut(|hits|, k)]) <==>
            forall relevant: map<int, int> :: 0.0 <= Recall(hits, relevant, k) <= 1.0
  {
    var top := hits[..Cut(|hits|, k)];
    if DistinctPosts(top) {
      forall relevant: map<int, int>
        ensures 0.0 <= Recall(hits, relevant, k) <= 1.0
      {
        FoundAtMost(top, relevant.Keys);
        if |relevant| > 0 {
          assert |relevant.Keys| == |relevant|;
          QuotAtMostOne(FoundIn(top, relevant.Keys) as real, |relevant| as real);
          QuotNonNegative(FoundIn(top, relevant.Keys) as real, |relevant| as real);
        }
      }
    } else {
      var i, j := FirstRepeat(top);
      var relevant := map[top[i].postId := 1];
      FoundTwice(top, i, j);
      assert relevant.Keys == {top[i].postId};
      assert |relevant| == 1;
      QuotAtMostOne(FoundIn(top, relevant.Keys) as real, 1.0);
      assert Recall(hits, relevant, k) > 1.0;
    }
  }
}
