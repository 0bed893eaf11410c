/**
  What NDCG measures: the discounted gain of a ranking relative to the best that any ranking of distinct posts
  reaches at k.
 */
module RankingOptimum {
  import opened FiniteSums
  import opened Sequences
  import opened RankingMetrics
  import opened RankingTheorems

  // ----- Descending listings

  /** Any order of the values of a listing is the values of some order of the listing. */
  lemma {:induction false} Rearrange<S, T>(f: S -> T, order: seq<S>, values: seq<T>) returns (s: seq<S>)
    requires Permutes(values, MapSeq(f, order))
    ensures Permutes(s, order) && MapSeq(f, s) == values
    decreases |values|
  {
    PermutesLength(values, MapSeq(f, order));
    if values == [] {
      s := [];
    } else {
      hide MapSeq, Without;
      PermutesMember(values, MapSeq(f, order), values[0]);
      var i := Find(MapSeq(f, order), values[0]);
      var others := Without(order, i);
      MapWithout(f, order, i);
      TailPermutes(values, MapSeq(f, order), i);
      var rest := Rearrange(f, others, values[1..]);
      s := [order[i]] + rest;
      WithoutBag(order, i);
      MapCons(f, order[i], rest);
    }
  }

  lemma MapCons<S, T>(f: S -> T, x: S, s: seq<S>)
    ensures MapSeq(f, [x] + s) == [f(x)] + MapSeq(f, s)
  {
    assert ([x] + s)[1..] == s;
  }

  ghost function HitsOf(ids: seq<int>): (hits: seq<Hit>)
    ensures |hits| == |ids| && forall i :: 0 <= i < |ids| ==> hits[i].postId == ids[i]
  {
    seq(|ids|, i requires 0 <= i < |ids| => Hit(ids[i], 0.0))
  }

  /** The graded posts, each once, from the best grade down. */
  ghost predicate ListsBestFirst(relevant: map<int, int>, hits: seq<Hit>) {
    && DistinctPosts(hits)
    && (forall x :: x in relevant ==> exists i :: 0 <= i < |hits| && hits[i].postId == x)
    && (forall i :: 0 <= i < |hits| ==> hits[i].postId in relevant)
    && forall i, j :: 0 <= i < j < |hits| ==> relevant[hits[i].postId] >= relevant[hits[j].postId]
  }

  lemma BestFirstLists(relevant: map<int, int>, hits: seq<Hit>)
    requires ListsBestFirst(relevant, hits)
    ensures Lists(IdsOf(hits), relevant.Keys)
  {
    var ids := IdsOf(hits);
    forall x
      ensures x in ids <==> x in relevant.Keys
    {
      if x in relevant {
        var i :| 0 <= i < |hits| && hits[i].postId == x;
        assert ids[i] == x;
      }
    }
  }

  lemma GainsAreGrades(relevant: map<int, int>, hits: seq<Hit>)
    ensures MapSeq(GradeOf(relevant), IdsOf(hits)) == Gains(relevant, hits)
  {
    hide MapSeq, Gains, IdsOf;
    var values, gains := MapSeq(GradeOf(relevant), IdsOf(hits)), Gains(relevant, hits);
    forall i | 0 <= i < |hits|
      ensures values[i] == gains[i]
    {
      assert IdsOf(hits)[i] == hits[i].postId;
    }
  }

  lemma BestFirstSorted(relevant: map<int, int>, hits: seq<Hit>)
    requires ListsBestFirst(relevant, hits)
    ensures SortedDesc(Gains(relevant, hits))
  {
    hide Gains;
    var gains := Gains(relevant, hits);
    assert forall i :: 0 <= i < |hits| ==> gains[i] == relevant[hits[i].postId];
  }

  lemma BestFirstIsIdeal(relevant: map<int, int>, hits: seq<Hit>)
    requires ListsBestFirst(relevant, hits)
    ensures IsIdeal(relevant, Gains(relevant, hits))
  {
    BestFirstLists(relevant, hits);
    BestFirstSorted(relevant, hits);
    GainsAreGrades(relevant, hits);
    hide ListsBestFirst, Gains, MapSeq, IdsOf, GradeOf, SortedDesc, Lists;
    assert Permutes(Gains(relevant, hits), MapSeq(GradeOf(relevant), IdsOf(hits)));
  }

  lemma PermutesDistinct<T>(s: seq<T>, t: seq<T>)
    requires Permutes(s, t) && Distinct(t)
    ensures Distinct(s)
  {
    forall i, j | 0 <= i < j < |s|
      ensures s[i] != s[j]
    {
      if s[i] == s[j] {
        CountsTwice(s, i, j);
        CountsOnce(t, s[i]);
      }
    }
  }

  lemma CountsTwice<T>(s: seq<T>, i: nat, j: nat)
    requires i < j < |s| && s[i] == s[j]
    ensures multiset(s)[s[i]] >= 2
  {
    assert s == s[..i] + [s[i]] + s[i + 1..j] + [s[j]] + s[j + 1..];
  }

  lemma {:induction false} CountsOnce<T>(t: seq<T>, x: T)
    requires Distinct(t)
    ensures multiset(t)[x] <= 1
    decreases |t|
  {
    if t != [] {
      var init, last := t[..|t| - 1], t[|t| - 1];
      CountsOnce(init, x);
      assert t == init + [last];
      if x == last {
        assert x !in multiset(init);
      }
    }
  }

  /** The graded posts can always be listed best first. */
  lemma BestFirstExists(relevant: map<int, int>, ideal: seq<int>) returns (hits: seq<Hit>)
    requires IsIdeal(relevant, ideal)
    ensures ListsBestFirst(relevant, hits)
  {
    var order :| Lists(order, relevant.Keys) && Permutes(ideal, MapSeq(GradeOf(relevant), order));
    var ids := Rearrange(GradeOf(relevant), order, ideal);
    PermutesDistinct(ids, order);
    forall x
      ensures x in ids <==> x in relevant
    {
      assert x in ids ==> x in multiset(ids);
      assert x in order ==> x in multiset(order);
    }
    hits := HitsOf(ids);
    ListedBestFirst(relevant, ids, ideal);
  }

  lemma ListedBestFirst(relevant: map<int, int>, ids: seq<int>, ideal: seq<int>)
    requires Distinct(ids) && (forall x :: x in ids <==> x in relevant)
    requires MapSeq(GradeOf(relevant), ids) == ideal && SortedDesc(ideal)
    ensures ListsBestFirst(relevant, HitsOf(ids))
  {
    hide MapSeq, HitsOf;
    var hits := HitsOf(ids);
    forall x | x in relevant
      ensures exists i :: 0 <= i < |hits| && hits[i].postId == x
    {
      var i := Find(ids, x);
      assert hits[i].postId == x;
    }
    forall i | 0 <= i < |hits|
      ensures hits[i].postId in relevant && relevant[hits[i].postId] == ideal[i]
    {
      assert ids[i] in ids;
      assert ideal[i] == GradeOf(relevant)(ids[i]);
    }
  }

  // ----- The gain at k, written out

  ghost function GainOf(log2: nat -> real, relevant: map<int, int>, hits: seq<Hit>): int -> real
    requires IsLog(log2)
  {
    i => if 0 <= i < |hits| && hits[i].postId in relevant
         then Quot(relevant[hits[i].postId] as real, log2(i + 2))
         else 0.0
  }

  ghost function Graded(relevant: map<int, int>, hits: seq<Hit>, k: int): set<int> {
    set i | 0 <= i < |hits| && i < k && hits[i].postId in relevant
  }

  /** Every graded hit among the first k adds its grade over the logarithm of its position. */
  ghost function GainAt(log2: nat -> real, relevant: map<int, int>, hits: seq<Hit>, k: int): real
    requires IsLog(log2)
  {
    Sum(Graded(relevant, hits, k), GainOf(log2, relevant, hits))
  }

  lemma GradedSnoc(relevant: map<int, int>, hits: seq<Hit>)
    requires hits != []
    ensures Graded(relevant, hits, |hits|) ==
            Graded(relevant, hits[..|hits| - 1], |hits| - 1) +
            if hits[|hits| - 1].postId in relevant then {|hits| - 1} else {}
  {
  }

  lemma GainAtSnoc(log2: nat -> real, relevant: map<int, int>, hits: seq<Hit>, init: seq<Hit>, n: nat)
    requires IsLog(log2) && hits != [] && n == |hits| - 1 && init == hits[..n]
    ensures GainAt(log2, relevant, hits, |hits|) ==
            GainAt(log2, relevant, init, n) + Quot(Gain(relevant, hits[n]) as real, log2(n + 2))
  {
    var before, f := Graded(relevant, init, n), GainOf(log2, relevant, hits);
    SumCongruent(before, GainOf(log2, relevant, init), f);
    GradedSnoc(relevant, hits);
    assert n !in before;
    assert Quot(0.0, log2(n + 2)) == 0.0;
    hide Graded;
    if hits[n].postId in relevant {
      SumInsert(before, f, n);
    } else {
      assert before + {} == before;
    }
  }

  lemma {:induction false} GainOfAll(log2: nat -> real, relevant: map<int, int>, hits: seq<Hit>)
    requires IsLog(log2)
    ensures Dcg(log2, Gains(relevant, hits)) == GainAt(log2, relevant, hits, |hits|)
    decreases |hits|
  {
    if hits == [] {
      assert Graded(relevant, hits, 0) == {};
    } else {
      hide *;
      var n := |hits| - 1;
      GainOfAll(log2, relevant, hits[..n]);
      GainsSnoc(log2, relevant, hits, n);
      GainAtSnoc(log2, relevant, hits, hits[..n], n);
      assert hits[..n + 1] == hits;
    }
  }

  /** The discounted gain the program adds up is that sum. */
  lemma GainInFull(log2: nat -> real, relevant: map<int, int>, hits: seq<Hit>, k: int)
    requires IsLog(log2)
    ensures Dcg(log2, Gains(relevant, hits[..Cut(|hits|, k)])) == GainAt(log2, relevant, hits, k)
  {
    var top := hits[..Cut(|hits|, k)];
    GainOfAll(log2, relevant, top);
    assert Graded(relevant, hits, k) == Graded(relevant, top, |top|);
    SumCongruent(Graded(relevant, hits, k), GainOf(log2, relevant, top), GainOf(log2, relevant, hits));
  }

  // ----- NDCG

  /** NDCG is the gain of the hits relative to that of the graded posts listed best first. */
  lemma NdcgIsRelative(log2: nat -> real, hits: seq<Hit>, relevant: map<int, int>, ideal: seq<int>, k: int,
                       best: seq<Hit>)
    requires IsLog(log2) && IsIdeal(relevant, ideal) && ListsBestFirst(relevant, best)
    ensures GainAt(log2, relevant, best, k) == Dcg(log2, ideal[..Cut(|ideal|, k)])
    ensures GainAt(log2, relevant, best, k) == 0.0 ==> Ndcg(log2, hits, relevant, ideal, k) == 0.0
    ensures GainAt(log2, relevant, best, k) != 0.0 ==>
              Prod(Ndcg(log2, hits, relevant, ideal, k), GainAt(log2, relevant, best, k))
              == GainAt(log2, relevant, hits, k)
  {
    hide ListsBestFirst, IsIdeal, GainAt, Dcg;
    BestFirstIsIdeal(relevant, best);
    IdealIsUnique(relevant, ideal, Gains(relevant, best));
    GainsCut(relevant, best, k);
    GainInFull(log2, relevant, best, k);
    GainInFull(log2, relevant, hits, k);
    if GainAt(log2, relevant, best, k) != 0.0 {
      QuotTimes(GainAt(log2, relevant, hits, k), GainAt(log2, relevant, best, k));
    }
  }

  lemma GainsCut(relevant: map<int, int>, hits: seq<Hit>, k: int)
    ensures Gains(relevant, hits)[..Cut(|hits|, k)] == Gains(relevant, hits[..Cut(|hits|, k)])
  {
  }

  lemma QuotTimes(x: real, d: real)
    requires d != 0.0
    ensures Prod(Quot(x, d), d) == x
    ensures Quot(x, d) == 1.0 <==> x == d
  {
    var q := Quot(x, d);
    assert q * d == x;
    assert q == 1.0 ==> x == d;
  }

  lemma BestGainPositive(log2: nat -> real, relevant: map<int, int>, ideal: seq<int>, k: int)
    requires IsLog(log2) && IsIdeal(relevant, ideal) && NonNegativeGrades(relevant) && k >= 1
    requires exists x :: x in relevant && relevant[x] > 0
    ensures Dcg(log2, ideal[..Cut(|ideal|, k)]) > 0.0
  {
    var x :| x in relevant && relevant[x] > 0;
    var order :| Lists(order, relevant.Keys) && Permutes(ideal, MapSeq(GradeOf(relevant), order));
    IdealNonNegative(relevant, order, ideal);
    var grades := MapSeq(GradeOf(relevant), order);
    var i := Find(order, x);
    assert grades[i] == GradeOf(relevant)(x) == relevant[x];
    PermutesMember(grades, ideal, relevant[x]);
    FirstGainPositive(log2, ideal, k);
  }

  lemma FirstGainPositive(log2: nat -> real, ideal: seq<int>, k: int)
    requires IsLog(log2) && SortedDesc(ideal) && NonNegative(ideal) && k >= 1
    requires exists g :: g in ideal && g > 0
    ensures Dcg(log2, ideal[..Cut(|ideal|, k)]) > 0.0
  {
    var g :| g in ideal && g > 0;
    var i := Find(ideal, g);
    assert ideal[0] >= g;
    var top := ideal[..Cut(|ideal|, k)];
    DcgGrows(log2, top, 1);
    assert top[..1][..0] == [];
    QuotPositive(ideal[0] as real, log2(2));
  }

  ghost predicate DistinctAt(hits: seq<Hit>, k: int) {
    forall i, j :: 0 <= i < j < |hits| && j < k ==> hits[i].postId != hits[j].postId
  }

  /** The gain of distinct hits is at most that of the graded posts listed best first. */
  lemma NoneGainsMore(log2: nat -> real, hits: seq<Hit>, relevant: map<int, int>, best: seq<Hit>, k: int)
    requires IsLog(log2) && NonNegativeGrades(relevant) && DistinctAt(hits, k) && ListsBestFirst(relevant, best)
    ensures 0.0 <= GainAt(log2, relevant, hits, k) <= GainAt(log2, relevant, best, k)
  {
    var ideal := Gains(relevant, best);
    BestFirstIsIdeal(relevant, best);
    var top := hits[..Cut(|hits|, k)];
    assert DistinctPosts(top);
    DcgAtMostIdeal(log2, hits, relevant, ideal, k);
    GainInFull(log2, relevant, hits, k);
    GainInFull(log2, relevant, best, k);
    GainsCut(relevant, best, k);
  }

  /** NDCG is 1 exactly for the hits that no list of distinct posts out-gains at k. */
  lemma NdcgIsOneIff(log2: nat -> real, hits: seq<Hit>, relevant: map<int, int>, ideal: seq<int>, k: int)
    requires IsLog(log2) && IsIdeal(relevant, ideal) && NonNegativeGrades(relevant) && k >= 1
    requires exists x :: x in relevant && relevant[x] > 0
    requires DistinctAt(hits, k)
    ensures Ndcg(log2, hits, relevant, ideal, k) == 1.0 <==>
            forall other: seq<Hit> ::
              DistinctAt(other, k) ==> GainAt(log2, relevant, other, k) <= GainAt(log2, relevant, hits, k)
  {
    var best := BestFirstExists(relevant, ideal);
    BestGainPositive(log2, relevant, ideal, k);
    hide ListsBestFirst, IsIdeal, GainAt, Dcg, NonNegativeGrades;
    NdcgIsRelative(log2, hits, relevant, ideal, k, best);
    GainInFull(log2, relevant, hits, k);
    QuotTimes(GainAt(log2, relevant, hits, k), GainAt(log2, relevant, best, k));
    NoneGainsMore(log2, hits, relevant, best, k);
    if Ndcg(log2, hits, relevant, ideal, k) == 1.0 {
      forall other: seq<Hit> | DistinctAt(other, k)
        ensures GainAt(log2, relevant, other, k) <= GainAt(log2, relevant, hits, k)
      {
        NoneGainsMore(log2, other, relevant, best, k);
      }
    } else {
      BestIsDistinct(relevant, best, k);
    }
  }

  lemma BestIsDistinct(relevant: map<int, int>, best: seq<Hit>, k: int)
    requires ListsBestFirst(relevant, best)
    ensures DistinctAt(best, k)
  {
  }

  /** Listing the graded posts best first scores exactly 1, wherever it is cut. */
  lemma BestFirstScoresOne(log2: nat -> real, relevant: map<int, int>, ideal: seq<int>, best: seq<Hit>, k: int)
    requires IsLog(log2) && IsIdeal(relevant, ideal) && NonNegativeGrades(relevant) && k >= 1
    requires exists x :: x in relevant && relevant[x] > 0
    requires ListsBestFirst(relevant, best)
    ensures Ndcg(log2, best, relevant, ideal, k) == 1.0
  {
    BestGainPositive(log2, relevant, ideal, k);
    hide ListsBestFirst, IsIdeal, GainAt, Dcg, NonNegativeGrades;
    NdcgIsRelative(log2, best, relevant, ideal, k, best);
    GainInFull(log2, relevant, best, k);
    QuotTimes(GainAt(log2, relevant, best, k), GainAt(log2, relevant, best, k));
  }

  // ----- Recall

  ghost predicate AmongFirst(hits: seq<Hit>, k: int, x: int) {
    exists i :: 0 <= i < |hits| && i < k && hits[i].postId == x
  }

  ghost function Retrieved(hits: seq<Hit>, k: int, ids: set<int>): set<int> {
    set x | x in ids && AmongFirst(hits, k, x)
  }

  lemma RetrievedSnoc(hits: seq<Hit>, ids: set<int>)
    requires DistinctPosts(hits) && hits != []
    ensures hits[|hits| - 1].postId !in Retrieved(hits[..|hits| - 1], |hits| - 1, ids)
    ensures Retrieved(hits, |hits|, ids) ==
            Retrieved(hits[..|hits| - 1], |hits| - 1, ids) +
            if hits[|hits| - 1].postId in ids then {hits[|hits| - 1].postId} else {}
  {
    var n := |hits| - 1;
    forall x | x in ids
      ensures AmongFirst(hits, |hits|, x) <==> AmongFirst(hits[..n], n, x) || hits[n].postId == x
    {
      if AmongFirst(hits[..n], n, x) {
        var i :| 0 <= i < n && i < n && hits[..n][i].postId == x;
        assert hits[i].postId == x;
      }
      if AmongFirst(hits, |hits|, x) {
        var i :| 0 <= i < |hits| && i < |hits| && hits[i].postId == x;
        assert i < n ==> hits[..n][i].postId == x;
      }
    }
  }

  lemma OneMore<T>(s: set<T>, x: T)
    requires x !in s
    ensures |s + {x}| == |s| + 1 && s + {} == s
  {
  }

  lemma {:induction false} FoundCounts(hits: seq<Hit>, ids: set<int>)
    requires DistinctPosts(hits)
    ensures FoundIn(hits, ids) == |Retrieved(hits, |hits|, ids)|
    decreases |hits|
  {
    if hits == [] {
      assert Retrieved(hits, |hits|, ids) == {};
    } else {
      var n := |hits| - 1;
      assert DistinctPosts(hits[..n]);
      FoundCounts(hits[..n], ids);
      RetrievedSnoc(hits, ids);
      hide Retrieved, DistinctPosts;
      OneMore(Retrieved(hits[..n], n, ids), hits[n].postId);
    }
  }

  /** For distinct hits, recall is the share of the relevant posts among the first k, and 1 when none is missed. */
  lemma RecallIsShareFound(hits: seq<Hit>, relevant: map<int, int>, k: int)
    requires relevant != map[] && DistinctAt(hits, k)
    ensures Prod(Recall(hits, relevant, k), |relevant| as real) == |Retrieved(hits, k, relevant.Keys)| as real
    ensures Recall(hits, relevant, k) == 1.0 <==> forall x :: x in relevant ==> AmongFirst(hits, k, x)
  {
    var top, ids := hits[..Cut(|hits|, k)], relevant.Keys;
    assert DistinctPosts(top);
    FoundCounts(top, ids);
    RetrievedCut(hits, k, ids);
    var found := Retrieved(hits, k, ids);
    assert |ids| == |relevant| > 0;
    QuotTimes(|found| as real, |relevant| as real);
    SubsetIsAll(found, ids);
  }

  lemma RetrievedCut(hits: seq<Hit>, k: int, ids: set<int>)
    ensures Retrieved(hits[..Cut(|hits|, k)], Cut(|hits|, k), ids) == Retrieved(hits, k, ids)
  {
    var n := Cut(|hits|, k);
    forall x | x in ids
      ensures AmongFirst(hits[..n], n, x) <==> AmongFirst(hits, k, x)
    {
      if AmongFirst(hits, k, x) {
        var i :| 0 <= i < |hits| && i < k && hits[i].postId == x;
        assert hits[..n][i].postId == x;
      }
    }
  }

  lemma SubsetIsAll<T>(s: set<T>, t: set<T>)
    requires s <= t
    ensures |s| <= |t|
    ensures |s| == |t| <==> s == t
  {
    assert t == s + (t - s);
    assert |t| == |s| + |t - s|;
  }
}
