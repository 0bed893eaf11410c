/**
  Ranking metrics of the evaluation bench: recall and normalized discounted cumulative gain at k, with
  the in-place insertion sort behind the ideal ranking.
 */
module RankingMetrics {
  import opened FiniteSums
  import opened Sequences

  datatype Hit = Hit(postId: int, score: real)

  // ----- Insertion sort, descending

  ghost predicate SortedDesc(s: seq<int>) {
    forall i, j :: 0 <= i < j < |s| ==> s[i] >= s[j]
  }

  /** Sorted but for the element at j, which may still have to move towards the front. */
  ghost predicate SortedExcept(s: seq<int>, n: nat, j: nat) {
    && j < n <= |s|
    && (forall p, q :: 0 <= p < q < n && p != j && q != j ==> s[p] >= s[q])
    && (forall q :: j < q < n ==> s[j] >= s[q])
  }

  method Swap(xs: array<int>, i: nat)
    requires 0 < i < xs.Length
    modifies xs
    ensures xs[..] == old(xs[..])[i - 1 := old(xs[i])][i := old(xs[i - 1])]
    ensures Permutes(xs[..], old(xs[..]))
  {
    xs[i - 1], xs[i] := xs[i], xs[i - 1];
  }

  method Sink(xs: array<int>, i: nat)
    requires 0 < i < xs.Length && SortedDesc(xs[..i])
    modifies xs
    ensures SortedDesc(xs[..i + 1]) && Permutes(xs[..], old(xs[..]))
  {
    var j := i;
    while j > 0 && xs[j - 1] < xs[j]
      invariant 0 <= j <= i && SortedExcept(xs[..], i + 1, j)
      invariant Permutes(xs[..], old(xs[..]))
    {
      Swap(xs, j);
      j := j - 1;
    }
  }

  method SortDesc(xs: array<int>)
    modifies xs
    ensures SortedDesc(xs[..]) && Permutes(xs[..], old(xs[..]))
  {
    var i := 1;
    while i < xs.Length
      invariant 1 <= i && (i <= xs.Length || xs.Length == 0)
      invariant xs.Length > 0 ==> SortedDesc(xs[..i])
      invariant Permutes(xs[..], old(xs[..]))
    {
      Sink(xs, i);
      i := i + 1;
    }
    assert xs.Length > 0 ==> xs[..xs.Length] == xs[..];
  }

  /** Two sorted arrangements of the same grades are equal, so any sort gives the same ideal ranking. */
  lemma {:induction false} SortedIsUnique(s: seq<int>, t: seq<int>)
    requires SortedDesc(s) && SortedDesc(t) && Permutes(s, t)
    ensures s == t
    decreases |s|
  {
    PermutesLength(s, t);
    if s != [] {
      PermutesMember(s, t, s[0]);
      PermutesMember(t, s, t[0]);
      assert s[0] == t[0];
      PermutesTail(s, t);
      SortedIsUnique(s[1..], t[1..]);
    }
  }

  // ----- Discounted gain

  /** The binary logarithm, as far as the discount needs it: positive from 2 on, and non-decreasing. */
  ghost predicate IsLog(log2: nat -> real) {
    && (forall n :: n >= 2 ==> log2(n) > 0.0)
    && forall m, n :: 2 <= m <= n ==> log2(m) <= log2(n)
  }

  ghost function Weight(log2: nat -> real, i: nat): real
    requires IsLog(log2)
  {
    Quot(1.0, log2(i + 2))
  }

  /** Discounted cumulative gain of a whole list of grades. */
  ghost function Dcg(log2: nat -> real, gains: seq<int>): real
    requires IsLog(log2)
  {
    if gains == [] then 0.0
    else
      var n := |gains| - 1;
      Dcg(log2, gains[..n]) + Quot(gains[n] as real, log2(n + 2))
  }

  /** How many entries of a list of length n the cut-off k leaves. */
  function Cut(n: nat, k: int): (c: nat)
    ensures c <= n
  {
    if k < 0 then 0 else if k < n then k else n
  }

  function Gain(relevant: map<int, int>, h: Hit): int {
    if h.postId in relevant then relevant[h.postId] else 0
  }

  ghost function Gains(relevant: map<int, int>, hits: seq<Hit>): (r: seq<int>)
    ensures |r| == |hits| && forall i :: 0 <= i < |hits| ==> r[i] == Gain(relevant, hits[i])
  {
    MapSeq(h => Gain(relevant, h), hits)
  }

  ghost function GradeOf(relevant: map<int, int>): int -> int {
    x => if x in relevant then relevant[x] else 0
  }

  /** The grades in descending order, however the map is iterated. */
  ghost predicate IsIdeal(relevant: map<int, int>, ideal: seq<int>) {
    && SortedDesc(ideal)
    && exists order :: Lists(order, relevant.Keys) && Permutes(ideal, MapSeq(GradeOf(relevant), order))
  }

  /** There is only one ideal ranking, so the metric does not depend on the iteration order. */
  lemma IdealIsUnique(relevant: map<int, int>, s: seq<int>, t: seq<int>)
    requires IsIdeal(relevant, s) && IsIdeal(relevant, t)
    ensures s == t
  {
    var o :| Lists(o, relevant.Keys) && Permutes(s, MapSeq(GradeOf(relevant), o));
    var p :| Lists(p, relevant.Keys) && Permutes(t, MapSeq(GradeOf(relevant), p));
    MapSameBag(GradeOf(relevant), o, p, relevant.Keys);
    SortedIsUnique(s, t);
  }

  ghost function Ndcg(log2: nat -> real, hits: seq<Hit>, relevant: map<int, int>, ideal: seq<int>, k: int): real
    requires IsLog(log2)
  {
    var idcg := Dcg(log2, ideal[..Cut(|ideal|, k)]);
    if idcg == 0.0 then 0.0
    else Quot(Dcg(log2, Gains(relevant, hits[..Cut(|hits|, k)])), idcg)
  }

  lemma GainsSnoc(log2: nat -> real, relevant: map<int, int>, hits: seq<Hit>, i: nat)
    requires IsLog(log2) && i < |hits|
    ensures Dcg(log2, Gains(relevant, hits[..i + 1]))
         == Dcg(log2, Gains(relevant, hits[..i])) + Quot(Gain(relevant, hits[i]) as real, log2(i + 2))
    ensures Quot(0.0, log2(i + 2)) == 0.0
  {
    var longer := Gains(relevant, hits[..i + 1]);
    assert longer[..i] == Gains(relevant, hits[..i]);
  }

  /** The gain of the first k hits; a hit without a grade adds nothing. */
  method HitsDcg(log2: nat -> real, hits: seq<Hit>, relevant: map<int, int>, k: int) returns (dcg: real)
    requires IsLog(log2)
    ensures dcg == Dcg(log2, Gains(relevant, hits[..Cut(|hits|, k)]))
  {
    dcg := 0.0;
    var i := 0;
    while i < |hits|
      invariant 0 <= i <= Cut(|hits|, k) && dcg == Dcg(log2, Gains(relevant, hits[..i]))
      decreases |hits| - i
    {
      if i >= k {
        break;
      }
      GainsSnoc(log2, relevant, hits, i);
      if hits[i].postId in relevant {
        dcg := dcg + Quot(relevant[hits[i].postId] as real, log2(i + 2));
      }
      i := i + 1;
    }
  }

  method IdealDcg(log2: nat -> real, grades: seq<int>, k: int) returns (idcg: real)
    requires IsLog(log2)
    ensures idcg == Dcg(log2, grades[..Cut(|grades|, k)])
  {
    idcg := 0.0;
    var i := 0;
    while i < |grades|
      invariant 0 <= i <= Cut(|grades|, k) && idcg == Dcg(log2, grades[..i])
      decreases |grades| - i
    {
      if i >= k {
        break;
      }
      assert grades[..i + 1][..i] == grades[..i];
      idcg := idcg + Quot(grades[i] as real, log2(i + 2));
      i := i + 1;
    }
  }

  /** The grades of the map in an arbitrary order. */
  method CollectGrades(relevant: map<int, int>) returns (grades: seq<int>)
    ensures exists order :: Lists(order, relevant.Keys) && grades == MapSeq(GradeOf(relevant), order)
  {
    grades := [];
    ghost var order: seq<int> := [];
    var rest := relevant.Keys;
    while rest != {}
      invariant rest <= relevant.Keys
      invariant Distinct(order) && forall x :: x in order <==> x in relevant && x !in rest
      invariant grades == MapSeq(GradeOf(relevant), order)
      decreases rest
    {
      var x := PickAny(rest);
      grades := grades + [relevant[x]];
      order := order + [x];
      rest := rest - {x};
    }
    assert Lists(order, relevant.Keys);
  }

  method NdcgAtK(log2: nat -> real, hits: seq<Hit>, relevant: map<int, int>, k: int) returns (r: real)
    requires IsLog(log2)
    ensures exists ideal :: IsIdeal(relevant, ideal) && r == Ndcg(log2, hits, relevant, ideal, k)
  {
    var dcg := HitsDcg(log2, hits, relevant, k);
    var collected := CollectGrades(relevant);
    var grades := new int[|collected|](i requires 0 <= i < |collected| => collected[i]);
    assert grades[..] == collected;
    SortDesc(grades);
    assert IsIdeal(relevant, grades[..]);
    var idcg := IdealDcg(log2, grades[..], k);
    if idcg == 0.0 {
      return 0.0;
    }
    r := Quot(dcg, idcg);
  }

  method RecallAtK(hits: seq<Hit>, relevant: map<int, int>, k: int) returns (r: real)
    ensures r == Recall(hits, relevant, k)
  {
    if |relevant| == 0 {
      return 0.0;
    }
    var found := 0;
    var i := 0;
    while i < |hits|
      invariant 0 <= i <= Cut(|hits|, k) && found == FoundIn(hits[..i], relevant.Keys)
      decreases |hits| - i
    {
      if i >= k {
        break;
      }
      assert hits[..i + 1][..i] == hits[..i];
      if hits[i].postId in relevant {
        found := found + 1;
      }
      i := i + 1;
    }
    return found as real / |relevant| as real;
  }

  /** How many hits, repetitions included, are in a set of ids. */
  ghost function FoundIn(hits: seq<Hit>, ids: set<int>): nat {
    if hits == [] then 0
    else FoundIn(hits[..|hits| - 1], ids) + if hits[|hits| - 1].postId in ids then 1 else 0
  }

  ghost function Recall(hits: seq<Hit>, relevant: map<int, int>, k: int): real {
    if |relevant| == 0 then 0.0
    else FoundIn(hits[..Cut(|hits|, k)], relevant.Keys) as real / |relevant| as real
  }
}
