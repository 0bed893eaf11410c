/** The similarity scores on inputs whose similarity is known. */
module SimilarityLaws {
  import opened EditDistance
  import opened FiniteSums
  import opened ThreadSimilarity

  // ----- Titles

  /** The score takes off one part in the longer title's length for every edit. */
  lemma TitleScoreCounts(a: seq<byte>, b: seq<byte>)
    requires a != [] && b != []
    ensures Prod(1.0 - TitleScore(a, b), (if |a| < |b| then |b| else |a|) as real) == Distance(a, b) as real
  {
    var n := Max(|a|, |b|) as real;
    QuotientTimes(Distance(a, b) as real, n);
    hide Distance;
  }

  lemma QuotientTimes(x: real, n: real)
    requires n != 0.0
    ensures Prod(1.0 - (1.0 - x / n), n) == x
  {
    var q := x / n;
    assert q * n == x;
  }

  /** One edit more at the same length costs one part in that length. */
  lemma OneMoreEditCosts(a: seq<byte>, b: seq<byte>, c: seq<byte>)
    requires a != [] && |b| == |a| == |c| && Distance(a, c) == Distance(a, b) + 1
    ensures TitleScore(a, c) == TitleScore(a, b) - 1.0 / |a| as real
  {
    hide Distance;
    PartsAdd(Distance(a, b) as real, |a| as real);
    assert (Distance(a, b) + 1) as real == Distance(a, b) as real + 1.0;
  }

  lemma PartsAdd(x: real, n: real)
    requires n != 0.0
    ensures (x + 1.0) / n == x / n + 1.0 / n
  {
  }

  /** Replacing one byte of a title by another makes it similar to itself but for one part in its length. */
  lemma ReplacedByteCosts(a: seq<byte>, i: nat, x: byte)
    requires i < |a| && a[i] != x
    ensures TitleScore(a, a[i := x]) == 1.0 - 1.0 / |a| as real
  {
    var b := a[i := x];
    var e := Edit.Replace(i, x);
    assert Apply(e, a) == b;
    OneEditAway(e, a);
    DistanceZeroIffEqual(a, b);
    assert b[i] != a[i];
    hide Distance;
  }

  // ----- Texts

  ghost function Shared(a: seq<Word>, b: seq<Word>): set<int> {
    set i | 0 <= i < |b| && b[i] in a
  }

  lemma {:induction false} CommonCounts(a: seq<Word>, b: seq<Word>)
    ensures Common(a, b) == |Shared(a, b)|
    decreases |b|
  {
    if b == [] {
      assert Shared(a, b) == {};
    } else {
      var n := |b| - 1;
      CommonCounts(a, b[..n]);
      SharedSnoc(a, b);
    }
  }

  lemma SharedSnoc(a: seq<Word>, b: seq<Word>)
    requires b != []
    ensures |b| - 1 !in Shared(a, b[..|b| - 1])
    ensures Shared(a, b) == Shared(a, b[..|b| - 1]) + if b[|b| - 1] in a then {|b| - 1} else {}
  {
  }

  /** The score is the number of positions of b that hold a word of a, over the longer text's length. */
  lemma TextScoreCounts(a: seq<Word>, b: seq<Word>)
    requires a != [] && b != []
    ensures Prod(TextScore(a, b), (if |a| < |b| then |b| else |a|) as real) ==
            |set i | 0 <= i < |b| && b[i] in a| as real
  {
    CommonCounts(a, b);
    RatioTimes(Common(a, b) as real, Max(|a|, |b|) as real);
  }

  lemma RatioTimes(x: real, n: real)
    requires n != 0.0
    ensures Prod(x / n, n) == x
  {
    var q := x / n;
    assert q * n == x;
  }

  // ----- Embeddings

  ghost function Scaled(c: real, a: seq<real>): (b: seq<real>)
    ensures |b| == |a| && forall i :: 0 <= i < |a| ==> b[i] == Prod(c, a[i])
  {
    seq(|a|, i requires 0 <= i < |a| => Prod(c, a[i]))
  }

  lemma DotAppends(a: seq<real>, b: seq<real>, x: real, y: real)
    requires |a| == |b|
    ensures Dot(a + [x], b + [y]) == Dot(a, b) + Prod(x, y)
    ensures Dot([], []) == 0.0
  {
    assert (a + [x])[..|a|] == a && (b + [y])[..|b|] == b;
  }

  lemma {:induction false} DotScales(a: seq<real>, c: real)
    ensures Dot(a, Scaled(c, a)) == Prod(c, Dot(a, a))
    ensures Dot(Scaled(c, a), Scaled(c, a)) == Prod(Prod(c, c), Dot(a, a))
    decreases |a|
  {
    if a == [] {
      ProdUnits(c);
      ProdUnits(Prod(c, c));
    } else {
      var n := |a| - 1;
      DotScales(a[..n], c);
      assert Scaled(c, a)[..n] == Scaled(c, a[..n]);
      ProdAdds(c, Dot(a[..n], a[..n]), Prod(a[n], a[n]));
      ProdAdds(Prod(c, c), Dot(a[..n], a[..n]), Prod(a[n], a[n]));
      Rearranged(c, a[n]);
    }
  }

  lemma Rearranged(c: real, x: real)
    ensures Prod(x, Prod(c, x)) == Prod(c, Prod(x, x))
    ensures Prod(Prod(c, x), Prod(c, x)) == Prod(Prod(c, c), Prod(x, x))
  {
  }

  lemma {:induction false} NonZeroNorm(a: seq<real>, i: nat)
    requires i < |a| && a[i] != 0.0
    ensures Dot(a, a) > 0.0
    decreases |a|
  {
    var n := |a| - 1;
    SquaresNonNegative(a[..n]);
    SquareSign(a[n]);
    if i < n {
      NonZeroNorm(a[..n], i);
    }
  }

  lemma ProductPositive(x: real, y: real)
    requires x > 0.0 && y > 0.0
    ensures Prod(x, y) > 0.0
  {
  }

  lemma SquareSign(x: real)
    ensures Prod(x, x) >= 0.0
    ensures x != 0.0 ==> Prod(x, x) > 0.0
  {
    if x > 0.0 {
      ProductPositive(x, x);
    } else if x < 0.0 {
      ProductPositive(-x, -x);
      assert (-x) * (-x) == x * x;
    }
  }

  /** The root of a square times a number. */
  lemma RootScales(sqrt: real -> real, c: real, d: real)
    requires IsSquareRoot(sqrt) && d > 0.0
    ensures sqrt(d) > 0.0
    ensures Prod(Prod(c, c), d) >= 0.0 && sqrt(Prod(Prod(c, c), d)) == Prod(Abs(c), sqrt(d))
  {
    var r := sqrt(d);
    SquareSign(c);
    assert r * r == d;
    assert r > 0.0;
    var e := Prod(Prod(c, c), d);
    assert e >= 0.0;
    var p, q := sqrt(e), Prod(Abs(c), r);
    assert q * q == e by {
      assert Abs(c) * Abs(c) == c * c;
      assert q * q == (Abs(c) * Abs(c)) * (r * r);
    }
    SameRoot(p, q);
  }

  lemma SameRoot(p: real, q: real)
    requires p >= 0.0 && q >= 0.0 && p * p == q * q
    ensures p == q
  {
    if p < q {
      SquareGrows(p, q);
    } else if q < p {
      SquareGrows(q, p);
    }
  }

  /** A vector and a positive multiple of it have cosine 1, a negative multiple of it -1. */
  lemma CosineOfMultiple(sqrt: real -> real, a: seq<real>, b: seq<real>, c: real, k: nat)
    requires IsSquareRoot(sqrt) && k < |a| && a[k] != 0.0 && c != 0.0
    requires |b| == |a| && forall i :: 0 <= i < |a| ==> b[i] == Prod(c, a[i])
    ensures CosineScore(sqrt, a, b) == if c > 0.0 then 1.0 else -1.0
  {
    assert b == Scaled(c, a);
    NonZeroNorm(a, k);
    DotScales(a, c);
    var d := Dot(a, a);
    RootScales(sqrt, c, d);
    SquareSign(c);
    ProductPositive(Prod(c, c), d);
    UnitSign(c, d, sqrt(d));
  }

  lemma UnitSign(c: real, d: real, r: real)
    requires c != 0.0 && r > 0.0 && Prod(r, r) == d
    ensures Prod(r, Prod(Abs(c), r)) != 0.0
    ensures Quot(Prod(c, d), Prod(r, Prod(Abs(c), r))) == if c > 0.0 then 1.0 else -1.0
  {
    var m := Prod(r, Prod(Abs(c), r));
    assert m == Prod(Abs(c), d);
    assert d > 0.0;
    assert m > 0.0;
    assert Prod(c, d) == if c > 0.0 then m else -m;
    assert m / m == 1.0 && (-m) / m == -1.0;
  }

  lemma {:induction false} OrthogonalDot(a: seq<real>, b: seq<real>)
    requires |a| == |b| && forall i :: 0 <= i < |a| ==> a[i] == 0.0 || b[i] == 0.0
    ensures Dot(a, b) == 0.0
    decreases |a|
  {
    if a != [] {
      var n := |a| - 1;
      OrthogonalDot(a[..n], b[..n]);
      ProdUnits(a[n]);
      ProdUnits(b[n]);
    }
  }

  /** Vectors without a common non-zero entry have cosine 0. */
  lemma CosineOfDisjoint(sqrt: real -> real, a: seq<real>, b: seq<real>)
    requires IsSquareRoot(sqrt) && |a| == |b| && forall i :: 0 <= i < |a| ==> a[i] == 0.0 || b[i] == 0.0
    ensures CosineScore(sqrt, a, b) == 0.0
  {
    OrthogonalDot(a, b);
    hide Dot;
    if Dot(a, a) != 0.0 && Dot(b, b) != 0.0 {
      SquaresNonNegative(a);
      SquaresNonNegative(b);
      RootsPositive(sqrt, Dot(a, a), Dot(b, b));
      ZeroQuot(Prod(sqrt(Dot(a, a)), sqrt(Dot(b, b))));
    }
  }

  lemma ZeroQuot(d: real)
    requires d != 0.0
    ensures Quot(0.0, d) == 0.0
  {
  }
}
