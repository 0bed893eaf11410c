/**
  Similarity of two threads: titles by edit distance, opening posts by shared words or by the cosine of
  their embeddings, and the confidence stored for a continuity link.
 */
module ThreadSimilarity {
  import opened EditDistance
  import opened FiniteSums
  import opened Sequences

  // ----- Titles

  /** One minus the edit distance relative to the longer title; nothing is similar to an empty title. */
  ghost function TitleScore(a: seq<byte>, b: seq<byte>): real {
    if a == [] || b == [] then 0.0
    else 1.0 - Distance(a, b) as real / Max(|a|, |b|) as real
  }

  /** `norm` trims and lower-cases a title. The shortcuts agree with the general formula. */
  method TitleSimilarity(norm: seq<byte> -> seq<byte>, a0: seq<byte>, b0: seq<byte>) returns (r: real)
    ensures r == TitleScore(norm(a0), norm(b0))
  {
    var a, b := norm(a0), norm(b0);
    if a == [] || b == [] {
      return 0.0;
    }
    if a == b {
      DistanceToSelf(a);
      return 1.0;
    }
    if HasPrefix(a, b) || HasPrefix(b, a) {
      PrefixScore(a, b);
      var minLen := |a|;
      if |b| < minLen {
        minLen := |b|;
      }
      var maxLen := |a|;
      if |b| > maxLen {
        maxLen := |b|;
      }
      return minLen as real / maxLen as real;
    }
    var d := Levenshtein(a, b);
    return 1.0 - d as real / Max(|a|, |b|) as real;
  }

  lemma PrefixScore(a: seq<byte>, b: seq<byte>)
    requires a != [] && b != [] && (HasPrefix(a, b) || HasPrefix(b, a))
    ensures TitleScore(a, b) == (if |b| < |a| then |b| else |a|) as real / Max(|a|, |b|) as real
  {
    if HasPrefix(a, b) {
      DistanceToPrefix(a, b);
      OneMinusRatio(|b|, |a|);
    } else {
      DistanceToPrefix(b, a);
      DistanceSymmetric(a, b);
      OneMinusRatio(|a|, |b|);
    }
  }

  lemma OneMinusRatio(k: nat, n: nat)
    requires 0 < n && k <= n
    ensures 1.0 - (n - k) as real / n as real == k as real / n as real
  {
    ComplementaryParts((n - k) as real, k as real, n as real);
  }

  /** Two parts of a whole make up one. */
  lemma ComplementaryParts(x: real, y: real, d: real)
    requires d > 0.0 && x + y == d
    ensures x / d + y / d == 1.0
  {
    var p, q := x / d, y / d;
    assert p * d == x && q * d == y;
    SameMultiple(p + q, 1.0, d);
  }

  lemma SameMultiple(p: real, q: real, d: real)
    requires d > 0.0 && p * d == q * d
    ensures p == q
  {
    assert (p - q) * d == 0.0;
  }

  /** Between 0 and 1, the same in both directions, and 1 exactly for equal titles. */
  lemma TitleScoreLaws(a: seq<byte>, b: seq<byte>)
    ensures 0.0 <= TitleScore(a, b) <= 1.0
    ensures TitleScore(a, b) == TitleScore(b, a)
    ensures a != [] && b != [] ==> (TitleScore(a, b) == 1.0 <==> a == b)
  {
    DistanceSymmetric(a, b);
    DistanceZeroIffEqual(a, b);
    LengthBound(a, b);
    if a != [] && b != [] {
      RatioLaws(Distance(a, b), Max(|a|, |b|));
    }
  }

  lemma RatioLaws(k: nat, n: nat)
    requires 0 < n && k <= n
    ensures 0.0 <= k as real / n as real <= 1.0
    ensures k as real / n as real == 0.0 <==> k == 0
  {
    var q := k as real / n as real;
    assert q * n as real == k as real;
  }

  // ----- Opening posts by words

  type Word = seq<byte>

  /** How many entries of b, repetitions included, also occur in a. */
  ghost function Common(a: seq<Word>, b: seq<Word>): nat {
    if b == [] then 0
    else Common(a, b[..|b| - 1]) + if b[|b| - 1] in a then 1 else 0
  }

  ghost function TextScore(a: seq<Word>, b: seq<Word>): real {
    if a == [] || b == [] then 0.0
    else Common(a, b) as real / Max(|a|, |b|) as real
  }

  /** `fields` lower-cases a text and splits it at white space. */
  method TextSimilarity(fields: seq<byte> -> seq<Word>, a: seq<byte>, b: seq<byte>) returns (r: real)
    ensures r == TextScore(fields(a), fields(b))
  {
    var wordsA, wordsB := fields(a), fields(b);
    if |wordsA| == 0 || |wordsB| == 0 {
      return 0.0;
    }
    var setA: set<Word> := {};
    for i := 0 to |wordsA|
      invariant forall w :: w in setA <==> w in wordsA[..i]
    {
      setA := setA + {wordsA[i]};
    }
    assert wordsA[..|wordsA|] == wordsA;
    var common := 0;
    for i := 0 to |wordsB|
      invariant common == Common(wordsA, wordsB[..i])
    {
      assert wordsB[..i + 1][..i] == wordsB[..i];
      if wordsB[i] in setA {
        common := common + 1;
      }
    }
    assert wordsB[..|wordsB|] == wordsB;
    return common as real / Max(|wordsA|, |wordsB|) as real;
  }

  lemma {:induction false} CommonBound(a: seq<Word>, b: seq<Word>)
    ensures Common(a, b) <= |b|
    ensures Common(a, b) == |b| <==> forall w :: w in b ==> w in a
    decreases |b|
  {
    if b != [] {
      var init, last := b[..|b| - 1], b[|b| - 1];
      CommonBound(a, init);
      assert b == init + [last];
    }
  }

  /** Between 0 and 1; full marks exactly when b is at least as long and all its words occur in a. */
  lemma TextScoreLaws(a: seq<Word>, b: seq<Word>)
    ensures 0.0 <= TextScore(a, b) <= 1.0
    ensures a != [] && b != [] ==>
              (TextScore(a, b) == 1.0 <==> |a| <= |b| && forall w :: w in b ==> w in a)
  {
    if a != [] && b != [] {
      CommonBound(a, b);
      RatioLaws(Common(a, b), Max(|a|, |b|));
      RatioOne(Common(a, b), Max(|a|, |b|));
    }
  }

  lemma RatioOne(k: nat, n: nat)
    requires 0 < n && k <= n
    ensures k as real / n as real == 1.0 <==> k == n
  {
    var q := k as real / n as real;
    assert q * n as real == k as real;
  }

  /** Unlike the title score, the text score depends on the direction: repeated words count each time. */
  lemma TextScoreIsDirected(w: Word)
    ensures TextScore([w], [w, w]) == 1.0 && TextScore([w, w], [w]) == 0.5
  {
    assert [w, w][..1] == [w] && [w][..0] == [];
    assert Common([w], [w, w]) == Common([w], [w]) + 1 == 2;
    assert Common([w, w], [w]) == 1;
  }

  /** Without repetitions the common entries are the shared words. */
  lemma {:induction false} CommonIsShared(a: seq<Word>, b: seq<Word>)
    requires Distinct(b)
    ensures Common(a, b) == |Elements(a) * Elements(b)|
    decreases |b|
  {
    if b != [] {
      hide Distinct, Elements;
      var init, last := b[..|b| - 1], b[|b| - 1];
      DistinctInit(init, last);
      assert b == init + [last];
      CommonIsShared(a, init);
      ElementsMore(init, last);
      ElementsMember(a, last);
      OneMoreShared(Elements(a), Elements(init), last);
    }
  }

  lemma DistinctInit<T>(s: seq<T>, x: T)
    ensures Distinct(s + [x]) ==> Distinct(s) && x !in Elements(s)
  {
    if Distinct(s + [x]) {
      forall i, j | 0 <= i < j < |s|
        ensures s[i] != s[j]
      {
        assert (s + [x])[i] == s[i] && (s + [x])[j] == s[j];
      }
      forall i | 0 <= i < |s|
        ensures s[i] != x
      {
        assert (s + [x])[i] == s[i] && (s + [x])[|s|] == x;
      }
    }
  }

  lemma ElementsMember<T>(s: seq<T>, x: T)
    ensures x in Elements(s) <==> x in s
  {
  }

  lemma ElementsMore<T>(s: seq<T>, x: T)
    ensures Elements(s + [x]) == Elements(s) + {x}
  {
  }

  lemma OneMoreShared<T>(s: set<T>, t: set<T>, x: T)
    requires x !in t
    ensures |s * (t + {x})| == |s * t| + if x in s then 1 else 0
  {
    assert s * (t + {x}) == if x in s then s * t + {x} else s * t;
  }

  lemma DistinctTextsAreSymmetric(a: seq<Word>, b: seq<Word>)
    requires Distinct(a) && Distinct(b)
    ensures TextScore(a, b) == TextScore(b, a)
  {
    CommonIsShared(a, b);
    CommonIsShared(b, a);
    assert Elements(a) * Elements(b) == Elements(b) * Elements(a);
  }

  lemma {:induction false} CountsRepeats(a: seq<Word>, i: nat, j: nat)
    requires i < j < |a| && a[i] == a[j]
    ensures Common([a[i]], a) >= 2
    decreases |a|
  {
    if j < |a| - 1 {
      CountsRepeats(a[..|a| - 1], i, j);
    } else {
      CountsOne(a[..|a| - 1], i);
    }
  }

  lemma {:induction false} CountsOne(a: seq<Word>, i: nat)
    requires i < |a|
    ensures Common([a[i]], a) >= 1
    decreases |a|
  {
    if i < |a| - 1 {
      CountsOne(a[..|a| - 1], i);
    }
  }

  /** A text that repeats a word scores higher against that word alone than the other way round. */
  lemma RepeatIsDirected(a: seq<Word>, i: nat, j: nat)
    requires i < j < |a| && a[i] == a[j]
    ensures TextScore([a[i]], a) > TextScore(a, [a[i]])
  {
    CountsRepeats(a, i, j);
    assert [a[i]][..0] == [];
    assert Common(a, [a[i]]) == 1;
    LargerRatio(1, Common([a[i]], a), |a|);
  }

  lemma LargerRatio(k: nat, m: nat, n: nat)
    requires k < m && 0 < n
    ensures k as real / n as real < m as real / n as real
  {
    var p, q := k as real / n as real, m as real / n as real;
    assert p * n as real == k as real && q * n as real == m as real;
  }

  /**
    A text scores the same in both directions against every text without repeated words exactly when it has none
    itself.
   */
  lemma TextScoreSymmetricIff(a: seq<Word>)
    ensures Distinct(a) <==> forall b :: Distinct(b) ==> TextScore(a, b) == TextScore(b, a)
  {
    if Distinct(a) {
      forall b | Distinct(b)
        ensures TextScore(a, b) == TextScore(b, a)
      {
        DistinctTextsAreSymmetric(a, b);
      }
    } else {
      var i, j :| 0 <= i < j < |a| && a[i] == a[j];
      RepeatIsDirected(a, i, j);
      assert Distinct([a[i]]);
    }
  }

  // ----- Opening posts by embeddings

  ghost function Dot(a: seq<real>, b: seq<real>): real
    requires |a| == |b|
  {
    if a == [] then 0.0
    else Dot(a[..|a| - 1], b[..|b| - 1]) + Prod(a[|a| - 1], b[|b| - 1])
  }

  ghost predicate IsSquareRoot(sqrt: real -> real) {
    forall x :: x >= 0.0 ==> sqrt(x) >= 0.0 && Prod(sqrt(x), sqrt(x)) == x
  }

  ghost function CosineScore(sqrt: real -> real, a: seq<real>, b: seq<real>): real
    requires IsSquareRoot(sqrt)
  {
    if |a| != |b| || Dot(a, a) == 0.0 || Dot(b, b) == 0.0 then 0.0
    else
      SquaresNonNegative(a);
      SquaresNonNegative(b);
      RootsPositive(sqrt, Dot(a, a), Dot(b, b));
      Quot(Dot(a, b), Prod(sqrt(Dot(a, a)), sqrt(Dot(b, b))))
  }

  lemma {:induction false} SquaresNonNegative(a: seq<real>)
    ensures Dot(a, a) >= 0.0
    decreases |a|
  {
    if a != [] {
      SquaresNonNegative(a[..|a| - 1]);
    }
  }

  lemma RootsPositive(sqrt: real -> real, p: real, q: real)
    requires IsSquareRoot(sqrt) && p > 0.0 && q > 0.0
    ensures Prod(sqrt(p), sqrt(q)) > 0.0
  {
    ProdUnits(sqrt(p));
    ProdUnits(sqrt(q));
    assert sqrt(p) != 0.0 && sqrt(q) != 0.0;
  }

  method CosineSimilarity(sqrt: real -> real, a: seq<real>, b: seq<real>) returns (r: real)
    requires IsSquareRoot(sqrt)
    ensures r == CosineScore(sqrt, a, b)
  {
    if |a| != |b| {
      return 0.0;
    }
    var dot, normA, normB := 0.0, 0.0, 0.0;
    for i := 0 to |a|
      invariant dot == Dot(a[..i], b[..i]) && normA == Dot(a[..i], a[..i]) && normB == Dot(b[..i], b[..i])
    {
      assert a[..i + 1][..i] == a[..i] && b[..i + 1][..i] == b[..i];
      dot := dot + Prod(a[i], b[i]);
      normA := normA + Prod(a[i], a[i]);
      normB := normB + Prod(b[i], b[i]);
    }
    assert a[..|a|] == a && b[..|b|] == b;
    if normA == 0.0 || normB == 0.0 {
      return 0.0;
    }
    SquaresNonNegative(a);
    SquaresNonNegative(b);
    RootsPositive(sqrt, normA, normB);
    return Quot(dot, Prod(sqrt(normA), sqrt(normB)));
  }

  /** The Cauchy-Schwarz inequality. */
  lemma {:induction false} CauchySchwarz(a: seq<real>, b: seq<real>)
    requires |a| == |b|
    ensures Prod(Dot(a, b), Dot(a, b)) <= Prod(Dot(a, a), Dot(b, b))
    decreases |a|
  {
    if a == [] {
      ProdUnits(0.0);
    } else {
      var p, q := a[..|a| - 1], b[..|b| - 1];
      CauchySchwarz(p, q);
      SquaresNonNegative(p);
      SquaresNonNegative(q);
      OneMoreTerm(Dot(p, q), Dot(p, p), Dot(q, q), a[|a| - 1], b[|b| - 1]);
    }
  }

  lemma OneMoreTerm(d: real, s: real, t: real, x: real, y: real)
    requires s >= 0.0 && t >= 0.0 && Prod(d, d) <= Prod(s, t)
    ensures Prod(d + Prod(x, y), d + Prod(x, y)) <= Prod(s + Prod(x, x), t + Prod(y, y))
  {
    MixedTerm(d, s, t, x, y);
    assert (d + x * y) * (d + x * y) == d * d + 2.0 * d * (x * y) + (x * y) * (x * y);
    assert (s + x * x) * (t + y * y) == s * t + s * (y * y) + (x * x) * t + (x * x) * (y * y);
    assert (x * y) * (x * y) == (x * x) * (y * y);
  }

  /** The mixed term is bounded by the arithmetic mean of the two outer ones. */
  lemma MixedTerm(d: real, s: real, t: real, x: real, y: real)
    requires s >= 0.0 && t >= 0.0 && Prod(d, d) <= Prod(s, t)
    ensures 2.0 * d * (x * y) <= s * (y * y) + (x * x) * t
  {
    var p, q, m := s * (y * y), (x * x) * t, d * (x * y);
    assert x * x >= 0.0 && y * y >= 0.0;
    assert p >= 0.0 && q >= 0.0;
    assert m * m <= p * q by {
      assert m * m == (d * d) * ((x * x) * (y * y));
      assert p * q == (s * t) * ((x * x) * (y * y));
      assert (x * x) * (y * y) >= 0.0;
    }
    MeanBound(m, p, q);
  }

  lemma MeanBound(m: real, p: real, q: real)
    requires p >= 0.0 && q >= 0.0 && m * m <= p * q
    ensures 2.0 * m <= p + q
  {
    var x, y := 2.0 * m, p + q;
    assert y * y == (p - q) * (p - q) + 4.0 * (p * q);
    assert x * x == 4.0 * (m * m);
    SquareBound(x, y);
  }

  lemma CosineScoreBound(sqrt: real -> real, a: seq<real>, b: seq<real>)
    requires IsSquareRoot(sqrt)
    ensures -1.0 <= CosineScore(sqrt, a, b) <= 1.0
  {
    if |a| == |b| && Dot(a, a) != 0.0 && Dot(b, b) != 0.0 {
      CauchySchwarz(a, b);
      SquaresNonNegative(a);
      SquaresNonNegative(b);
      RootsPositive(sqrt, Dot(a, a), Dot(b, b));
      var ra, rb := sqrt(Dot(a, a)), sqrt(Dot(b, b));
      RootBound(Dot(a, b), ra, rb);
      UnitQuotient(Dot(a, b), Prod(ra, rb));
    }
  }

  lemma RootBound(d: real, p: real, q: real)
    requires p >= 0.0 && q >= 0.0 && Prod(d, d) <= Prod(Prod(p, p), Prod(q, q))
    ensures -Prod(p, q) <= d <= Prod(p, q)
  {
    var m := p * q;
    assert (p * p) * (q * q) == m * m;
    assert m >= 0.0;
    assert d * d <= m * m;
    SquareBound(d, m);
  }

  lemma SquareBound(d: real, m: real)
    requires m >= 0.0 && d * d <= m * m
    ensures -m <= d <= m
  {
    if d > m {
      SquareGrows(m, d);
    } else if -d > m {
      SquareGrows(m, -d);
    }
  }

  lemma SquareGrows(m: real, d: real)
    requires 0.0 <= m < d
    ensures m * m < d * d && d * d == (-d) * (-d)
  {
    var e := d - m;
    assert e * e > 0.0;
    assert m * e >= 0.0;
    assert (m + e) * (m + e) == m * m + 2.0 * (m * e) + e * e;
  }

  lemma UnitQuotient(d: real, m: real)
    requires m > 0.0 && -m <= d <= m
    ensures -1.0 <= Quot(d, m) <= 1.0
  {
    var q := Quot(d, m);
    assert q * m == d;
    CancelFactor(q, 1.0, m);
    CancelFactor(-1.0, q, m);
  }

  lemma CancelFactor(p: real, q: real, m: real)
    requires m > 0.0 && p * m <= q * m
    ensures p <= q
  {
  }

  // ----- The confidence of a link

  datatype Candidate = Candidate(
    prevSubject: seq<byte>, nextSubject: seq<byte>,
    prevOpText: seq<byte>, nextOpText: seq<byte>,
    prevEmb: seq<real>, nextEmb: seq<real>)

  datatype Link = NoLink | Link(confidence: real, titleSim: real, opSim: real, byEmbedding: bool)

  datatype Config = Config(titleThreshold: real, opSimThreshold: real)

  ghost function OpScore(fields: seq<byte> -> seq<Word>, sqrt: real -> real, c: Candidate): real
    requires IsSquareRoot(sqrt)
  {
    if c.prevEmb != [] && c.nextEmb != [] then CosineScore(sqrt, c.prevEmb, c.nextEmb)
    else if c.prevOpText != [] && c.nextOpText != [] then TextScore(fields(c.prevOpText), fields(c.nextOpText))
    else 0.0
  }

  /**
    A link is stored exactly when both similarities meet their thresholds; its confidence is their mean,
    at least the mean of the thresholds and never above 1.
   */
  method EvaluatePair(norm: seq<byte> -> seq<byte>, fields: seq<byte> -> seq<Word>, sqrt: real -> real,
                      cfg: Config, c: Candidate)
    returns (link: Link)
    requires IsSquareRoot(sqrt)
    ensures link.Link? <==>
              (TitleScore(norm(c.prevSubject), norm(c.nextSubject)) >= cfg.titleThreshold
               && OpScore(fields, sqrt, c) >= cfg.opSimThreshold)
    ensures link.Link? ==>
              (link.titleSim == TitleScore(norm(c.prevSubject), norm(c.nextSubject))
               && link.opSim == OpScore(fields, sqrt, c)
               && link.confidence == (link.titleSim + link.opSim) / 2.0
               && link.byEmbedding == (c.prevEmb != []))
    ensures link.Link? ==> (cfg.titleThreshold + cfg.opSimThreshold) / 2.0 <= link.confidence <= 1.0
    ensures link.Link? ==>
              link.opSim == if c.prevEmb != [] && c.nextEmb != [] then CosineScore(sqrt, c.prevEmb, c.nextEmb)
                            else if c.prevOpText != [] && c.nextOpText != []
                            then TextScore(fields(c.prevOpText), fields(c.nextOpText))
                            else 0.0
  {
    var titleSim := TitleSimilarity(norm, c.prevSubject, c.nextSubject);
    TitleScoreLaws(norm(c.prevSubject), norm(c.nextSubject));
    if titleSim < cfg.titleThreshold {
      return NoLink;
    }
    var opSim := 0.0;
    if |c.prevEmb| > 0 && |c.nextEmb| > 0 {
      opSim := CosineSimilarity(sqrt, c.prevEmb, c.nextEmb);
      CosineScoreBound(sqrt, c.prevEmb, c.nextEmb);
    } else if c.prevOpText != [] && c.nextOpText != [] {
      opSim := TextSimilarity(fields, c.prevOpText, c.nextOpText);
      TextScoreLaws(fields(c.prevOpText), fields(c.nextOpText));
    }
    if opSim < cfg.opSimThreshold {
      return NoLink;
    }
    link := Link((titleSim + opSim) / 2.0, titleSim, opSim, |c.prevEmb| != 0);
  }
}
