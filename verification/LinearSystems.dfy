/**
  A damped linear system x(v) = b(v) + sum of a(u, v) * x(u) over a finite set has a solution: one unknown after
  the other is eliminated, and what is left stays damped.
 */
module LinearSystems {
  import opened FiniteSums

  ghost function Terms<T>(a: (T, T) -> real, x: T -> real, v: T): T -> real {
    u => Prod(a(u, v), x(u))
  }

  ghost predicate SolvesAt<T>(s: set<T>, a: (T, T) -> real, b: T -> real, x: T -> real, v: T) {
    x(v) == b(v) + Sum(s, Terms(a, x, v))
  }

  ghost predicate Solves<T>(s: set<T>, a: (T, T) -> real, b: T -> real, x: T -> real) {
    forall v :: v in s ==> SolvesAt(s, a, b, x, v)
  }

  /** No coefficient is negative, and no unknown's coefficients exceed the bound together. */
  ghost predicate Damped<T>(s: set<T>, a: (T, T) -> real, bound: real) {
    && (forall u, v :: u in s && v in s ==> a(u, v) >= 0.0)
    && forall u :: u in s ==> Sum(s, Row(a, u)) <= bound
  }

  // ----- Eliminating z

  predicate IsInverse(e: real, d: real) {
    e * d == 1.0
  }

  /** The other unknowns' coefficients once z is expressed by them; e is 1 / (1 - a(z, z)). */
  ghost function Eliminated<T>(a: (T, T) -> real, z: T, e: real): (T, T) -> real {
    (u, v) => a(u, v) + Prod(Prod(e, a(u, z)), a(z, v))
  }

  ghost function Constants<T>(a: (T, T) -> real, b: T -> real, z: T, e: real): T -> real {
    v => b(v) + Prod(Prod(e, b(z)), a(z, v))
  }

  ghost function Extended<T>(y: T -> real, z: T, value: real): T -> real {
    v => if v == z then value else y(v)
  }

  lemma RowWithout<T>(s: set<T>, a: (T, T) -> real, bound: real, u: T, z: T)
    requires Damped(s, a, bound) && u in s && z in s
    ensures Sum(s - {z}, Row(a, u)) <= bound - a(u, z) && Sum(s - {z}, Row(a, u)) >= 0.0
  {
    SumPull(s, Row(a, u), z);
    SumNonNegative(s - {z}, Row(a, u));
  }

  lemma ShareOfRest(e: real, d: real, p: real, r: real)
    requires d > 0.0 && IsInverse(e, d) && p >= 0.0 && 0.0 <= r <= d
    ensures 0.0 <= Prod(Prod(e, p), r) <= p
  {
    assert e > 0.0 by {
      PositiveInverse(e, d);
    }
    var ep := e * p;
    assert ep >= 0.0;
    ProdMonotone(ep, 0.0, r);
    ProdMonotone(ep, r, d);
    ProdUnits(ep);
    assert ep * d == p * (e * d);
  }

  lemma PositiveInverse(e: real, d: real)
    requires d > 0.0 && IsInverse(e, d)
    ensures e > 0.0
  {
  }

  lemma EliminatedRow<T>(s: set<T>, a: (T, T) -> real, z: T, e: real, u: T)
    ensures Sum(s, Row(Eliminated(a, z, e), u)) == Sum(s, Row(a, u)) + Prod(Prod(e, a(u, z)), Sum(s, Row(a, z)))
  {
    var moved := v => Prod(Prod(e, a(u, z)), a(z, v));
    SumScale(s, Prod(e, a(u, z)), Row(a, z), moved);
    SumPlus(s, Row(a, u), moved, Row(Eliminated(a, z, e), u));
  }

  lemma EliminatedEntry<T>(s: set<T>, a: (T, T) -> real, bound: real, z: T, e: real, u: T, v: T)
    requires Damped(s, a, bound) && z in s && u in s && v in s && e >= 0.0
    ensures Eliminated(a, z, e)(u, v) >= 0.0
  {
    assert a(u, z) >= 0.0 && a(z, v) >= 0.0;
    ProductNonNegative(e, a(u, z));
    ProductNonNegative(Prod(e, a(u, z)), a(z, v));
  }

  lemma ProductNonNegative(p: real, q: real)
    requires p >= 0.0 && q >= 0.0
    ensures Prod(p, q) >= 0.0
  {
  }

  lemma EliminatedIsDamped<T>(s: set<T>, a: (T, T) -> real, bound: real, z: T, e: real)
    requires Damped(s, a, bound) && z in s && bound < 1.0 && IsInverse(e, 1.0 - a(z, z))
    ensures Damped(s - {z}, Eliminated(a, z, e), bound)
  {
    var d := 1.0 - a(z, z);
    RowWithout(s, a, bound, z, z);
    PositiveInverse(e, d);
    forall u, v | u in s - {z} && v in s - {z}
      ensures Eliminated(a, z, e)(u, v) >= 0.0
    {
      EliminatedEntry(s, a, bound, z, e, u, v);
    }
    forall u | u in s - {z}
      ensures Sum(s - {z}, Row(Eliminated(a, z, e), u)) <= bound
    {
      RowWithout(s, a, bound, u, z);
      EliminatedRow(s - {z}, a, z, e, u);
      assert a(u, z) >= 0.0;
      ShareOfRest(e, d, a(u, z), Sum(s - {z}, Row(a, z)));
    }
  }

  // ----- Putting z back

  lemma EliminatedTerms<T>(s: set<T>, a: (T, T) -> real, y: T -> real, z: T, e: real, v: T)
    ensures Sum(s, Terms(Eliminated(a, z, e), y, v))
         == Sum(s, Terms(a, y, v)) + Prod(Prod(e, a(z, v)), Sum(s, Terms(a, y, z)))
  {
    var moved := u => Prod(Prod(e, a(z, v)), Prod(a(u, z), y(u)));
    SumScale(s, Prod(e, a(z, v)), Terms(a, y, z), moved);
    forall u | u in s
      ensures Terms(Eliminated(a, z, e), y, v)(u) == Terms(a, y, v)(u) + moved(u)
    {
      MovedTerm(e, a(u, z), a(z, v), a(u, v), y(u));
    }
    SumPlus(s, Terms(a, y, v), moved, Terms(Eliminated(a, z, e), y, v));
  }

  lemma MovedTerm(e: real, p: real, q: real, r: real, y: real)
    ensures Prod(r + Prod(Prod(e, p), q), y) == Prod(r, y) + Prod(Prod(e, q), Prod(p, y))
  {
    assert e * p * q * y == e * q * (p * y);
  }

  lemma ExtendedTerms<T>(s: set<T>, a: (T, T) -> real, y: T -> real, z: T, value: real, v: T)
    requires z in s
    ensures Sum(s, Terms(a, Extended(y, z, value), v)) == Prod(a(z, v), value) + Sum(s - {z}, Terms(a, y, v))
  {
    var x := Extended(y, z, value);
    SumPull(s, Terms(a, x, v), z);
    SumCongruent(s - {z}, Terms(a, x, v), Terms(a, y, v));
  }

  lemma Regrouped(e: real, bz: real, q: real, total: real)
    ensures Prod(Prod(e, bz), q) + Prod(Prod(e, q), total) == Prod(q, Prod(e, bz + total))
  {
    assert e * bz * q + e * q * total == q * (e * (bz + total));
  }

  lemma SolvedForZ(e: real, azz: real, w: real)
    requires IsInverse(e, 1.0 - azz)
    ensures Prod(e, w) == w + Prod(azz, Prod(e, w))
  {
    assert e * w - azz * (e * w) == (e * (1.0 - azz)) * w;
  }

  /** A solution for the others gives one for all. */
  lemma ExtendSolution<T>(s: set<T>, a: (T, T) -> real, b: T -> real, z: T, e: real, y: T -> real)
    requires z in s && IsInverse(e, 1.0 - a(z, z))
    requires Solves(s - {z}, Eliminated(a, z, e), Constants(a, b, z, e), y)
    ensures Solves(s, a, b, Extended(y, z, Prod(e, b(z) + Sum(s - {z}, Terms(a, y, z)))))
  {
    hide Prod, Sum, IsInverse;
    var total := Sum(s - {z}, Terms(a, y, z));
    var value := Prod(e, b(z) + total);
    var x := Extended(y, z, value);
    forall v | v in s
      ensures SolvesAt(s, a, b, x, v)
    {
      ExtendedTerms(s, a, y, z, value, v);
      if v == z {
        SolvedForZ(e, a(z, z), b(z) + total);
      } else {
        assert SolvesAt(s - {z}, Eliminated(a, z, e), Constants(a, b, z, e), y, v);
        EliminatedTerms(s - {z}, a, y, z, e, v);
        Regrouped(e, b(z), a(z, v), total);
      }
    }
  }

  lemma Eliminate<T>(s: set<T>, a: (T, T) -> real, bound: real, z: T) returns (e: real)
    requires Damped(s, a, bound) && z in s && bound < 1.0
    ensures IsInverse(e, 1.0 - a(z, z)) && Damped(s - {z}, Eliminated(a, z, e), bound)
  {
    RowWithout(s, a, bound, z, z);
    e := Inverse(1.0 - a(z, z));
    EliminatedIsDamped(s, a, bound, z, e);
  }

  /** Every damped system has a solution. */
  lemma {:induction false} SolutionExists<T>(s: set<T>, a: (T, T) -> real, b: T -> real, bound: real)
    returns (x: T -> real)
    requires Damped(s, a, bound) && bound < 1.0
    ensures Solves(s, a, b, x)
    decreases s
  {
    if s == {} {
      x := b;
    } else {
      hide Prod, Sum, IsInverse, Damped, Solves, Eliminated, Constants, Extended, Terms;
      var z := Pick(s);
      var e := Eliminate(s, a, bound, z);
      var y := SolutionExists(s - {z}, Eliminated(a, z, e), Constants(a, b, z, e), bound);
      ExtendSolution(s, a, b, z, e, y);
      x := Extended(y, z, Prod(e, b(z) + Sum(s - {z}, Terms(a, y, z))));
    }
  }

  ghost function Inverse(d: real): (e: real)
    requires d > 0.0
    ensures IsInverse(e, d)
  {
    1.0 / d
  }
}
