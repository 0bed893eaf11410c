/**
  Mass moved along a fixed kernel over finite sets of ids, and the damped step
  x -> (1 - a) * restart + a * (mass received from x). w(u, v) is the fraction of u's mass that v receives.
 */
module MassFlow {
  import opened FiniteSums

  ghost function Carried(w: (int, int) -> real, m: int -> real): (int, int) -> real {
    (u, v) => Prod(m(u), w(u, v))
  }

  /** What each id receives when every member of `from` sends its mass along w. */
  ghost function Received(w: (int, int) -> real, m: int -> real, from: set<int>): int -> real {
    RowTotal(Flip(Carried(w, m)), from)
  }

  /** Fractions are non-negative and nobody sends more than all of its mass, whoever is counted. */
  ghost predicate SubStochastic(w: (int, int) -> real, from: set<int>) {
    && (forall u, v :: w(u, v) >= 0.0)
    && forall u, to: set<int> :: u in from ==> Sum(to, Row(w, u)) <= 1.0
  }

  ghost function Plus(p: int -> real, q: int -> real): int -> real {
    v => p(v) + q(v)
  }

  ghost function Difference(p: int -> real, q: int -> real): int -> real {
    v => p(v) - q(v)
  }

  ghost function Magnitude(p: int -> real): int -> real {
    v => Abs(p(v))
  }

  ghost function Scaled(a: real, p: int -> real): int -> real {
    v => Prod(a, p(v))
  }

  /** The L1 distance over a set of ids. */
  ghost function Dist(nodes: set<int>, p: int -> real, q: int -> real): real {
    Sum(nodes, Magnitude(Difference(p, q)))
  }

  // ----- Receiving is linear and never creates mass

  lemma ReceivedScale(w: (int, int) -> real, a: real, p: int -> real, from: set<int>, v: int)
    ensures Received(w, Scaled(a, p), from)(v) == Prod(a, Received(w, p, from)(v))
  {
    var fp, fm := Row(Flip(Carried(w, p)), v), Row(Flip(Carried(w, Scaled(a, p))), v);
    forall u | u in from
      ensures fm(u) == Prod(a, fp(u))
    {
      ProdAssoc(a, p(u), w(u, v));
    }
    SumScale(from, a, fp, fm);
  }

  lemma ReceivedMinus(w: (int, int) -> real, p: int -> real, q: int -> real, from: set<int>, v: int)
    ensures Received(w, Difference(p, q), from)(v) == Received(w, p, from)(v) - Received(w, q, from)(v)
  {
    var m := Difference(p, q);
    var fp, fq, fm := Row(Flip(Carried(w, p)), v), Row(Flip(Carried(w, q)), v), Row(Flip(Carried(w, m)), v);
    forall u | u in from
      ensures fp(u) == fm(u) + fq(u)
    {
      ProdSplits(m(u), q(u), w(u, v));
      assert p(u) == m(u) + q(u);
    }
    SumPlus(from, fm, fq, fp);
  }

  lemma ProdAbs(p: real, w: real)
    requires w >= 0.0
    ensures Abs(Prod(p, w)) == Prod(Abs(p), w)
  {
  }

  lemma ProdNonNegative(p: real, w: real)
    requires p >= 0.0 && w >= 0.0
    ensures Prod(p, w) >= 0.0
  {
  }

  lemma ReceivedAbs(w: (int, int) -> real, m: int -> real, from: set<int>, v: int)
    requires SubStochastic(w, from)
    ensures Abs(Received(w, m, from)(v)) <= Received(w, Magnitude(m), from)(v)
  {
    var f, g := Row(Flip(Carried(w, m)), v), Row(Flip(Carried(w, Magnitude(m))), v);
    forall u | u in from
      ensures g(u) == Abs(f(u))
    {
      ProdAbs(m(u), w(u, v));
    }
    SumTriangle(from, f, g);
  }

  lemma ReceivedNonNegative(w: (int, int) -> real, m: int -> real, from: set<int>, v: int)
    requires SubStochastic(w, from) && forall u :: u in from ==> m(u) >= 0.0
    ensures Received(w, m, from)(v) >= 0.0
  {
    var f := Row(Flip(Carried(w, m)), v);
    forall u | u in from
      ensures f(u) >= 0.0
    {
      ProdNonNegative(m(u), w(u, v));
    }
    SumNonNegative(from, f);
  }

  ghost function Sent(w: (int, int) -> real, m: int -> real, to: set<int>): int -> real {
    u => Prod(m(u), Sum(to, Row(w, u)))
  }

  lemma SentIsRowTotal(w: (int, int) -> real, m: int -> real, to: set<int>, u: int)
    ensures RowTotal(Carried(w, m), to)(u) == Sent(w, m, to)(u)
  {
    SumScale(to, m(u), Row(w, u), Row(Carried(w, m), u));
  }

  /** All that is received in `to` is what was sent there. */
  lemma ReceivedTotal(w: (int, int) -> real, m: int -> real, from: set<int>, to: set<int>)
    ensures Sum(to, Received(w, m, from)) == Sum(from, Sent(w, m, to))
  {
    var sent, rows := Sent(w, m, to), RowTotal(Carried(w, m), to);
    forall u | u in from
      ensures rows(u) == sent(u)
    {
      SentIsRowTotal(w, m, to, u);
    }
    SumCongruent(from, rows, sent);
    SumExchange(from, to, Carried(w, m));
  }

  /** Sending never creates mass. */
  lemma ReceivedAtMost(w: (int, int) -> real, m: int -> real, from: set<int>, to: set<int>)
    requires SubStochastic(w, from) && forall u :: u in from ==> m(u) >= 0.0
    ensures Sum(to, Received(w, m, from)) <= Sum(from, m)
  {
    var sent := Sent(w, m, to);
    forall u | u in from
      ensures sent(u) <= m(u)
    {
      ProdMonotone(m(u), Sum(to, Row(w, u)), 1.0);
      ProdUnits(m(u));
    }
    SumMonotone(from, sent, m);
    ReceivedTotal(w, m, from, to);
  }

  // ----- The damped step

  /** The part of a step that restarts at the seeds; ids outside `nodes` get none. */
  ghost function Restarted(nodes: set<int>, a: real, r: int -> real): int -> real {
    v => if v in nodes then Prod(1.0 - a, r(v)) else 0.0
  }

  /** The equation one damped step solves at v, inside `nodes` or outside it. */
  ghost predicate StepAt(w: (int, int) -> real, nodes: set<int>, a: real, r: int -> real, x: int -> real,
                         x': int -> real, v: int) {
    x'(v) == Restarted(nodes, a, r)(v) + Prod(a, Received(w, x, nodes)(v))
  }

  /** One damped step from x yields x', as far as the ids in `all` are concerned. */
  ghost predicate StepOver(w: (int, int) -> real, nodes: set<int>, a: real, r: int -> real, x: int -> real,
                           x': int -> real, all: set<int>) {
    forall v :: v in all ==> StepAt(w, nodes, a, r, x, x', v)
  }

  ghost predicate DampedStep(w: (int, int) -> real, nodes: set<int>, a: real, r: int -> real, x: int -> real,
                             x': int -> real) {
    StepOver(w, nodes, a, r, x, x', nodes)
  }

  /** Sending on damped mass is damping what was sent. */
  lemma SendingDampedMass(w: (int, int) -> real, nodes: set<int>, a: real, r: int -> real, x: int -> real,
                          x': int -> real, v: int)
    requires x'(v) == Restarted(nodes, a, r)(v) + Received(w, Scaled(a, x), nodes)(v)
    ensures StepAt(w, nodes, a, r, x, x', v)
  {
    ReceivedScale(w, a, x, nodes, v);
  }

  /** A pointwise bound by a multiple carries over to the sums. */
  lemma SumAtMostScaled(nodes: set<int>, f: int -> real, a: real, g: int -> real, total: real)
    requires forall v :: v in nodes ==> f(v) <= Scaled(a, g)(v)
    requires a >= 0.0 && Sum(nodes, g) <= total
    ensures Sum(nodes, f) <= Prod(a, total)
  {
    var bound := Scaled(a, g);
    forall v | v in nodes
      ensures f(v) <= bound(v)
    {
      assert f(v) <= Scaled(a, g)(v);
    }
    SumMonotone(nodes, f, bound);
    SumScale(nodes, a, g, bound);
    ProdMonotone(a, Sum(nodes, g), total);
  }

  lemma ScaledGap(a: real, p: real, q: real, m: real)
    requires a >= 0.0 && Abs(p - q) <= m
    ensures Abs(Prod(a, p) - Prod(a, q)) <= Prod(a, m)
  {
    ProdAdds(a, p - q, q);
    ProdAdds(a, q - p, p);
    ProdMonotone(a, p - q, m);
    ProdMonotone(a, q - p, m);
  }

  /** The damped step is a contraction in L1 with factor a. */
  lemma StepContracts(w: (int, int) -> real, nodes: set<int>, a: real, r: int -> real,
                      x: int -> real, x': int -> real, y: int -> real, y': int -> real)
    requires SubStochastic(w, nodes) && a >= 0.0
    requires DampedStep(w, nodes, a, r, x, x') && DampedStep(w, nodes, a, r, y, y')
    ensures Dist(nodes, x', y') <= Prod(a, Dist(nodes, x, y))
  {
    var gap, gap' := Magnitude(Difference(x, y)), Magnitude(Difference(x', y'));
    forall v | v in nodes
      ensures gap'(v) <= Scaled(a, Received(w, gap, nodes))(v)
    {
      assert StepAt(w, nodes, a, r, x, x', v) && StepAt(w, nodes, a, r, y, y', v);
      ReceivedMinus(w, x, y, nodes, v);
      ReceivedAbs(w, Difference(x, y), nodes, v);
      ScaledGap(a, Received(w, x, nodes)(v), Received(w, y, nodes)(v), Received(w, gap, nodes)(v));
    }
    ReceivedAtMost(w, gap, nodes, nodes);
    SumAtMostScaled(nodes, gap', a, Received(w, gap, nodes), Sum(nodes, gap));
  }

  lemma StartGap(a: real, r: real, p: real)
    requires a >= 0.0 && r >= 0.0 && p >= 0.0
    ensures Abs(Prod(1.0 - a, r) + Prod(a, p) - r) <= Prod(a, p + r)
  {
    ProdNonNegative(a, p);
    ProdNonNegative(a, r);
    ProdAdds(a, p, r);
    ProdSplits(1.0 - a, a, r);
    ProdUnits(r);
  }

  /** From a non-negative restart vector of mass 1, the first step moves at most 2a. */
  lemma FirstStepGap(w: (int, int) -> real, nodes: set<int>, a: real, r: int -> real, x: int -> real, x': int -> real)
    requires SubStochastic(w, nodes) && a >= 0.0
    requires (forall v :: v in nodes ==> x(v) == r(v) >= 0.0) && Sum(nodes, x) == 1.0
    requires DampedStep(w, nodes, a, r, x, x')
    ensures Dist(nodes, x', x) <= Prod(a, 2.0)
  {
    var got, gap := Received(w, x, nodes), Magnitude(Difference(x', x));
    forall v | v in nodes
      ensures gap(v) <= Scaled(a, Plus(got, x))(v)
    {
      assert StepAt(w, nodes, a, r, x, x', v);
      ReceivedNonNegative(w, x, nodes, v);
      StartGap(a, r(v), got(v));
    }
    SumPlus(nodes, got, x, Plus(got, x));
    ReceivedAtMost(w, x, nodes, nodes);
    SumAtMostScaled(nodes, gap, a, Plus(got, x), 2.0);
  }

  // ----- The L1 distance is a distance

  lemma DistTriangle(nodes: set<int>, p: int -> real, q: int -> real, m: int -> real)
    ensures Dist(nodes, p, q) <= Dist(nodes, p, m) + Dist(nodes, m, q)
  {
    var f, g, h := Magnitude(Difference(p, m)), Magnitude(Difference(m, q)), Magnitude(Difference(p, q));
    var fg := Plus(f, g);
    forall v | v in nodes
      ensures fg(v) == f(v) + g(v) && h(v) <= fg(v)
    {
    }
    SumPlus(nodes, f, g, fg);
    SumMonotone(nodes, h, fg);
  }

  lemma DistSymmetric(nodes: set<int>, p: int -> real, q: int -> real)
    ensures Dist(nodes, p, q) == Dist(nodes, q, p) >= 0.0
  {
    var f, g := Magnitude(Difference(p, q)), Magnitude(Difference(q, p));
    forall v | v in nodes
      ensures f(v) == g(v) >= 0.0
    {
    }
    SumCongruent(nodes, f, g);
    SumNonNegative(nodes, f);
  }

  lemma DistZero(nodes: set<int>, p: int -> real, q: int -> real, v: int)
    requires Dist(nodes, p, q) <= 0.0 && v in nodes
    ensures p(v) == q(v)
  {
    var f := Magnitude(Difference(p, q));
    forall u | u in nodes
      ensures f(u) >= 0.0
    {
    }
    SumPull(nodes, f, v);
    SumNonNegative(nodes - {v}, f);
    assert f(v) == Abs(p(v) - q(v));
  }

  // ----- Fixed points

  /** After a step from x to x', any fixed point z is within a/(1-a) of the change. */
  lemma FixedPointBound(w: (int, int) -> real, nodes: set<int>, a: real, r: int -> real, x: int -> real,
                        x': int -> real, z: int -> real)
    requires SubStochastic(w, nodes) && 0.0 <= a
    requires DampedStep(w, nodes, a, r, x, x') && DampedStep(w, nodes, a, r, z, z)
    ensures Prod(1.0 - a, Dist(nodes, x', z)) <= Prod(a, Dist(nodes, x', x))
  {
    StepContracts(w, nodes, a, r, x, x', z, z);
    DistTriangle(nodes, x, z, x');
    DistSymmetric(nodes, x, x');
    var d, c := Dist(nodes, x', z), Dist(nodes, x', x);
    ProdMonotone(a, Dist(nodes, x, z), c + d);
    ProdAdds(a, c, d);
    ProdSplits(1.0 - a, a, d);
    ProdUnits(d);
  }

  lemma FixedPointUnique(w: (int, int) -> real, nodes: set<int>, a: real, r: int -> real, y: int -> real,
                         z: int -> real, v: int)
    requires SubStochastic(w, nodes) && 0.0 <= a < 1.0 && v in nodes
    requires DampedStep(w, nodes, a, r, y, y) && DampedStep(w, nodes, a, r, z, z)
    ensures y(v) == z(v)
  {
    var d := Dist(nodes, y, z);
    StepContracts(w, nodes, a, r, y, y, z, z);
    ProdSplits(1.0 - a, a, d);
    ProdUnits(d);
    NonPositiveFactor(1.0 - a, d);
    DistZero(nodes, y, z, v);
  }

  lemma NonPositiveFactor(p: real, q: real)
    requires p > 0.0 && Prod(p, q) <= 0.0
    ensures q <= 0.0
  {
  }

  // ----- Total mass

  lemma StepSplits(w: (int, int) -> real, nodes: set<int>, a: real, r: int -> real, x: int -> real,
                   x': int -> real, all: set<int>)
    requires StepOver(w, nodes, a, r, x, x', all)
    ensures Sum(all, x') == Sum(all, Restarted(nodes, a, r)) + Sum(all, Scaled(a, Received(w, x, nodes)))
  {
    var kept, got := Restarted(nodes, a, r), Scaled(a, Received(w, x, nodes));
    forall v | v in all
      ensures x'(v) == kept(v) + got(v)
    {
      assert StepAt(w, nodes, a, r, x, x', v);
    }
    SumPlus(all, kept, got, x');
  }

  lemma RestartedTotal(nodes: set<int>, a: real, r: int -> real, all: set<int>)
    requires nodes <= all
    ensures Sum(all, Restarted(nodes, a, r)) == Prod(1.0 - a, Sum(nodes, r))
  {
    var kept := Restarted(nodes, a, r);
    forall v | v in all - nodes
      ensures kept(v) == 0.0
    {
    }
    SumSubset(nodes, all, kept);
    SumScale(nodes, 1.0 - a, r, kept);
  }

  /** The mass after a step, counted over any ids that cover the nodes. */
  lemma StepTotal(w: (int, int) -> real, nodes: set<int>, a: real, r: int -> real, x: int -> real, x': int -> real,
                  all: set<int>)
    requires nodes <= all
    requires StepOver(w, nodes, a, r, x, x', all)
    ensures Sum(all, x') == Prod(1.0 - a, Sum(nodes, r)) + Prod(a, Sum(nodes, Sent(w, x, all)))
  {
    StepSplits(w, nodes, a, r, x, x', all);
    RestartedTotal(nodes, a, r, all);
    SumScale(all, a, Received(w, x, nodes), Scaled(a, Received(w, x, nodes)));
    ReceivedTotal(w, x, nodes, all);
  }

  lemma StepNonNegative(w: (int, int) -> real, nodes: set<int>, a: real, r: int -> real, x: int -> real,
                        x': int -> real, v: int)
    requires SubStochastic(w, nodes) && 0.0 <= a <= 1.0
    requires forall u :: u in nodes ==> r(u) >= 0.0 && x(u) >= 0.0
    requires StepAt(w, nodes, a, r, x, x', v)
    ensures x'(v) >= 0.0
  {
    ReceivedNonNegative(w, x, nodes, v);
    ProdNonNegative(a, Received(w, x, nodes)(v));
    if v in nodes {
      ProdNonNegative(1.0 - a, r(v));
    }
  }
}
