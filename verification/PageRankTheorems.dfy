/**
  What every ranking satisfies: convergence within a fixed number of iterations, closeness to the
  unique fixed point, and where the mass goes.
 */
module PageRankTheorems {
  import opened FiniteSums
  import opened LinearSystems
  import opened MassFlow
  import opened Subgraph
  import opened PageRank

  // ----- The kernel of a graph never sends more than it has

  ghost function CountOf(xs: seq<int>): int -> real {
    v => multiset(xs)[v] as real
  }

  /** Listings counted inside a set of ids: at most all of them, and all of them when the set covers the list. */
  lemma {:induction false} CountWithin(xs: seq<int>, to: set<int>)
    ensures Sum(to, CountOf(xs)) <= |xs| as real
    ensures Elements(xs) <= to ==> Sum(to, CountOf(xs)) == |xs| as real
    decreases |xs|
  {
    if xs == [] {
      SumZero(to, CountOf(xs));
    } else {
      var init, last := xs[..|xs| - 1], xs[|xs| - 1];
      assert xs == init + [last];
      CountWithin(init, to);
      assert Elements(xs) == Elements(init) + {last};
      SumPlus(to, CountOf(init), Point(last, 1.0), CountOf(xs));
      PointTotal(last, 1.0, to);
    }
  }

  lemma PointTotal(p: int, w: real, to: set<int>)
    ensures Sum(to, Point(p, w)) == if p in to then w else 0.0
  {
    if p in to {
      SumPull(to, Point(p, w), p);
      SumZero(to - {p}, Point(p, w));
    } else {
      SumZero(to, Point(p, w));
    }
  }

  lemma SplitTotal(g: Graph, u: int, to: set<int>)
    requires u in g && g[u] != []
    ensures Sum(to, Row(Kernel(g), u)) <= 1.0
    ensures Elements(g[u]) <= to ==> Sum(to, Row(Kernel(g), u)) == 1.0
  {
    var d := |g[u]| as real;
    var f, h := CountOf(g[u]), Row(Kernel(g), u);
    forall v | v in to
      ensures h(v) == Prod(Quot(1.0, d), f(v))
    {
      QuotIsProd(f(v), d);
    }
    SumScale(to, Quot(1.0, d), f, h);
    CountWithin(g[u], to);
    ProdMonotone(Quot(1.0, d), Sum(to, f), d);
    QuotIsProd(d, d);
  }

  lemma QuotIsProd(x: real, d: real)
    requires d > 0.0
    ensures Quot(x, d) == Prod(Quot(1.0, d), x) && Quot(1.0, d) >= 0.0
    ensures Quot(d, d) == 1.0
  {
    var q := 1.0 / d;
    assert q * d == 1.0;
    assert q * x * d == x;
  }

  lemma KernelSubStochastic(g: Graph)
    ensures SubStochastic(Kernel(g), g.Keys)
  {
    forall u, to: set<int> | u in g
      ensures Sum(to, Row(Kernel(g), u)) <= 1.0
    {
      if g[u] == [] {
        SumZero(to, Row(Kernel(g), u));
      } else {
        SplitTotal(g, u, to);
      }
    }
  }

  lemma RunStep(g: Graph, alpha: real, restart: Scores, run: seq<Scores>, i: nat)
    requires IsRun(g, alpha, restart, run) && i + 1 < |run|
    ensures DampedStep(Kernel(g), g.Keys, alpha, ScoreOf(restart), ScoreOf(run[i]), ScoreOf(run[i + 1]))
  {
    assert IsStep(g, alpha, restart, run[i], run[i + 1]);
  }

  // ----- Convergence

  /** Restart weights are non-negative and add up to one over the visited nodes. */
  ghost predicate IsDistribution(nodes: set<int>, restart: Scores) {
    (forall v :: v in nodes ==> Score(restart, v) >= 0.0) && Sum(nodes, ScoreOf(restart)) == 1.0
  }

  lemma KernelContracts(g: Graph, alpha: real, restart: Scores, x: Scores, y: Scores, z: Scores)
    requires alpha >= 0.0
    requires DampedStep(Kernel(g), g.Keys, alpha, ScoreOf(restart), ScoreOf(x), ScoreOf(y))
    requires DampedStep(Kernel(g), g.Keys, alpha, ScoreOf(restart), ScoreOf(y), ScoreOf(z))
    ensures Dist(g.Keys, ScoreOf(z), ScoreOf(y)) <= Prod(alpha, Dist(g.Keys, ScoreOf(y), ScoreOf(x)))
  {
    KernelSubStochastic(g);
    StepContracts(Kernel(g), g.Keys, alpha, ScoreOf(restart), ScoreOf(y), ScoreOf(z), ScoreOf(x), ScoreOf(y));
  }

  /** Each step changes the scores by at most alpha times the previous change. */
  lemma ChangeShrinks(g: Graph, alpha: real, restart: Scores, run: seq<Scores>, i: nat)
    requires IsRun(g, alpha, restart, run) && alpha >= 0.0 && i + 2 < |run|
    ensures Change(g, run, i + 1) <= Prod(alpha, Change(g, run, i))
  {
    RunStep(g, alpha, restart, run, i);
    RunStep(g, alpha, restart, run, i + 1);
    KernelContracts(g, alpha, restart, run[i], run[i + 1], run[i + 2]);
  }

  lemma FirstChange(g: Graph, alpha: real, restart: Scores, run: seq<Scores>)
    requires IsRun(g, alpha, restart, run) && alpha >= 0.0 && |run| > 1
    requires IsDistribution(g.Keys, restart)
    ensures Change(g, run, 0) <= Prod(alpha, 2.0)
  {
    KernelSubStochastic(g);
    RunStep(g, alpha, restart, run, 0);
    SumCongruent(g.Keys, ScoreOf(run[0]), ScoreOf(restart));
    FirstStepGap(Kernel(g), g.Keys, alpha, ScoreOf(restart), ScoreOf(run[0]), ScoreOf(run[1]));
  }

  /** The change decays geometrically: at most 2 * alpha^(i+1) after i + 1 steps. */
  lemma {:induction false} ChangeDecays(g: Graph, alpha: real, restart: Scores, run: seq<Scores>, i: nat)
    requires IsRun(g, alpha, restart, run) && alpha >= 0.0 && i + 1 < |run|
    requires IsDistribution(g.Keys, restart)
    ensures Change(g, run, i) <= Prod(Pow(alpha, i + 1), 2.0)
  {
    hide IsRun, IsDistribution, Change;
    if i == 0 {
      FirstChange(g, alpha, restart, run);
      ProdUnits(alpha);
      assert Pow(alpha, 1) == Prod(alpha, Pow(alpha, 0));
    } else {
      ChangeDecays(g, alpha, restart, run, i - 1);
      ChangeShrinks(g, alpha, restart, run, i - 1);
      ProdMonotone(alpha, Change(g, run, i - 1), Prod(Pow(alpha, i), 2.0));
      ProdAssoc(alpha, Pow(alpha, i), 2.0);
    }
  }

  /** Once 2 * alpha^k is below the tolerance, the loop has stopped, and by tolerance. */
  lemma StopsBy(g: Graph, cfg: Config, restart: Scores, run: seq<Scores>, k: nat)
    requires IsRun(g, cfg.alpha, restart, run) && Stopped(g, cfg, run)
    requires IsDistribution(g.Keys, restart) && cfg.alpha >= 0.0
    requires 1 <= k <= cfg.maxIterations && Prod(Pow(cfg.alpha, k), 2.0) < cfg.tolerance
    ensures 2 <= |run| <= k + 1
    ensures Change(g, run, |run| - 2) < cfg.tolerance
  {
    if |run| > k {
      ChangeDecays(g, cfg.alpha, restart, run, k - 1);
    }
  }

  lemma PowerOfDefaultAlpha()
    ensures Prod(Pow(0.6, 20), 2.0) < 0.0001
  {
    PowAdds(0.6, 5, 5);
    PowAdds(0.6, 10, 10);
    assert Pow(0.6, 5) == 0.07776 by {
      assert Pow(0.6, 1) == 0.6 && Pow(0.6, 2) == 0.36 && Pow(0.6, 3) == 0.216 && Pow(0.6, 4) == 0.1296;
    }
    assert Pow(0.6, 10) == 0.07776 * 0.07776;
  }

  lemma {:induction false} PowAdds(a: real, m: nat, n: nat)
    ensures Pow(a, m + n) == Prod(Pow(a, m), Pow(a, n))
  {
    if m == 0 {
      ProdUnits(Pow(a, n));
    } else {
      PowAdds(a, m - 1, n);
      ProdAssoc(a, Pow(a, m - 1), Pow(a, n));
    }
  }

  // ----- From seeds to a distribution

  ghost predicate NonNegativeWeights(seeds: seq<Seed>) {
    forall i :: 0 <= i < |seeds| ==> seeds[i].weight >= 0.0
  }

  lemma {:induction false} SeedWeightNonNegative(seeds: seq<Seed>, v: int)
    requires NonNegativeWeights(seeds)
    ensures SeedWeight(seeds, v) >= 0.0
    decreases |seeds|
  {
    if seeds != [] {
      SeedWeightNonNegative(seeds[..|seeds| - 1], v);
    }
  }

  /**
    Weights that are non-negative with a positive total restart as a distribution over any nodes that hold the
    seeds.
   */
  lemma RestartIsDistribution(seeds: seq<Seed>, restart: Scores, nodes: set<int>)
    requires NonNegativeWeights(seeds) && TotalWeight(seeds) > 0.0
    requires IsRestart(seeds, restart) && SeedPosts(seeds) <= nodes
    ensures IsDistribution(nodes, restart)
  {
    var total := TotalWeight(seeds);
    forall v | v in nodes
      ensures Score(restart, v) >= 0.0
      ensures ScoreOf(restart)(v) == Prod(Quot(1.0, total), WeightsOf(seeds)(v))
    {
      SeedWeightNonNegative(seeds, v);
      QuotIsProd(SeedWeight(seeds, v), total);
      ProdNonNegative(Quot(1.0, total), SeedWeight(seeds, v));
    }
    SumScale(nodes, Quot(1.0, total), WeightsOf(seeds), ScoreOf(restart));
    WeightsTotal(seeds, nodes);
    QuotIsProd(total, total);
  }

  lemma SeedsInBall(gs: GraphStore, seeds: seq<Seed>, hops: nat)
    ensures SeedPosts(seeds) <= Ball(gs, seeds, hops)
  {
    BallGrows(gs, seeds, 0, hops);
  }

  /** With the default configuration every ranking stops by tolerance, within 20 of its 30 iterations. */
  lemma DefaultConfigConverges(gs: GraphStore, seeds: seq<Seed>, pi: Scores, run: seq<Scores>)
    requires NonNegativeWeights(seeds) && TotalWeight(seeds) > 0.0
    requires IsRanking(gs, seeds, DEFAULT_CONFIG, pi, run)
    ensures 2 <= |run| <= 21
    ensures Change(Adjacency(gs, Ball(gs, seeds, 2)), run, |run| - 2) < 0.0001
  {
    var g := Adjacency(gs, Ball(gs, seeds, 2));
    var restart: Scores :| IsRestart(seeds, restart) && IsRun(g, 0.6, restart, run);
    SeedsInBall(gs, seeds, 2);
    RestartIsDistribution(seeds, restart, g.Keys);
    PowerOfDefaultAlpha();
    StopsBy(g, DEFAULT_CONFIG, restart, run, 20);
  }

  // ----- The fixed point

  ghost predicate IsFixedPoint(g: Graph, alpha: real, restart: Scores, z: Scores) {
    DampedStep(Kernel(g), g.Keys, alpha, ScoreOf(restart), ScoreOf(z), ScoreOf(z))
  }

  /** The scores a run stops at are within alpha / (1 - alpha) * tolerance of any fixed point. */
  lemma StopsNearFixedPoint(g: Graph, cfg: Config, restart: Scores, run: seq<Scores>, z: Scores)
    requires IsRun(g, cfg.alpha, restart, run) && 0.0 <= cfg.alpha < 1.0
    requires |run| >= 2 && Change(g, run, |run| - 2) < cfg.tolerance
    requires IsFixedPoint(g, cfg.alpha, restart, z)
    ensures Dist(g.Keys, ScoreOf(run[|run| - 1]), ScoreOf(z)) <= Prod(Quot(cfg.alpha, 1.0 - cfg.alpha), cfg.tolerance)
  {
    hide Kernel, SubStochastic, DampedStep, IsStep, Dist, Prod;
    KernelSubStochastic(g);
    RunStep(g, cfg.alpha, restart, run, |run| - 2);
    var x, x' := ScoreOf(run[|run| - 2]), ScoreOf(run[|run| - 1]);
    FixedPointBound(Kernel(g), g.Keys, cfg.alpha, ScoreOf(restart), x, x', ScoreOf(z));
    DividedBound(cfg.alpha, Dist(g.Keys, x', ScoreOf(z)), Change(g, run, |run| - 2), cfg.tolerance);
  }

  lemma DividedBound(a: real, d: real, c: real, t: real)
    requires 0.0 <= a < 1.0 && Prod(1.0 - a, d) <= Prod(a, c) && c <= t
    ensures d <= Prod(Quot(a, 1.0 - a), t)
  {
    var b := 1.0 - a;
    var q := Quot(a, b);
    ProdMonotone(a, c, t);
    assert Prod(b, q) == a;
    ProdAssoc(b, q, t);
    ProdAdds(b, d - Prod(q, t), Prod(q, t));
    NonPositiveFactor(b, d - Prod(q, t));
  }

  /** Two fixed points agree on every visited node. */
  lemma FixedPointsAgree(g: Graph, alpha: real, restart: Scores, y: Scores, z: Scores, v: int)
    requires 0.0 <= alpha < 1.0 && v in g
    requires IsFixedPoint(g, alpha, restart, y) && IsFixedPoint(g, alpha, restart, z)
    ensures Score(y, v) == Score(z, v)
  {
    KernelSubStochastic(g);
    FixedPointUnique(Kernel(g), g.Keys, alpha, ScoreOf(restart), ScoreOf(y), ScoreOf(z), v);
  }

  ghost function DampedKernel(g: Graph, alpha: real): (int, int) -> real {
    (u, v) => Prod(alpha, Kernel(g)(u, v))
  }

  lemma KernelIsDamped(g: Graph, alpha: real)
    requires alpha >= 0.0
    ensures Damped(g.Keys, DampedKernel(g, alpha), alpha)
  {
    KernelSubStochastic(g);
    forall u, v | u in g.Keys && v in g.Keys
      ensures DampedKernel(g, alpha)(u, v) >= 0.0
    {
      ProdNonNegative(alpha, Kernel(g)(u, v));
    }
    forall u | u in g.Keys
      ensures Sum(g.Keys, Row(DampedKernel(g, alpha), u)) <= alpha
    {
      SumScale(g.Keys, alpha, Row(Kernel(g), u), Row(DampedKernel(g, alpha), u));
      ProdMonotone(alpha, Sum(g.Keys, Row(Kernel(g), u)), 1.0);
      ProdUnits(alpha);
    }
  }

  /** What the damped terms of a score vector add up to at v. */
  lemma DampedTerms(g: Graph, alpha: real, x: int -> real, z: Scores, v: int)
    requires forall u :: u in g ==> ScoreOf(z)(u) == x(u)
    ensures Sum(g.Keys, Terms(DampedKernel(g, alpha), x, v)) == Prod(alpha, Received(Kernel(g), ScoreOf(z), g.Keys)(v))
  {
    var w := Kernel(g);
    var got := Row(Flip(Carried(w, ScoreOf(z))), v);
    var terms := Terms(DampedKernel(g, alpha), x, v);
    forall u | u in g.Keys
      ensures terms(u) == Prod(alpha, got(u))
    {
      ProdAssoc(alpha, w(u, v), x(u));
      ProdCommutes(w(u, v), x(u));
    }
    SumScale(g.Keys, alpha, got, terms);
  }

  lemma ProdCommutes(p: real, q: real)
    ensures Prod(p, q) == Prod(q, p)
  {
  }

  /** The ranking the iteration aims at exists. */
  lemma FixedPointExists(g: Graph, alpha: real, restart: Scores) returns (z: Scores)
    requires 0.0 <= alpha < 1.0
    ensures z.Keys == g.Keys && IsFixedPoint(g, alpha, restart, z)
  {
    KernelIsDamped(g, alpha);
    var constants := Restarted(g.Keys, alpha, ScoreOf(restart));
    var x := SolutionExists(g.Keys, DampedKernel(g, alpha), constants, alpha);
    z := ScoresOf(g.Keys, x);
    forall v | v in g.Keys
      ensures StepAt(Kernel(g), g.Keys, alpha, ScoreOf(restart), ScoreOf(z), ScoreOf(z), v)
    {
      SolutionIsStep(g, alpha, restart, x, v);
    }
  }

  ghost function ScoresOf(nodes: set<int>, x: int -> real): (z: Scores)
    ensures z.Keys == nodes && forall v :: v in nodes ==> ScoreOf(z)(v) == x(v)
  {
    map v | v in nodes :: x(v)
  }

  lemma SolutionIsStep(g: Graph, alpha: real, restart: Scores, x: int -> real, v: int)
    requires v in g && SolvesAt(g.Keys, DampedKernel(g, alpha), Restarted(g.Keys, alpha, ScoreOf(restart)), x, v)
    ensures var z := ScoreOf(ScoresOf(g.Keys, x)); StepAt(Kernel(g), g.Keys, alpha, ScoreOf(restart), z, z, v)
  {
    hide Kernel, Sum, Prod, Restarted, Received, DampedKernel;
    DampedTerms(g, alpha, x, ScoresOf(g.Keys, x), v);
  }

  /**
    The default ranking is within 1.5 tolerances of the one ranking that a round leaves as it is, which exists
    for every graph and restart.
   */
  lemma DefaultRankingIsNearLimit(gs: GraphStore, seeds: seq<Seed>, pi: Scores, run: seq<Scores>)
    returns (restart: Scores, z: Scores)
    requires NonNegativeWeights(seeds) && TotalWeight(seeds) > 0.0
    requires IsRanking(gs, seeds, DEFAULT_CONFIG, pi, run)
    ensures IsRestart(seeds, restart)
    ensures var g := Adjacency(gs, Ball(gs, seeds, 2));
            IsFixedPoint(g, 0.6, restart, z) && Dist(g.Keys, ScoreOf(pi), ScoreOf(z)) <= 0.00015
  {
    var g := Adjacency(gs, Ball(gs, seeds, 2));
    restart :| IsRestart(seeds, restart) && IsRun(g, 0.6, restart, run);
    z := FixedPointExists(g, 0.6, restart);
    DefaultConfigConverges(gs, seeds, pi, run);
    StopsNearFixedPoint(g, DEFAULT_CONFIG, restart, run, z);
    assert Prod(Quot(0.6, 0.4), 0.0001) == 0.00015;
  }

  // ----- What the scores are made of

  /** A restart vector gives every post its share of the weights: those at the positions that name it. */
  lemma RestartIsShares(seeds: seq<Seed>, restart: Scores, v: int)
    requires TotalWeight(seeds) != 0.0 && IsRestart(seeds, restart)
    ensures Prod(Sum(Positions(|seeds|), WeightAt(seeds)), Score(restart, v)) ==
            Sum((set i | 0 <= i < |seeds| && seeds[i].post == v), WeightAt(seeds))
  {
    SeedWeightCollects(seeds, v);
    TotalWeightCollects(seeds);
    ProdQuot(TotalWeight(seeds), SeedWeight(seeds, v));
  }

  lemma StepKeys(g: Graph, alpha: real, restart: Scores, x: Scores, x': Scores, v: int)
    requires IsStep(g, alpha, restart, x, x')
    ensures v in x' <==> v in g || exists u :: u in g && v in g[u]
  {
    if v in Targets(g) {
      var u, i :| u in g && 0 <= i < |g[u]| && g[u][i] == v;
    }
    forall u | u in g && v in g[u]
      ensures v in Targets(g)
    {
      var i :| 0 <= i < |g[u]| && g[u][i] == v;
    }
    hide StepAt;
  }

  lemma StepScore(g: Graph, alpha: real, restart: Scores, x: Scores, x': Scores, v: int)
    requires IsStep(g, alpha, restart, x, x')
    ensures Score(x', v) ==
            (if v in g then Prod(1.0 - alpha, Score(restart, v)) else 0.0)
            + Prod(alpha, Received(Kernel(g), ScoreOf(x), g.Keys)(v))
  {
    assert StepAt(Kernel(g), g.Keys, alpha, ScoreOf(restart), ScoreOf(x), ScoreOf(x'), v);
    hide Kernel, Targets, Received, Score;
  }

  /**
    A step in full: the restart share of a visited node, and from every visited node with neighbours alpha times
    its score, split evenly over its listings.
   */
  lemma StepInFull(g: Graph, alpha: real, restart: Scores, x: Scores, x': Scores, v: int)
    requires IsStep(g, alpha, restart, x, x')
    ensures v in x' <==> v in g || exists u :: u in g && v in g[u]
    ensures Score(x', v) ==
            (if v in g then Prod(1.0 - alpha, Score(restart, v)) else 0.0)
            + Prod(alpha, Sum(g.Keys, u => if u in g && g[u] != []
                                           then Prod(Score(x, u), Quot(multiset(g[u])[v] as real, |g[u]| as real))
                                           else 0.0))
  {
    StepKeys(g, alpha, restart, x, x', v);
    StepScore(g, alpha, restart, x, x', v);
    ReceivedInFull(g, x, v);
    hide *;
  }

  lemma ReceivedInFull(g: Graph, x: Scores, v: int)
    ensures Received(Kernel(g), ScoreOf(x), g.Keys)(v) ==
            Sum(g.Keys, u => if u in g && g[u] != []
                             then Prod(Score(x, u), Quot(multiset(g[u])[v] as real, |g[u]| as real))
                             else 0.0)
  {
    hide Score;
    var sent: int -> real := u => if u in g && g[u] != []
                                  then Prod(Score(x, u), Quot(multiset(g[u])[v] as real, |g[u]| as real))
                                  else 0.0;
    forall u | u in g.Keys
      ensures Row(Flip(Carried(Kernel(g), ScoreOf(x))), v)(u) == sent(u)
    {
      ProdUnits(Score(x, u));
    }
    SumCongruent(g.Keys, Row(Flip(Carried(Kernel(g), ScoreOf(x))), v), sent);
  }

  lemma StepKeepsRestart(g: Graph, alpha: real, restart: Scores, x: Scores, x': Scores, v: int)
    requires IsStep(g, alpha, restart, x, x') && v in g
    requires 0.0 <= alpha <= 1.0 && AllNonNegative(x)
    ensures Score(x', v) >= Prod(1.0 - alpha, Score(restart, v))
  {
    StepScore(g, alpha, restart, x, x', v);
    hide IsStep, Score, Received;
    KernelSubStochastic(g);
    ReceivedNonNegative(Kernel(g), ScoreOf(x), g.Keys, v);
    ProdNonNegative(alpha, Received(Kernel(g), ScoreOf(x), g.Keys)(v));
  }

  lemma ShareScales(total: real, keep: real, restart: real, score: real, share: real)
    requires total > 0.0 && score >= Prod(keep, restart) && Prod(total, restart) == share
    ensures Prod(total, score) >= Prod(keep, share)
  {
    ProdMonotone(total, Prod(keep, restart), score);
    ProdAssoc(total, keep, restart);
    ProdAssoc(keep, total, restart);
    ProdCommutes(total, keep);
  }

  lemma RankingHasRun(gs: GraphStore, seeds: seq<Seed>, cfg: Config, pi: Scores, run: seq<Scores>)
    returns (g: Graph, restart: Scores)
    requires TotalWeight(seeds) > 0.0 && IsRanking(gs, seeds, cfg, pi, run)
    ensures IsRestart(seeds, restart) && IsRun(g, cfg.alpha, restart, run) && SeedPosts(seeds) <= g.Keys
    ensures run != [] && pi == run[|run| - 1]
  {
    g := Adjacency(gs, Ball(gs, seeds, Hops(cfg.maxHops)));
    restart :| IsRestart(seeds, restart) && IsRun(g, cfg.alpha, restart, run);
    SeedsInBall(gs, seeds, Hops(cfg.maxHops));
  }

  /**
    A ranking makes no more rounds than configured, fewer only when the last one changed less than the tolerance,
    and none after a round that did.
   */
  lemma RankingStops(gs: GraphStore, seeds: seq<Seed>, cfg: Config, pi: Scores, run: seq<Scores>, nodes: set<int>)
    requires IsRanking(gs, seeds, cfg, pi, run) && nodes == Ball(gs, seeds, Hops(cfg.maxHops))
    ensures |run| - 1 <= if cfg.maxIterations < 0 then 0 else cfg.maxIterations
    ensures forall i :: 0 <= i < |run| - 2 ==>
              Sum(nodes, v => Abs(Score(run[i + 1], v) - Score(run[i], v))) >= cfg.tolerance
    ensures 0 < |run| - 1 < cfg.maxIterations ==>
              Sum(nodes, v => Abs(Score(run[|run| - 1], v) - Score(run[|run| - 2], v))) < cfg.tolerance
    ensures |run| == 1 ==> cfg.maxIterations <= 0
  {
    var g := Adjacency(gs, nodes);
    assert g.Keys == nodes;
    forall i | 0 <= i < |run| - 1
      ensures Change(g, run, i) == Sum(nodes, v => Abs(Score(run[i + 1], v) - Score(run[i], v)))
    {
      ChangeInFull(nodes, run[i + 1], run[i]);
    }
    assert Stopped(g, cfg, run);
    hide Change, Score, IsRun, IsRestart;
  }

  lemma LastScore(g: Graph, seeds: seq<Seed>, alpha: real, restart: Scores, run: seq<Scores>, v: int)
    requires NonNegativeWeights(seeds) && TotalWeight(seeds) > 0.0 && 0.0 <= alpha <= 1.0
    requires IsRestart(seeds, restart) && IsRun(g, alpha, restart, run) && |run| >= 2 && SeedPosts(seeds) <= g.Keys
    ensures Score(run[|run| - 1], v) >= 0.0
    ensures v in g ==> Score(run[|run| - 1], v) >= Prod(1.0 - alpha, Score(restart, v))
  {
    RestartIsDistribution(seeds, restart, g.Keys);
    RunMass(g, alpha, restart, run, |run| - 2);
    RunMass(g, alpha, restart, run, |run| - 1);
    assert IsStep(g, alpha, restart, run[|run| - 2], run[|run| - 1]);
    hide IsStep, IsRun, IsRestart, SeedPosts, NonNegativeWeights, TotalWeight;
    if v in g {
      StepKeepsRestart(g, alpha, restart, run[|run| - 2], run[|run| - 1], v);
    }
  }

  lemma RunKeepsShares(g: Graph, seeds: seq<Seed>, alpha: real, restart: Scores, run: seq<Scores>, v: int)
    requires NonNegativeWeights(seeds) && TotalWeight(seeds) > 0.0 && 0.0 <= alpha <= 1.0
    requires IsRestart(seeds, restart) && IsRun(g, alpha, restart, run) && |run| >= 2 && SeedPosts(seeds) <= g.Keys
    ensures Prod(Sum(Positions(|seeds|), WeightAt(seeds)), Score(run[|run| - 1], v)) >=
            Prod(1.0 - alpha, Sum((set i | 0 <= i < |seeds| && seeds[i].post == v), WeightAt(seeds)))
  {
    var total, score := TotalWeight(seeds), Score(run[|run| - 1], v);
    RestartIsShares(seeds, restart, v);
    TotalWeightCollects(seeds);
    LastScore(g, seeds, alpha, restart, run, v);
    hide *;
    if v in g {
      ShareScales(total, 1.0 - alpha, Score(restart, v), score,
                  Sum((set i | 0 <= i < |seeds| && seeds[i].post == v), WeightAt(seeds)));
    } else {
      NoShareOutside(seeds, v, g.Keys);
      ProdUnits(1.0 - alpha);
      ProdNonNegative(total, score);
    }
  }

  /** Every ranking of at least one round gives each seed no less than (1 - alpha) times its share of the weights. */
  lemma RankingKeepsShares(gs: GraphStore, seeds: seq<Seed>, cfg: Config, pi: Scores, run: seq<Scores>, v: int)
    requires NonNegativeWeights(seeds) && TotalWeight(seeds) > 0.0 && 0.0 <= cfg.alpha <= 1.0
    requires IsRanking(gs, seeds, cfg, pi, run) && |run| >= 2
    ensures Prod(Sum(Positions(|seeds|), WeightAt(seeds)), Score(pi, v)) >=
            Prod(1.0 - cfg.alpha, Sum((set i | 0 <= i < |seeds| && seeds[i].post == v), WeightAt(seeds)))
  {
    hide *;
    var g, restart := RankingHasRun(gs, seeds, cfg, pi, run);
    RunKeepsShares(g, seeds, cfg.alpha, restart, run, v);
  }

  lemma NoShareOutside(seeds: seq<Seed>, v: int, nodes: set<int>)
    requires SeedPosts(seeds) <= nodes && v !in nodes
    ensures Sum((set i | 0 <= i < |seeds| && seeds[i].post == v), WeightAt(seeds)) == 0.0
  {
    forall i | 0 <= i < |seeds|
      ensures seeds[i].post != v
    {
      assert seeds[i].post in SeedPosts(seeds);
    }
    assert (set i | 0 <= i < |seeds| && seeds[i].post == v) == {};
  }

  // ----- Where the mass goes

  /** The visited nodes that have a neighbour at all. */
  ghost function Linked(g: Graph): set<int> {
    set u | u in g && g[u] != []
  }

  lemma SentByLinked(g: Graph, m: int -> real)
    ensures Sum(g.Keys, Sent(Kernel(g), m, g.Keys + Targets(g))) == Sum(Linked(g), m)
  {
    var all := g.Keys + Targets(g);
    var sent := Sent(Kernel(g), m, all);
    forall u | u in g.Keys - Linked(g)
      ensures sent(u) == 0.0
    {
      SumZero(all, Row(Kernel(g), u));
      ProdUnits(m(u));
    }
    SumSubset(Linked(g), g.Keys, sent);
    forall u | u in Linked(g)
      ensures sent(u) == m(u)
    {
      forall v | v in g[u]
        ensures v in Targets(g)
      {
        var i :| 0 <= i < |g[u]| && g[u][i] == v;
      }
      SplitTotal(g, u, all);
      ProdUnits(m(u));
    }
    SumCongruent(Linked(g), sent, m);
  }

  /**
    After a step the scores of all ids, boundary included, total (1 - alpha) plus alpha times the mass on
    the visited nodes that have a neighbour: the rest of the damped mass leaks at dangling nodes.
   */
  lemma MassAfterStep(g: Graph, alpha: real, restart: Scores, x: Scores, x': Scores)
    requires IsStep(g, alpha, restart, x, x') && IsDistribution(g.Keys, restart)
    ensures Sum(x'.Keys, ScoreOf(x')) == (1.0 - alpha) + Prod(alpha, Sum(Linked(g), ScoreOf(x)))
  {
    var w, all := Kernel(g), x'.Keys;
    assert StepOver(w, g.Keys, alpha, ScoreOf(restart), ScoreOf(x), ScoreOf(x'), all);
    SentByLinked(g, ScoreOf(x));
    ProdUnits(1.0 - alpha);
    StepTotal(w, g.Keys, alpha, ScoreOf(restart), ScoreOf(x), ScoreOf(x'), all);
  }

  ghost predicate AllNonNegative(x: Scores) {
    forall v :: v in x ==> x[v] >= 0.0
  }

  lemma StepKeepsNonNegative(g: Graph, alpha: real, restart: Scores, x: Scores, x': Scores)
    requires IsStep(g, alpha, restart, x, x') && IsDistribution(g.Keys, restart)
    requires 0.0 <= alpha <= 1.0 && AllNonNegative(x)
    ensures AllNonNegative(x')
  {
    KernelSubStochastic(g);
    forall v | v in x'
      ensures x'[v] >= 0.0
    {
      StepNonNegative(Kernel(g), g.Keys, alpha, ScoreOf(restart), ScoreOf(x), ScoreOf(x'), v);
    }
  }

  /** Scores stay non-negative and their total never exceeds one, at every point of a run. */
  lemma {:induction false} RunMass(g: Graph, alpha: real, restart: Scores, run: seq<Scores>, i: nat)
    requires IsRun(g, alpha, restart, run) && IsDistribution(g.Keys, restart)
    requires 0.0 <= alpha <= 1.0 && i < |run|
    ensures AllNonNegative(run[i]) && g.Keys <= run[i].Keys
    ensures Sum(run[i].Keys, ScoreOf(run[i])) <= 1.0
  {
    if i == 0 {
      SumCongruent(g.Keys, ScoreOf(run[0]), ScoreOf(restart));
    } else {
      RunMass(g, alpha, restart, run, i - 1);
      var x := run[i - 1];
      assert IsStep(g, alpha, restart, x, run[i]);
      StepKeepsNonNegative(g, alpha, restart, x, run[i]);
      SumSubsetAtMost(Linked(g), x.Keys, ScoreOf(x));
      ProdMonotone(alpha, Sum(Linked(g), ScoreOf(x)), 1.0);
      ProdUnits(alpha);
      MassAfterStep(g, alpha, restart, x, run[i]);
    }
  }

  /** When every visited node has neighbours and all of them are visited, no mass leaks at all. */
  lemma {:induction false} ClosedRunConservesMass(g: Graph, alpha: real, restart: Scores, run: seq<Scores>, i: nat)
    requires IsRun(g, alpha, restart, run) && IsDistribution(g.Keys, restart)
    requires Linked(g) == g.Keys && Targets(g) <= g.Keys && i < |run|
    ensures run[i].Keys == g.Keys
    ensures Sum(g.Keys, ScoreOf(run[i])) == 1.0
  {
    if i == 0 {
      SumCongruent(g.Keys, ScoreOf(run[0]), ScoreOf(restart));
    } else {
      ClosedRunConservesMass(g, alpha, restart, run, i - 1);
      assert IsStep(g, alpha, restart, run[i - 1], run[i]);
      MassAfterStep(g, alpha, restart, run[i - 1], run[i]);
      ProdUnits(alpha);
    }
  }
}
