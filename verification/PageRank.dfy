/**
  Personalized PageRank by power iteration over the subgraph around the seeds, with an early stop
  once the L1 change of a step falls below the tolerance.
 */
module PageRank {
  import opened FiniteSums
  import opened MassFlow
  import opened Subgraph

  datatype Config = Config(maxHops: int, alpha: real, maxIterations: int, tolerance: real)

  const DEFAULT_CONFIG := Config(2, 0.6, 30, 0.0001)

  type Scores = map<int, real>

  datatype Ranking = Empty | LookupFailed | Ranked(scores: Scores)

  /** Reading an absent key of a score map yields zero. */
  function Score(m: Scores, v: int): real {
    if v in m then m[v] else 0.0
  }

  ghost function ScoreOf(m: Scores): int -> real {
    v => Score(m, v)
  }

  // ----- The restart vector

  ghost function SeedWeight(seeds: seq<Seed>, v: int): real {
    if seeds == [] then 0.0
    else
      var s := seeds[|seeds| - 1];
      SeedWeight(seeds[..|seeds| - 1], v) + if s.post == v then s.weight else 0.0
  }

  ghost function WeightsOf(seeds: seq<Seed>): int -> real {
    v => SeedWeight(seeds, v)
  }

  ghost function TotalWeight(seeds: seq<Seed>): real {
    if seeds == [] then 0.0
    else TotalWeight(seeds[..|seeds| - 1]) + seeds[|seeds| - 1].weight
  }

  ghost function Point(p: int, w: real): int -> real {
    v => if v == p then w else 0.0
  }

  /** The seeds' weights, collected per post, add up to the total weight. */
  lemma {:induction false} WeightsTotal(seeds: seq<Seed>, nodes: set<int>)
    requires SeedPosts(seeds) <= nodes
    ensures Sum(nodes, WeightsOf(seeds)) == TotalWeight(seeds)
    decreases |seeds|
  {
    if seeds == [] {
      SumZero(nodes, WeightsOf(seeds));
    } else {
      var init, s := seeds[..|seeds| - 1], seeds[|seeds| - 1];
      assert s.post in SeedPosts(seeds);
      forall x | x in SeedPosts(init)
        ensures x in nodes
      {
        var i :| 0 <= i < |init| && init[i].post == x;
        assert seeds[i].post == x;
      }
      WeightsTotal(init, nodes);
      SumPlus(nodes, WeightsOf(init), Point(s.post, s.weight), WeightsOf(seeds));
      SumPull(nodes, Point(s.post, s.weight), s.post);
      SumZero(nodes - {s.post}, Point(s.post, s.weight));
    }
  }

  ghost function WeightAt(seeds: seq<Seed>): int -> real {
    i => if 0 <= i < |seeds| then seeds[i].weight else 0.0
  }

  /** What a post collects: the weights at the positions that name it. */
  lemma {:induction false} SeedWeightCollects(seeds: seq<Seed>, v: int)
    ensures SeedWeight(seeds, v) == Sum((set i | 0 <= i < |seeds| && seeds[i].post == v), WeightAt(seeds))
    decreases |seeds|
  {
    var here := set i | 0 <= i < |seeds| && seeds[i].post == v;
    if seeds == [] {
      assert here == {};
    } else {
      var n := |seeds| - 1;
      var init := seeds[..n];
      var before := set i | 0 <= i < |init| && init[i].post == v;
      SeedWeightCollects(init, v);
      SumCongruent(before, WeightAt(init), WeightAt(seeds));
      if seeds[n].post == v {
        assert here == before + {n};
        SumInsert(before, WeightAt(seeds), n);
      } else {
        assert here == before;
      }
    }
  }

  ghost function Positions(n: nat): set<int> {
    if n == 0 then {} else Positions(n - 1) + {n - 1}
  }

  lemma {:induction false} PositionsAre(n: nat, i: int)
    ensures i in Positions(n) <==> 0 <= i < n
  {
    if n > 0 {
      PositionsAre(n - 1, i);
    }
  }

  /** And the total is the sum over all positions. */
  lemma {:induction false} TotalWeightCollects(seeds: seq<Seed>)
    ensures TotalWeight(seeds) == Sum(Positions(|seeds|), WeightAt(seeds))
    decreases |seeds|
  {
    if seeds != [] {
      var n := |seeds| - 1;
      TotalWeightCollects(seeds[..n]);
      forall i | i in Positions(n)
        ensures WeightAt(seeds[..n])(i) == WeightAt(seeds)(i)
      {
        PositionsAre(n, i);
      }
      SumCongruent(Positions(n), WeightAt(seeds[..n]), WeightAt(seeds));
      PositionsAre(n, n);
      SumInsert(Positions(n), WeightAt(seeds), n);
    }
  }

  method SumWeights(seeds: seq<Seed>) returns (total: real)
    ensures total == TotalWeight(seeds)
  {
    total := 0.0;
    for i := 0 to |seeds|
      invariant total == TotalWeight(seeds[..i])
    {
      assert seeds[..i + 1][..i] == seeds[..i];
      total := total + seeds[i].weight;
    }
    assert seeds[..|seeds|] == seeds;
  }

  lemma ProdQuot(d: real, x: real)
    requires d != 0.0
    ensures Prod(d, Quot(x, d)) == x
  {
  }

  method RestartVector(seeds: seq<Seed>, total: real) returns (restart: Scores)
    requires total != 0.0
    ensures restart.Keys == SeedPosts(seeds)
    ensures forall v :: Score(restart, v) == Quot(SeedWeight(seeds, v), total)
    ensures forall v :: Prod(total, Score(restart, v)) ==
                        Sum((set i | 0 <= i < |seeds| && seeds[i].post == v), WeightAt(seeds))
  {
    restart := map[];
    for i := 0 to |seeds|
      invariant restart.Keys == set j | 0 <= j < i :: seeds[j].post
      invariant forall v :: Score(restart, v) == Quot(SeedWeight(seeds[..i], v), total)
    {
      assert seeds[..i + 1][..i] == seeds[..i];
      var s := seeds[i];
      forall v
        ensures Quot(SeedWeight(seeds[..i], v) + s.weight, total) ==
                Quot(SeedWeight(seeds[..i], v), total) + Quot(s.weight, total)
      {
        QuotAdds(SeedWeight(seeds[..i], v), s.weight, total);
      }
      restart := restart[s.post := Score(restart, s.post) + Quot(s.weight, total)];
    }
    assert seeds[..|seeds|] == seeds;
    forall v
      ensures Prod(total, Score(restart, v)) ==
              Sum((set i | 0 <= i < |seeds| && seeds[i].post == v), WeightAt(seeds))
    {
      SeedWeightCollects(seeds, v);
      ProdQuot(total, SeedWeight(seeds, v));
    }
  }

  // ----- One step of the iteration

  /** The fraction of u's mass that v receives when u splits it evenly over its links. */
  ghost function Split(g: Graph, u: int, v: int): real {
    if u in g && g[u] != [] then Quot(multiset(g[u])[v] as real, |g[u]| as real) else 0.0
  }

  ghost function Kernel(g: Graph): (int, int) -> real {
    (u, v) => Split(g, u, v)
  }

  ghost function Targets(g: Graph): set<int> {
    set u, i | u in g && 0 <= i < |g[u]| :: g[u][i]
  }

  ghost predicate IsStep(g: Graph, alpha: real, restart: Scores, x: Scores, x': Scores) {
    && x'.Keys == g.Keys + Targets(g)
    && forall v :: StepAt(Kernel(g), g.Keys, alpha, ScoreOf(restart), ScoreOf(x), ScoreOf(x'), v)
  }

  /** The same share added n times. */
  ghost function Times(n: nat, share: real): real {
    if n == 0 then 0.0 else Times(n - 1, share) + share
  }

  lemma {:induction false} TimesIsProduct(n: nat, share: real)
    ensures Times(n, share) == Prod(share, n as real)
  {
    if n == 0 {
      ProdUnits(share);
    } else {
      TimesIsProduct(n - 1, share);
      ProdAdds(share, (n - 1) as real, 1.0);
      ProdUnits(share);
      assert n as real == (n - 1) as real + 1.0;
    }
  }

  /** Adds one node's share to each of its neighbours, once per listing. */
  method PushShare(neighbors: seq<int>, share: real, next: Scores) returns (next': Scores)
    ensures next'.Keys == next.Keys + Elements(neighbors)
    ensures forall v :: Score(next', v) == Score(next, v) + Times(multiset(neighbors)[v], share)
  {
    next' := next;
    for j := 0 to |neighbors|
      invariant next'.Keys == next.Keys + Elements(neighbors[..j])
      invariant forall v :: Score(next', v) == Score(next, v) + Times(multiset(neighbors[..j])[v], share)
    {
      assert neighbors[..j + 1] == neighbors[..j] + [neighbors[j]];
      next' := next'[neighbors[j] := Score(next', neighbors[j]) + share];
    }
    assert neighbors[..|neighbors|] == neighbors;
  }

  method RestartShare(g: Graph, alpha: real, restart: Scores) returns (next: Scores)
    ensures next.Keys == g.Keys
    ensures forall v :: Score(next, v) == Restarted(g.Keys, alpha, ScoreOf(restart))(v)
  {
    next := map[];
    var rest := g.Keys;
    while rest != {}
      invariant rest <= g.Keys && next.Keys == g.Keys - rest
      invariant forall v :: v in next ==> next[v] == Restarted(g.Keys, alpha, ScoreOf(restart))(v)
      decreases rest
    {
      var n := PickAny(rest);
      next := next[n := Prod(1.0 - alpha, Score(restart, n))];
      rest := rest - {n};
    }
  }

  /** The scores once the sources in `done` have sent their shares of the mass m. */
  ghost predicate PartlySent(w: (int, int) -> real, m: int -> real, done: set<int>, start: Scores, next: Scores) {
    forall v :: Score(next, v) == Score(start, v) + Received(w, m, done)(v)
  }

  lemma PartlySentInsert(w: (int, int) -> real, m: int -> real, done: set<int>, u: int, start: Scores,
                         next: Scores, next': Scores)
    requires PartlySent(w, m, done, start, next) && u !in done
    requires forall v :: Score(next', v) == Score(next, v) + Carried(w, m)(u, v)
    ensures PartlySent(w, m, done + {u}, start, next')
  {
    forall v
      ensures Received(w, m, done + {u})(v) == Received(w, m, done)(v) + Carried(w, m)(u, v)
    {
      SumInsert(done, Row(Flip(Carried(w, m)), v), u);
    }
  }

  lemma NothingSent(w: (int, int) -> real, m: int -> real, start: Scores)
    ensures PartlySent(w, m, {}, start, start)
  {
  }

  /** Once every node has sent its damped mass on top of the restart terms, the step is complete. */
  lemma AllSent(w: (int, int) -> real, nodes: set<int>, alpha: real, restart: Scores, x: Scores, start: Scores,
                next: Scores)
    requires forall v :: Score(start, v) == Restarted(nodes, alpha, ScoreOf(restart))(v)
    requires PartlySent(w, Scaled(alpha, ScoreOf(x)), nodes, start, next)
    ensures forall v :: StepAt(w, nodes, alpha, ScoreOf(restart), ScoreOf(x), ScoreOf(next), v)
  {
    forall v
      ensures StepAt(w, nodes, alpha, ScoreOf(restart), ScoreOf(x), ScoreOf(next), v)
    {
      SendingDampedMass(w, nodes, alpha, ScoreOf(restart), ScoreOf(x), ScoreOf(next), v);
    }
  }

  lemma QuotientsExchange(m: real, k: real, d: real)
    requires d != 0.0
    ensures Prod(Quot(m, d), k) == Prod(m, Quot(k, d))
  {
    var p, q := m / d, k / d;
    assert m == p * d && k == q * d;
    assert p * (q * d) == p * d * q;
  }

  /** The code's share, added once per listing of v, is what the kernel carries from u to v. */
  lemma SharesAreCarried(g: Graph, alpha: real, x: Scores, u: int, v: int)
    requires u in g && g[u] != []
    ensures Times(multiset(g[u])[v], Quot(Prod(alpha, Score(x, u)), |g[u]| as real)) ==
            Carried(Kernel(g), Scaled(alpha, ScoreOf(x)))(u, v)
  {
    var m, k, d := Prod(alpha, Score(x, u)), multiset(g[u])[v], |g[u]| as real;
    TimesIsProduct(k, Quot(m, d));
    QuotientsExchange(m, k as real, d);
  }

  /** One node sends its shares. */
  method SendFrom(g: Graph, alpha: real, x: Scores, u: int, next: Scores) returns (next': Scores)
    requires u in g
    ensures next'.Keys == next.Keys + Elements(g[u])
    ensures forall v :: Score(next', v) == Score(next, v) + Carried(Kernel(g), Scaled(alpha, ScoreOf(x)))(u, v)
  {
    next' := next;
    var neighbors := g[u];
    if |neighbors| == 0 {
      ProdUnits(Scaled(alpha, ScoreOf(x))(u));
      return;
    }
    var share := Quot(Prod(alpha, Score(x, u)), |neighbors| as real);
    next' := PushShare(neighbors, share, next);
    forall v
      ensures Times(multiset(neighbors)[v], share) == Carried(Kernel(g), Scaled(alpha, ScoreOf(x)))(u, v)
    {
      SharesAreCarried(g, alpha, x, u, v);
    }
  }

  /** A step in which exactly the sources in `done` have had their turn. */
  ghost predicate SentBy(g: Graph, alpha: real, x: Scores, done: set<int>, start: Scores, next: Scores) {
    && next.Keys == start.Keys + TargetsOf(g, done)
    && PartlySent(Kernel(g), Scaled(alpha, ScoreOf(x)), done, start, next)
  }

  method TakeTurn(g: Graph, alpha: real, x: Scores, u: int, next: Scores, ghost done: set<int>, ghost start: Scores)
    returns (next': Scores)
    requires u in g && u !in done && SentBy(g, alpha, x, done, start, next)
    ensures SentBy(g, alpha, x, done + {u}, start, next')
  {
    next' := SendFrom(g, alpha, x, u, next);
    TargetsInsert(g, done, u);
    PartlySentInsert(Kernel(g), Scaled(alpha, ScoreOf(x)), done, u, start, next, next');
  }

  /** Every node sends its shares; the nodes are taken in an arbitrary order. */
  method SendShares(g: Graph, alpha: real, x: Scores, start: Scores) returns (next: Scores)
    ensures SentBy(g, alpha, x, g.Keys, start, next)
  {
    next := start;
    var rest := g.Keys;
    ghost var done := {};
    NothingSent(Kernel(g), Scaled(alpha, ScoreOf(x)), start);
    while rest != {}
      invariant done + rest == g.Keys && done !! rest
      invariant SentBy(g, alpha, x, done, start, next)
      decreases rest
    {
      var u := PickAny(rest);
      next := TakeTurn(g, alpha, x, u, next, done, start);
      rest, done := rest - {u}, done + {u};
    }
    assert done == g.Keys;
  }

  /** One step over the subgraph. */
  method PowerStep(g: Graph, alpha: real, restart: Scores, x: Scores) returns (next: Scores)
    ensures IsStep(g, alpha, restart, x, next)
  {
    var start := RestartShare(g, alpha, restart);
    next := SendShares(g, alpha, x, start);
    TargetsAll(g);
    AllSent(Kernel(g), g.Keys, alpha, restart, x, start, next);
  }

  ghost function TargetsOf(g: Graph, sources: set<int>): set<int> {
    set u, i | u in sources && u in g && 0 <= i < |g[u]| :: g[u][i]
  }

  lemma TargetsAll(g: Graph)
    ensures TargetsOf(g, g.Keys) == Targets(g)
  {
    assert forall v :: v in TargetsOf(g, g.Keys) <==> v in Targets(g);
  }

  lemma TargetsInsert(g: Graph, sources: set<int>, u: int)
    requires u in g
    ensures TargetsOf(g, sources + {u}) == TargetsOf(g, sources) + Elements(g[u])
  {
    forall v | v in g[u]
      ensures v in TargetsOf(g, sources + {u})
    {
      var i :| 0 <= i < |g[u]| && g[u][i] == v;
      assert u in sources + {u};
    }
    assert forall v :: v in TargetsOf(g, sources + {u}) <==> v in TargetsOf(g, sources) || v in Elements(g[u]);
  }

  // ----- The L1 change over the visited nodes

  /** The change is the sum, over the nodes, of how far each score moved. */
  lemma ChangeInFull(nodes: set<int>, next: Scores, pi: Scores)
    ensures Dist(nodes, ScoreOf(next), ScoreOf(pi)) == Sum(nodes, v => Abs(Score(next, v) - Score(pi, v)))
  {
    SumCongruent(nodes, Magnitude(Difference(ScoreOf(next), ScoreOf(pi))), v => Abs(Score(next, v) - Score(pi, v)));
  }

  method L1Change(nodes: set<int>, next: Scores, pi: Scores) returns (diff: real)
    ensures diff == Dist(nodes, ScoreOf(next), ScoreOf(pi))
    ensures diff == Sum(nodes, v => Abs(Score(next, v) - Score(pi, v)))
  {
    diff := 0.0;
    var rest := nodes;
    ghost var done, gap := {}, Magnitude(Difference(ScoreOf(next), ScoreOf(pi)));
    while rest != {}
      invariant done + rest == nodes && done !! rest
      invariant diff == Sum(done, gap)
      decreases rest
    {
      var n := PickAny(rest);
      SumInsert(done, gap, n);
      var d := Score(next, n) - Score(pi, n);
      if d < 0.0 {
        d := -d;
      }
      diff := diff + d;
      rest, done := rest - {n}, done + {n};
    }
    assert done == nodes;
    ChangeInFull(nodes, next, pi);
  }

  // ----- The whole iteration

  ghost function Pow(a: real, n: nat): real {
    if n == 0 then 1.0 else Prod(a, Pow(a, n - 1))
  }

  /** The change made by the i-th step of a run. */
  ghost function Change(g: Graph, run: seq<Scores>, i: nat): real
    requires i + 1 < |run|
  {
    Dist(g.Keys, ScoreOf(run[i + 1]), ScoreOf(run[i]))
  }

  /** A run starts at the restart vector, limited to the visited nodes, and takes one step at a time. */
  ghost predicate IsRun(g: Graph, alpha: real, restart: Scores, run: seq<Scores>) {
    && |run| > 0
    && run[0].Keys == g.Keys
    && (forall v :: v in g ==> run[0][v] == Score(restart, v))
    && forall i :: 0 <= i < |run| - 1 ==> IsStep(g, alpha, restart, run[i], run[i + 1])
  }

  function Limit(maxIterations: int): nat {
    if maxIterations < 0 then 0 else maxIterations
  }

  /** The loop leaves at the first change below the tolerance, or when the iterations are used up. */
  ghost predicate Stopped(g: Graph, cfg: Config, run: seq<Scores>)
    requires |run| > 0
  {
    && |run| - 1 <= Limit(cfg.maxIterations)
    && (forall i :: 0 <= i < |run| - 2 ==> Change(g, run, i) >= cfg.tolerance)
    && (|run| - 1 == Limit(cfg.maxIterations)
        || (|run| >= 2 && Change(g, run, |run| - 2) < cfg.tolerance))
  }

  method StartVector(nodes: set<int>, restart: Scores) returns (pi: Scores)
    ensures pi.Keys == nodes && forall v :: v in nodes ==> pi[v] == Score(restart, v)
  {
    pi := map[];
    var rest := nodes;
    while rest != {}
      invariant rest <= nodes && pi.Keys == nodes - rest
      invariant forall v :: v in pi ==> pi[v] == Score(restart, v)
      decreases rest
    {
      var n := PickAny(rest);
      pi := pi[n := Score(restart, n)];
      rest := rest - {n};
    }
  }

  lemma RunExtend(g: Graph, alpha: real, restart: Scores, run: seq<Scores>, next: Scores)
    requires IsRun(g, alpha, restart, run) && IsStep(g, alpha, restart, run[|run| - 1], next)
    ensures IsRun(g, alpha, restart, run + [next])
    ensures forall i :: 0 <= i < |run| - 1 ==> Change(g, run + [next], i) == Change(g, run, i)
    ensures Change(g, run + [next], |run| - 1) == Dist(g.Keys, ScoreOf(next), ScoreOf(run[|run| - 1]))
  {
    var longer := run + [next];
    assert forall i :: 0 <= i < |run| ==> longer[i] == run[i];
    assert longer[|run|] == next;
    forall i | 0 <= i < |run|
      ensures IsStep(g, alpha, restart, longer[i], longer[i + 1])
    {
      if i + 1 < |run| {
        assert IsStep(g, alpha, restart, run[i], run[i + 1]);
      }
    }
  }

  /** A run from the restart vector that stopped by the loop's own rules, and its last scores. */
  ghost predicate Concludes(g: Graph, cfg: Config, restart: Scores, run: seq<Scores>, pi: Scores) {
    && IsRun(g, cfg.alpha, restart, run) && |run| > 0
    && Stopped(g, cfg, run) && pi == run[|run| - 1]
  }

  /** A run on which no change was below the tolerance so far. */
  ghost predicate Unsettled(g: Graph, cfg: Config, restart: Scores, run: seq<Scores>, pi: Scores) {
    && IsRun(g, cfg.alpha, restart, run) && |run| > 0 && pi == run[|run| - 1]
    && forall i :: 0 <= i < |run| - 1 ==> Change(g, run, i) >= cfg.tolerance
  }

  lemma OneMoreRound(g: Graph, cfg: Config, restart: Scores, run: seq<Scores>, pi: Scores, next: Scores)
    requires Unsettled(g, cfg, restart, run, pi) && |run| <= Limit(cfg.maxIterations)
    requires IsStep(g, cfg.alpha, restart, pi, next)
    ensures (if Dist(g.Keys, ScoreOf(next), ScoreOf(pi)) < cfg.tolerance
             then Concludes(g, cfg, restart, run + [next], next)
             else Unsettled(g, cfg, restart, run + [next], next))
  {
    hide IsRun, IsStep, Dist;
    RunExtend(g, cfg.alpha, restart, run, next);
  }

  method Iterate(g: Graph, cfg: Config, restart: Scores) returns (pi: Scores)
    ensures exists run :: Concludes(g, cfg, restart, run, pi)
  {
    pi := StartVector(g.Keys, restart);
    ghost var run := [pi];
    var iter := 0;
    while iter < cfg.maxIterations
      invariant 0 <= iter <= Limit(cfg.maxIterations) && |run| == iter + 1
      invariant Unsettled(g, cfg, restart, run, pi)
    {
      hide Unsettled, IsStep, Dist;
      var next := PowerStep(g, cfg.alpha, restart, pi);
      var diff := L1Change(g.Keys, next, pi);
      OneMoreRound(g, cfg, restart, run, pi, next);
      run := run + [next];
      pi := next;
      iter := iter + 1;
      if diff < cfg.tolerance {
        return;
      }
    }
    assert Concludes(g, cfg, restart, run, pi);
  }

  /** What a ranking says about its inputs. */
  ghost predicate IsRanking(gs: GraphStore, seeds: seq<Seed>, cfg: Config, pi: Scores, run: seq<Scores>) {
    var g := Adjacency(gs, Ball(gs, seeds, Hops(cfg.maxHops)));
    && TotalWeight(seeds) != 0.0
    && |run| > 0 && pi == run[|run| - 1]
    && Stopped(g, cfg, run)
    && exists restart: Scores :: IsRestart(seeds, restart) && IsRun(g, cfg.alpha, restart, run)
  }

  /** Each post's share of the total seed weight. */
  ghost predicate IsRestart(seeds: seq<Seed>, restart: Scores)
    requires TotalWeight(seeds) != 0.0
  {
    && restart.Keys == SeedPosts(seeds)
    && forall v :: Score(restart, v) == Quot(SeedWeight(seeds, v), TotalWeight(seeds))
  }

  method PersonalizedPageRank(gs: GraphStore, seeds: seq<Seed>, cfg: Config) returns (r: Ranking)
    ensures r.LookupFailed? <==> |seeds| > 0 && !AllReadable(gs, Ball(gs, seeds, Hops(cfg.maxHops)))
    ensures r.Empty? <==> |seeds| == 0 || (!r.LookupFailed? && TotalWeight(seeds) == 0.0)
    ensures r.Ranked? ==> exists run :: IsRanking(gs, seeds, cfg, r.scores, run)
  {
    if |seeds| == 0 {
      return Empty;
    }
    var ok, g := Expand(gs, seeds, cfg.maxHops);
    if !ok {
      return LookupFailed;
    }
    var total := SumWeights(seeds);
    if total == 0.0 {
      return Empty;
    }
    var restart := RestartVector(seeds, total);
    var pi := Iterate(g, cfg, restart);
    ghost var run :| Concludes(g, cfg, restart, run, pi);
    assert IsRanking(gs, seeds, cfg, pi, run);
    r := Ranked(pi);
  }
}
