/**
  Breadth-first expansion of the quote graph around a set of seed posts, up to a hop limit.
 */
module Subgraph {
  import opened FiniteSums

  /** The answer of one neighbour query; a failed query aborts the expansion. */
  datatype Lookup = Found(neighbors: seq<int>) | Failed

  type GraphStore = int -> Lookup

  datatype Seed = Seed(post: int, weight: real)

  /** Adjacency lists of the posts in the subgraph. */
  type Graph = map<int, seq<int>>

  function Links(gs: GraphStore, n: int): seq<int> {
    if gs(n).Found? then gs(n).neighbors else []
  }

  ghost function SeedPosts(seeds: seq<Seed>): set<int> {
    set i | 0 <= i < |seeds| :: seeds[i].post
  }

  ghost function Neighborhood(gs: GraphStore, nodes: set<int>): set<int> {
    set u, i | u in nodes && 0 <= i < |Links(gs, u)| :: Links(gs, u)[i]
  }

  /** The posts within the given number of hops of some seed. */
  ghost function Ball(gs: GraphStore, seeds: seq<Seed>, hops: nat): set<int> {
    if hops == 0 then SeedPosts(seeds)
    else Ball(gs, seeds, hops - 1) + Neighborhood(gs, Ball(gs, seeds, hops - 1))
  }

  /** A non-positive hop limit leaves only the seeds. */
  function Hops(maxHops: int): nat {
    if maxHops < 0 then 0 else maxHops
  }

  /** v is among the neighbours the store answers for u. */
  predicate Follows(gs: GraphStore, u: int, v: int) {
    gs(u).Found? && v in gs(u).neighbors
  }

  /** A path that follows links. */
  ghost predicate Walk(gs: GraphStore, p: seq<int>) {
    && |p| > 0
    && forall i :: 0 < i < |p| ==> Follows(gs, p[i - 1], p[i])
  }

  ghost predicate WalkFromSeed(gs: GraphStore, seeds: seq<Seed>, p: seq<int>, n: int, hops: nat) {
    Walk(gs, p) && p[0] in SeedPosts(seeds) && p[|p| - 1] == n && |p| <= hops + 1
  }

  lemma {:induction false} WalkInBall(gs: GraphStore, seeds: seq<Seed>, p: seq<int>, n: int, hops: nat)
    requires WalkFromSeed(gs, seeds, p, n, hops)
    ensures n in Ball(gs, seeds, hops)
    decreases hops
  {
    if hops > 0 {
      if |p| == 1 {
        WalkInBall(gs, seeds, p, n, hops - 1);
      } else {
        var q := p[..|p| - 1];
        var m := q[|q| - 1];
        WalkInBall(gs, seeds, q, m, hops - 1);
        var i :| 0 <= i < |Links(gs, m)| && Links(gs, m)[i] == n;
      }
    }
  }

  lemma WalkExtend(gs: GraphStore, seeds: seq<Seed>, q: seq<int>, u: int, n: int, hops: nat)
    requires WalkFromSeed(gs, seeds, q, u, hops) && n in Links(gs, u)
    ensures WalkFromSeed(gs, seeds, q + [n], n, hops + 1)
  {
    var p := q + [n];
    forall i | 0 < i < |p|
      ensures Follows(gs, p[i - 1], p[i])
    {
      assert p[i - 1] == q[i - 1];
      assert i < |q| ==> p[i] == q[i];
    }
  }

  lemma WalkMayBeLonger(gs: GraphStore, seeds: seq<Seed>, p: seq<int>, n: int, hops: nat)
    requires WalkFromSeed(gs, seeds, p, n, hops)
    ensures WalkFromSeed(gs, seeds, p, n, hops + 1)
  {
  }

  lemma SeedWalk(gs: GraphStore, seeds: seq<Seed>, n: int) returns (p: seq<int>)
    requires n in SeedPosts(seeds)
    ensures WalkFromSeed(gs, seeds, p, n, 0)
  {
    p := [n];
  }

  /** The node from which n entered the ball: itself, or a neighbour one hop closer. */
  lemma BallSource(gs: GraphStore, seeds: seq<Seed>, n: int, hops: nat) returns (u: int)
    requires n in Ball(gs, seeds, hops + 1)
    ensures u in Ball(gs, seeds, hops) && (n == u || n in Links(gs, u))
  {
    if n in Ball(gs, seeds, hops) {
      u := n;
    } else {
      u := NeighborhoodSource(gs, Ball(gs, seeds, hops), n);
    }
  }

  ghost predicate Reaches(gs: GraphStore, seeds: seq<Seed>, n: int, hops: nat) {
    exists p :: WalkFromSeed(gs, seeds, p, n, hops)
  }

  lemma ReachesFurther(gs: GraphStore, seeds: seq<Seed>, u: int, n: int, hops: nat)
    requires Reaches(gs, seeds, u, hops) && (n == u || n in Links(gs, u))
    ensures Reaches(gs, seeds, n, hops + 1)
  {
    var p :| WalkFromSeed(gs, seeds, p, u, hops);
    if n == u {
      WalkMayBeLonger(gs, seeds, p, n, hops);
    } else {
      WalkExtend(gs, seeds, p, u, n, hops);
    }
  }

  lemma {:induction false} BallReaches(gs: GraphStore, seeds: seq<Seed>, n: int, hops: nat)
    requires n in Ball(gs, seeds, hops)
    ensures Reaches(gs, seeds, n, hops)
    decreases hops
  {
    if hops == 0 {
      var p := SeedWalk(gs, seeds, n);
    } else {
      var h := hops - 1;
      var u := BallSource(gs, seeds, n, h);
      BallReaches(gs, seeds, u, h);
      ReachesFurther(gs, seeds, u, n, h);
    }
  }

  lemma NeighborhoodSource(gs: GraphStore, nodes: set<int>, n: int) returns (u: int)
    requires n in Neighborhood(gs, nodes)
    ensures u in nodes && n in Links(gs, u)
  {
    var v, i :| v in nodes && 0 <= i < |Links(gs, v)| && Links(gs, v)[i] == n;
    u := v;
  }

  /** The expansion reaches exactly the posts joined to a seed by a walk of at most `hops` links. */
  lemma BallIsReach(gs: GraphStore, seeds: seq<Seed>, n: int, hops: nat)
    ensures n in Ball(gs, seeds, hops) <==> exists p :: WalkFromSeed(gs, seeds, p, n, hops)
  {
    if n in Ball(gs, seeds, hops) {
      BallReaches(gs, seeds, n, hops);
    }
    if p :| WalkFromSeed(gs, seeds, p, n, hops) {
      WalkInBall(gs, seeds, p, n, hops);
    }
  }

  /** Some seed has a walk to n along at most that many links, or is n. */
  ghost predicate InReach(gs: GraphStore, seeds: seq<Seed>, n: int, maxHops: int) {
    exists p :: Walk(gs, p) && p[|p| - 1] == n && (|p| == 1 || |p| - 1 <= maxHops)
                && exists i :: 0 <= i < |seeds| && seeds[i].post == p[0]
  }

  lemma ReachIsBall(gs: GraphStore, seeds: seq<Seed>, maxHops: int)
    ensures forall n :: n in Ball(gs, seeds, Hops(maxHops)) <==> InReach(gs, seeds, n, maxHops)
  {
    forall n
      ensures n in Ball(gs, seeds, Hops(maxHops)) <==> InReach(gs, seeds, n, maxHops)
    {
      BallIsReach(gs, seeds, n, Hops(maxHops));
      if p :| WalkFromSeed(gs, seeds, p, n, Hops(maxHops)) {
        assert Walk(gs, p);
      }
      if InReach(gs, seeds, n, maxHops) {
        var p :| Walk(gs, p) && p[|p| - 1] == n && (|p| == 1 || |p| - 1 <= maxHops)
                 && exists i :: 0 <= i < |seeds| && seeds[i].post == p[0];
        assert WalkFromSeed(gs, seeds, p, n, Hops(maxHops));
      }
    }
  }

  lemma {:induction false} BallStable(gs: GraphStore, seeds: seq<Seed>, h: nat, k: nat)
    requires h <= k
    requires Neighborhood(gs, Ball(gs, seeds, h)) <= Ball(gs, seeds, h)
    ensures Ball(gs, seeds, k) == Ball(gs, seeds, h)
    decreases k
  {
    hide Neighborhood;
    if h < k {
      BallStable(gs, seeds, h, k - 1);
      assert Ball(gs, seeds, k) == Ball(gs, seeds, h) + Neighborhood(gs, Ball(gs, seeds, h));
    }
  }

  /** Marks the unvisited neighbours of one node and queues them for the next hop. */
  method Visit(neighbors: seq<int>, visited: set<int>, next: seq<int>)
    returns (visited': set<int>, next': seq<int>)
    ensures visited' == visited + Elements(neighbors)
    ensures forall x :: x in next' <==> x in next || (x in neighbors && x !in visited)
  {
    visited', next' := visited, next;
    for j := 0 to |neighbors|
      invariant visited' == visited + Elements(neighbors[..j])
      invariant forall x :: x in next' <==> x in next || (x in neighbors[..j] && x !in visited)
    {
      assert neighbors[..j + 1] == neighbors[..j] + [neighbors[j]];
      if neighbors[j] !in visited' {
        visited' := visited' + {neighbors[j]};
        next' := next' + [neighbors[j]];
      }
    }
    assert neighbors[..|neighbors|] == neighbors;
  }

  ghost predicate Recorded(gs: GraphStore, adjacency: Graph) {
    forall u :: u in adjacency ==> gs(u).Found? && adjacency[u] == gs(u).neighbors
  }

  /** What one hop has done once the nodes of `part` are expanded. */
  ghost predicate Expanded(gs: GraphStore, part: seq<int>, visited: set<int>, visited': set<int>, next: seq<int>) {
    && visited' == visited + Neighborhood(gs, Elements(part))
    && forall x :: x in next <==> x in visited' && x !in visited
  }

  lemma ExpandedStep(gs: GraphStore, part: seq<int>, u: int, visited: set<int>,
                     visited': set<int>, next: seq<int>, visited'': set<int>, next': seq<int>)
    requires Expanded(gs, part, visited, visited', next)
    requires visited'' == visited' + Elements(Links(gs, u))
    requires forall x :: x in next' <==> x in next || (x in Links(gs, u) && x !in visited')
    ensures Expanded(gs, part + [u], visited, visited'', next')
  {
    NeighborhoodInsert(gs, Elements(part), u);
    assert Elements(part + [u]) == Elements(part) + {u};
  }

  /** One hop: expands every node of the frontier. */
  method ExpandFrontier(gs: GraphStore, frontier: seq<int>, visited: set<int>, adjacency: Graph)
    returns (ok: bool, visited': set<int>, next: seq<int>, adjacency': Graph)
    requires Recorded(gs, adjacency) && adjacency.Keys <= visited
    requires forall x :: x in frontier ==> x in visited
    ensures !ok ==> exists u :: u in visited && gs(u).Failed?
    ensures ok ==> Expanded(gs, frontier, visited, visited', next)
    ensures ok ==> Recorded(gs, adjacency') && adjacency'.Keys <= visited'
  {
    ok, visited', next, adjacency' := true, visited, [], adjacency;
    for i := 0 to |frontier|
      invariant Expanded(gs, frontier[..i], visited, visited', next)
      invariant Recorded(gs, adjacency') && adjacency'.Keys <= visited'
    {
      var node := frontier[i];
      assert node in frontier;
      var lookup := gs(node);
      if lookup.Failed? {
        ok := false;
        return;
      }
      adjacency' := adjacency'[node := lookup.neighbors];
      ghost var marked, queued := visited', next;
      visited', next := Visit(lookup.neighbors, visited', next);
      ExpandedStep(gs, frontier[..i], node, visited, marked, queued, visited', next);
      assert frontier[..i + 1] == frontier[..i] + [node];
    }
    assert frontier[..|frontier|] == frontier;
  }

  lemma NeighborhoodInsert(gs: GraphStore, nodes: set<int>, u: int)
    ensures Neighborhood(gs, nodes + {u}) == Neighborhood(gs, nodes) + Elements(Links(gs, u))
  {
    forall x | x in Links(gs, u)
      ensures x in Neighborhood(gs, nodes + {u})
    {
      var i :| 0 <= i < |Links(gs, u)| && Links(gs, u)[i] == x;
      assert u in nodes + {u};
    }
  }

  /** The adjacency lists of a set of nodes. */
  ghost function Adjacency(gs: GraphStore, nodes: set<int>): Graph {
    map u | u in nodes :: Links(gs, u)
  }

  method SeedFrontier(seeds: seq<Seed>) returns (visited: set<int>, frontier: seq<int>)
    ensures visited == SeedPosts(seeds) && Elements(frontier) == visited
  {
    visited, frontier := {}, [];
    for i := 0 to |seeds|
      invariant visited == set j | 0 <= j < i :: seeds[j].post
      invariant forall x :: x in frontier <==> x in visited
    {
      frontier := frontier + [seeds[i].post];
      visited := visited + {seeds[i].post};
    }
    assert forall x :: x in Elements(frontier) <==> x in visited;
  }

  ghost predicate AllReadable(gs: GraphStore, nodes: set<int>) {
    forall n :: n in nodes ==> gs(n).Found?
  }

  /** A hop takes one ball to the next, and the new frontier is all that is new. */
  lemma HopDone(gs: GraphStore, seeds: seq<Seed>, hop: nat, inner: set<int>, frontier: seq<int>,
                visited: set<int>, visited': set<int>, next: seq<int>)
    requires visited == Ball(gs, seeds, hop) == inner + Elements(frontier) && Neighborhood(gs, inner) <= visited
    requires Expanded(gs, frontier, visited, visited', next)
    ensures visited' == Ball(gs, seeds, hop + 1) == visited + Elements(next)
    ensures Neighborhood(gs, visited) <= visited'
  {
    hide Neighborhood;
    NeighborhoodUnion(gs, inner, Elements(frontier), visited);
    AllNew(visited, visited', next);
  }

  lemma AllNew(before: set<int>, after: set<int>, next: seq<int>)
    requires before <= after && forall x :: x in next <==> x in after && x !in before
    ensures after == before + Elements(next)
  {
    assert forall x :: x in after <==> x in before || x in Elements(next);
  }

  lemma AtTheSeeds(gs: GraphStore, seeds: seq<Seed>)
    ensures Ball(gs, seeds, 0) == SeedPosts(seeds) && Neighborhood(gs, {}) == {} && Recorded(gs, map[])
  {
  }

  lemma Unreadable(gs: GraphStore, reached: set<int>, nodes: set<int>)
    requires reached <= nodes && exists u :: u in reached && gs(u).Failed?
    ensures !AllReadable(gs, nodes)
  {
  }

  lemma NothingListed(xs: seq<int>)
    requires |xs| == 0
    ensures Elements(xs) == {}
  {
  }

  /** Hop by hop until the limit, or until a hop finds nothing new. */
  method BreadthFirst(gs: GraphStore, seeds: seq<Seed>, maxHops: int)
    returns (ok: bool, visited: set<int>, adjacency: Graph)
    ensures !ok ==> !AllReadable(gs, Ball(gs, seeds, Hops(maxHops)))
    ensures ok ==> visited == Ball(gs, seeds, Hops(maxHops))
    ensures ok ==> Recorded(gs, adjacency) && adjacency.Keys <= visited
  {
    hide Neighborhood, Recorded, Ball, Expanded, AllReadable;
    var frontier;
    visited, frontier := SeedFrontier(seeds);
    ok, adjacency := true, map[];
    AtTheSeeds(gs, seeds);
    var hop := 0;
    ghost var inner := {};
    while hop < maxHops
      invariant 0 <= hop <= Hops(maxHops)
      invariant visited == Ball(gs, seeds, hop) == inner + Elements(frontier)
      invariant Neighborhood(gs, inner) <= visited
      invariant Recorded(gs, adjacency) && adjacency.Keys <= visited
    {
      ghost var reached, edge := visited, frontier;
      BallGrows(gs, seeds, hop, Hops(maxHops));
      ok, visited, frontier, adjacency := ExpandFrontier(gs, frontier, visited, adjacency);
      if !ok {
        Unreadable(gs, reached, Ball(gs, seeds, Hops(maxHops)));
        return;
      }
      HopDone(gs, seeds, hop, inner, edge, reached, visited, frontier);
      hop, inner := hop + 1, reached;
      if |frontier| == 0 {
        NothingListed(frontier);
        assert visited == reached;
        BallStable(gs, seeds, hop, Hops(maxHops));
        break;
      }
    }
  }

  /** The bounded subgraph around the seeds, or a failure exactly when some node within reach cannot be read. */
  method Expand(gs: GraphStore, seeds: seq<Seed>, maxHops: int) returns (ok: bool, adjacency: Graph)
    ensures ok <==> AllReadable(gs, Ball(gs, seeds, Hops(maxHops)))
    ensures ok ==> adjacency == Adjacency(gs, Ball(gs, seeds, Hops(maxHops)))
    ensures ok ==> forall u :: u in adjacency ==> gs(u) == Found(adjacency[u])
    ensures ok ==> forall u :: u in adjacency <==> InReach(gs, seeds, u, maxHops)
    ensures !ok ==> exists u :: InReach(gs, seeds, u, maxHops) && gs(u).Failed?
  {
    ReachIsBall(gs, seeds, maxHops);
    hide InReach;
    var visited;
    ok, visited, adjacency := BreadthFirst(gs, seeds, maxHops);
    if !ok {
      return;
    }
    var rest := visited - adjacency.Keys;
    while rest != {}
      invariant rest <= visited && visited - rest == adjacency.Keys
      invariant Recorded(gs, adjacency)
      decreases rest
    {
      var node := PickAny(rest);
      var lookup := gs(node);
      if lookup.Failed? {
        ok := false;
        return;
      }
      adjacency := adjacency[node := lookup.neighbors];
      rest := rest - {node};
    }
  }

  lemma {:induction false} BallGrows(gs: GraphStore, seeds: seq<Seed>, h: nat, k: nat)
    requires h <= k
    ensures Ball(gs, seeds, h) <= Ball(gs, seeds, k)
    decreases k - h
  {
    if h < k {
      BallGrows(gs, seeds, h + 1, k);
    }
  }

  /** A set splits into an inner part, whose neighbours are already in it, and its edge. */
  lemma NeighborhoodUnion(gs: GraphStore, inner: set<int>, edge: set<int>, all: set<int>)
    requires inner + edge == all
    requires Neighborhood(gs, inner) <= all
    ensures all + Neighborhood(gs, edge) == all + Neighborhood(gs, all)
  {
    forall x | x in Neighborhood(gs, all)
      ensures x in all + Neighborhood(gs, edge)
    {
      var u, i :| u in all && 0 <= i < |Links(gs, u)| && Links(gs, u)[i] == x;
      if u in inner {
        assert x in Neighborhood(gs, inner);
      } else {
        assert u in edge;
        assert x in Neighborhood(gs, edge);
      }
    }
    forall x | x in Neighborhood(gs, edge)
      ensures x in Neighborhood(gs, all)
    {
      var u, i :| u in edge && 0 <= i < |Links(gs, u)| && Links(gs, u)[i] == x;
      assert u in all;
    }
  }
}
