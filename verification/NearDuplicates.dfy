/**
  Near-duplicate images: Hamming distance between hexadecimal perceptual hashes and the greedy
  clustering of blobs around leaders.
 */
module NearDuplicates {

  // ----- Hamming distance of hexadecimal strings

  /** The value of a hexadecimal digit; any other byte counts as zero. */
  function DecodeHex(c: bv8): bv8 {
    if 0x30 <= c <= 0x39 then c - 0x30
    else if 0x61 <= c <= 0x66 then c - 0x61 + 10
    else if 0x41 <= c <= 0x46 then c - 0x41 + 10
    else 0
  }

  function LowBit(x: bv8): nat {
    if x & 1 == 1 then 1 else 0
  }

  function PopCount(x: bv8): nat
    decreases x
  {
    if x == 0 then 0 else LowBit(x) + PopCount(x >> 1)
  }

  function XorCount(x: bv8, y: bv8): nat {
    PopCount(x ^ y)
  }

  /** Differing bits of two digits. */
  function DigitsApart(c: bv8, d: bv8): nat {
    XorCount(DecodeHex(c), DecodeHex(d))
  }

  /** Differing bits, position by position. */
  function BitsApart(a: seq<bv8>, b: seq<bv8>): nat
    requires |a| == |b|
  {
    if a == [] then 0
    else
      var n := |a| - 1;
      BitsApart(a[..n], b[..n]) + DigitsApart(a[n], b[n])
  }

  /** What the program computes: hashes of different lengths are at distance -1. */
  function Hamming(a: seq<bv8>, b: seq<bv8>): int {
    if |a| != |b| then -1 else BitsApart(a, b)
  }

  method HammingDistance(a: seq<bv8>, b: seq<bv8>) returns (dist: int)
    ensures dist == Hamming(a, b)
  {
    if |a| != |b| {
      return -1;
    }
    dist := 0;
    for i := 0 to |a|
      invariant dist == BitsApart(a[..i], b[..i])
    {
      assert a[..i + 1][..i] == a[..i] && b[..i + 1][..i] == b[..i];
      if a[i] != b[i] {
        var xor := DecodeHex(a[i]) ^ DecodeHex(b[i]);
        ghost var total := dist + PopCount(xor);
        while xor > 0
          invariant dist + PopCount(xor) == total
          decreases xor
        {
          dist := dist + LowBit(xor);
          xor := xor >> 1;
        }
      } else {
        assert DecodeHex(a[i]) ^ DecodeHex(b[i]) == 0;
      }
    }
    assert a[..|a|] == a && b[..|b|] == b;
  }

  lemma XorLowBit(x: bv8, y: bv8)
    ensures LowBit(x ^ y) <= LowBit(x) + LowBit(y)
    ensures (x ^ y) >> 1 == (x >> 1) ^ (y >> 1)
  {
  }

  lemma {:induction false} PopCountXor(x: bv8, y: bv8)
    ensures PopCount(x ^ y) <= PopCount(x) + PopCount(y)
    decreases x
  {
    if x == 0 {
      assert x ^ y == y;
    } else if y == 0 {
      assert x ^ y == x;
    } else {
      XorLowBit(x, y);
      PopCountXor(x >> 1, y >> 1);
      PopCountUnfold(x ^ y);
    }
  }

  lemma PopCountUnfold(x: bv8)
    ensures PopCount(x) == LowBit(x) + PopCount(x >> 1)
  {
    assert x == 0 ==> x >> 1 == 0;
  }

  lemma XorTriangle(x: bv8, y: bv8, z: bv8)
    ensures XorCount(x, z) <= XorCount(x, y) + XorCount(y, z)
  {
    assert x ^ z == (x ^ y) ^ (y ^ z);
    PopCountXor(x ^ y, y ^ z);
  }

  lemma DigitTriangle(c: bv8, d: bv8, e: bv8)
    ensures DigitsApart(c, e) <= DigitsApart(c, d) + DigitsApart(d, e)
  {
    XorTriangle(DecodeHex(c), DecodeHex(d), DecodeHex(e));
  }

  lemma {:induction false} HammingTriangle(a: seq<bv8>, b: seq<bv8>, c: seq<bv8>)
    requires |a| == |b| == |c|
    ensures Hamming(a, c) <= Hamming(a, b) + Hamming(b, c)
    decreases |a|
  {
    if a != [] {
      var n := |a| - 1;
      HammingTriangle(a[..n], b[..n], c[..n]);
      DigitTriangle(a[n], b[n], c[n]);
    }
  }

  lemma {:induction false} HammingSymmetric(a: seq<bv8>, b: seq<bv8>)
    ensures Hamming(a, b) == Hamming(b, a)
    decreases |a|
  {
    if |a| == |b| && a != [] {
      var n := |a| - 1;
      HammingSymmetric(a[..n], b[..n]);
      assert DecodeHex(a[n]) ^ DecodeHex(b[n]) == DecodeHex(b[n]) ^ DecodeHex(a[n]);
    }
  }

  /** Distance zero means the same digits, whatever their case. */
  lemma {:induction false} HammingZero(a: seq<bv8>, b: seq<bv8>)
    requires |a| == |b|
    ensures Hamming(a, b) == 0 <==> forall i :: 0 <= i < |a| ==> DecodeHex(a[i]) == DecodeHex(b[i])
    decreases |a|
  {
    if a != [] {
      var n := |a| - 1;
      HammingZero(a[..n], b[..n]);
      XorZero(DecodeHex(a[n]), DecodeHex(b[n]));
      assert forall i :: 0 <= i < n ==> a[..n][i] == a[i] && b[..n][i] == b[i];
    }
  }

  lemma XorZero(x: bv8, y: bv8)
    ensures PopCount(x ^ y) == 0 <==> x == y
  {
    PopCountZero(x ^ y);
    assert x ^ y == 0 <==> x == y;
  }

  lemma {:induction false} PopCountZero(x: bv8)
    ensures PopCount(x) == 0 <==> x == 0
    decreases x
  {
    if x != 0 {
      PopCountZero(x >> 1);
      assert x & 1 != 1 ==> x >> 1 != 0;
    }
  }

  // ----- Greedy clustering

  datatype Blob = Blob(hash: string, phash: seq<bv8>)

  const BATCH_SIZE := 1000

  /** Hashes are the primary key of the blob table. */
  ghost predicate DistinctHashes(blobs: seq<Blob>) {
    forall i, j :: 0 <= i < j < |blobs| ==> blobs[i].hash != blobs[j].hash
  }

  ghost predicate Close(t: int, leader: Blob, b: Blob) {
    Hamming(leader.phash, b.phash) <= t
  }

  /** The members of `waiting` that are close to the leader, or those that are not. */
  ghost function Pick(waiting: seq<Blob>, t: int, leader: Blob, close: bool): (r: seq<Blob>)
    ensures |r| <= |waiting|
    ensures forall b :: b in r <==> b in waiting && Close(t, leader, b) == close
  {
    if waiting == [] then []
    else
      var rest := Pick(waiting[1..], t, leader, close);
      if Close(t, leader, waiting[0]) == close then [waiting[0]] + rest else rest
  }

  /** The first blob still to be placed leads a cluster of every later one close to it. */
  ghost function Greedy(waiting: seq<Blob>, t: int): seq<seq<Blob>>
    decreases |waiting|
  {
    if waiting == [] then []
    else [[waiting[0]] + Pick(waiting[1..], t, waiting[0], true)] + Greedy(Pick(waiting[1..], t, waiting[0], false), t)
  }

  /** The blobs whose hash has not been placed. */
  ghost function Unseen(blobs: seq<Blob>, seen: set<string>): seq<Blob> {
    if blobs == [] then []
    else if blobs[0].hash in seen then Unseen(blobs[1..], seen)
    else [blobs[0]] + Unseen(blobs[1..], seen)
  }

  lemma {:induction false} NothingSeen(blobs: seq<Blob>)
    ensures Unseen(blobs, {}) == blobs
  {
    if blobs != [] {
      NothingSeen(blobs[1..]);
    }
  }

  /** Placing exactly the close ones leaves exactly the others unseen. */
  lemma {:induction false} UnseenAfter(blobs: seq<Blob>, t: int, leader: Blob, seen: set<string>, seen': set<string>)
    requires forall b :: b in blobs ==> (b.hash in seen' <==> b.hash in seen || Close(t, leader, b))
    ensures Unseen(blobs, seen') == Pick(Unseen(blobs, seen), t, leader, false)
  {
    if blobs != [] {
      var rest := Unseen(blobs[1..], seen);
      assert blobs[0] in blobs;
      UnseenAfter(blobs[1..], t, leader, seen, seen');
      assert ([blobs[0]] + rest)[1..] == rest;
    }
  }

  ghost function HashesOf(blobs: seq<Blob>): seq<string> {
    if blobs == [] then [] else HashesOf(blobs[..|blobs| - 1]) + [blobs[|blobs| - 1].hash]
  }

  lemma HashesSnoc(blobs: seq<Blob>, b: Blob)
    ensures HashesOf(blobs + [b]) == HashesOf(blobs) + [b.hash]
  {
    assert (blobs + [b])[..|blobs|] == blobs;
  }

  /** The cluster that is being collected: its members so far and those still to come. */
  ghost function Whole(blobs: seq<Blob>, j: nat, t: int, leader: Blob, seen: set<string>, members: seq<Blob>): seq<Blob>
    requires j <= |blobs|
  {
    members + Pick(Unseen(blobs[j..], seen), t, leader, true)
  }

  lemma LookedAt(blobs: seq<Blob>, j: nat, t: int, leader: Blob, seen: set<string>, members: seq<Blob>)
    requires j < |blobs|
    ensures Whole(blobs, j, t, leader, seen, members)
         == Whole(blobs, j + 1, t, leader, seen,
                  if blobs[j].hash !in seen && Close(t, leader, blobs[j]) then members + [blobs[j]] else members)
  {
    var rest := Unseen(blobs[j + 1..], seen);
    assert blobs[j..][1..] == blobs[j + 1..] && blobs[j..][0] == blobs[j];
    assert ([blobs[j]] + rest)[1..] == rest;
    assert members + ([blobs[j]] + Pick(rest, t, leader, true)) == (members + [blobs[j]]) + Pick(rest, t, leader, true);
  }

  lemma AllLookedAt(blobs: seq<Blob>, t: int, leader: Blob, seen: set<string>, members: seq<Blob>)
    ensures Whole(blobs, |blobs|, t, leader, seen, members) == members
  {
    assert Unseen(blobs[|blobs|..], seen) == [];
  }

  /** After the blobs before j have been looked at, exactly the close ones among them are newly marked. */
  ghost predicate Marked(blobs: seq<Blob>, t: int, i: nat, j: nat, seen: set<string>, seen': set<string>)
    requires i < j <= |blobs|
  {
    forall x :: i < x < |blobs| ==>
      (blobs[x].hash in seen' <==> blobs[x].hash in seen || (x < j && Close(t, blobs[i], blobs[x])))
  }

  lemma MarkOne(blobs: seq<Blob>, t: int, i: nat, j: nat, seen: set<string>, seen': set<string>)
    requires i < j < |blobs| && DistinctHashes(blobs) && Marked(blobs, t, i, j, seen, seen')
    ensures blobs[j].hash in seen' <==> blobs[j].hash in seen
    ensures Close(t, blobs[i], blobs[j]) ==> Marked(blobs, t, i, j + 1, seen, seen' + {blobs[j].hash})
    ensures blobs[j].hash in seen || !Close(t, blobs[i], blobs[j]) ==> Marked(blobs, t, i, j + 1, seen, seen')
  {
  }

  /** Collects the hashes of the cluster led by blob i, and marks its members. */
  method CollectCluster(blobs: seq<Blob>, t: int, i: nat, seen: set<string>)
    returns (cluster: seq<string>, seen': set<string>)
    requires i < |blobs| && DistinctHashes(blobs) && blobs[i].hash !in seen
    ensures cluster == HashesOf([blobs[i]] + Pick(Unseen(blobs[i + 1..], seen), t, blobs[i], true))
    ensures Unseen(blobs[i + 1..], seen') == Pick(Unseen(blobs[i + 1..], seen), t, blobs[i], false)
  {
    var leader := blobs[i];
    cluster, seen' := [leader.hash], seen + {leader.hash};
    ghost var members := [leader];
    HashesSnoc([], leader);
    ghost var goal := Whole(blobs, i + 1, t, leader, seen, members);
    for j := i + 1 to |blobs|
      invariant cluster == HashesOf(members)
      invariant Whole(blobs, j, t, leader, seen, members) == goal
      invariant Marked(blobs, t, i, j, seen, seen')
    {
      hide Unseen, Pick, Hamming, Whole, Marked, HashesOf;
      LookedAt(blobs, j, t, leader, seen, members);
      MarkOne(blobs, t, i, j, seen, seen');
      if blobs[j].hash !in seen' {
        var dist := HammingDistance(leader.phash, blobs[j].phash);
        if dist <= t {
          HashesSnoc(members, blobs[j]);
          members := members + [blobs[j]];
          cluster := cluster + [blobs[j].hash];
          seen' := seen' + {blobs[j].hash};
        }
      }
    }
    AllLookedAt(blobs, t, leader, seen, members);
    AllMarked(blobs, t, i, seen, seen');
  }

  lemma AllMarked(blobs: seq<Blob>, t: int, i: nat, seen: set<string>, seen': set<string>)
    requires i < |blobs| && Marked(blobs, t, i, |blobs|, seen, seen')
    ensures Unseen(blobs[i + 1..], seen') == Pick(Unseen(blobs[i + 1..], seen), t, blobs[i], false)
  {
    hide Unseen, Pick, Close;
    UnseenAfter(blobs[i + 1..], t, blobs[i], seen, seen');
  }

  /** Clusters worth recording, as blob hashes, leader first. */
  ghost function Recorded(clusters: seq<seq<Blob>>): seq<seq<string>> {
    if clusters == [] then []
    else
      var init, last := Recorded(clusters[..|clusters| - 1]), clusters[|clusters| - 1];
      if |last| > 1 then init + [HashesOf(last)] else init
  }

  lemma RecordedSnoc(clusters: seq<seq<Blob>>, c: seq<Blob>)
    ensures Recorded(clusters + [c]) == Recorded(clusters) + if |c| > 1 then [HashesOf(c)] else []
  {
    assert (clusters + [c])[..|clusters|] == clusters;
  }

  lemma {:induction false} HashesLength(blobs: seq<Blob>)
    ensures |HashesOf(blobs)| == |blobs|
  {
    if blobs != [] {
      HashesLength(blobs[..|blobs| - 1]);
    }
  }

  /** The blobs a scan looks at. */
  function Scanned(blobs: seq<Blob>): seq<Blob> {
    if |blobs| > BATCH_SIZE then blobs[..BATCH_SIZE] else blobs
  }

  /** The clusters found so far followed by those of the blobs from i on. */
  ghost function AllClusters(blobs: seq<Blob>, i: nat, t: int, seen: set<string>,
                             clusters: seq<seq<Blob>>): seq<seq<Blob>>
    requires i <= |blobs|
  {
    clusters + Greedy(Unseen(blobs[i..], seen), t)
  }

  ghost function ClusterOf(blobs: seq<Blob>, i: nat, t: int, seen: set<string>): seq<Blob>
    requires i < |blobs|
  {
    [blobs[i]] + Pick(Unseen(blobs[i + 1..], seen), t, blobs[i], true)
  }

  lemma SkipSeen(blobs: seq<Blob>, i: nat, t: int, seen: set<string>, clusters: seq<seq<Blob>>)
    requires i < |blobs| && blobs[i].hash in seen
    ensures AllClusters(blobs, i, t, seen, clusters) == AllClusters(blobs, i + 1, t, seen, clusters)
  {
    assert blobs[i..][1..] == blobs[i + 1..] && blobs[i..][0] == blobs[i];
  }

  lemma NextCluster(blobs: seq<Blob>, i: nat, t: int, seen: set<string>, seen': set<string>, clusters: seq<seq<Blob>>)
    requires i < |blobs| && blobs[i].hash !in seen
    requires Unseen(blobs[i + 1..], seen') == Pick(Unseen(blobs[i + 1..], seen), t, blobs[i], false)
    ensures AllClusters(blobs, i, t, seen, clusters)
         == AllClusters(blobs, i + 1, t, seen', clusters + [ClusterOf(blobs, i, t, seen)])
  {
    assert blobs[i..][1..] == blobs[i + 1..] && blobs[i..][0] == blobs[i];
    GreedyCons(blobs[i], Unseen(blobs[i + 1..], seen), t);
    var c, others := ClusterOf(blobs, i, t, seen), Greedy(Unseen(blobs[i + 1..], seen'), t);
    assert clusters + ([c] + others) == (clusters + [c]) + others;
  }

  lemma GreedyCons(b: Blob, rest: seq<Blob>, t: int)
    ensures Greedy([b] + rest, t) == [[b] + Pick(rest, t, b, true)] + Greedy(Pick(rest, t, b, false), t)
  {
    assert ([b] + rest)[1..] == rest;
  }

  /** Records the clusters of more than one blob, in the order of their leaders. */
  method DetectNearDuplicates(blobs0: seq<Blob>, t: int) returns (recorded: seq<seq<string>>)
    requires DistinctHashes(blobs0)
    ensures recorded == Recorded(Greedy(Scanned(blobs0), t))
    ensures recorded == Recorded(Greedy(if |blobs0| > 1000 then blobs0[..1000] else blobs0, t))
  {
    recorded := [];
    if |blobs0| < 2 {
      FewBlobs(blobs0, t);
      return;
    }
    var blobs := Scanned(blobs0);
    var seen: set<string> := {};
    ghost var clusters: seq<seq<Blob>> := [];
    NothingSeen(blobs);
    assert blobs[0..] == blobs;
    for i := 0 to |blobs|
      invariant AllClusters(blobs, i, t, seen, clusters) == Greedy(blobs, t)
      invariant recorded == Recorded(clusters)
    {
      hide Greedy, Unseen, Pick, Recorded, HashesOf;
      if blobs[i].hash in seen {
        SkipSeen(blobs, i, t, seen, clusters);
      } else {
        ghost var c, before := ClusterOf(blobs, i, t, seen), seen;
        var cluster;
        cluster, seen := CollectCluster(blobs, t, i, seen);
        NextCluster(blobs, i, t, before, seen, clusters);
        HashesLength(c);
        RecordedSnoc(clusters, c);
        clusters := clusters + [c];
        if |cluster| > 1 {
          recorded := recorded + [cluster];
        }
      }
    }
    assert Unseen(blobs[|blobs|..], seen) == [];
    assert clusters == Greedy(blobs, t);
  }

  lemma FewBlobs(blobs: seq<Blob>, t: int)
    requires |blobs| < 2
    ensures Recorded(Greedy(Scanned(blobs), t)) == []
  {
    if |blobs| == 1 {
      assert blobs[1..] == [];
      assert Pick([], t, blobs[0], true) == [] == Pick([], t, blobs[0], false);
      assert Greedy([], t) == [] && [blobs[0]] + [] == [blobs[0]];
      assert Greedy(blobs, t) == [[blobs[0]]] + Greedy([], t);
      var only := [[blobs[0]]];
      assert Greedy(blobs, t) == only;
      assert only[..0] == [];
    }
  }

  // ----- What the clusters guarantee

  ghost function Flatten(clusters: seq<seq<Blob>>): seq<Blob> {
    if clusters == [] then [] else clusters[0] + Flatten(clusters[1..])
  }

  lemma {:induction false} PickSplits(waiting: seq<Blob>, t: int, leader: Blob)
    ensures multiset(Pick(waiting, t, leader, true)) + multiset(Pick(waiting, t, leader, false)) == multiset(waiting)
  {
    if waiting != [] {
      PickSplits(waiting[1..], t, leader);
      assert waiting == [waiting[0]] + waiting[1..];
    }
  }

  /** Every scanned blob ends up in exactly one cluster, exactly once. */
  lemma {:induction false} ClustersPartition(waiting: seq<Blob>, t: int)
    ensures multiset(Flatten(Greedy(waiting, t))) == multiset(waiting)
    decreases |waiting|
  {
    if waiting != [] {
      var near, far := Pick(waiting[1..], t, waiting[0], true), Pick(waiting[1..], t, waiting[0], false);
      ClustersPartition(far, t);
      PickSplits(waiting[1..], t, waiting[0]);
      FlattenCons([waiting[0]] + near, Greedy(far, t));
      assert waiting == [waiting[0]] + waiting[1..];
    }
  }

  lemma FlattenCons(c: seq<Blob>, rest: seq<seq<Blob>>)
    ensures Flatten([c] + rest) == c + Flatten(rest)
  {
    assert ([c] + rest)[1..] == rest;
  }

  lemma {:induction false} ClustersFromWaiting(waiting: seq<Blob>, t: int, p: nat)
    requires p < |Greedy(waiting, t)|
    ensures Greedy(waiting, t)[p] != [] && Greedy(waiting, t)[p][0] in waiting
    decreases |waiting|
  {
    if p > 0 {
      ClustersFromWaiting(Pick(waiting[1..], t, waiting[0], false), t, p - 1);
    }
  }

  /** Every member but the leader itself is within the threshold of its leader. */
  lemma {:induction false} MembersCloseToLeader(waiting: seq<Blob>, t: int, p: nat, m: nat)
    requires p < |Greedy(waiting, t)| && 0 < m < |Greedy(waiting, t)[p]|
    ensures Close(t, Greedy(waiting, t)[p][0], Greedy(waiting, t)[p][m])
    decreases |waiting|
  {
    var near := Pick(waiting[1..], t, waiting[0], true);
    if p == 0 {
      assert Greedy(waiting, t)[0][m] == near[m - 1];
      assert near[m - 1] in near;
    } else {
      MembersCloseToLeader(Pick(waiting[1..], t, waiting[0], false), t, p - 1, m);
    }
  }

  /** No two leaders are within the threshold of each other. */
  lemma {:induction false} LeadersApart(waiting: seq<Blob>, t: int, p: nat, q: nat)
    requires p < q < |Greedy(waiting, t)|
    ensures Greedy(waiting, t)[p] != [] && Greedy(waiting, t)[q] != []
    ensures !Close(t, Greedy(waiting, t)[p][0], Greedy(waiting, t)[q][0])
    decreases |waiting|
  {
    var far := Pick(waiting[1..], t, waiting[0], false);
    assert Greedy(waiting, t)[q] == Greedy(far, t)[q - 1];
    ClustersFromWaiting(far, t, q - 1);
    if p > 0 {
      LeadersApart(far, t, p - 1, q - 1);
    }
  }

  /** Members of one cluster whose hashes are as long as their leader's are at most twice the threshold apart. */
  lemma ClusterDiameter(waiting: seq<Blob>, t: int, p: nat, m: nat, n: nat)
    requires t >= 0 && p < |Greedy(waiting, t)| && m < |Greedy(waiting, t)[p]| && n < |Greedy(waiting, t)[p]|
    requires var c := Greedy(waiting, t)[p]; |c[m].phash| == |c[0].phash| == |c[n].phash|
    ensures var c := Greedy(waiting, t)[p]; Hamming(c[m].phash, c[n].phash) <= 2 * t
  {
    var c := Greedy(waiting, t)[p];
    HammingZero(c[0].phash, c[0].phash);
    if m > 0 {
      MembersCloseToLeader(waiting, t, p, m);
    }
    if n > 0 {
      MembersCloseToLeader(waiting, t, p, n);
    }
    HammingSymmetric(c[m].phash, c[0].phash);
    HammingTriangle(c[m].phash, c[0].phash, c[n].phash);
  }

  /** A hash of another length is close to any leader, so without equal lengths the bound fails. */
  lemma UnequalLengthsBreakTheBound()
    ensures var zero: bv8, f: bv8 := 0x30, 0x66;
            var low, high := [zero, zero, zero, zero, zero], [f, f, f, f, f];
            var blobs := [Blob("a", [zero]), Blob("b", low), Blob("c", high)];
            Greedy(blobs, 8) == [blobs] && Hamming(low, high) == 20
  {
    var zero: bv8, f: bv8 := 0x30, 0x66;
    var low, high := [zero, zero, zero, zero, zero], [f, f, f, f, f];
    var blobs := [Blob("a", [zero]), Blob("b", low), Blob("c", high)];
    var rest := blobs[1..];
    assert Pick(rest[1..], 8, blobs[0], true) == rest[1..] && Pick(rest[1..], 8, blobs[0], false) == [];
    assert Pick(rest, 8, blobs[0], true) == rest && Pick(rest, 8, blobs[0], false) == [];
    assert [blobs[0]] + rest == blobs;
    FiveNibbles(low, high);
  }

  lemma FiveNibbles(low: seq<bv8>, high: seq<bv8>)
    requires |low| == |high| == 5
    requires forall i :: 0 <= i < 5 ==> low[i] == 0x30 && high[i] == 0x66
    ensures Hamming(low, high) == 20
  {
    PopCountFifteen();
    Nibble(low, high, 1);
    Nibble(low, high, 2);
    Nibble(low, high, 3);
    Nibble(low, high, 4);
    Nibble(low, high, 5);
    assert low[..5] == low && high[..5] == high;
  }

  lemma Nibble(low: seq<bv8>, high: seq<bv8>, n: nat)
    requires |low| == |high| && 0 < n <= |low|
    ensures BitsApart(low[..n], high[..n]) ==
            BitsApart(low[..n - 1], high[..n - 1]) + DigitsApart(low[n - 1], high[n - 1])
  {
    assert low[..n][..n - 1] == low[..n - 1] && high[..n][..n - 1] == high[..n - 1];
  }

  lemma PopCountFifteen()
    ensures DigitsApart(0x30, 0x66) == 4
  {
    assert PopCount(1) == 1 && PopCount(3) == 2 && PopCount(7) == 3;
  }
}
