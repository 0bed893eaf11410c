/**
  When the diameter bound of near-duplicate clusters holds. A hash of another length than its leader's is always
  close to it, so the first leader takes every such hash, and the bound stands or falls with those.
 */
module ClusterBounds {
  import opened NearDuplicates

  /** Any two blobs of one cluster are at most twice the threshold apart. */
  ghost predicate AllWithin(clusters: seq<seq<Blob>>, t: int) {
    forall p, x, y :: 0 <= p < |clusters| && x in clusters[p] && y in clusters[p] ==> Hamming(x.phash, y.phash) <= 2 * t
  }

  lemma {:induction false} MemberFromWaiting(waiting: seq<Blob>, t: int, p: nat, x: Blob)
    requires p < |Greedy(waiting, t)| && x in Greedy(waiting, t)[p]
    ensures x in waiting && Greedy(waiting, t)[p][0] in waiting
    ensures x == Greedy(waiting, t)[p][0] || Close(t, Greedy(waiting, t)[p][0], x)
    decreases |waiting|
  {
    hide Close;
    var near, far := Pick(waiting[1..], t, waiting[0], true), Pick(waiting[1..], t, waiting[0], false);
    if p == 0 {
      assert x == waiting[0] || x in near;
    } else {
      assert Greedy(waiting, t)[p] == Greedy(far, t)[p - 1];
      MemberFromWaiting(far, t, p - 1, x);
    }
  }

  lemma LeaderToSelf(b: Blob)
    ensures Hamming(b.phash, b.phash) == 0
  {
    HammingZero(b.phash, b.phash);
  }

  /** Two members of the leader's length are within twice the threshold, by way of the leader. */
  lemma ThroughLeader(waiting: seq<Blob>, t: int, p: nat, x: Blob, y: Blob)
    requires t >= 0 && p < |Greedy(waiting, t)| && x in Greedy(waiting, t)[p] && y in Greedy(waiting, t)[p]
    requires |x.phash| == |Greedy(waiting, t)[p][0].phash| == |y.phash|
    ensures Hamming(x.phash, y.phash) <= 2 * t
  {
    hide Greedy, Hamming;
    var leader := Greedy(waiting, t)[p][0];
    MemberFromWaiting(waiting, t, p, x);
    MemberFromWaiting(waiting, t, p, y);
    LeaderToSelf(leader);
    HammingSymmetric(x.phash, leader.phash);
    HammingTriangle(x.phash, leader.phash, y.phash);
  }

  lemma OtherLengthIsClose(t: int, leader: Blob, b: Blob)
    requires t >= 0 && |b.phash| != |leader.phash|
    ensures Close(t, leader, b)
  {
  }

  /** The first leader takes every hash of another length, so all that wait for later ones have its length. */
  lemma LaterClustersOneLength(waiting: seq<Blob>, t: int, p: nat, x: Blob)
    requires t >= 0 && 0 < p < |Greedy(waiting, t)| && x in Greedy(waiting, t)[p]
    ensures |x.phash| == |waiting[0].phash| == |Greedy(waiting, t)[p][0].phash|
  {
    hide Close;
    var far := Pick(waiting[1..], t, waiting[0], false);
    MemberFromWaiting(far, t, p - 1, x);
    if |x.phash| != |waiting[0].phash| {
      OtherLengthIsClose(t, waiting[0], x);
    }
    var leader := Greedy(far, t)[p - 1][0];
    if |leader.phash| != |waiting[0].phash| {
      OtherLengthIsClose(t, waiting[0], leader);
    }
  }

  /** Any two hashes of a common length other than the first one's are within twice the threshold. */
  ghost predicate OthersWithin(waiting: seq<Blob>, t: int)
    requires waiting != []
  {
    forall x, y :: x in waiting && y in waiting && |x.phash| == |y.phash| != |waiting[0].phash| ==>
                     Hamming(x.phash, y.phash) <= 2 * t
  }

  lemma OtherLengthsInFirst(waiting: seq<Blob>, t: int, x: Blob)
    requires t >= 0 && x in waiting && |x.phash| != |waiting[0].phash|
    ensures |Greedy(waiting, t)| > 0 && x in Greedy(waiting, t)[0]
  {
    OtherLengthIsClose(t, waiting[0], x);
    assert x in waiting[1..];
    assert x in Pick(waiting[1..], t, waiting[0], true);
  }

  lemma PairWithin(waiting: seq<Blob>, t: int, p: nat, x: Blob, y: Blob)
    requires t >= 0 && waiting != [] && OthersWithin(waiting, t)
    requires p < |Greedy(waiting, t)| && x in Greedy(waiting, t)[p] && y in Greedy(waiting, t)[p]
    ensures Hamming(x.phash, y.phash) <= 2 * t
  {
    MemberFromWaiting(waiting, t, p, x);
    MemberFromWaiting(waiting, t, p, y);
    if |x.phash| == |y.phash| {
      if p > 0 {
        LaterClustersOneLength(waiting, t, p, x);
        LaterClustersOneLength(waiting, t, p, y);
        ThroughLeader(waiting, t, p, x, y);
      } else if |x.phash| == |waiting[0].phash| {
        ThroughLeader(waiting, t, p, x, y);
      }
    }
  }

  /**
    Every cluster of a scan keeps the bound exactly when any two hashes of a common length that is not the first
    hash's do.
   */
  lemma DiameterBoundIff(waiting: seq<Blob>, t: int)
    requires waiting != [] && t >= 0
    ensures AllWithin(Greedy(waiting, t), t) <==> OthersWithin(waiting, t)
  {
    hide Greedy, Hamming;
    if OthersWithin(waiting, t) {
      forall p, x, y | 0 <= p < |Greedy(waiting, t)| && x in Greedy(waiting, t)[p] && y in Greedy(waiting, t)[p]
        ensures Hamming(x.phash, y.phash) <= 2 * t
      {
        PairWithin(waiting, t, p, x, y);
      }
    }
    if AllWithin(Greedy(waiting, t), t) {
      forall x, y | x in waiting && y in waiting && |x.phash| == |y.phash| != |waiting[0].phash|
        ensures Hamming(x.phash, y.phash) <= 2 * t
      {
        OtherLengthsInFirst(waiting, t, x);
        OtherLengthsInFirst(waiting, t, y);
      }
    }
  }

  // ----- Over lengths alone

  /** A hash has four bits a digit. */
  lemma {:induction false} HammingAtMost(a: seq<bv8>, b: seq<bv8>)
    requires |a| == |b|
    ensures Hamming(a, b) <= 4 * |a|
    decreases |a|
  {
    if a != [] {
      var n := |a| - 1;
      HammingAtMost(a[..n], b[..n]);
      FourBits(DecodeHex(a[n]), DecodeHex(b[n]));
    }
  }

  lemma FourBits(x: bv8, y: bv8)
    requires x < 16 && y < 16
    ensures XorCount(x, y) <= 4
  {
    var z := x ^ y;
    assert z < 16;
    PopCountUnfold(z);
    PopCountUnfold(z >> 1);
    PopCountUnfold(z >> 1 >> 1);
    PopCountUnfold(z >> 1 >> 1 >> 1);
    assert z >> 1 >> 1 >> 1 >> 1 == 0;
  }

  function Zeros(n: nat): seq<bv8> {
    seq(n, _ => 0x30)
  }

  function Ones(n: nat): seq<bv8> {
    seq(n, _ => 0x66)
  }

  /** And hashes of all zeros and all ones differ in every bit. */
  lemma {:induction false} ZerosFromOnes(n: nat)
    ensures Hamming(Zeros(n), Ones(n)) == 4 * n
  {
    if n > 0 {
      ZerosFromOnes(n - 1);
      assert Zeros(n)[..n - 1] == Zeros(n - 1) && Ones(n)[..n - 1] == Ones(n - 1);
      PopCountFifteen();
    }
  }

  ghost predicate HasLengths(blobs: seq<Blob>, lengths: seq<nat>) {
    |blobs| == |lengths| && forall i :: 0 <= i < |blobs| ==> |blobs[i].phash| == lengths[i]
  }

  /** Whatever hashes of these lengths are scanned, every cluster keeps the bound. */
  ghost predicate BoundForLengths(lengths: seq<nat>, t: int) {
    forall blobs :: HasLengths(blobs, lengths) && DistinctHashes(blobs) ==> AllWithin(Greedy(blobs, t), t)
  }

  /** A length that comes twice, and not first, is short enough for its bits not to matter. */
  predicate RepeatsAreShort(lengths: seq<nat>, t: int)
    requires lengths != []
  {
    forall i, j :: 0 <= i < j < |lengths| && lengths[i] == lengths[j] != lengths[0] ==> 4 * lengths[i] <= 2 * t
  }

  /** Hashes of the given lengths with the j-th all ones and the others all zeros. */
  function Opposed(lengths: seq<nat>, j: nat): seq<Blob> {
    seq(|lengths|, i requires 0 <= i < |lengths| =>
      Blob(seq(i, _ => '0'), if i == j then Ones(lengths[i]) else Zeros(lengths[i])))
  }

  lemma OpposedAreDistinct(lengths: seq<nat>, j: nat)
    ensures DistinctHashes(Opposed(lengths, j))
  {
    var blobs := Opposed(lengths, j);
    forall x, y | 0 <= x < y < |blobs|
      ensures blobs[x].hash != blobs[y].hash
    {
      assert |blobs[x].hash| == x && |blobs[y].hash| == y;
    }
  }

  lemma OpposedBreaks(lengths: seq<nat>, t: int, i: nat, j: nat)
    requires t >= 0 && i < j < |lengths| && lengths[i] == lengths[j] != lengths[0] && 4 * lengths[i] > 2 * t
    ensures HasLengths(Opposed(lengths, j), lengths) && DistinctHashes(Opposed(lengths, j))
    ensures !AllWithin(Greedy(Opposed(lengths, j), t), t)
  {
    hide Hamming, Greedy, AllWithin, DistinctHashes;
    var blobs := Opposed(lengths, j);
    OpposedAreDistinct(lengths, j);
    ZerosFromOnes(lengths[i]);
    DiameterBoundIff(blobs, t);
    assert blobs[i] in blobs && blobs[j] in blobs;
    assert Hamming(blobs[i].phash, blobs[j].phash) > 2 * t;
  }

  lemma LengthsSuffice(lengths: seq<nat>, t: int, blobs: seq<Blob>)
    requires lengths != [] && t >= 0 && RepeatsAreShort(lengths, t) && HasLengths(blobs, lengths)
    ensures AllWithin(Greedy(blobs, t), t)
  {
    forall x, y | x in blobs && y in blobs && |x.phash| == |y.phash| != |blobs[0].phash|
      ensures Hamming(x.phash, y.phash) <= 2 * t
    {
      var i :| 0 <= i < |blobs| && blobs[i] == x;
      var j :| 0 <= j < |blobs| && blobs[j] == y;
      if i == j {
        LeaderToSelf(x);
      } else {
        HammingAtMost(x.phash, y.phash);
        assert lengths[i] == lengths[j] != lengths[0];
        assert 4 * lengths[i] <= 2 * t;
      }
    }
    DiameterBoundIff(blobs, t);
  }

  /**
    The bound holds for all contents of given lengths exactly when no two hashes share a length, other than the
    first one's, with more than twice the threshold in bits.
   */
  lemma BoundForLengthsIff(lengths: seq<nat>, t: int)
    requires lengths != [] && t >= 0
    ensures BoundForLengths(lengths, t) <==> RepeatsAreShort(lengths, t)
  {
    if RepeatsAreShort(lengths, t) {
      forall blobs | HasLengths(blobs, lengths) && DistinctHashes(blobs)
        ensures AllWithin(Greedy(blobs, t), t)
      {
        LengthsSuffice(lengths, t, blobs);
      }
    } else {
      var i, j :| 0 <= i < j < |lengths| && lengths[i] == lengths[j] != lengths[0] && 4 * lengths[i] > 2 * t;
      OpposedBreaks(lengths, t, i, j);
    }
  }
}
