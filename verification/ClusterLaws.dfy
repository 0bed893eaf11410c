/** What hashes and scans are made of: hexadecimal digits bit by bit, and who joins which recorded cluster. */
module ClusterLaws {
  import opened NearDuplicates

  // ----- Digits

  /** The sixteen digits, in either case, stand for 0 to 15; any other byte for 0. */
  lemma HexDigits(c: bv8)
    ensures DecodeHex(0x30) == 0 && DecodeHex(0x31) == 1 && DecodeHex(0x32) == 2 && DecodeHex(0x33) == 3
    ensures DecodeHex(0x34) == 4 && DecodeHex(0x35) == 5 && DecodeHex(0x36) == 6 && DecodeHex(0x37) == 7
    ensures DecodeHex(0x38) == 8 && DecodeHex(0x39) == 9
    ensures DecodeHex(0x61) == 10 == DecodeHex(0x41) && DecodeHex(0x62) == 11 == DecodeHex(0x42)
    ensures DecodeHex(0x63) == 12 == DecodeHex(0x43) && DecodeHex(0x64) == 13 == DecodeHex(0x44)
    ensures DecodeHex(0x65) == 14 == DecodeHex(0x45) && DecodeHex(0x66) == 15 == DecodeHex(0x46)
    ensures !(0x30 <= c <= 0x39) && !(0x41 <= c <= 0x46) && !(0x61 <= c <= 0x66) ==> DecodeHex(c) == 0
  {
  }

  function BitAt(x: bv8, bit: bv8): nat {
    if x & bit != 0 then 1 else 0
  }

  /** The number of set bits, of a value below sixteen. */
  lemma FourBits(x: bv8)
    requires x < 16
    ensures PopCount(x) == BitAt(x, 1) + BitAt(x, 2) + BitAt(x, 4) + BitAt(x, 8)
  {
    PopCountUnfold(x);
    PopCountUnfold(x >> 1);
    PopCountUnfold(x >> 1 >> 1);
    PopCountUnfold(x >> 1 >> 1 >> 1);
    hide PopCount;
    ShiftedBits(x);
    NoBits(x >> 1 >> 1 >> 1 >> 1);
  }

  lemma NoBits(x: bv8)
    requires x == 0
    ensures PopCount(x) == 0
  {
  }

  lemma ShiftedBits(x: bv8)
    requires x < 16
    ensures LowBit(x) == BitAt(x, 1)
    ensures LowBit(x >> 1) == BitAt(x, 2)
    ensures LowBit(x >> 1 >> 1) == BitAt(x, 4)
    ensures LowBit(x >> 1 >> 1 >> 1) == BitAt(x, 8)
    ensures x >> 1 >> 1 >> 1 >> 1 == 0
  {
  }

  lemma DecodedBelow(c: bv8)
    ensures DecodeHex(c) < 16
  {
  }

  lemma XorBelow(x: bv8, y: bv8)
    requires x < 16 && y < 16
    ensures x ^ y < 16
  {
  }

  lemma XorBit(x: bv8, y: bv8, bit: bv8)
    requires bit == 1 || bit == 2 || bit == 4 || bit == 8
    ensures BitAt(x ^ y, bit) == if x & bit != y & bit then 1 else 0
  {
  }

  /** Two digits are apart by the number of their four bits that differ. */
  lemma DigitsDiffer(c: bv8, d: bv8)
    ensures var x, y := DecodeHex(c), DecodeHex(d);
            DigitsApart(c, d) ==
            (if x & 1 != y & 1 then 1 else 0) + (if x & 2 != y & 2 then 1 else 0)
            + (if x & 4 != y & 4 then 1 else 0) + if x & 8 != y & 8 then 1 else 0
  {
    var x, y := DecodeHex(c), DecodeHex(d);
    DecodedBelow(c);
    DecodedBelow(d);
    hide DecodeHex, PopCount, BitAt;
    XorBelow(x, y);
    FourBits(x ^ y);
    XorBit(x, y, 1);
    XorBit(x, y, 2);
    XorBit(x, y, 4);
    XorBit(x, y, 8);
  }

  lemma BitsSnoc(a: seq<bv8>, b: seq<bv8>, c: bv8, d: bv8)
    requires |a| == |b|
    ensures Hamming(a + [c], b + [d]) == Hamming(a, b) + DigitsApart(c, d)
    ensures Hamming([], []) == 0
  {
    assert (a + [c])[..|a|] == a && (b + [d])[..|b|] == b;
  }

  // ----- Clusters

  /** A blob is further than the threshold from the leaders of all clusters before its own. */
  lemma {:induction false} MembersApart(waiting: seq<Blob>, t: int, p: nat, q: nat, m: nat)
    requires p < q < |Greedy(waiting, t)| && m < |Greedy(waiting, t)[q]|
    ensures Greedy(waiting, t)[p] != []
    ensures Hamming(Greedy(waiting, t)[p][0].phash, Greedy(waiting, t)[q][m].phash) > t
    decreases |waiting|
  {
    var far := Pick(waiting[1..], t, waiting[0], false);
    assert Greedy(waiting, t)[q] == Greedy(far, t)[q - 1];
    if p == 0 {
      MemberFromWaiting(far, t, q - 1, m);
    } else {
      MembersApart(far, t, p - 1, q - 1, m);
    }
  }

  lemma {:induction false} MemberFromWaiting(waiting: seq<Blob>, t: int, p: nat, m: nat)
    requires p < |Greedy(waiting, t)| && m < |Greedy(waiting, t)[p]|
    ensures Greedy(waiting, t)[p][m] in waiting
    decreases |waiting|
  {
    if p == 0 {
      var near := Pick(waiting[1..], t, waiting[0], true);
      assert Greedy(waiting, t)[0] == [waiting[0]] + near;
      if m > 0 {
        assert near[m - 1] in near;
      }
    } else {
      MemberFromWaiting(Pick(waiting[1..], t, waiting[0], false), t, p - 1, m);
    }
  }

  // ----- Records

  lemma {:induction false} HashesAre(blobs: seq<Blob>)
    ensures |HashesOf(blobs)| == |blobs| && forall k :: 0 <= k < |blobs| ==> HashesOf(blobs)[k] == blobs[k].hash
    decreases |blobs|
  {
    if blobs != [] {
      HashesAre(blobs[..|blobs| - 1]);
    }
  }

  lemma {:induction false} RecordedAre(clusters: seq<seq<Blob>>, r: seq<string>)
    ensures r in Recorded(clusters) <==>
            exists p :: 0 <= p < |clusters| && |clusters[p]| > 1 && r == HashesOf(clusters[p])
    decreases |clusters|
  {
    hide HashesOf;
    if clusters != [] {
      var n := |clusters| - 1;
      RecordedAre(clusters[..n], r);
      if r in Recorded(clusters) && r !in Recorded(clusters[..n]) {
        assert |clusters[n]| > 1 && r == HashesOf(clusters[n]);
      }
      if p :| 0 <= p < |clusters| && |clusters[p]| > 1 && r == HashesOf(clusters[p]) {
        assert p < n ==> clusters[..n][p] == clusters[p];
      }
    }
  }

  /** What is recorded are the hashes of the clusters of at least two blobs, each in the cluster's order. */
  lemma RecordedIff(clusters: seq<seq<Blob>>, r: seq<string>)
    ensures r in Recorded(clusters) <==>
            exists p :: 0 <= p < |clusters| && |clusters[p]| >= 2 && |r| == |clusters[p]|
                        && forall k :: 0 <= k < |r| ==> r[k] == clusters[p][k].hash
  {
    RecordedAre(clusters, r);
    forall p | 0 <= p < |clusters|
      ensures |HashesOf(clusters[p])| == |clusters[p]|
      ensures forall k :: 0 <= k < |clusters[p]| ==> HashesOf(clusters[p])[k] == clusters[p][k].hash
    {
      HashesAre(clusters[p]);
    }
    hide Recorded, HashesOf;
    if p :| 0 <= p < |clusters| && |clusters[p]| >= 2 && |r| == |clusters[p]|
            && forall k :: 0 <= k < |r| ==> r[k] == clusters[p][k].hash
    {
      assert r == HashesOf(clusters[p]);
    }
  }
}
