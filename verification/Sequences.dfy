/** Facts about sequences as multisets. */
module Sequences {

  ghost predicate Permutes<T>(s: seq<T>, t: seq<T>) {
    multiset(s) == multiset(t)
  }

  lemma PermutesLength<T>(s: seq<T>, t: seq<T>)
    requires Permutes(s, t)
    ensures |s| == |t|
  {
    assert |multiset(s)| == |s| && |multiset(t)| == |t|;
  }

  lemma PermutesMember<T>(s: seq<T>, t: seq<T>, x: T)
    requires Permutes(s, t) && x in s
    ensures x in t
  {
    assert x in multiset(s);
  }

  lemma PermutesTail<T>(s: seq<T>, t: seq<T>)
    requires Permutes(s, t) && s != [] && t != [] && s[0] == t[0]
    ensures Permutes(s[1..], t[1..])
  {
    assert s == [s[0]] + s[1..] && t == [t[0]] + t[1..];
    assert multiset(s[1..]) == multiset(s) - multiset{s[0]};
    assert multiset(t[1..]) == multiset(t) - multiset{t[0]};
  }

  ghost predicate Distinct<T>(s: seq<T>) {
    forall i, j :: 0 <= i < j < |s| ==> s[i] != s[j]
  }

  /** The position of a member. */
  ghost function Find<T>(s: seq<T>, x: T): (i: nat)
    requires x in s
    ensures i < |s| && s[i] == x
  {
    var i :| 0 <= i < |s| && s[i] == x;
    i
  }

  ghost function Without<T>(s: seq<T>, i: nat): (r: seq<T>)
    requires i < |s|
    ensures |r| == |s| - 1
  {
    s[..i] + s[i + 1..]
  }

  lemma WithoutBag<T>(s: seq<T>, i: nat)
    requires i < |s|
    ensures multiset(s) == multiset(Without(s, i)) + multiset{s[i]}
  {
    assert s == s[..i] + [s[i]] + s[i + 1..];
  }

  lemma TailPermutes<T>(s: seq<T>, t: seq<T>, i: nat)
    requires Permutes(s, t) && s != [] && i < |t| && t[i] == s[0]
    ensures Permutes(s[1..], Without(t, i))
  {
    WithoutBag(t, i);
    assert s == [s[0]] + s[1..];
    assert multiset(s[1..]) == multiset(s) - multiset{s[0]};
    assert multiset(Without(t, i)) == multiset(t) - multiset{t[i]};
  }

  lemma WithoutMembers<T>(s: seq<T>, i: nat, x: T)
    requires i < |s| && x in s && x != s[i]
    ensures x in Without(s, i)
  {
    WithoutBag(s, i);
    assert x in multiset(s);
    assert x in multiset(Without(s, i));
  }

  ghost function MapSeq<S, T>(f: S -> T, s: seq<S>): (r: seq<T>)
    ensures |r| == |s| && forall i :: 0 <= i < |s| ==> r[i] == f(s[i])
  {
    if s == [] then [] else [f(s[0])] + MapSeq(f, s[1..])
  }

  lemma MapWithout<S, T>(f: S -> T, s: seq<S>, i: nat)
    requires i < |s|
    ensures MapSeq(f, Without(s, i)) == Without(MapSeq(f, s), i)
  {
    hide MapSeq, Without;
    var left, right := MapSeq(f, Without(s, i)), Without(MapSeq(f, s), i);
    forall k | 0 <= k < |left|
      ensures left[k] == right[k]
    {
      WithoutAt(s, i, k);
      WithoutAt(MapSeq(f, s), i, k);
    }
  }

  lemma WithoutAt<T>(s: seq<T>, i: nat, k: nat)
    requires i < |s| && k < |s| - 1
    ensures Without(s, i)[k] == s[if k < i then k else k + 1]
  {
  }

  /** Distinct members of s, all found in t, give at most as much as t does, value by value. */
  lemma {:induction false} MapSubBag<S, T>(f: S -> T, s: seq<S>, t: seq<S>)
    requires Distinct(s) && forall x :: x in s ==> x in t
    ensures multiset(MapSeq(f, s)) <= multiset(MapSeq(f, t))
    decreases |s|
  {
    if s != [] {
      var i := Find(t, s[0]);
      var t' := Without(t, i);
      forall x | x in s[1..]
        ensures x in t'
      {
        var k := Find(s[1..], x);
        assert s[k + 1] == x;
        WithoutMembers(t, i, x);
      }
      MapSubBag(f, s[1..], t');
      MapWithout(f, t, i);
      WithoutBag(MapSeq(f, t), i);
      assert MapSeq(f, s) == [f(s[0])] + MapSeq(f, s[1..]);
    }
  }

  /** A listing of a set without repetition. */
  ghost predicate Lists<T(!new)>(s: seq<T>, members: set<T>) {
    Distinct(s) && forall x :: x in s <==> x in members
  }

  /** Two listings of the same set give the same values. */
  lemma MapSameBag<S(!new), T>(f: S -> T, s: seq<S>, t: seq<S>, members: set<S>)
    requires Lists(s, members) && Lists(t, members)
    ensures Permutes(MapSeq(f, s), MapSeq(f, t))
  {
    MapSubBag(f, s, t);
    MapSubBag(f, t, s);
  }

  /** A sub-bag either contains the first element, which may be cancelled, or avoids it. */
  lemma BagHead<T>(a: seq<T>, g: seq<T>)
    requires g != [] && multiset(a) <= multiset(g)
    ensures g[0] in a ==> multiset(Without(a, Find(a, g[0]))) <= multiset(g[1..])
    ensures g[0] !in a ==> multiset(a) <= multiset(g[1..])
  {
    var x := g[0];
    assert g == [x] + g[1..];
    assert multiset(g) == multiset{x} + multiset(g[1..]);
    if x in a {
      WithoutBag(a, Find(a, x));
      CancelOne(multiset(Without(a, Find(a, x))), multiset(g[1..]), x);
    }
  }

  lemma CancelOne<T>(a: multiset<T>, b: multiset<T>, x: T)
    requires a + multiset{x} <= b + multiset{x}
    ensures a <= b
  {
    assert a + multiset{x} - multiset{x} == a;
    assert b + multiset{x} - multiset{x} == b;
  }

  lemma BagLength<T>(s: seq<T>, t: seq<T>)
    requires multiset(s) <= multiset(t)
    ensures |s| <= |t|
  {
    var rest := multiset(t) - multiset(s);
    assert multiset(t) == multiset(s) + rest;
    assert |multiset(t)| == |multiset(s)| + |rest|;
  }

  lemma ListsContains<T(!new)>(order: seq<T>, members: set<T>, ids: seq<T>)
    requires Lists(order, members) && forall x :: x in ids ==> x in members
    ensures forall x :: x in ids ==> x in order
  {
  }
}
