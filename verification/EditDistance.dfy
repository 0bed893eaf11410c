/**
  Edit distance between byte strings: the two-row dynamic program, the least number of edits it
  computes, and the metric laws.
 */
module EditDistance {

  /** Some byte of a Go string. */
  newtype byte = x: int | 0 <= x < 256

  function Min(a: int, b: int, c: int): (r: int)
    ensures r <= a && r <= b && r <= c
    ensures r == a || r == b || r == c
  {
    if a < b && a < c then a else if b < c then b else c
  }

  function Max(a: int, b: int): (r: int)
    ensures r >= a && r >= b && (r == a || r == b)
  {
    if a > b then a else b
  }

  function Init(s: seq<byte>): seq<byte>
    requires s != []
  {
    s[..|s| - 1]
  }

  function Last(s: seq<byte>): byte
    requires s != []
  {
    s[|s| - 1]
  }

  function Cost(x: byte, y: byte): nat {
    if x != y then 1 else 0
  }

  /** The cell of the table at the end of a and b. */
  function Distance(a: seq<byte>, b: seq<byte>): nat
    decreases |a| + |b|
  {
    if a == [] then |b|
    else if b == [] then |a|
    else Min(Distance(Init(a), b) + 1, Distance(a, Init(b)) + 1, Distance(Init(a), Init(b)) + Cost(Last(a), Last(b)))
  }

  // ----- The two-row program

  lemma PrefixSteps(s: seq<byte>, i: nat)
    requires 0 < i <= |s|
    ensures s[..i] != [] && Init(s[..i]) == s[..i - 1] && Last(s[..i]) == s[i - 1]
  {
  }

  /** Fills one row from the row above it. */
  method FillRow(a: seq<byte>, b: seq<byte>, i: nat, prev: array<int>, curr: array<int>)
    requires prev != curr && prev.Length == curr.Length == |b| + 1
    requires 0 < i <= |a|
    requires forall j :: 0 <= j <= |b| ==> prev[j] == Distance(a[..i - 1], b[..j])
    modifies curr
    ensures forall j :: 0 <= j <= |b| ==> curr[j] == Distance(a[..i], b[..j])
  {
    curr[0] := i;
    for j := 1 to |b| + 1
      invariant forall k :: 0 <= k < j ==> curr[k] == Distance(a[..i], b[..k])
    {
      var cost := 0;
      if a[i - 1] != b[j - 1] {
        cost := 1;
      }
      PrefixSteps(a, i);
      PrefixSteps(b, j);
      curr[j] := Min(prev[j] + 1, curr[j - 1] + 1, prev[j - 1] + cost);
    }
  }

  lemma EmptyDistance(s: seq<byte>)
    ensures Distance([], s) == |s| == Distance(s, [])
  {
  }

  method Levenshtein(a: seq<byte>, b: seq<byte>) returns (d: int)
    ensures d == Distance(a, b)
  {
    hide Distance;
    EmptyDistance(a);
    EmptyDistance(b);
    if |a| == 0 {
      return |b|;
    }
    if |b| == 0 {
      return |a|;
    }
    var prev := new int[|b| + 1](_ => 0);
    var curr := new int[|b| + 1](_ => 0);
    for i := 0 to prev.Length
      invariant forall j :: 0 <= j < i ==> prev[j] == j
    {
      prev[i] := i;
    }
    forall j | 0 <= j <= |b|
      ensures prev[j] == Distance(a[..0], b[..j])
    {
      EmptyDistance(b[..j]);
    }
    for i := 1 to |a| + 1
      invariant prev != curr && prev.Length == curr.Length == |b| + 1
      invariant fresh(prev) && fresh(curr)
      invariant forall j :: 0 <= j <= |b| ==> prev[j] == Distance(a[..i - 1], b[..j])
    {
      FillRow(a, b, i, prev, curr);
      prev, curr := curr, prev;
    }
    assert a[..|a|] == a && b[..|b|] == b;
    d := prev[|b|];
  }

  // ----- Metric laws

  lemma {:induction false} DistanceSymmetric(a: seq<byte>, b: seq<byte>)
    ensures Distance(a, b) == Distance(b, a)
    decreases |a| + |b|
  {
    if a != [] && b != [] {
      DistanceSymmetric(Init(a), b);
      DistanceSymmetric(a, Init(b));
      DistanceSymmetric(Init(a), Init(b));
    }
  }

  lemma {:induction false} DistanceToSelf(a: seq<byte>)
    ensures Distance(a, a) == 0
    decreases |a|
  {
    if a != [] {
      DistanceToSelf(Init(a));
    }
  }

  lemma {:induction false} DistanceZero(a: seq<byte>, b: seq<byte>)
    requires Distance(a, b) == 0
    ensures a == b
    decreases |a|
  {
    if a != [] && b != [] {
      DistanceZero(Init(a), Init(b));
      assert a == Init(a) + [Last(a)] && b == Init(b) + [Last(b)];
    }
  }

  /** Zero exactly between equal strings. */
  lemma {:induction false} DistanceZeroIffEqual(a: seq<byte>, b: seq<byte>)
    ensures Distance(a, b) == 0 <==> a == b
  {
    if a == b {
      DistanceToSelf(a);
    } else if Distance(a, b) == 0 {
      DistanceZero(a, b);
    }
  }

  /** One more byte on either side changes the distance by at most one upwards. */
  lemma DropLast(a: seq<byte>, b: seq<byte>)
    ensures a != [] ==> Distance(a, b) <= Distance(Init(a), b) + 1
    ensures b != [] ==> Distance(a, b) <= Distance(a, Init(b)) + 1
    ensures a != [] && b != [] ==> Distance(a, b) <= Distance(Init(a), Init(b)) + Cost(Last(a), Last(b))
  {
  }

  lemma {:induction false} LengthBound(a: seq<byte>, b: seq<byte>)
    ensures |a| <= Distance(a, b) + |b| && |b| <= Distance(a, b) + |a|
    ensures Distance(a, b) <= Max(|a|, |b|)
    decreases |a| + |b|
  {
    if a != [] && b != [] {
      LengthBound(Init(a), b);
      LengthBound(a, Init(b));
      LengthBound(Init(a), Init(b));
    }
  }

  lemma {:induction false} DistanceTriangle(a: seq<byte>, b: seq<byte>, c: seq<byte>)
    ensures Distance(a, c) <= Distance(a, b) + Distance(b, c)
    decreases |a| + |b| + |c|
  {
    if a == [] || b == [] || c == [] {
      LengthBound(a, b);
      LengthBound(b, c);
      LengthBound(a, c);
    } else {
      DropLast(a, c);
      if Distance(a, b) == Distance(Init(a), b) + 1 {
        DistanceTriangle(Init(a), b, c);
      } else if Distance(b, c) == Distance(b, Init(c)) + 1 {
        DistanceTriangle(a, b, Init(c));
      } else if Distance(a, b) == Distance(a, Init(b)) + 1 {
        if Distance(b, c) == Distance(Init(b), c) + 1 {
          DistanceTriangle(a, Init(b), c);
        } else {
          DistanceTriangle(a, Init(b), Init(c));
          DropLast(a, Init(c));
        }
      } else if Distance(b, c) == Distance(Init(b), c) + 1 {
        DistanceTriangle(Init(a), Init(b), c);
      } else {
        DistanceTriangle(Init(a), Init(b), Init(c));
      }
    }
  }

  // ----- The optimum over edit scripts

  /** A single edit at a position of the current string. */
  datatype Edit = Insert(at: nat, with: byte) | Delete(at: nat) | Replace(at: nat, with: byte)

  predicate Applies(e: Edit, s: seq<byte>) {
    match e
    case Insert(i, _) => i <= |s|
    case Delete(i) => i < |s|
    case Replace(i, _) => i < |s|
  }

  function Apply(e: Edit, s: seq<byte>): seq<byte>
    requires Applies(e, s)
  {
    match e
    case Insert(i, x) => s[..i] + [x] + s[i..]
    case Delete(i) => s[..i] + s[i + 1..]
    case Replace(i, x) => s[..i] + [x] + s[i + 1..]
  }

  /** The edits of a script, applied one after the other, turn a into b. */
  predicate Turns(script: seq<Edit>, a: seq<byte>, b: seq<byte>) {
    if script == [] then a == b
    else Applies(script[0], a) && Turns(script[1..], Apply(script[0], a), b)
  }

  /** A common suffix never costs anything. */
  lemma {:induction false} CommonSuffix(a: seq<byte>, b: seq<byte>, t: seq<byte>)
    ensures Distance(a + t, b + t) <= Distance(a, b)
    decreases |t|
  {
    if t == [] {
      assert a + t == a && b + t == b;
    } else {
      CommonSuffix(a, b, Init(t));
      assert Init(a + t) == a + Init(t) && Init(b + t) == b + Init(t);
      assert Last(a + t) == Last(t) && Last(b + t) == Last(t);
    }
  }

  lemma OneByteAway(p: seq<byte>, x: byte, y: byte)
    ensures Distance(p, p + [x]) <= 1 && Distance(p + [x], p) <= 1
    ensures Distance(p + [x], p + [y]) <= 1
  {
    DistanceToSelf(p);
    assert Init(p + [x]) == p && Init(p + [y]) == p;
    DropLast(p, p + [x]);
    DropLast(p + [x], p);
    DropLast(p + [x], p + [y]);
  }

  lemma SplitAround(s: seq<byte>, i: nat)
    requires i <= |s|
    ensures s == s[..i] + s[i..]
    ensures i < |s| ==> s == s[..i] + [s[i]] + s[i + 1..]
  {
  }

  lemma OneEditAway(e: Edit, s: seq<byte>)
    requires Applies(e, s)
    ensures Distance(s, Apply(e, s)) <= 1
  {
    SplitAround(s, e.at);
    match e {
      case Insert(i, x) => OneInsertAway(s, i, x);
      case Delete(i) => OneDeleteAway(s, i);
      case Replace(i, x) => OneReplaceAway(s, i, x);
    }
  }

  lemma OneInsertAway(s: seq<byte>, i: nat, x: byte)
    requires i <= |s| && s == s[..i] + s[i..]
    ensures Distance(s, s[..i] + [x] + s[i..]) <= 1
  {
    OneByteAway(s[..i], x, x);
    CommonSuffix(s[..i], s[..i] + [x], s[i..]);
  }

  lemma OneDeleteAway(s: seq<byte>, i: nat)
    requires i < |s| && s == s[..i] + [s[i]] + s[i + 1..]
    ensures Distance(s, s[..i] + s[i + 1..]) <= 1
  {
    OneByteAway(s[..i], s[i], s[i]);
    CommonSuffix(s[..i] + [s[i]], s[..i], s[i + 1..]);
  }

  lemma OneReplaceAway(s: seq<byte>, i: nat, x: byte)
    requires i < |s| && s == s[..i] + [s[i]] + s[i + 1..]
    ensures Distance(s, s[..i] + [x] + s[i + 1..]) <= 1
  {
    OneByteAway(s[..i], s[i], x);
    CommonSuffix(s[..i] + [s[i]], s[..i] + [x], s[i + 1..]);
  }

  /** No script is shorter than the distance. */
  lemma {:induction false} ScriptsAreAtLeast(script: seq<Edit>, a: seq<byte>, b: seq<byte>)
    requires Turns(script, a, b)
    ensures Distance(a, b) <= |script|
    decreases |script|
  {
    if script == [] {
      DistanceToSelf(a);
    } else {
      var next := Apply(script[0], a);
      OneEditAway(script[0], a);
      ScriptsAreAtLeast(script[1..], next, b);
      DistanceTriangle(a, next, b);
    }
  }

  lemma ApplyCarries(e: Edit, a: seq<byte>, t: seq<byte>)
    requires Applies(e, a)
    ensures Applies(e, a + t) && Apply(e, a + t) == Apply(e, a) + t
  {
    var i := e.at;
    assert (a + t)[..i] == a[..i];
    match e {
      case Insert(_, x) =>
        assert (a + t)[i..] == a[i..] + t;
        assert a[..i] + [x] + (a[i..] + t) == a[..i] + [x] + a[i..] + t;
      case Delete(_) =>
        assert (a + t)[i + 1..] == a[i + 1..] + t;
        assert a[..i] + (a[i + 1..] + t) == a[..i] + a[i + 1..] + t;
      case Replace(_, x) =>
        assert (a + t)[i + 1..] == a[i + 1..] + t;
        assert a[..i] + [x] + (a[i + 1..] + t) == a[..i] + [x] + a[i + 1..] + t;
    }
  }

  /** A script that works on a prefix works unchanged when a suffix is carried along. */
  lemma {:induction false} CarrySuffix(script: seq<Edit>, a: seq<byte>, b: seq<byte>, t: seq<byte>)
    requires Turns(script, a, b)
    ensures Turns(script, a + t, b + t)
    decreases |script|
  {
    if script != [] {
      ApplyCarries(script[0], a, t);
      CarrySuffix(script[1..], Apply(script[0], a), b, t);
    }
  }

  lemma {:induction false} ThenOne(script: seq<Edit>, a: seq<byte>, b: seq<byte>, e: Edit)
    requires Turns(script, a, b) && Applies(e, b)
    ensures Turns(script + [e], a, Apply(e, b))
    decreases |script|
  {
    if script == [] {
      assert (script + [e])[1..] == [];
    } else {
      ThenOne(script[1..], Apply(script[0], a), b, e);
      assert (script + [e])[1..] == script[1..] + [e];
    }
  }

  lemma InitThenLast(s: seq<byte>)
    requires s != []
    ensures Init(s) + [Last(s)] == s
  {
  }

  lemma InsertLast(first: seq<Edit>, a: seq<byte>, b: seq<byte>)
    requires b != [] && Turns(first, a, Init(b))
    ensures Turns(first + [Insert(|b| - 1, Last(b))], a, b)
  {
    var e := Insert(|b| - 1, Last(b));
    ThenOne(first, a, Init(b), e);
    InitThenLast(b);
    assert Apply(e, Init(b)) == Init(b) + [Last(b)];
  }

  lemma DeleteLast(rest: seq<Edit>, a: seq<byte>, b: seq<byte>)
    requires a != [] && Turns(rest, Init(a), b)
    ensures Turns([Delete(|a| - 1)] + rest, a, b)
  {
    var e := Delete(|a| - 1);
    assert Apply(e, a) == Init(a);
    assert ([e] + rest)[1..] == rest;
  }

  lemma KeepLast(first: seq<Edit>, a: seq<byte>, b: seq<byte>)
    requires a != [] && b != [] && Turns(first, Init(a), Init(b))
    ensures Turns(first, a, Init(b) + [Last(a)])
    ensures Turns(first + [Replace(|b| - 1, Last(b))], a, b)
  {
    var e, c := Replace(|b| - 1, Last(b)), Init(b) + [Last(a)];
    CarrySuffix(first, Init(a), Init(b), [Last(a)]);
    InitThenLast(a);
    InitThenLast(b);
    ThenOne(first, a, c, e);
    assert Apply(e, c) == Init(b) + [Last(b)];
  }

  /** A script of exactly the distance's length. */
  lemma {:induction false} ShortestScript(a: seq<byte>, b: seq<byte>) returns (script: seq<Edit>)
    ensures Turns(script, a, b) && |script| == Distance(a, b)
    decreases |a| + |b|
  {
    if a == [] && b == [] {
      script := [];
    } else if b != [] && Distance(a, b) == Distance(a, Init(b)) + 1 {
      script := ShortestScript(a, Init(b));
      InsertLast(script, a, b);
      script := script + [Insert(|b| - 1, Last(b))];
    } else if a != [] && Distance(a, b) == Distance(Init(a), b) + 1 {
      script := ShortestScript(Init(a), b);
      DeleteLast(script, a, b);
      script := [Delete(|a| - 1)] + script;
    } else {
      script := ShortestScript(Init(a), Init(b));
      KeepLast(script, a, b);
      InitThenLast(b);
      script := if Last(a) == Last(b) then script else script + [Replace(|b| - 1, Last(b))];
    }
  }

  /** The distance is the least length of a script that turns a into b. */
  lemma DistanceIsOptimal(a: seq<byte>, b: seq<byte>)
    ensures exists script :: Turns(script, a, b) && |script| == Distance(a, b)
    ensures forall script :: Turns(script, a, b) ==> |script| >= Distance(a, b)
  {
    var best := ShortestScript(a, b);
    forall script | Turns(script, a, b)
      ensures |script| >= Distance(a, b)
    {
      ScriptsAreAtLeast(script, a, b);
    }
  }

  predicate HasPrefix(a: seq<byte>, b: seq<byte>) {
    |b| <= |a| && a[..|b|] == b
  }

  /** Turning a string into one of its prefixes takes exactly the surplus bytes. */
  lemma {:induction false} DistanceToPrefix(a: seq<byte>, b: seq<byte>)
    requires HasPrefix(a, b)
    ensures Distance(a, b) == |a| - |b|
  {
    LengthBound(a, b);
    var t := a[|b|..];
    SplitAround(a, |b|);
    DistanceToSelf(b);
    SurplusIsDeleted(b, t);
  }

  lemma {:induction false} SurplusIsDeleted(b: seq<byte>, t: seq<byte>)
    ensures Distance(b + t, b) <= |t|
    decreases |t|
  {
    if t == [] {
      assert b + t == b;
      DistanceToSelf(b);
    } else {
      SurplusIsDeleted(b, Init(t));
      assert Init(b + t) == b + Init(t);
      DropLast(b + t, b);
    }
  }
}
