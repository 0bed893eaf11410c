/**
  Sums of real-valued functions over finite sets of row ids. The program sums over Go maps, whose
  iteration order is arbitrary; a sum over a set is the order-free value those loops compute.
 */
module FiniteSums {

  /** Some member of a non-empty set, for loops whose order is arbitrary. */
  method PickAny<T(==)>(s: set<T>) returns (x: T)
    requires s != {}
    ensures x in s
  {
    x :| x in s;
  }

  ghost function Pick<T>(s: set<T>): (x: T)
    requires s != {}
    ensures x in s
  {
    var x :| x in s;
    x
  }

  function Elements<T(==)>(s: seq<T>): set<T> {
    set x | x in s
  }

  ghost function Sum<T>(s: set<T>, f: T -> real): real {
    if s == {} then 0.0
    else var x :| x in s; f(x) + Sum(s - {x}, f)
  }

  /** Any member may be taken out first. */
  lemma {:induction false} SumPull<T>(s: set<T>, f: T -> real, y: T)
    requires y in s
    ensures Sum(s, f) == f(y) + Sum(s - {y}, f)
    decreases s
  {
    var x :| x in s && Sum(s, f) == f(x) + Sum(s - {x}, f);
    if x != y {
      SumPull(s - {x}, f, y);
      SumPull(s - {y}, f, x);
      assert s - {x} - {y} == s - {y} - {x};
    }
  }

  lemma SumInsert<T>(s: set<T>, f: T -> real, y: T)
    requires y !in s
    ensures Sum(s + {y}, f) == Sum(s, f) + f(y)
  {
    SumPull(s + {y}, f, y);
    assert s + {y} - {y} == s;
  }

  lemma {:induction false} SumCongruent<T>(s: set<T>, f: T -> real, g: T -> real)
    requires forall x :: x in s ==> f(x) == g(x)
    ensures Sum(s, f) == Sum(s, g)
    decreases s
  {
    if s != {} {
      var x :| x in s;
      SumPull(s, f, x);
      SumPull(s, g, x);
      SumCongruent(s - {x}, f, g);
    }
  }

  lemma {:induction false} SumMonotone<T>(s: set<T>, f: T -> real, g: T -> real)
    requires forall x :: x in s ==> f(x) <= g(x)
    ensures Sum(s, f) <= Sum(s, g)
    decreases s
  {
    if s != {} {
      var x :| x in s;
      SumPull(s, f, x);
      SumPull(s, g, x);
      SumMonotone(s - {x}, f, g);
    }
  }

  lemma {:induction false} SumPlus<T>(s: set<T>, f: T -> real, g: T -> real, h: T -> real)
    requires forall x :: x in s ==> h(x) == f(x) + g(x)
    ensures Sum(s, h) == Sum(s, f) + Sum(s, g)
    decreases s
  {
    if s != {} {
      var x :| x in s;
      SumPull(s, f, x);
      SumPull(s, g, x);
      SumPull(s, h, x);
      SumPlus(s - {x}, f, g, h);
    }
  }

  /** A product, named so that equal factors are recognised as such before any arithmetic is done. */
  function Prod(a: real, x: real): real {
    a * x
  }

  /** A quotient, named for the same reason. */
  function Quot(x: real, d: real): real
    requires d != 0.0
  {
    x / d
  }

  lemma ProdAdds(a: real, x: real, y: real)
    ensures Prod(a, x + y) == Prod(a, x) + Prod(a, y)
  {
  }

  lemma ProdSplits(a: real, b: real, x: real)
    ensures Prod(a + b, x) == Prod(a, x) + Prod(b, x)
  {
  }

  lemma ProdAssoc(a: real, p: real, w: real)
    ensures Prod(Prod(a, p), w) == Prod(a, Prod(p, w))
  {
  }

  lemma ProdMonotone(a: real, p: real, q: real)
    requires a >= 0.0 && p <= q
    ensures Prod(a, p) <= Prod(a, q)
  {
  }

  lemma ProdUnits(a: real)
    ensures Prod(a, 0.0) == 0.0 == Prod(0.0, a) && Prod(a, 1.0) == a == Prod(1.0, a)
  {
  }

  lemma QuotAdds(x: real, y: real, d: real)
    requires d != 0.0
    ensures Quot(x + y, d) == Quot(x, d) + Quot(y, d)
  {
  }

  lemma {:induction false} SumScale<T>(s: set<T>, a: real, f: T -> real, h: T -> real)
    requires forall x :: x in s ==> h(x) == Prod(a, f(x))
    ensures Sum(s, h) == Prod(a, Sum(s, f))
    decreases s
  {
    if s == {} {
      ProdUnits(a);
    } else {
      var x :| x in s;
      SumScale(s - {x}, a, f, h);
      ProdAdds(a, f(x), Sum(s - {x}, f));
      SumPull(s, f, x);
      SumPull(s, h, x);
    }
  }

  lemma {:induction false} SumZero<T>(s: set<T>, f: T -> real)
    requires forall x :: x in s ==> f(x) == 0.0
    ensures Sum(s, f) == 0.0
    decreases s
  {
    if s != {} {
      var x :| x in s;
      SumPull(s, f, x);
      SumZero(s - {x}, f);
    }
  }

  lemma SumNonNegative<T>(s: set<T>, f: T -> real)
    requires forall x :: x in s ==> f(x) >= 0.0
    ensures Sum(s, f) >= 0.0
  {
    SumZero(s, _ => 0.0);
    SumMonotone(s, _ => 0.0, f);
  }

  /** Terms that vanish outside s may be dropped. */
  lemma {:induction false} SumSubset<T>(s: set<T>, t: set<T>, f: T -> real)
    requires s <= t
    requires forall x :: x in t - s ==> f(x) == 0.0
    ensures Sum(t, f) == Sum(s, f)
    decreases t
  {
    if t - s == {} {
      assert s == t by {
        assert forall x :: x in t ==> x in s || x in t - s;
      }
    } else {
      var x :| x in t - s;
      SumPull(t, f, x);
      SumSubset(s, t - {x}, f);
    }
  }

  lemma SumSubsetAtMost<T>(s: set<T>, t: set<T>, f: T -> real)
    requires s <= t
    requires forall x :: x in t ==> f(x) >= 0.0
    ensures Sum(s, f) <= Sum(t, f)
  {
    var g := x => if x in s then f(x) else 0.0;
    SumCongruent(s, f, g);
    SumSubset(s, t, g);
    SumMonotone(t, g, f);
  }

  function Abs(x: real): (r: real)
    ensures r >= 0.0 && r >= x && r >= -x && (r == x || r == -x)
  {
    if x < 0.0 then -x else x
  }

  lemma {:induction false} SumTriangle<T>(s: set<T>, f: T -> real, g: T -> real)
    requires forall x :: x in s ==> g(x) == Abs(f(x))
    ensures Abs(Sum(s, f)) <= Sum(s, g)
    decreases s
  {
    if s != {} {
      var x :| x in s;
      SumPull(s, f, x);
      SumPull(s, g, x);
      SumTriangle(s - {x}, f, g);
    }
  }

  ghost function Row<U, V>(f: (U, V) -> real, u: U): V -> real {
    v => f(u, v)
  }

  ghost function RowTotal<U, V>(f: (U, V) -> real, t: set<V>): U -> real {
    u => Sum(t, Row(f, u))
  }

  ghost function Flip<U, V>(f: (U, V) -> real): (V, U) -> real {
    (v, u) => f(u, v)
  }

  /** The order of a double sum may be exchanged. */
  lemma {:induction false} SumExchange<U, V>(s: set<U>, t: set<V>, f: (U, V) -> real)
    ensures Sum(s, RowTotal(f, t)) == Sum(t, RowTotal(Flip(f), s))
    decreases s
  {
    if s == {} {
      SumZero(t, RowTotal(Flip(f), s));
    } else {
      var x :| x in s;
      SumPull(s, RowTotal(f, t), x);
      SumExchange(s - {x}, t, f);
      forall v | v in t
        ensures RowTotal(Flip(f), s)(v) == Row(f, x)(v) + RowTotal(Flip(f), s - {x})(v)
      {
        SumPull(s, Row(Flip(f), v), x);
      }
      SumPlus(t, Row(f, x), RowTotal(Flip(f), s - {x}), RowTotal(Flip(f), s));
    }
  }
}
