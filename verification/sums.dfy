/** Sums over multisets. */
module Sums {
  ghost function Sum<T(!new)>(m: multiset<T>, w: T -> nat): nat
    decreases |m|
  {
    if m == multiset{} then 0
    else
      var x :| x in m;
      w(x) + Sum(m - multiset{x}, w)
  }

  lemma {:induction false} SumTake<T(!new)>(m: multiset<T>, w: T -> nat, x: T)
    requires x in m
    ensures Sum(m, w) == w(x) + Sum(m - multiset{x}, w)
    decreases |m|
  {
    var y :| y in m && Sum(m, w) == w(y) + Sum(m - multiset{y}, w);
    if x != y {
      SumTake(m - multiset{y}, w, x);
      SumTake(m - multiset{x}, w, y);
      assert m - multiset{y} - multiset{x} == m - multiset{x} - multiset{y};
    }
  }

  lemma {:induction false} SumAdd<T(!new)>(a: multiset<T>, b: multiset<T>, w: T -> nat)
    ensures Sum(a + b, w) == Sum(a, w) + Sum(b, w)
    decreases |b|
  {
    if b == multiset{} {
      assert a + b == a;
    } else {
      var x :| x in b;
      SumTake(b, w, x);
      SumTake(a + b, w, x);
      assert a + b - multiset{x} == a + (b - multiset{x});
      SumAdd(a, b - multiset{x}, w);
    }
  }

  lemma SumOne<T(!new)>(x: T, w: T -> nat)
    ensures Sum(multiset{x}, w) == w(x)
  {
    SumTake(multiset{x}, w, x);
    assert multiset{x} - multiset{x} == multiset{};
  }

  lemma SumBelow<T(!new)>(a: multiset<T>, b: multiset<T>, w: T -> nat)
    requires a <= b
    ensures Sum(a, w) <= Sum(b, w)
  {
    SumAdd(a, b - a, w);
    assert a + (b - a) == b;
  }
}
