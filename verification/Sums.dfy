/** Sums over sets, which do not depend on the order of summation. */
module Sums {

  ghost function SumOver<T(!new)>(s: set<T>, f: T -> int): int {
    if s == {} then 0
    else
      var x :| x in s;
      f(x) + SumOver(s - {x}, f)
  }

  /** Any element can be taken out first. */
  lemma {:induction false} SumOverRemove<T(!new)>(s: set<T>, f: T -> int, x: T)
    requires x in s
    ensures SumOver(s, f) == f(x) + SumOver(s - {x}, f)
    decreases |s|
  {
    var y :| y in s && SumOver(s, f) == f(y) + SumOver(s - {y}, f);
    if y != x {
      SumOverRemove(s - {y}, f, x);
      SumOverRemove(s - {x}, f, y);
      assert s - {y} - {x} == s - {x} - {y};
    }
  }

  lemma {:induction false} SumOverSame<T(!new)>(s: set<T>, f: T -> int, g: T -> int)
    requires forall x :: x in s ==> f(x) == g(x)
    ensures SumOver(s, f) == SumOver(s, g)
  {
    if s != {} {
      var x :| x in s && SumOver(s, f) == f(x) + SumOver(s - {x}, f);
      SumOverRemove(s, g, x);
      SumOverSame(s - {x}, f, g);
    }
  }

  lemma {:induction false} SumOverZero<T(!new)>(s: set<T>, f: T -> int)
    requires forall x :: x in s ==> f(x) == 0
    ensures SumOver(s, f) == 0
  {
    if s != {} {
      var x :| x in s && SumOver(s, f) == f(x) + SumOver(s - {x}, f);
      SumOverZero(s - {x}, f);
    }
  }

  /** Raising one summand raises the sum. */
  lemma SumOverBump<T(!new)>(s: set<T>, f: T -> int, g: T -> int, x: T, more: int)
    requires x in s && g(x) == f(x) + more && forall y :: y in s && y != x ==> g(y) == f(y)
    ensures SumOver(s, g) == SumOver(s, f) + more
  {
    SumOverRemove(s, f, x);
    SumOverRemove(s, g, x);
    SumOverSame(s - {x}, f, g);
  }
}
