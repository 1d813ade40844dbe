/** Counting the elements of a list that satisfy a predicate. */
module Counting {

  function Positions<T>(s: seq<T>, p: T -> bool): set<int> {
    set i | 0 <= i < |s| && p(s[i])
  }

  /** How many elements satisfy the predicate. */
  function Number<T>(s: seq<T>, p: T -> bool): nat {
    |Positions(s, p)|
  }

  lemma NumberStep<T>(s: seq<T>, p: T -> bool)
    requires s != []
    ensures Number(s, p) == Number(s[..|s| - 1], p) + if p(s[|s| - 1]) then 1 else 0
  {
    var n := |s| - 1;
    var front := s[..n];
    forall i ensures i in Positions(s, p) <==> i in Positions(front, p) || (i == n && p(s[n])) {
      assert 0 <= i < n ==> front[i] == s[i];
    }
    if p(s[n]) {
      assert Positions(s, p) == Positions(front, p) + {n};
    } else {
      assert Positions(s, p) == Positions(front, p);
    }
  }

  lemma NumberNone<T>(p: T -> bool)
    ensures Number([], p) == 0
  {
    assert Positions([], p) == {};
  }
}
