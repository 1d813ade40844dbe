/** Sorting as `sort.Slice` and `slices.Sort` promise it, and the string order they use. */
module Ordering {

  /** Go's `<` on strings. */
  predicate StringLess(a: string, b: string) {
    if b == "" then false
    else if a == "" then true
    else a[0] < b[0] || (a[0] == b[0] && StringLess(a[1..], b[1..]))
  }

  lemma {:induction false} StringLessTrichotomy(a: string, b: string)
    ensures !(StringLess(a, b) && StringLess(b, a))
    ensures StringLess(a, b) || StringLess(b, a) <==> a != b
  {
    if a != "" && b != "" {
      StringLessTrichotomy(a[1..], b[1..]);
      assert a == [a[0]] + a[1..] && b == [b[0]] + b[1..];
    }
  }

  /** The lexicographic order: a proper prefix comes first, and otherwise the first difference decides. */
  lemma {:induction false} StringLessMeans(a: string, b: string)
    ensures StringLess(a, b) <==>
            || (|a| < |b| && a <= b)
            || exists k :: 0 <= k < |a| && k < |b| && a[..k] == b[..k] && a[k] < b[k]
  {
    if a != "" && b != "" && a[0] == b[0] {
      var x, y := a[1..], b[1..];
      StringLessMeans(x, y);
      assert a == [a[0]] + x && b == [a[0]] + y;
      if k :| 0 <= k < |x| && k < |y| && x[..k] == y[..k] && x[k] < y[k] {
        assert a[..k + 1] == [a[0]] + x[..k] && b[..k + 1] == [a[0]] + y[..k];
        assert a[k + 1] < b[k + 1];
      }
      if k :| 0 <= k < |a| && k < |b| && a[..k] == b[..k] && a[k] < b[k] {
        assert x[..k - 1] == a[..k][1..] && y[..k - 1] == b[..k][1..];
        assert x[k - 1] < y[k - 1];
      }
    } else if a != "" && b != "" {
      forall k | 0 < k < |a| && k < |b| ensures a[..k] != b[..k] {
        assert a[..k][0] != b[..k][0];
      }
      assert a[..0] == b[..0];
    }
  }

  lemma {:induction false} StringLessTransitive(a: string, b: string, c: string)
    requires StringLess(a, b) && StringLess(b, c)
    ensures StringLess(a, c)
  {
    if a != "" && a[0] == b[0] == c[0] {
      StringLessTransitive(a[1..], b[1..], c[1..]);
    }
  }

  /** `less` is a strict order that decides every pair of different elements of `s`. */
  ghost predicate StrictOrderOn<T(!new)>(less: (T, T) -> bool, s: seq<T>) {
    && (forall x, y :: less(x, y) ==> !less(y, x))
    && (forall x, y, z :: less(x, y) && less(y, z) ==> less(x, z))
    && (forall x, y :: x in s && y in s && x != y ==> less(x, y) || less(y, x))
  }

  ghost predicate Sorted<T>(less: (T, T) -> bool, s: seq<T>) {
    forall i, j :: 0 <= i < j < |s| ==> !less(s[j], s[i])
  }

  /** What sorting `s` may return. */
  ghost predicate SortResult<T>(less: (T, T) -> bool, s: seq<T>, r: seq<T>) {
    multiset(r) == multiset(s) && Sorted(less, r)
  }

  function Insert<T>(less: (T, T) -> bool, x: T, s: seq<T>): seq<T> {
    if s == [] then [x]
    else if less(s[0], x) then [s[0]] + Insert(less, x, s[1..])
    else [x] + s
  }

  function Sort<T>(less: (T, T) -> bool, s: seq<T>): seq<T> {
    if s == [] then [] else Insert(less, s[0], Sort(less, s[1..]))
  }

  lemma {:induction false} InsertSorts<T(!new)>(less: (T, T) -> bool, x: T, s: seq<T>)
    requires Sorted(less, s)
    requires forall a, b :: less(a, b) ==> !less(b, a)
    requires forall a, b, c :: less(a, b) && less(b, c) ==> less(a, c)
    requires forall a, b :: a in s + [x] && b in s + [x] && a != b ==> less(a, b) || less(b, a)
    ensures SortResult(less, [x] + s, Insert(less, x, s))
  {
    var r := Insert(less, x, s);
    if s == [] {
    } else if less(s[0], x) {
      assert s == [s[0]] + s[1..];
      InsertSorts(less, x, s[1..]);
      var rest := Insert(less, x, s[1..]);
      assert multiset(r) == multiset{s[0]} + multiset(rest);
      forall j | 0 <= j < |rest| ensures !less(rest[j], s[0]) {
        assert rest[j] in multiset(rest);
        assert rest[j] in [x] + s[1..];
        if rest[j] != x {
          var h :| 0 <= h < |s[1..]| && s[1..][h] == rest[j];
          assert !less(s[h + 1], s[0]);
        }
      }
      assert Sorted(less, r);
    } else {
      forall j | 0 <= j < |s| ensures !less(s[j], x) {
        assert j > 0 ==> !less(s[j], s[0]);
        assert x in s + [x] && s[0] in s + [x] && s[j] in s + [x];
      }
    }
  }

  lemma {:induction false} SortSorts<T(!new)>(less: (T, T) -> bool, s: seq<T>)
    requires StrictOrderOn(less, s)
    ensures SortResult(less, s, Sort(less, s))
  {
    if s != [] {
      SortSorts(less, s[1..]);
      var rest := Sort(less, s[1..]);
      assert s == [s[0]] + s[1..];
      forall a | a in rest + [s[0]] ensures a in s {
        assert a in multiset(rest) || a == s[0];
      }
      InsertSorts(less, s[0], rest);
    }
  }

  lemma SameHead<T(!new)>(less: (T, T) -> bool, r: seq<T>, r': seq<T>)
    requires StrictOrderOn(less, r) && multiset(r) == multiset(r') && Sorted(less, r) && Sorted(less, r')
    requires r != [] && r' != []
    ensures r[0] == r'[0]
  {
    assert r[0] in multiset(r') && r'[0] in multiset(r);
    var i :| 0 <= i < |r'| && r'[i] == r[0];
    var j :| 0 <= j < |r| && r[j] == r'[0];
    assert i > 0 ==> !less(r'[i], r'[0]);
    assert j > 0 ==> !less(r[j], r[0]);
  }

  lemma TailSorted<T>(less: (T, T) -> bool, r: seq<T>)
    requires r != [] && Sorted(less, r)
    ensures r == [r[0]] + r[1..] && Sorted(less, r[1..]) && multiset(r[1..]) == multiset(r) - multiset{r[0]}
  {
    assert r == [r[0]] + r[1..];
    forall i, j | 0 <= i < j < |r[1..]| ensures !less(r[1..][j], r[1..][i]) {
      assert !less(r[j + 1], r[i + 1]);
    }
  }

  /** There is only one way to sort, so the algorithm does not matter. */
  lemma {:induction false} SortUnique<T(!new)>(less: (T, T) -> bool, r: seq<T>, r': seq<T>)
    requires StrictOrderOn(less, r) && multiset(r) == multiset(r') && Sorted(less, r) && Sorted(less, r')
    ensures r == r'
    decreases |r|
  {
    SameLength(r, r');
    if r != [] {
      SameHead(less, r, r');
      TailSorted(less, r);
      TailSorted(less, r');
      assert StrictOrderOn(less, r[1..]) by { assert forall x :: x in r[1..] ==> x in r; }
      SortUnique(less, r[1..], r'[1..]);
    }
  }

  lemma SameLength<T>(a: seq<T>, b: seq<T>)
    requires multiset(a) == multiset(b)
    ensures |a| == |b|
  {
    assert |multiset(a)| == |a| && |multiset(b)| == |b|;
  }

  /** Sorting a permutation gives the same sequence. */
  lemma SortPermutation<T(!new)>(less: (T, T) -> bool, s: seq<T>, s': seq<T>)
    requires StrictOrderOn(less, s) && multiset(s) == multiset(s')
    ensures Sort(less, s) == Sort(less, s')
  {
    assert forall x :: x in s' ==> x in multiset(s);
    SortSorts(less, s);
    SortSorts(less, s');
    assert forall x :: x in Sort(less, s) ==> x in multiset(s);
    SortUnique(less, Sort(less, s), Sort(less, s'));
  }

  lemma SortSorted<T(!new)>(less: (T, T) -> bool, s: seq<T>)
    requires StrictOrderOn(less, s) && Sorted(less, s)
    ensures Sort(less, s) == s
  {
    SortSorts(less, s);
    SortUnique(less, s, Sort(less, s));
  }

  // ----- sets of strings in order -----

  lemma StringOrder(s: seq<string>)
    ensures StrictOrderOn(StringLess, s)
  {
    forall a, b ensures StringLess(a, b) ==> !StringLess(b, a) { StringLessTrichotomy(a, b); }
    forall a, b, c | StringLess(a, b) && StringLess(b, c) ensures StringLess(a, c) { StringLessTransitive(a, b, c); }
    forall a, b | a != b ensures StringLess(a, b) || StringLess(b, a) { StringLessTrichotomy(a, b); }
  }

  ghost predicate Ascending(s: seq<string>) {
    forall i, j :: 0 <= i < j < |s| ==> StringLess(s[i], s[j]) && s[i] != s[j]
  }

  method SortedKeys(keys: set<string>) returns (s: seq<string>)
    ensures forall z :: z in s <==> z in keys
    ensures Ascending(s)
  {
    var listed: seq<string> := [];
    var todo := keys;
    while todo != {}
      invariant todo <= keys
      invariant forall z :: z in listed <==> z in keys && z !in todo
      invariant forall i, j :: 0 <= i < j < |listed| ==> listed[i] != listed[j]
    {
      var z :| z in todo;
      todo := todo - {z};
      listed := listed + [z];
    }
    s := Sort(StringLess, listed);
    SortedDistinct(listed);
  }

  lemma SortedDistinct(s: seq<string>)
    requires forall i, j :: 0 <= i < j < |s| ==> s[i] != s[j]
    ensures Ascending(Sort(StringLess, s))
    ensures forall z :: z in Sort(StringLess, s) <==> z in s
  {
    var r := Sort(StringLess, s);
    StringOrder(s);
    SortSorts(StringLess, s);
    forall z ensures z in r <==> z in s {
      assert z in r <==> z in multiset(r);
      assert z in s <==> z in multiset(s);
    }
    forall i, j | 0 <= i < j < |r| ensures StringLess(r[i], r[j]) && r[i] != r[j] {
      OnlyOnce(s, r[i]);
      if r[i] == r[j] {
        TwiceInMultiset(r, i, j);
      }
      StringLessTrichotomy(r[i], r[j]);
    }
  }

  lemma TwiceInMultiset<T>(s: seq<T>, i: nat, j: nat)
    requires i < j < |s| && s[i] == s[j]
    ensures multiset(s)[s[i]] >= 2
  {
    assert s == s[..i] + [s[i]] + s[i + 1..j] + [s[j]] + s[j + 1..];
  }

  lemma {:induction false} OnlyOnce(s: seq<string>, z: string)
    requires forall i, j :: 0 <= i < j < |s| ==> s[i] != s[j]
    ensures multiset(s)[z] <= 1
  {
    if s != [] {
      var front, last := s[..|s| - 1], s[|s| - 1];
      assert s == front + [last];
      OnlyOnce(front, z);
      if last == z {
        assert z !in front;
      }
    }
  }
}
