/** The controller applies one planned step, reads the configuration back in normalized form and plans
    again. This loop converges too: the order of regions has no influence on how far a migration is. */
module ControllerLoop {
  import opened Regions
  import opened PlannerSpec
  import opened Ordering
  import opened Normalization
  import opened Convergence
  import opened GeneralConvergence

  ghost function Flip(ms: seq<Main>): (ms': seq<Main>)
    requires |ms| == 2
  {
    [ms[1], ms[0]]
  }

  lemma FlipKeepsMembers(cur: Shape, fin: Shape)
    requires Small(cur) && Small(fin) && |cur.mains| == 2
    ensures var cur' := cur.(mains := Flip(cur.mains));
            && Small(cur')
            && (forall id :: Has(cur'.mains, id) <==> Has(cur.mains, id))
            && (forall i :: 0 <= i < 2 ==> (Stale(cur'.mains, fin.mains, 1 - i) <==> Stale(cur.mains, fin.mains, i)))
            && (forall i :: 0 <= i < 2 ==> (Removable(cur', fin, 1 - i) <==> Removable(cur, fin, i)))
            && (forall i :: 0 <= i < 2 ==> (Demotable(cur', fin, 1 - i) <==> Demotable(cur, fin, i)))
  {
    var ms, ms' := cur.mains, Flip(cur.mains);
    assert ms'[0] == ms[1] && ms'[1] == ms[0];
    forall id ensures Has(ms', id) <==> Has(ms, id) {
      assert Has(ms', id) <==> ms'[0].id == id || ms'[1].id == id;
      assert Has(ms, id) <==> ms[0].id == id || ms[1].id == id;
    }
  }

  lemma FlipKeepsSettled(ms: seq<Main>, fs: seq<Main>)
    requires |ms| == 2 && ProperIds(ms) && SettledSomehow(ms, fs)
    ensures SettledSomehow(Flip(ms), fs)
  {
    var top :| IsTop(ms, top) && Settled(ms, fs, top);
    var ms' := Flip(ms);
    assert ms'[0] == ms[1] && ms'[1] == ms[0];
    PrioOfTwo(ms);
    PrioOfTwo(ms');
    assert IsTop(ms', top);
    forall i | Missing(ms', fs, i) ensures fs[i].priority == -1 {
      assert Missing(ms, fs, i);
    }
    forall i | 0 <= i < 2 ensures ms'[i].priority == Goal(ms', fs, top, ms'[i].id) {
      assert ms[1 - i].priority == Goal(ms, fs, top, ms[1 - i].id);
    }
  }

  lemma FlipKeepsRank(cur: Shape, fin: Shape)
    requires Small(cur) && Small(fin) && |cur.mains| == 2
    ensures Rank(cur.(mains := Flip(cur.mains)), fin) == Rank(cur, fin)
  {
    var cur' := cur.(mains := Flip(cur.mains));
    var ms, ms', fs := cur.mains, cur'.mains, fin.mains;
    FlipKeepsMembers(cur, fin);
    assert StaleCount(ms', fs) == StaleCount(ms, fs);
    if fs != [] && StaleCount(ms, fs) > 0 {
      assert (exists i :: Removable(cur', fin, i)) <==> (exists i :: Removable(cur, fin, i)) by {
        if i :| Removable(cur, fin, i) { assert Removable(cur', fin, 1 - i); }
        if i :| Removable(cur', fin, i) { assert Removable(cur, fin, 1 - i); }
      }
      assert (exists i :: Demotable(cur', fin, i)) <==> (exists i :: Demotable(cur, fin, i)) by {
        if i :| Demotable(cur, fin, i) { assert Demotable(cur', fin, 1 - i); }
        if i :| Demotable(cur', fin, i) { assert Demotable(cur, fin, 1 - i); }
      }
      assert SettledSomehow(ms', fs) <==> SettledSomehow(ms, fs) by {
        assert Flip(ms') == ms;
        if SettledSomehow(ms, fs) { FlipKeepsSettled(ms, fs); }
        if SettledSomehow(ms', fs) { FlipKeepsSettled(ms', fs); }
      }
    } else {
      NothingMissing(ms, fs);
      MatchingPriorities(ms, fs);
      assert SettlingRank(cur', fin) == SettlingRank(cur, fin);
    }
  }

  lemma TwoElementPermutation<T>(a: seq<T>, b: seq<T>)
    requires |a| <= 2 && multiset(a) == multiset(b)
    ensures b == a || (|a| == 2 && b == [a[1], a[0]])
  {
    SameLength(a, b);
    if |a| == 1 {
      assert b[0] in multiset(a);
    } else if |a| == 2 {
      assert a == [a[0], a[1]] && b == [b[0], b[1]];
      SamePair(a[0], a[1], b[0], b[1]);
    }
  }

  lemma SamePair<T>(x: T, y: T, x': T, y': T)
    requires multiset{x, y} == multiset{x', y'}
    ensures (x' == x && y' == y) || (x' == y && y' == x)
  {
    assert x' in multiset{x, y};
    if x' == x {
      assert multiset{x, y} - multiset{x} == multiset{y};
      assert multiset{x', y'} - multiset{x} == multiset{y'};
      assert y' in multiset{y};
    } else {
      assert multiset{x, y} - multiset{y} == multiset{x};
      assert multiset{x', y'} - multiset{y} == multiset{y'};
      assert y' in multiset{x};
    }
  }

  // ----- reordering any number of regions -----

  ghost predicate Permuted(ms: seq<Main>, ms': seq<Main>) {
    multiset(ms) == multiset(ms') && ProperIds(ms) && ProperIds(ms')
  }

  lemma PermutedAt(ms: seq<Main>, ms': seq<Main>, i: nat) returns (j: nat)
    requires multiset(ms) == multiset(ms') && i < |ms|
    ensures j < |ms'| && ms'[j] == ms[i]
  {
    assert ms[i] in multiset(ms');
    j :| j < |ms'| && ms'[j] == ms[i];
  }

  lemma {:induction false} PermutedStales(ms: seq<Main>, ms': seq<Main>, fs: seq<Main>)
    requires multiset(ms) == multiset(ms')
    ensures Stales(ms, fs) == Stales(ms', fs)
    decreases |ms|
  {
    SameLength(ms, ms');
    if ms != [] {
      var k := FindFirst(ms, ms');
      Cancel(multiset(RestOf(ms, 0)), multiset(RestOf(ms', k)), ms[0]);
      PermutedStales(RestOf(ms, 0), RestOf(ms', k), fs);
      StalesRest(ms, 0, fs);
      StalesRest(ms', k, fs);
    }
  }

  lemma StalesRest(ms: seq<Main>, k: nat, fs: seq<Main>)
    requires k < |ms|
    ensures Stales(ms, fs) == Stales(RestOf(ms, k), fs) + if Has(fs, ms[k].id) then 0 else 1
  {
    assert ms == (ms[..k] + [ms[k]]) + ms[k + 1..];
    StalesConcat(ms[..k] + [ms[k]], ms[k + 1..], fs);
    StalesConcat(ms[..k], [ms[k]], fs);
    StalesConcat(ms[..k], ms[k + 1..], fs);
    assert [ms[k]][..0] == [];
  }

  lemma PermutedHas(ms: seq<Main>, ms': seq<Main>, id: string)
    requires multiset(ms) == multiset(ms') && Has(ms, id)
    ensures Has(ms', id)
  {
    var i: nat :| i < |ms| && ms[i].id == id;
    var j := PermutedAt(ms, ms', i);
  }

  /** Which cases of a decision apply does not depend on the order of regions; one direction. */
  lemma PermutedCases(cur: Shape, fin: Shape, ms': seq<Main>)
    requires Permuted(cur.mains, ms')
    ensures var cur' := cur.(mains := ms');
            && (AnyMissing(ms', fin.mains) ==> AnyMissing(cur.mains, fin.mains))
            && ((exists i :: Stale(cur.mains, fin.mains, i)) ==> (exists i :: Stale(ms', fin.mains, i)))
            && ((exists i :: Removable(cur, fin, i)) ==> (exists i :: Removable(cur', fin, i)))
            && ((exists i :: Demotable(cur, fin, i)) ==> (exists i :: Demotable(cur', fin, i)))
  {
    var ms, fs, cur' := cur.mains, fin.mains, cur.(mains := ms');
    if i :| Missing(ms', fs, i) {
      if Has(ms, fs[i].id) {
        PermutedHas(ms, ms', fs[i].id);
      }
      assert Missing(ms, fs, i);
    }
    if i :| Stale(ms, fs, i) {
      var j := PermutedAt(ms, ms', i);
      assert Stale(ms', fs, j);
    }
    if i :| Removable(cur, fin, i) {
      var j := PermutedAt(ms, ms', i);
      assert Removable(cur', fin, j);
    }
    if i :| Demotable(cur, fin, i) {
      var j := PermutedAt(ms, ms', i);
      assert Demotable(cur', fin, j);
    }
  }

  lemma PermutedTop(ms: seq<Main>, ms': seq<Main>, t: nat) returns (t': nat)
    requires Permuted(ms, ms') && OnlyTopDiffers(ms, t)
    ensures OnlyTopDiffers(ms', t')
  {
    t' := PermutedAt(ms, ms', t);
    forall j | 0 <= j < |ms'| ensures ms'[j].priority <= ms'[t'].priority && (j != t' ==> ms'[j].priority == -1) {
      var i := PermutedAt(ms', ms, j);
      if j != t' {
        assert ms'[j].id != ms'[t'].id;
        assert i != t;
      }
    }
  }

  lemma PermutedCalls(ms: seq<Main>, ms': seq<Main>)
    requires Permuted(ms, ms')
    ensures UniformCalls(ms') <= UniformCalls(ms)
  {
    if t: nat :| OnlyTopDiffers(ms, t) {
      var t' := PermutedTop(ms, ms', t);
    } else if i: nat :| i < |ms| && ms[i].priority >= -1 {
      var j := PermutedAt(ms, ms', i);
      assert ms'[j].priority >= -1;
    }
  }

  lemma PermutedUniformRank(cur: Shape, fin: Shape, ms': seq<Main>)
    requires Permuted(cur.mains, ms')
    ensures UniformRank(cur.(mains := ms'), fin) == UniformRank(cur, fin)
    ensures ClearingRank(cur.(mains := ms'), fin) == ClearingRank(cur, fin)
  {
    SameLength(cur.mains, ms');
    PermutedClearing(cur, fin, ms');
    PermutedCalls(cur.mains, ms');
    PermutedCalls(ms', cur.mains);
  }

  lemma PermutedClearing(cur: Shape, fin: Shape, ms': seq<Main>)
    requires Permuted(cur.mains, ms')
    ensures var cur' := cur.(mains := ms');
            && ClearingRank(cur', fin) == ClearingRank(cur, fin)
            && Stales(ms', fin.mains) == Stales(cur.mains, fin.mains)
            && (AnyMissing(ms', fin.mains) <==> AnyMissing(cur.mains, fin.mains))
            && (Clearing(cur', fin) <==> Clearing(cur, fin))
  {
    var ms, cur' := cur.mains, cur.(mains := ms');
    SameLength(ms, ms');
    PermutedStales(ms, ms', fin.mains);
    PermutedCases(cur, fin, ms');
    PermutedCases(cur', fin, ms);
    assert cur'.(mains := ms) == cur;
  }

  lemma PermutedRank(cur: Shape, fin: Shape, ms': seq<Main>)
    requires Permuted(cur.mains, ms') && ProperIds(fin.mains) && !Unreachable(fin)
    ensures GeneralRank(cur.(mains := ms'), fin) == GeneralRank(cur, fin)
  {
    var ms := cur.mains;
    SameLength(ms, ms');
    if Uniform(fin.mains) || |ms| > 2 {
      PermutedUniformRank(cur, fin, ms');
    } else {
      TwoElementPermutation(ms, ms');
      if ms' != ms {
        FlipKeepsRank(cur, fin);
      }
    }
  }

  // ----- normalizing -----

  function MainOrNone(r: Region): Main {
    if OneMain(r) then MainOf(r) else Main("", 0)
  }

  /** Normalizing reorders the main data centers. */
  lemma NormalizePermutes(rs: seq<Region>)
    requires WellFormedRegions(rs)
    ensures WellFormedRegions(NormalizeRegions(rs)) && Permuted(Mains(rs), Mains(NormalizeRegions(rs)))
  {
    var s, n := SortedInside(rs), NormalizeRegions(rs);
    NormalizationIsIdempotent(rs);
    SortedInsideWellFormed(rs);
    ImageMultiset(MainOrNone, s, Mains(s), n, Mains(n));
  }

  lemma NormalizeKeepsRank(r: Config, f: Config)
    requires WellFormed(r) && WellFormed(f) && !Unreachable(ShapeOf(f)) && r.usableRegions >= 1
    ensures WellFormed(Normalize(r)) && Normalize(r).usableRegions == r.usableRegions
    ensures GeneralRank(ShapeOf(Normalize(r)), ShapeOf(f)) == GeneralRank(ShapeOf(r), ShapeOf(f))
    ensures Normalize(r).regions == [] <==> r.regions == []
  {
    NormalizePermutes(r.regions);
    SameLength(Mains(r.regions), Mains(NormalizeRegions(r.regions)));
    PermutedRank(ShapeOf(r), ShapeOf(f), Mains(NormalizeRegions(r.regions)));
  }

  ghost predicate Canonical(c: Config) {
    Normalize(c) == c
  }

  /** One pass of the controller, from one normalized configuration to the next. */
  ghost predicate Pass(c: Config, f: Config, c': Config)
    requires WellFormed(c) && WellFormed(f)
  {
    exists r :: Next(c, f, r) && c' == Normalize(r)
  }

  ghost predicate Passes(f: Config, cs: seq<Config>)
    requires WellFormed(f)
  {
    forall i :: 0 <= i < |cs| - 1 && WellFormed(cs[i]) ==> Pass(cs[i], f, cs[i + 1])
  }

  lemma NextKeepsUsable(c: Config, f: Config, r: Config)
    requires WellFormed(c) && WellFormed(f) && Next(c, f, r) && !NilMismatch(c, f)
    requires c.usableRegions >= 1 && f.usableRegions >= 1
    ensures r.usableRegions >= 1
  {
    if !SameRegions(c, f) {
      var d :| Decides(ShapeOf(c), ShapeOf(f), d) && r == Apply(c, f, d);
      if d.Reshape? {
        DecisionKeepsUsable(ShapeOf(c), ShapeOf(f), d);
      }
    }
  }

  lemma DecisionKeepsUsable(cur: Shape, fin: Shape, d: Decision)
    requires cur.usable >= 1 && fin.usable >= 1 && (cur.mains != [] || fin.mains != []) && Decides(cur, fin, d)
             && d.Reshape?
    ensures d.shape.usable >= 1
  {
    assert cur.mains == [] && fin.mains != [] ==> Missing(cur.mains, fin.mains, 0);
  }

  /** Normalizing costs no call. */
  lemma NormalizedCalls(r: Config, f: Config)
    requires WellFormed(r) && WellFormed(f) && Canonical(f) && !Unreachable(ShapeOf(f)) && !NilMismatch(r, f)
    requires r.usableRegions >= 1
    ensures WellFormed(Normalize(r)) && !NilMismatch(Normalize(r), f) && Normalize(r).usableRegions == r.usableRegions
    ensures GeneralCallsLeft(Normalize(r), f) <= GeneralCallsLeft(r, f) && (r == f ==> Normalize(r) == f)
  {
    NormalizeKeepsRank(r, f);
    GeneralRankBounds(ShapeOf(r), ShapeOf(f));
    if SameRegions(r, f) {
      assert Normalize(r).regions == f.regions;
    }
  }

  lemma PassDecreases(c: Config, f: Config, c': Config)
    requires WellFormed(c) && WellFormed(f) && Canonical(f) && !Ambiguous(ShapeOf(f)) && !Unreachable(ShapeOf(f))
    requires !NilMismatch(c, f) && Pass(c, f, c') && c.usableRegions >= 1
    ensures WellFormed(c') && !NilMismatch(c', f) && c'.usableRegions >= 1
    ensures if c == f then c' == f else GeneralCallsLeft(c', f) < GeneralCallsLeft(c, f)
  {
    var r :| Next(c, f, r) && c' == Normalize(r);
    GeneralCallDecreases(c, f, r);
    NextKeepsUsable(c, f, r);
    NormalizedCalls(r, f);
  }

  lemma PassCounts(c: Config, f: Config, c': Config, i: nat, bound: nat)
    requires WellFormed(c) && WellFormed(f) && Canonical(f) && !Ambiguous(ShapeOf(f)) && !Unreachable(ShapeOf(f))
    requires !NilMismatch(c, f) && Pass(c, f, c') && c.usableRegions >= 1
    requires c == f || i + GeneralCallsLeft(c, f) <= bound
    ensures WellFormed(c') && !NilMismatch(c', f) && c'.usableRegions >= 1
    ensures c' == f || (i + 1 + GeneralCallsLeft(c', f) <= bound && i + 1 < bound)
  {
    PassDecreases(c, f, c');
  }

  /** The controller reaches the desired configuration, from any number of regions, in as many passes as calls are
      enough. */
  lemma {:induction false} ControllerConverges(f: Config, cs: seq<Config>, i: nat)
    requires WellFormed(f) && Canonical(f) && !Ambiguous(ShapeOf(f)) && !Unreachable(ShapeOf(f)) && Passes(f, cs)
    requires i < |cs| && WellFormed(cs[0]) && cs[0].usableRegions >= 1 && !NilMismatch(cs[0], f)
    ensures WellFormed(cs[i]) && cs[i].usableRegions >= 1 && !NilMismatch(cs[i], f)
    ensures cs[i] == f || i + GeneralCallsLeft(cs[i], f) <= CallBound(|cs[0].regions|)
    ensures i >= CallBound(|cs[0].regions|) ==> cs[i] == f
    decreases i
  {
    if i == 0 {
      CallsAtStart(cs[0], f);
    } else {
      ControllerConverges(f, cs, i - 1);
      assert Pass(cs[i - 1], f, cs[i - 1 + 1]);
      PassCounts(cs[i - 1], f, cs[i], i - 1, CallBound(|cs[0].regions|));
    }
  }
}
