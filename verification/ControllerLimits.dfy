/** The controller's loop reaches exactly the desired configurations that the planner reaches: normalizing between the
    calls does not help where the planner alone may fail. */
module ControllerLimits {
  import opened Regions
  import opened PlannerSpec
  import opened Ordering
  import opened Normalization
  import opened Convergence
  import opened GeneralConvergence
  import opened ControllerLoop

  function Reversed(ms: seq<Main>): seq<Main>
    requires |ms| == 2
  {
    [ms[1], ms[0]]
  }

  /** Two regions of the final configuration at some priorities, in normal form. */
  ghost function PairConfig(f: Config, usable: int, ms: seq<Main>): Config
    requires WellFormed(f)
  {
    Normalize(Config(usable, Build(f.regions, ms), false, f.settings))
  }

  lemma PairShape(f: Config, usable: int, ms: seq<Main>)
    requires WellFormed(f) && ProperIds(ms) && |ms| == 2 && usable >= 1
    ensures var c := PairConfig(f, usable, ms);
            && WellFormed(c) && Canonical(c) && |c.regions| == 2
            && (ShapeOf(c) == Shape(usable, ms) || ShapeOf(c) == Shape(usable, Reversed(ms)))
  {
    var rs := Build(f.regions, ms);
    BuildMains(f.regions, ms);
    NormalizePermutes(rs);
    NormalizationIsIdempotent(rs);
    SameLength(ms, Mains(NormalizeRegions(rs)));
    TwoElementPermutation(ms, Mains(NormalizeRegions(rs)));
  }

  lemma ReversedBuild(f: Config, ms: seq<Main>)
    requires WellFormed(f) && ProperIds(ms) && |ms| == 2
    ensures NormalizeRegions(Build(f.regions, Reversed(ms))) == NormalizeRegions(Build(f.regions, ms))
  {
    var rs, rs' := Build(f.regions, ms), Build(f.regions, Reversed(ms));
    BuildMains(f.regions, ms);
    SwappedMultiset(rs, rs');
    PermutationNormalizes(rs, rs');
  }

  lemma SwappedMultiset<T>(s: seq<T>, t: seq<T>)
    requires |s| == |t| == 2 && t[0] == s[1] && t[1] == s[0]
    ensures multiset(s) == multiset(t)
  {
    assert s == [s[0], s[1]] && t == [s[1], s[0]];
  }

  /** The planner may change the number of usable regions and keep the two regions. */
  ghost predicate MayKeepPair(f: Config, usable: int, usable': int, ms: seq<Main>)
    requires WellFormed(f)
  {
    Decides(Shape(usable, ms), ShapeOf(f), Reshape(Shape(usable', ms)))
  }

  lemma PairPass(f: Config, usable: int, usable': int, ms: seq<Main>)
    requires WellFormed(f) && ProperIds(ms) && |ms| == 2 && usable >= 1
    requires Mains(f.regions) != ms && Mains(f.regions) != Reversed(ms)
    requires MayKeepPair(f, usable, usable', ms) && MayKeepPair(f, usable, usable', Reversed(ms))
    ensures WellFormed(PairConfig(f, usable, ms))
    ensures Pass(PairConfig(f, usable, ms), f, PairConfig(f, usable', ms))
  {
    PairShape(f, usable, ms);
    var c := PairConfig(f, usable, ms);
    var ms' := Mains(c.regions);
    var d := Reshape(Shape(usable', ms'));
    assert !SameRegions(c, f);
    assert ShapeOf(c) == Shape(usable, ms');
    NextBy(c, f, d);
    if ms' != ms {
      ReversedBuild(f, ms);
    }
    assert Normalize(Apply(c, f, d)) == PairConfig(f, usable', ms);
  }

  lemma PairIsNotFinal(f: Config, usable: int, ms: seq<Main>)
    requires WellFormed(f) && ProperIds(ms) && |ms| == 2 && usable >= 1
    requires Mains(f.regions) != ms && Mains(f.regions) != Reversed(ms)
    ensures PairConfig(f, usable, ms) != f && !NilMismatch(PairConfig(f, usable, ms), f)
  {
    PairShape(f, usable, ms);
  }

  /** Passes that go back and forth between two configurations. */
  lemma BackAndForth(f: Config, c1: Config, c2: Config, n: nat) returns (cs: seq<Config>)
    requires WellFormed(f) && WellFormed(c1) && WellFormed(c2) && Pass(c1, f, c2) && Pass(c2, f, c1) && n > 0
    requires c1 != f && c2 != f
    ensures |cs| == n && Passes(f, cs) && cs[0] == c1 && forall i :: 0 <= i < n ==> cs[i] != f
  {
    var step := (c: Config, c': Config) => WellFormed(c) && Pass(c, f, c');
    cs := seq(n, i => if i % 2 == 0 then c1 else c2);
    AlternatingChain(step, c1, c2, cs);
  }

  /** Both regions at the first one's final priority: whichever region counts as the top one, the pair stays. */
  lemma TiedPair(f: Config)
    requires WellFormed(f) && Ambiguous(ShapeOf(f))
    ensures var ms := Tied(ShapeOf(f));
            && ProperIds(ms) && Mains(f.regions) != ms && Mains(f.regions) != Reversed(ms)
            && MayKeepPair(f, f.usableRegions, 2, ms) && MayKeepPair(f, f.usableRegions, 2, Reversed(ms))
            && MayKeepPair(f, 2, f.usableRegions, ms) && MayKeepPair(f, 2, f.usableRegions, Reversed(ms))
  {
    TieAlternates(ShapeOf(f), Tied(ShapeOf(f)));
    TieAlternates(ShapeOf(f), Reversed(Tied(ShapeOf(f))));
  }

  /** Passes of any number that never reach an ambiguous configuration. */
  lemma AmbiguousPasses(f: Config, n: nat) returns (cs: seq<Config>)
    requires WellFormed(f) && Canonical(f) && Ambiguous(ShapeOf(f)) && n > 0
    ensures |cs| == n && Passes(f, cs) && Starts(f, cs[0]) && |cs[0].regions| == 2
            && forall i :: 0 <= i < n ==> cs[i] != f
  {
    var ms, u := Tied(ShapeOf(f)), f.usableRegions;
    TiedPair(f);
    PairPass(f, u, 2, ms);
    PairPass(f, 2, u, ms);
    PairIsNotFinal(f, u, ms);
    PairIsNotFinal(f, 2, ms);
    PairShape(f, u, ms);
    cs := BackAndForth(f, PairConfig(f, u, ms), PairConfig(f, 2, ms), n);
  }

  /** Two of the final regions, at their final priorities. */
  lemma WaitingPair(f: Config) returns (ms: seq<Main>)
    requires WellFormed(f) && Unreachable(ShapeOf(f))
    ensures |ms| == 2 && ProperIds(ms) && Mains(f.regions) != ms && Mains(f.regions) != Reversed(ms)
    ensures MayKeepPair(f, 2, 2, ms) && MayKeepPair(f, 2, 2, Reversed(ms))
  {
    var fs := Mains(f.regions);
    var i: nat :| i < |fs| && fs[i].priority != -1;
    var a, b := TwoOthers(|fs|, i);
    ms := [fs[a], fs[b]];
    WaitsForever(ShapeOf(f), a, b, i);
    WaitsForever(ShapeOf(f), b, a, i);
  }

  /** Passes of any number that never reach an unreachable configuration. */
  lemma UnreachablePasses(f: Config, n: nat) returns (cs: seq<Config>)
    requires WellFormed(f) && Canonical(f) && Unreachable(ShapeOf(f)) && n > 0
    ensures |cs| == n && Passes(f, cs) && Starts(f, cs[0]) && |cs[0].regions| == 2
            && forall i :: 0 <= i < n ==> cs[i] != f
  {
    var ms := WaitingPair(f);
    PairPass(f, 2, 2, ms);
    PairIsNotFinal(f, 2, ms);
    PairShape(f, 2, ms);
    cs := BackAndForth(f, PairConfig(f, 2, ms), PairConfig(f, 2, ms), n);
  }

  /** What the controller may read from the database first. */
  ghost predicate Starts(f: Config, c: Config) {
    WellFormed(c) && Canonical(c) && !NilMismatch(c, f)
  }

  /** Whatever the controller reads first, enough passes reach `f`. */
  ghost predicate ControllerReaches(f: Config)
    requires WellFormed(f)
  {
    forall cs: seq<Config> :: cs != [] && Passes(f, cs) && Starts(f, cs[0]) && |cs| > CallBound(|cs[0].regions|) ==>
      cs[|cs| - 1] == f
  }

  /** The controller reaches exactly the desired configurations that are neither ambiguous nor unreachable. */
  lemma ControllerTheorem(f: Config)
    requires WellFormed(f) && Canonical(f)
    ensures ControllerReaches(f) <==> !Ambiguous(ShapeOf(f)) && !Unreachable(ShapeOf(f))
  {
    if Ambiguous(ShapeOf(f)) {
      var cs := AmbiguousPasses(f, CallBound(2) + 1);
      assert cs[|cs| - 1] != f;
    } else if Unreachable(ShapeOf(f)) {
      var cs := UnreachablePasses(f, CallBound(2) + 1);
      assert cs[|cs| - 1] != f;
    } else {
      forall cs: seq<Config> | cs != [] && Passes(f, cs) && Starts(f, cs[0]) && |cs| > CallBound(|cs[0].regions|)
        ensures cs[|cs| - 1] == f
      {
        ControllerConverges(f, cs, |cs| - 1);
      }
    }
  }
}
