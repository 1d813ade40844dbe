/** Repeated planning reaches the final configuration: how many calls it takes, and when it fails to. */
module Convergence {
  import opened Regions
  import opened PlannerSpec

  ghost predicate Small(s: Shape) {
    |s.mains| <= 2 && ProperIds(s.mains)
  }

  /** Two regions with different negative priorities, not both usable: the one family of final
      configurations on which an unlucky tie-break can keep the planner going back and forth. */
  ghost predicate Ambiguous(fin: Shape) {
    && |fin.mains| == 2
    && AllNegative(fin.mains)
    && fin.mains[0].priority != fin.mains[1].priority
    && fin.usable != 2
  }

  // ----- a rank that every call decreases -----

  ghost function StaleCount(ms: seq<Main>, fs: seq<Main>): (n: nat) {
    (if Stale(ms, fs, 0) then 1 else 0) + (if Stale(ms, fs, 1) then 1 else 0)
  }

  ghost function Mismatches(ms: seq<Main>, fs: seq<Main>): (n: nat) {
    (if |ms| > 0 && ms[0].priority != Prio(fs, ms[0].id) then 1 else 0)
    + (if |ms| > 1 && ms[1].priority != Prio(fs, ms[1].id) then 1 else 0)
  }

  /** How many calls will still change priorities. */
  ghost function PriorityCalls(ms: seq<Main>, fs: seq<Main>): (n: nat) {
    if !AllNegative(fs) then
      if Mismatches(ms, fs) == 0 then 0 else 1
    else if |ms| < 2 then 0
    else
      var goal := Prio(fs, ms[0].id);
      var high := if ms[0].priority >= ms[1].priority then ms[0].priority else ms[1].priority;
      var low := if ms[0].priority >= ms[1].priority then ms[1].priority else ms[0].priority;
      if low == goal then 0 else if high >= goal then 1 else 2
  }

  /** Calls left when the current regions are those of the final configuration, or all of them go at once. */
  ghost function SettlingRank(cur: Shape, fin: Shape): (n: nat) {
    if |fin.mains| == 2 && AllNegative(fin.mains) && fin.mains[0].priority != fin.mains[1].priority then
      (if cur.usable != 2 then 1 else 0) + Mismatches(cur.mains, fin.mains) + 1
    else
      var calls := PriorityCalls(cur.mains, fin.mains);
      if calls == 0 then (if cur.usable != fin.usable then 2 else 1)
      else (if cur.usable != |cur.mains| then 1 else 0) + calls + 2
  }

  ghost predicate Stuck(cur: Shape, fin: Shape) {
    !(exists i :: Removable(cur, fin, i)) && !(exists i :: Demotable(cur, fin, i))
  }

  ghost predicate SettledSomehow(ms: seq<Main>, fs: seq<Main>) {
    exists top :: IsTop(ms, top) && Settled(ms, fs, top)
  }

  /** Calls left, not counting the last one, which only adjusts settings. */
  ghost function Rank(cur: Shape, fin: Shape): (n: nat) {
    var ms, fs := cur.mains, fin.mains;
    var rest := if StaleCount(ms, fs) == 2 then 10 else 5;
    if |ms| < 2 && AnyMissing(ms, fs) then
      if Stale(ms, fs, 0) then 10 else 5
    else if fs != [] && StaleCount(ms, fs) > 0 then
      if exists i :: Removable(cur, fin, i) then (if cur.usable != 1 then 2 else 1) + rest
      else if exists i :: Demotable(cur, fin, i) then 3 + rest
      else if SettledSomehow(ms, fs) && cur.usable == fin.usable then 1
      else if SettledSomehow(ms, fs) && fin.usable < 2 then 2
      else 4 + rest
    else SettlingRank(cur, fin)
  }

  lemma PrioOfTwo(ms: seq<Main>)
    requires |ms| <= 2 && ProperIds(ms)
    ensures |ms| > 0 ==> Prio(ms, ms[0].id) == ms[0].priority
    ensures |ms| > 1 ==> Prio(ms, ms[1].id) == ms[1].priority
    ensures forall id :: !Has(ms, id) ==> Prio(ms, id) == -1
  {
    forall i | 0 <= i < |ms| ensures Prio(ms, ms[i].id) == ms[i].priority { PrioAt(ms, i); }
    forall id | !Has(ms, id) ensures Prio(ms, id) == -1 { PrioAbsent(ms, id); }
  }

  lemma RankBounds(cur: Shape, fin: Shape)
    requires Small(cur) && Small(fin)
    ensures 1 <= Rank(cur, fin) <= 14
  {
  }

  lemma GrowKeeps(ms: seq<Main>, fs: seq<Main>, ms': seq<Main>)
    requires |ms| < 2 && ProperIds(ms) && ProperIds(fs) && AnyMissing(ms, fs) && Grow(ms, fs, ms')
    ensures ProperIds(ms') && ms <= ms' && |ms| < |ms'| <= 2
    ensures forall i :: |ms| <= i < |ms'| ==> Has(fs, ms'[i].id) && ms'[i].priority == if i == 0 then 1 else -1
    ensures |ms'| < 2 ==> !AnyMissing(ms', fs)
  {
    forall k | |ms| <= k < |ms'|
      ensures Has(fs, ms'[k].id) && ms'[k].priority == if k == 0 then 1 else -1
      ensures ms'[k].id != "" && forall j :: 0 <= j < k ==> ms'[j].id != ms'[k].id
    {
      JoinedFacts(ms', fs, k);
    }
    assert |ms'| == |ms| ==> ms' == ms;
  }

  lemma JoinedFacts(ms': seq<Main>, fs: seq<Main>, k: nat)
    requires ProperIds(fs) && k < |ms'| && Joins(ms'[..k], fs, ms'[k])
    ensures Has(fs, ms'[k].id) && ms'[k].id != "" && ms'[k].priority == if k == 0 then 1 else -1
    ensures forall j :: 0 <= j < k ==> ms'[j].id != ms'[k].id
  {
    var i :| Missing(ms'[..k], fs, i) && ms'[k] == Main(fs[i].id, if ms'[..k] == [] then 1 else -1);
    forall j | 0 <= j < k ensures ms'[j].id != ms'[k].id {
      assert ms'[..k][j] == ms'[j];
    }
  }

  lemma GrowDecreases(cur: Shape, fin: Shape, ms': seq<Main>)
    requires Small(cur) && Small(fin) && |cur.mains| < 2
    requires AnyMissing(cur.mains, fin.mains) && Grow(cur.mains, fin.mains, ms')
    ensures Small(Shape(cur.usable, ms')) && Rank(Shape(cur.usable, ms'), fin) < Rank(cur, fin)
  {
    GrowKeeps(cur.mains, fin.mains, ms');
    var cur' := Shape(cur.usable, ms');
    PrioOfTwo(fin.mains);
    if Stale(cur.mains, fin.mains, 0) {
      assert Stale(ms', fin.mains, 0) && !Stale(ms', fin.mains, 1);
    } else {
      assert StaleCount(ms', fin.mains) == 0;
      assert SettlingRank(cur', fin) <= 4;
    }
  }

  lemma RemoveDecreases(cur: Shape, fin: Shape, i: int)
    requires Small(cur) && Small(fin) && |cur.mains| == 2 && fin.mains != []
    requires cur.usable == 1 && FirstRemovable(cur, fin, i)
    ensures var cur' := cur.(mains := cur.mains[..i] + cur.mains[i + 1..]);
            Small(cur') && Rank(cur', fin) < Rank(cur, fin)
  {
    var ms' := cur.mains[..i] + cur.mains[i + 1..];
    assert ms' == [cur.mains[1 - i]];
    PrioOfTwo(fin.mains);
    assert StaleCount(ms', fin.mains) == StaleCount(cur.mains, fin.mains) - 1;
    var cur' := cur.(mains := ms');
    if Stale(ms', fin.mains, 0) {
      assert Missing(ms', fin.mains, 0);
    } else if !AnyMissing(ms', fin.mains) {
      assert SettlingRank(cur', fin) <= 4;
    }
  }

  lemma DemoteDecreases(cur: Shape, fin: Shape, i: int)
    requires Small(cur) && Small(fin) && |cur.mains| == 2 && fin.mains != []
    requires !(exists j :: Removable(cur, fin, j)) && FirstDemotable(cur, fin, i)
    ensures var cur' := cur.(mains := Demote(cur.mains, i));
            Small(cur') && Rank(cur', fin) < Rank(cur, fin)
  {
    var cur' := cur.(mains := Demote(cur.mains, i));
    assert Removable(cur', fin, i);
    assert StaleCount(cur'.mains, fin.mains) == StaleCount(cur.mains, fin.mains);
  }

  /** A stale primary, not enough usable regions to demote it. */
  lemma StuckDecreases(cur: Shape, fin: Shape, top: string, d: Decision)
    requires Small(cur) && Small(fin) && |cur.mains| == 2 && fin.mains != []
    requires StaleCount(cur.mains, fin.mains) > 0 && Stuck(cur, fin)
    requires IsTop(cur.mains, top) && DecidesPriorities(cur, fin, top, d) && d.Reshape?
    ensures Small(d.shape) && Rank(d.shape, fin) < Rank(cur, fin)
  {
    var ms, fs := cur.mains, fin.mains;
    PrioOfTwo(ms);
    PrioOfTwo(fs);
    var i := if Stale(ms, fs, 0) then 0 else 1;
    assert Stale(ms, fs, i);
    assert !Removable(cur, fin, i) && !Demotable(cur, fin, i);
    assert ms[i].priority > 0 && cur.usable < 2;
    if !Settled(ms, fs, top) {
      assert d.shape == cur.(usable := 2);
      assert Demotable(d.shape, fin, i);
    } else {
      assert SettledSomehow(ms, fs);
      if fin.usable >= 2 {
        assert Demotable(d.shape, fin, i);
      } else {
        assert forall j :: Removable(d.shape, fin, j) ==> Removable(cur, fin, j);
        assert forall j :: Demotable(d.shape, fin, j) ==> Demotable(cur, fin, j);
      }
    }
  }

  /** Same regions on both sides, or none in the final configuration. */
  ghost predicate Matching(ms: seq<Main>, fs: seq<Main>) {
    && 1 <= |ms| <= 2 && ProperIds(ms) && |fs| <= 2 && ProperIds(fs)
    && !AnyMissing(ms, fs)
    && (fs == [] || StaleCount(ms, fs) == 0)
  }

  ghost predicate DistinctNegative(fs: seq<Main>) {
    |fs| == 2 && AllNegative(fs) && fs[0].priority != fs[1].priority
  }

  lemma MatchingPriorities(ms: seq<Main>, fs: seq<Main>)
    requires Matching(ms, fs)
    ensures |ms| == 2 && AllNegative(fs) && !DistinctNegative(fs) ==> Prio(fs, ms[0].id) == Prio(fs, ms[1].id)
    ensures AllNegative(fs) ==> forall i :: 0 <= i < |ms| ==> Prio(fs, ms[i].id) < 0
  {
    PrioOfTwo(fs);
    if fs != [] {
      assert forall i :: 0 <= i < |ms| ==> !Stale(ms, fs, i);
    }
  }

  lemma SettledWhen(ms: seq<Main>, fs: seq<Main>, top: string)
    requires Matching(ms, fs) && IsTop(ms, top) && !DistinctNegative(fs)
    ensures Settled(ms, fs, top) <==> PriorityCalls(ms, fs) == 0
  {
    PrioOfTwo(ms);
    MatchingPriorities(ms, fs);
  }

  lemma ReprioritizedKeeps(ms: seq<Main>, fs: seq<Main>, top: string)
    requires Matching(ms, fs) && IsTop(ms, top) && !Settled(ms, fs, top)
    ensures var ms' := Reprioritized(ms, fs, top);
            && Matching(ms', fs)
            && Mismatches(ms', fs) < Mismatches(ms, fs)
            && (!DistinctNegative(fs) ==> PriorityCalls(ms', fs) < PriorityCalls(ms, fs))
  {
    ReprioritizedMatches(ms, fs, top);
    FewerMismatches(ms, fs, top);
    if !DistinctNegative(fs) {
      FewerPriorityCalls(ms, fs, top);
    }
  }

  lemma ReprioritizedMatches(ms: seq<Main>, fs: seq<Main>, top: string)
    requires Matching(ms, fs)
    ensures Matching(Reprioritized(ms, fs, top), fs)
  {
    var ms' := Reprioritized(ms, fs, top);
    assert forall i :: 0 <= i < |ms| ==> ms'[i].id == ms[i].id;
    forall id | Has(ms, id) ensures Has(ms', id) {
      var j :| 0 <= j < |ms| && ms[j].id == id;
      assert ms'[j].id == id;
    }
    assert forall i :: Missing(ms', fs, i) ==> Missing(ms, fs, i);
  }

  lemma FewerMismatches(ms: seq<Main>, fs: seq<Main>, top: string)
    requires Matching(ms, fs) && IsTop(ms, top) && !Settled(ms, fs, top)
    ensures Mismatches(Reprioritized(ms, fs, top), fs) < Mismatches(ms, fs)
  {
    PrioOfTwo(ms);
  }

  lemma FewerPriorityCalls(ms: seq<Main>, fs: seq<Main>, top: string)
    requires Matching(ms, fs) && IsTop(ms, top) && !Settled(ms, fs, top) && !DistinctNegative(fs)
    ensures PriorityCalls(Reprioritized(ms, fs, top), fs) < PriorityCalls(ms, fs)
  {
    PrioOfTwo(ms);
    MatchingPriorities(ms, fs);
  }

  lemma SettlingDecreases(cur: Shape, fin: Shape, top: string, d: Decision)
    requires Matching(cur.mains, fin.mains) && !Ambiguous(fin)
    requires IsTop(cur.mains, top) && DecidesPriorities(cur, fin, top, d) && d.Reshape?
    ensures Matching(d.shape.mains, fin.mains) && Rank(d.shape, fin) < Rank(cur, fin)
  {
    var ms, fs := cur.mains, fin.mains;
    if !DistinctNegative(fs) {
      SettledWhen(ms, fs, top);
    }
    if !Settled(ms, fs, top) {
      ReprioritizedKeeps(ms, fs, top);
    }
  }

  lemma DecisionDecreases(cur: Shape, fin: Shape, d: Decision)
    requires Small(cur) && Small(fin) && !Ambiguous(fin) && (cur.mains != [] || fin.mains != [])
    requires Decides(cur, fin, d) && d.Reshape?
    ensures Small(d.shape) && (d.shape.mains != [] || fin.mains != [])
    ensures Rank(d.shape, fin) < Rank(cur, fin)
  {
    var ms, fs := cur.mains, fin.mains;
    assert |ms| == 1 && fs != [] && Stale(ms, fs, 0) ==> Missing(ms, fs, 0);
    assert |ms| == 0 && fs != [] ==> Missing(ms, fs, 0);
    if |ms| < 2 && AnyMissing(ms, fs) {
      GrowDecreases(cur, fin, d.shape.mains);
    } else if |ms| > 1 && fs != [] && exists i :: Removable(cur, fin, i) {
      if cur.usable == 1 {
        var i :| FirstRemovable(cur, fin, i) && d == Reshape(cur.(mains := ms[..i] + ms[i + 1..]));
        RemoveDecreases(cur, fin, i);
      } else {
        var i :| Removable(cur, fin, i);
        assert Removable(d.shape, fin, i);
      }
    } else if |ms| > 1 && fs != [] && exists i :: Demotable(cur, fin, i) {
      var i :| FirstDemotable(cur, fin, i) && d == Reshape(cur.(mains := Demote(ms, i)));
      DemoteDecreases(cur, fin, i);
    } else {
      var top :| IsTop(ms, top) && DecidesPriorities(cur, fin, top, d);
      if fs != [] && StaleCount(ms, fs) > 0 {
        StuckDecreases(cur, fin, top, d);
      } else {
        assert !AnyMissing(ms, fs) by { NothingMissing(ms, fs); }
        SettlingDecreases(cur, fin, top, d);
      }
    }
  }

  /** With two regions on each side, none stale means none missing. */
  lemma NothingMissing(ms: seq<Main>, fs: seq<Main>)
    requires |ms| <= 2 && ProperIds(ms) && |fs| <= 2 && ProperIds(fs)
    requires fs == [] || StaleCount(ms, fs) == 0
    requires |ms| == 2 || !AnyMissing(ms, fs)
    ensures !AnyMissing(ms, fs)
  {
    if |ms| == 2 && fs != [] {
      assert !Stale(ms, fs, 0) && !Stale(ms, fs, 1);
      assert Has(fs, ms[0].id) && Has(fs, ms[1].id);
    }
  }

  // ----- runs of the planner -----

  ghost predicate Valid(c: Config) {
    WellFormed(c) && |c.regions| <= 2
  }

  /** No regions on either side, but only one of the two lists is nil. */
  ghost predicate NilMismatch(c: Config, f: Config) {
    c.regions == [] && f.regions == [] && c.regionsAreNil != f.regionsAreNil
  }

  /** The planner is called over and over with its own result. */
  ghost predicate Run(f: Config, cs: seq<Config>)
    requires WellFormed(f)
  {
    forall i :: 0 <= i < |cs| - 1 && WellFormed(cs[i]) ==> Next(cs[i], f, cs[i + 1])
  }

  ghost function CallsLeft(c: Config, f: Config): (n: nat)
    requires WellFormed(c) && WellFormed(f)
  {
    if c == f then 0 else if SameRegions(c, f) then 1 else 1 + Rank(ShapeOf(c), ShapeOf(f))
  }

  lemma CallDecreases(c: Config, f: Config, r: Config)
    requires Valid(c) && Valid(f) && !Ambiguous(ShapeOf(f)) && !NilMismatch(c, f) && Next(c, f, r)
    ensures Valid(r) && !NilMismatch(r, f)
    ensures if c == f then r == f else CallsLeft(r, f) < CallsLeft(c, f)
  {
    if !SameRegions(c, f) {
      var d :| Decides(ShapeOf(c), ShapeOf(f), d) && r == Apply(c, f, d);
      RankBounds(ShapeOf(c), ShapeOf(f));
      if d.Reshape? {
        DecisionDecreases(ShapeOf(c), ShapeOf(f), d);
        BuildMains(f.regions, d.shape.mains);
        assert ShapeOf(r) == d.shape;
      }
    }
  }

  /** Every run reaches the final configuration within 15 calls, whatever the priorities, satellites
      and tie-breaks, and no call before that returns its input. */
  lemma {:induction false} RunConverges(f: Config, cs: seq<Config>, i: nat)
    requires Valid(f) && !Ambiguous(ShapeOf(f)) && Run(f, cs)
    requires i < |cs| && Valid(cs[0]) && !NilMismatch(cs[0], f)
    ensures Valid(cs[i]) && !NilMismatch(cs[i], f)
    ensures cs[i] == f || i + CallsLeft(cs[i], f) <= 15
    ensures i >= 15 ==> cs[i] == f
    ensures i + 1 < |cs| && cs[i] != f ==> cs[i + 1] != cs[i]
    decreases i
  {
    if i == 0 {
      RankBounds(ShapeOf(cs[0]), ShapeOf(f));
    } else {
      RunConverges(f, cs, i - 1);
      assert Next(cs[i - 1], f, cs[i - 1 + 1]);
      CallDecreases(cs[i - 1], f, cs[i]);
    }
    if i + 1 < |cs| {
      CallDecreases(cs[i], f, cs[i + 1]);
    }
  }

  /** With a tie at one of two different negative final priorities, the shape is settled or not
      depending on which of the two regions is taken for the top one. */
  lemma TieAlternates(fin: Shape, ms: seq<Main>)
    requires Small(fin) && Ambiguous(fin) && (ms == Tied(fin) || ms == [Tied(fin)[1], Tied(fin)[0]])
    ensures Decides(Shape(fin.usable, ms), fin, Reshape(Shape(2, ms)))
    ensures Decides(Shape(2, ms), fin, Reshape(Shape(fin.usable, ms)))
  {
    var fs := fin.mains;
    var j := if ms == Tied(fin) then 0 else 1;
    PrioOfTwo(ms);
    PrioOfTwo(fs);
    assert ms[j].id == fs[0].id && ms[1 - j].id == fs[1].id;
    assert !(exists i :: Stale(ms, fs, i)) && !AnyMissing(ms, fs);
    var s1, s2 := Shape(fin.usable, ms), Shape(2, ms);
    assert IsTop(ms, ms[j].id) && DecidesPriorities(s1, fin, ms[j].id, Reshape(s2)) by {
      assert ms[1 - j].priority != Goal(ms, fs, ms[j].id, ms[1 - j].id);
    }
    assert IsTop(ms, ms[1 - j].id) && DecidesPriorities(s2, fin, ms[1 - j].id, Reshape(s1)) by {
      assert Settled(ms, fs, ms[1 - j].id);
    }
  }

  /** Both regions at the first one's final priority. */
  ghost function Tied(fin: Shape): seq<Main>
    requires |fin.mains| == 2
  {
    var fs := fin.mains;
    [Main(fs[0].id, fs[0].priority), Main(fs[1].id, fs[0].priority)]
  }

  ghost function TieConfig(f: Config, usable: int): Config
    requires WellFormed(f) && |f.regions| == 2
  {
    Config(usable, Build(f.regions, Tied(ShapeOf(f))), false, f.settings)
  }

  lemma TieConfigShape(f: Config, usable: int)
    requires WellFormed(f) && |f.regions| == 2
    ensures var fs := Mains(f.regions);
            var c := TieConfig(f, usable);
            && Valid(c)
            && ShapeOf(c) == Shape(usable, Tied(ShapeOf(f)))
            && (fs[0].priority != fs[1].priority ==> !SameRegions(c, f))
  {
    var fs := Mains(f.regions);
    BuildMains(f.regions, Tied(ShapeOf(f)));
    assert Mains(TieConfig(f, usable).regions)[1].priority == fs[0].priority;
  }

  /** One step between two tied configurations. */
  lemma TieStep(f: Config, u: int, u': int)
    requires WellFormed(f) && |f.regions| == 2 && Ambiguous(ShapeOf(f))
    requires (u == f.usableRegions && u' == 2) || (u == 2 && u' == f.usableRegions)
    ensures WellFormed(TieConfig(f, u)) && Next(TieConfig(f, u), f, TieConfig(f, u'))
  {
    TieConfigShape(f, u);
    TieConfigShape(f, u');
    var ms := ShapeOf(TieConfig(f, u)).mains;
    TieAlternates(ShapeOf(f), ms);
    NextBy(TieConfig(f, u), f, Reshape(Shape(u', ms)));
  }

  ghost predicate AlwaysConverges(f: Config)
    requires WellFormed(f)
  {
    forall cs :: |cs| == 16 && Run(f, cs) && Valid(cs[0]) && !NilMismatch(cs[0], f) ==> cs[15] == f
  }

  lemma AlternatingChain<T>(step: (T, T) -> bool, c1: T, c2: T, cs: seq<T>)
    requires step(c1, c2) && step(c2, c1)
    requires forall i :: 0 <= i < |cs| ==> cs[i] == if i % 2 == 0 then c1 else c2
    ensures forall i :: 0 <= i < |cs| - 1 ==> step(cs[i], cs[i + 1])
  {
    forall i | 0 <= i < |cs| - 1 ensures step(cs[i], cs[i + 1]) {
      assert (cs[i] == c1 && cs[i + 1] == c2) || (cs[i] == c2 && cs[i + 1] == c1);
    }
  }

  /** Runs of any length that never reach an ambiguous final configuration. */
  lemma AmbiguousRun(f: Config, n: nat) returns (cs: seq<Config>)
    requires Valid(f) && Ambiguous(ShapeOf(f)) && n > 0
    ensures |cs| == n && Run(f, cs) && Valid(cs[0]) && !NilMismatch(cs[0], f) && forall i :: 0 <= i < n ==> cs[i] != f
  {
    var c1, c2 := TieConfig(f, f.usableRegions), TieConfig(f, 2);
    TieConfigShape(f, f.usableRegions);
    TieConfigShape(f, 2);
    var step := (c: Config, r: Config) => WellFormed(c) && Next(c, f, r);
    assert step(c1, c2) by { TieStep(f, f.usableRegions, 2); }
    assert step(c2, c1) by { TieStep(f, 2, f.usableRegions); }
    cs := seq(n, i => if i % 2 == 0 then c1 else c2);
    AlternatingChain(step, c1, c2, cs);
    assert cs[0] == c1;
  }

  /** Convergence holds for exactly the final configurations that are not ambiguous. */
  lemma ConvergenceTheorem(f: Config)
    requires Valid(f)
    ensures AlwaysConverges(f) <==> !Ambiguous(ShapeOf(f))
  {
    if Ambiguous(ShapeOf(f)) {
      var cs := AmbiguousRun(f, 16);
    } else {
      forall cs | |cs| == 16 && Run(f, cs) && Valid(cs[0]) && !NilMismatch(cs[0], f) ensures cs[15] == f {
        RunConverges(f, cs, 15);
      }
    }
  }

  /** If only one of two empty region lists is nil the planner never gets there: it sets the number
      of usable regions to zero and from then on returns its input. */
  lemma {:induction false} NilMismatchStalls(f: Config, cs: seq<Config>, i: nat)
    requires WellFormed(f) && Run(f, cs) && i < |cs| && WellFormed(cs[0]) && NilMismatch(cs[0], f)
    ensures WellFormed(cs[i]) && NilMismatch(cs[i], f) && cs[i] != f
    ensures cs[i] == if i == 0 then cs[0] else cs[0].(usableRegions := 0)
    decreases i
  {
    if i > 0 {
      NilMismatchStalls(f, cs, i - 1);
      var c := cs[i - 1];
      assert Next(c, f, cs[i - 1 + 1]);
      var d :| Decides(ShapeOf(c), ShapeOf(f), d) && cs[i] == Apply(c, f, d);
      assert Reprioritized([], [], "") == [];
      assert Build(f.regions, []) == [];
    }
  }
}
