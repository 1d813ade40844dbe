/** Convergence for any number of regions, on both sides. */
module GeneralConvergence {
  import opened Regions
  import opened PlannerSpec
  import opened Convergence
  import MigrationSafety

  /** Three or more final regions, of which one does not have the priority at which regions join: since at most two
      regions are ever added, the rest can only come with the final list, and waits for its priorities forever. */
  ghost predicate Unreachable(fin: Shape) {
    |fin.mains| >= 3 && exists i :: 0 <= i < |fin.mains| && fin.mains[i].priority != -1
  }

  // ----- clearing out stale regions -----

  ghost function Stales(ms: seq<Main>, fs: seq<Main>): (n: nat)
    ensures n <= |ms|
  {
    if ms == [] then 0
    else Stales(ms[..|ms| - 1], fs) + if Has(fs, ms[|ms| - 1].id) then 0 else 1
  }

  lemma {:induction false} StalesConcat(a: seq<Main>, b: seq<Main>, fs: seq<Main>)
    ensures Stales(a + b, fs) == Stales(a, fs) + Stales(b, fs)
  {
    if b == [] {
      assert a + b == a;
    } else {
      var front := b[..|b| - 1];
      StalesConcat(a, front, fs);
      assert (a + b)[..|a + b| - 1] == a + front;
    }
  }

  lemma {:induction false} StalesSameIds(ms: seq<Main>, ms': seq<Main>, fs: seq<Main>)
    requires |ms| == |ms'| && forall i :: 0 <= i < |ms| ==> ms'[i].id == ms[i].id
    ensures Stales(ms', fs) == Stales(ms, fs)
  {
    if ms != [] {
      StalesSameIds(ms[..|ms| - 1], ms'[..|ms| - 1], fs);
    }
  }

  lemma StalesDrop(ms: seq<Main>, fs: seq<Main>, i: nat)
    requires Stale(ms, fs, i)
    ensures Stales(ms[..i] + ms[i + 1..], fs) == Stales(ms, fs) - 1
  {
    assert ms == (ms[..i] + [ms[i]]) + ms[i + 1..];
    StalesConcat(ms[..i] + [ms[i]], ms[i + 1..], fs);
    StalesConcat(ms[..i], [ms[i]], fs);
    StalesConcat(ms[..i], ms[i + 1..], fs);
    assert [ms[i]][..0] == [];
  }

  /** There is a stale region to get rid of, and another region. */
  ghost predicate Clearing(cur: Shape, fin: Shape) {
    |cur.mains| >= 2 && fin.mains != [] && exists i :: Stale(cur.mains, fin.mains, i)
  }

  ghost function ClearingPhase(cur: Shape, fin: Shape): (n: nat)
    ensures n <= 4
  {
    if exists i :: Removable(cur, fin, i) then (if cur.usable != |cur.mains| - 1 then 1 else 0)
    else if exists i :: Demotable(cur, fin, i) then 2
    else if cur.usable == fin.usable then 3
    else 4
  }

  ghost function ClearingRank(cur: Shape, fin: Shape): (n: nat) {
    6 * Stales(cur.mains, fin.mains) + ClearingPhase(cur, fin)
  }

  /** The same regions in the same places. */
  ghost predicate SameIds(ms: seq<Main>, ms': seq<Main>) {
    |ms| == |ms'| && forall i :: 0 <= i < |ms| ==> ms'[i].id == ms[i].id
  }

  /** What a call does while there is something to clear: it comes closer to the removal of a region, or removes one. */
  ghost predicate Clears(cur: Shape, fin: Shape, next: Shape) {
    || (SameIds(cur.mains, next.mains) && ClearingPhase(next, fin) < ClearingPhase(cur, fin))
    || (exists i: nat :: Stale(cur.mains, fin.mains, i) && next == cur.(mains := cur.mains[..i] + cur.mains[i + 1..]))
  }

  lemma DemoteClears(cur: Shape, fin: Shape, i: int)
    requires Demotable(cur, fin, i) && !(exists j :: Removable(cur, fin, j))
    ensures Clears(cur, fin, cur.(mains := Demote(cur.mains, i)))
  {
    assert Removable(cur.(mains := Demote(cur.mains, i)), fin, i);
  }

  lemma StuckClears(cur: Shape, fin: Shape, top: string, d: Decision)
    requires Clearing(cur, fin) && Stuck(cur, fin) && DecidesPriorities(cur, fin, top, d) && d.Reshape?
    ensures Clears(cur, fin, d.shape)
  {
    var i :| Stale(cur.mains, fin.mains, i);
    assert !Removable(cur, fin, i) && !Demotable(cur, fin, i);
    assert cur.mains[i].priority > 0 && cur.usable < 2;
    assert d.shape.mains == cur.mains;
    assert forall j :: Removable(d.shape, fin, j) <==> Removable(cur, fin, j);
    if d.shape.usable >= 2 {
      assert Demotable(d.shape, fin, i);
    } else {
      assert forall j :: Demotable(d.shape, fin, j) <==> Demotable(cur, fin, j);
    }
  }

  lemma ClearingStep(cur: Shape, fin: Shape, d: Decision)
    requires Clearing(cur, fin) && Decides(cur, fin, d) && d.Reshape?
    ensures Clears(cur, fin, d.shape)
  {
    if exists i :: Removable(cur, fin, i) {
      if cur.usable == |cur.mains| - 1 {
        var i :| FirstRemovable(cur, fin, i) && d == Reshape(cur.(mains := cur.mains[..i] + cur.mains[i + 1..]));
      } else {
        assert forall j :: Removable(d.shape, fin, j) <==> Removable(cur, fin, j);
      }
    } else if exists i :: Demotable(cur, fin, i) {
      var i :| FirstDemotable(cur, fin, i) && d == Reshape(cur.(mains := Demote(cur.mains, i)));
      DemoteClears(cur, fin, i);
    } else {
      var top :| IsTop(cur.mains, top) && DecidesPriorities(cur, fin, top, d);
      StuckClears(cur, fin, top, d);
    }
  }

  /** Clearing lowers the rank; once it is over, the rank is below that of any shape with something to clear. */
  lemma ClearsDecreases(cur: Shape, fin: Shape, next: Shape)
    requires ProperIds(cur.mains) && Clearing(cur, fin) && Clears(cur, fin, next)
    ensures ProperIds(next.mains)
    ensures if |next.mains| == |cur.mains| then Clearing(next, fin) && ClearingRank(next, fin) < ClearingRank(cur, fin)
            else |next.mains| == |cur.mains| - 1 && Stales(next.mains, fin.mains) == Stales(cur.mains, fin.mains) - 1
  {
    if SameIds(cur.mains, next.mains) && ClearingPhase(next, fin) < ClearingPhase(cur, fin) {
      StalesSameIds(cur.mains, next.mains, fin.mains);
      var i :| Stale(cur.mains, fin.mains, i);
      assert Stale(next.mains, fin.mains, i);
    } else {
      var i: nat :| Stale(cur.mains, fin.mains, i) && next == cur.(mains := cur.mains[..i] + cur.mains[i + 1..]);
      StalesDrop(cur.mains, fin.mains, i);
      MigrationSafety.DropKeepsIds(cur.mains, i);
    }
  }

  // ----- final configurations in which every priority is -1, or without regions -----

  ghost predicate Uniform(fs: seq<Main>) {
    forall i :: 0 <= i < |fs| ==> fs[i].priority == -1
  }

  lemma {:induction false} UniformPrio(fs: seq<Main>, id: string)
    requires Uniform(fs)
    ensures Prio(fs, id) == -1
  {
    if fs != [] {
      UniformPrio(fs[1..], id);
    }
  }

  /** Region `t` has the highest priority and all others have -1. */
  ghost predicate OnlyTopDiffers(ms: seq<Main>, t: int) {
    && 0 <= t < |ms|
    && (forall j :: 0 <= j < |ms| ==> ms[j].priority <= ms[t].priority)
    && (forall j :: 0 <= j < |ms| && j != t ==> ms[j].priority == -1)
  }

  /** How many calls will still change priorities. */
  ghost function UniformCalls(ms: seq<Main>): (n: nat)
    ensures n <= 2
  {
    if exists t :: OnlyTopDiffers(ms, t) then 0
    else if exists j :: 0 <= j < |ms| && ms[j].priority >= -1 then 1
    else 2
  }

  lemma TopIndex(ms: seq<Main>, top: string) returns (t: nat)
    requires ms != [] && ProperIds(ms) && IsTop(ms, top)
    ensures t < |ms| && ms[t].id == top && (forall j :: 0 <= j < |ms| ==> ms[j].priority <= ms[t].priority)
    ensures forall j :: 0 <= j < |ms| && j != t ==> ms[j].id != top
  {
    var i :| 0 <= i < |ms| && ms[i].id == top && forall j :: 0 <= j < |ms| ==> ms[j].priority <= ms[i].priority;
    t := i;
  }

  lemma UniformGoals(ms: seq<Main>, fs: seq<Main>, top: string, t: nat)
    requires ProperIds(ms) && Uniform(fs) && t < |ms| && ms[t].id == top
    ensures forall j :: 0 <= j < |ms| ==> Goal(ms, fs, top, ms[j].id) == if j == t then ms[t].priority else -1
  {
    forall j | 0 <= j < |ms| ensures Goal(ms, fs, top, ms[j].id) == if j == t then ms[t].priority else -1 {
      PrioAt(ms, j);
      UniformPrio(fs, ms[j].id);
    }
  }

  lemma UniformSettled(ms: seq<Main>, fs: seq<Main>, top: string)
    requires ms != [] && ProperIds(ms) && Uniform(fs) && IsTop(ms, top)
    ensures Settled(ms, fs, top) <==> UniformCalls(ms) == 0
    ensures !Settled(ms, fs, top) ==> UniformCalls(Reprioritized(ms, fs, top)) < UniformCalls(ms)
  {
    var t := TopIndex(ms, top);
    UniformGoals(ms, fs, top, t);
    var ms' := Reprioritized(ms, fs, top);
    if Settled(ms, fs, top) {
      assert OnlyTopDiffers(ms, t);
    } else {
      var j :| 0 <= j < |ms| && j != t && ms[j].priority != -1;
      assert forall u :: !OnlyTopDiffers(ms, u);
      if ms[t].priority >= -1 {
        assert OnlyTopDiffers(ms', t);
      } else {
        assert ms'[j].priority >= -1;
      }
    }
  }

  ghost function UniformSettlingRank(cur: Shape, fin: Shape): (n: nat)
    ensures 1 <= n <= 5
  {
    if UniformCalls(cur.mains) > 0 then (if cur.usable != |cur.mains| then 1 else 0) + UniformCalls(cur.mains) + 2
    else (if cur.usable != fin.usable then 1 else 0) + 1
  }

  ghost function UniformRank(cur: Shape, fin: Shape): (n: nat)
    ensures 1 <= n <= 11 + 6 * |cur.mains|
  {
    if |cur.mains| < 2 && AnyMissing(cur.mains, fin.mains) then 11 + 6 * Stales(cur.mains, fin.mains)
    else if Clearing(cur, fin) then 6 + ClearingRank(cur, fin)
    else UniformSettlingRank(cur, fin)
  }

  lemma {:induction false} NoneStale(ms: seq<Main>, fs: seq<Main>)
    requires forall i :: 0 <= i < |ms| ==> Has(fs, ms[i].id)
    ensures Stales(ms, fs) == 0
  {
    if ms != [] {
      NoneStale(ms[..|ms| - 1], fs);
    }
  }

  lemma GrowKeepsStales(ms: seq<Main>, fs: seq<Main>, ms': seq<Main>)
    requires ms <= ms' && forall i :: |ms| <= i < |ms'| ==> Has(fs, ms'[i].id)
    ensures Stales(ms', fs) == Stales(ms, fs)
  {
    var added := ms'[|ms|..];
    assert ms' == ms + added;
    StalesConcat(ms, added, fs);
    forall i | 0 <= i < |added| ensures Has(fs, added[i].id) {
      assert added[i] == ms'[|ms| + i];
    }
    NoneStale(added, fs);
  }

  lemma GrownRank(cur: Shape, fin: Shape, next: Shape)
    requires |cur.mains| < 2 && AnyMissing(cur.mains, fin.mains)
    requires Stales(next.mains, fin.mains) == Stales(cur.mains, fin.mains)
             && (|next.mains| < 2 ==> !AnyMissing(next.mains, fin.mains))
    ensures UniformRank(next, fin) < UniformRank(cur, fin)
  {
  }

  lemma UniformGrows(cur: Shape, fin: Shape, ms': seq<Main>)
    requires ProperIds(cur.mains) && ProperIds(fin.mains) && |cur.mains| < 2
    requires AnyMissing(cur.mains, fin.mains) && Grow(cur.mains, fin.mains, ms')
    ensures ProperIds(ms') && ms' != [] && UniformRank(Shape(cur.usable, ms'), fin) < UniformRank(cur, fin)
  {
    GrowKeeps(cur.mains, fin.mains, ms');
    GrowKeepsStales(cur.mains, fin.mains, ms');
    GrownRank(cur, fin, Shape(cur.usable, ms'));
  }

  lemma UniformSettles(cur: Shape, fin: Shape, top: string, d: Decision)
    requires cur.mains != [] && ProperIds(cur.mains) && Uniform(fin.mains) && IsTop(cur.mains, top)
    requires !(|cur.mains| < 2 && AnyMissing(cur.mains, fin.mains)) && !Clearing(cur, fin)
    requires DecidesPriorities(cur, fin, top, d) && d.Reshape?
    ensures ProperIds(d.shape.mains) && d.shape.mains != [] && UniformRank(d.shape, fin) < UniformRank(cur, fin)
  {
    UniformSettled(cur.mains, fin.mains, top);
    SameIdsSamePhase(cur, fin, d.shape);
  }

  lemma SameIdsSamePhase(cur: Shape, fin: Shape, next: Shape)
    requires SameIds(cur.mains, next.mains)
    ensures forall id :: Has(next.mains, id) <==> Has(cur.mains, id)
    ensures AnyMissing(next.mains, fin.mains) <==> AnyMissing(cur.mains, fin.mains)
    ensures Clearing(next, fin) <==> Clearing(cur, fin)
  {
    forall id ensures Has(next.mains, id) <==> Has(cur.mains, id) {
      if i :| 0 <= i < |cur.mains| && cur.mains[i].id == id {
        assert next.mains[i].id == id;
      }
    }
    assert forall i :: Missing(next.mains, fin.mains, i) <==> Missing(cur.mains, fin.mains, i);
    assert forall i :: Stale(next.mains, fin.mains, i) <==> Stale(cur.mains, fin.mains, i);
  }

  lemma NothingToClear(cur: Shape, fin: Shape)
    requires !Clearing(cur, fin) && |cur.mains| > 1 && fin.mains != []
    ensures Stuck(cur, fin)
  {
    assert forall i :: !Stale(cur.mains, fin.mains, i);
  }

  lemma UniformClears(cur: Shape, fin: Shape, next: Shape)
    requires ProperIds(cur.mains) && Clearing(cur, fin) && Clears(cur, fin, next)
    ensures ProperIds(next.mains) && next.mains != [] && UniformRank(next, fin) < UniformRank(cur, fin)
  {
    ClearsDecreases(cur, fin, next);
    assert UniformRank(cur, fin) == 6 + ClearingRank(cur, fin);
    if |next.mains| == |cur.mains| {
      assert UniformRank(next, fin) == 6 + ClearingRank(next, fin);
    } else {
      UniformRankBound(next, fin);
    }
  }

  lemma UniformRankBound(cur: Shape, fin: Shape)
    ensures UniformRank(cur, fin) <= 11 + 6 * Stales(cur.mains, fin.mains)
  {
  }

  lemma UniformDecreases(cur: Shape, fin: Shape, d: Decision)
    requires ProperIds(cur.mains) && ProperIds(fin.mains) && Uniform(fin.mains) && (cur.mains != [] || fin.mains != [])
    requires Decides(cur, fin, d) && d.Reshape?
    ensures ProperIds(d.shape.mains) && d.shape.mains != [] && UniformRank(d.shape, fin) < UniformRank(cur, fin)
  {
    if |cur.mains| < 2 && AnyMissing(cur.mains, fin.mains) {
      UniformGrows(cur, fin, d.shape.mains);
    } else if Clearing(cur, fin) {
      ClearingStep(cur, fin, d);
      UniformClears(cur, fin, d.shape);
    } else {
      if |cur.mains| > 1 && fin.mains != [] {
        NothingToClear(cur, fin);
      }
      assert cur.mains == [] ==> Missing(cur.mains, fin.mains, 0);
      var top :| IsTop(cur.mains, top) && DecidesPriorities(cur, fin, top, d);
      UniformSettles(cur, fin, top, d);
    }
  }

  // ----- any final configuration -----

  ghost function GeneralRank(cur: Shape, fin: Shape): (n: nat) {
    if Uniform(fin.mains) then UniformRank(cur, fin)
    else if |cur.mains| <= 2 then Rank(cur, fin)
    else 15 + ClearingRank(cur, fin)
  }

  /** Of three regions one is not among two. */
  lemma TooManyRegions(cur: Shape, fin: Shape)
    requires ProperIds(cur.mains) && |cur.mains| >= 3 && 1 <= |fin.mains| <= 2
    ensures Clearing(cur, fin)
  {
    var ms, fs := cur.mains, fin.mains;
    if Has(fs, ms[0].id) && Has(fs, ms[1].id) && Has(fs, ms[2].id) {
      var a :| 0 <= a < |fs| && fs[a].id == ms[0].id;
      var b :| 0 <= b < |fs| && fs[b].id == ms[1].id;
      var c :| 0 <= c < |fs| && fs[c].id == ms[2].id;
      assert false;
    } else {
      assert Stale(ms, fs, 0) || Stale(ms, fs, 1) || Stale(ms, fs, 2);
    }
  }

  lemma GeneralRankBounds(cur: Shape, fin: Shape)
    requires ProperIds(cur.mains) && ProperIds(fin.mains) && !Unreachable(fin)
    ensures 1 <= GeneralRank(cur, fin) <= 19 + 6 * |cur.mains|
  {
    if !Uniform(fin.mains) && |cur.mains| <= 2 {
      RankBounds(cur, fin);
    }
  }

  lemma GeneralDecreases(cur: Shape, fin: Shape, d: Decision)
    requires ProperIds(cur.mains) && ProperIds(fin.mains) && (cur.mains != [] || fin.mains != [])
    requires !Ambiguous(fin) && !Unreachable(fin) && Decides(cur, fin, d) && d.Reshape?
    ensures ProperIds(d.shape.mains) && (d.shape.mains != [] || fin.mains != [])
    ensures GeneralRank(d.shape, fin) < GeneralRank(cur, fin)
  {
    if Uniform(fin.mains) {
      UniformDecreases(cur, fin, d);
    } else if |cur.mains| <= 2 {
      DecisionDecreases(cur, fin, d);
    } else {
      TooManyRegions(cur, fin);
      ClearingStep(cur, fin, d);
      ClearsDecreases(cur, fin, d.shape);
      if |d.shape.mains| == 2 {
        RankBounds(d.shape, fin);
      }
    }
  }

  ghost function GeneralCallsLeft(c: Config, f: Config): (n: nat)
    requires WellFormed(c) && WellFormed(f)
  {
    if c == f then 0 else if SameRegions(c, f) then 1 else 1 + GeneralRank(ShapeOf(c), ShapeOf(f))
  }

  lemma GeneralCallDecreases(c: Config, f: Config, r: Config)
    requires WellFormed(c) && WellFormed(f) && !Ambiguous(ShapeOf(f)) && !Unreachable(ShapeOf(f))
    requires !NilMismatch(c, f) && Next(c, f, r)
    ensures WellFormed(r) && !NilMismatch(r, f)
    ensures if c == f then r == f else GeneralCallsLeft(r, f) < GeneralCallsLeft(c, f)
  {
    if !SameRegions(c, f) {
      var d :| Decides(ShapeOf(c), ShapeOf(f), d) && r == Apply(c, f, d);
      GeneralRankBounds(ShapeOf(c), ShapeOf(f));
      if d.Reshape? {
        GeneralDecreases(ShapeOf(c), ShapeOf(f), d);
        BuildMains(f.regions, d.shape.mains);
        assert ShapeOf(r) == d.shape;
      }
    }
  }

  /** How many calls are enough, from the number of current regions alone. */
  function CallBound(regions: nat): nat {
    20 + 6 * regions
  }

  /** Every run reaches a final configuration that is neither ambiguous nor unreachable, from any number of regions, and
      no call before that returns its input. */
  lemma GeneralRunConverges(f: Config, cs: seq<Config>, i: nat)
    requires WellFormed(f) && !Ambiguous(ShapeOf(f)) && !Unreachable(ShapeOf(f)) && Run(f, cs)
    requires i < |cs| && WellFormed(cs[0]) && !NilMismatch(cs[0], f)
    ensures WellFormed(cs[i]) && !NilMismatch(cs[i], f)
    ensures cs[i] == f || i + GeneralCallsLeft(cs[i], f) <= CallBound(|cs[0].regions|)
    ensures i >= CallBound(|cs[0].regions|) ==> cs[i] == f
    ensures i + 1 < |cs| && cs[i] != f ==> cs[i + 1] != cs[i]
  {
    RunCounts(f, cs, i);
    if i + 1 < |cs| {
      MigrationSafety.StepOf(f, cs, i + 1);
      CallCounts(cs[i], f, cs[i + 1], i, CallBound(|cs[0].regions|));
    }
  }

  lemma {:induction false} RunCounts(f: Config, cs: seq<Config>, i: nat)
    requires WellFormed(f) && !Ambiguous(ShapeOf(f)) && !Unreachable(ShapeOf(f)) && Run(f, cs)
    requires i < |cs| && WellFormed(cs[0]) && !NilMismatch(cs[0], f)
    ensures WellFormed(cs[i]) && !NilMismatch(cs[i], f)
    ensures cs[i] == f || i + GeneralCallsLeft(cs[i], f) <= CallBound(|cs[0].regions|)
    ensures i >= CallBound(|cs[0].regions|) ==> cs[i] == f
    decreases i
  {
    if i == 0 {
      CallsAtStart(cs[0], f);
    } else {
      RunCounts(f, cs, i - 1);
      MigrationSafety.StepOf(f, cs, i);
      CallCounts(cs[i - 1], f, cs[i], i - 1, CallBound(|cs[0].regions|));
    }
  }

  lemma CallsAtStart(c: Config, f: Config)
    requires WellFormed(c) && WellFormed(f) && !Unreachable(ShapeOf(f))
    ensures GeneralCallsLeft(c, f) <= CallBound(|c.regions|)
  {
    GeneralRankBounds(ShapeOf(c), ShapeOf(f));
  }

  /** A call after `i` others counts towards the bound. */
  lemma CallCounts(c: Config, f: Config, r: Config, i: nat, bound: nat)
    requires WellFormed(c) && WellFormed(f) && !Ambiguous(ShapeOf(f)) && !Unreachable(ShapeOf(f))
    requires !NilMismatch(c, f) && Next(c, f, r) && (c == f || i + GeneralCallsLeft(c, f) <= bound)
    ensures WellFormed(r) && !NilMismatch(r, f) && (r == f || i + 1 + GeneralCallsLeft(r, f) <= bound)
    ensures (c == f ==> r == f) && (c != f ==> r != c) && (r != f ==> i + 1 < bound)
  {
    GeneralCallDecreases(c, f, r);
  }

  // ----- and if one of the two conditions is broken -----

  lemma TwoOthers(n: nat, i: nat) returns (a: nat, b: nat)
    requires n >= 3 && i < n
    ensures a < b < n && a != i && b != i
  {
    a, b := if i == 0 then 1 else 0, if i == 2 then 1 else 2;
  }

  /** Two of the final regions at their final priorities, both usable, are left as they are. */
  lemma WaitsForever(fin: Shape, a: nat, b: nat, i: nat)
    requires ProperIds(fin.mains) && a < |fin.mains| && b < |fin.mains| && a != b
    requires i < |fin.mains| && i != a && i != b && fin.mains[i].priority != -1
    ensures var cur := Shape(2, [fin.mains[a], fin.mains[b]]); ProperIds(cur.mains) && Decides(cur, fin, Reshape(cur))
  {
    var fs := fin.mains;
    var ms := [fs[a], fs[b]];
    var cur := Shape(2, ms);
    PrioOfTwo(ms);
    PrioAt(fs, a);
    PrioAt(fs, b);
    assert fs[a].id != fs[b].id && !Stale(ms, fs, 0) && !Stale(ms, fs, 1);
    assert Missing(ms, fs, i);
    var top := if fs[a].priority >= fs[b].priority then ms[0].id else ms[1].id;
    assert IsTop(ms, top) by {
      assert ms[0].id == top || ms[1].id == top;
    }
    assert Reprioritized(ms, fs, top) == ms;
    assert DecidesPriorities(cur, fin, top, Reshape(cur));
  }

  ghost function WaitingConfig(f: Config, a: nat, b: nat): Config
    requires WellFormed(f) && a < |f.regions| && b < |f.regions|
  {
    Config(2, Build(f.regions, [Mains(f.regions)[a], Mains(f.regions)[b]]), false, f.settings)
  }

  lemma WaitingStep(f: Config, a: nat, b: nat, i: nat)
    requires WellFormed(f) && a < b < |f.regions| && i < |f.regions| && i != a && i != b
             && Mains(f.regions)[i].priority != -1
    ensures var c := WaitingConfig(f, a, b); WellFormed(c) && |c.regions| == 2 && Next(c, f, c)
  {
    var c, ms := WaitingConfig(f, a, b), [Mains(f.regions)[a], Mains(f.regions)[b]];
    BuildMains(f.regions, ms);
    WaitsForever(ShapeOf(f), a, b, i);
    assert ShapeOf(c) == Shape(2, ms);
    assert |f.regions| >= 3;
    NextBy(c, f, Reshape(Shape(2, ms)));
  }

  lemma ConstantChain<T>(step: (T, T) -> bool, c: T, cs: seq<T>)
    requires step(c, c) && forall i :: 0 <= i < |cs| ==> cs[i] == c
    ensures forall i :: 0 <= i < |cs| - 1 ==> step(cs[i], cs[i + 1])
  {
  }

  /** Runs of any length that never reach an unreachable final configuration. */
  lemma UnreachableRun(f: Config, n: nat) returns (cs: seq<Config>)
    requires WellFormed(f) && Unreachable(ShapeOf(f)) && n > 0
    ensures |cs| == n && Run(f, cs) && WellFormed(cs[0]) && |cs[0].regions| == 2
            && forall i :: 0 <= i < n ==> cs[i] != f
  {
    var i: nat :| i < |f.regions| && Mains(f.regions)[i].priority != -1;
    var a, b := TwoOthers(|f.regions|, i);
    var c := WaitingConfig(f, a, b);
    WaitingStep(f, a, b, i);
    var step := (c: Config, r: Config) => WellFormed(c) && Next(c, f, r);
    cs := seq(n, _ => c);
    ConstantChain(step, c, cs);
  }

  /** From every well-formed current configuration, enough calls reach `f`. */
  ghost predicate ReachedFromAnywhere(f: Config)
    requires WellFormed(f)
  {
    forall cs: seq<Config> ::
      && cs != [] && Run(f, cs) && WellFormed(cs[0]) && !NilMismatch(cs[0], f)
      && |cs| > CallBound(|cs[0].regions|) ==>
        cs[|cs| - 1] == f
  }

  /** For any number of regions, convergence holds for exactly the final configurations that are neither ambiguous nor
      unreachable. */
  lemma GeneralConvergenceTheorem(f: Config)
    requires WellFormed(f)
    ensures ReachedFromAnywhere(f) <==> !Ambiguous(ShapeOf(f)) && !Unreachable(ShapeOf(f))
  {
    if Ambiguous(ShapeOf(f)) {
      var cs := AmbiguousRun(f, CallBound(2) + 1);
      assert |cs[0].regions| <= 2 && cs[|cs| - 1] != f;
    } else if Unreachable(ShapeOf(f)) {
      var cs := UnreachableRun(f, CallBound(2) + 1);
      assert cs[|cs| - 1] != f;
    } else {
      forall cs: seq<Config> | cs != [] && Run(f, cs) && WellFormed(cs[0]) && !NilMismatch(cs[0], f)
          && |cs| > CallBound(|cs[0].regions|)
        ensures cs[|cs| - 1] == f
      {
        GeneralRunConverges(f, cs, |cs| - 1);
      }
    }
  }
}
