/** What one call of the planner does, read off the main data centers before and after it. Nothing here mentions the
    relation's own cases: which region joins, leaves or changes is said in terms of ids and priorities alone. */
module PlannerReading {
  import opened Regions
  import opened PlannerSpec

  /** A final region is missing while there is room for it. */
  ghost predicate HasRoom(ms: seq<Main>, fs: seq<Main>) {
    |ms| < 2 && exists i :: 0 <= i < |fs| && !Has(ms, fs[i].id)
  }

  /** The first region that the final configuration lacks and that satisfies a condition on its priority. */
  ghost predicate FirstOutdated(ms: seq<Main>, fs: seq<Main>, which: int -> bool, k: nat) {
    && k < |ms| && !Has(fs, ms[k].id) && which(ms[k].priority)
    && forall j :: 0 <= j < k ==> Has(fs, ms[j].id) || !which(ms[j].priority)
  }

  ghost predicate AnyOutdated(ms: seq<Main>, fs: seq<Main>, which: int -> bool) {
    exists k :: 0 <= k < |ms| && !Has(fs, ms[k].id) && which(ms[k].priority)
  }

  function Retired(): int -> bool {
    p => p < 0
  }

  /** With a single usable region, a primary must not be demoted. */
  function Demotable(usable: int): int -> bool {
    p => p == 0 || (p > 0 && usable >= 2)
  }

  ghost predicate Migrates(c: Config, f: Config, r: Config) {
    WellFormed(c) && WellFormed(f) && !SameRegions(c, f) && Next(c, f, r)
  }

  lemma NextShape(c: Config, f: Config, r: Config) returns (d: Decision)
    requires Migrates(c, f, r)
    ensures Decides(ShapeOf(c), ShapeOf(f), d) && r == Apply(c, f, d)
    ensures d.Reshape? ==>
              AllOneMain(r.regions) && Mains(r.regions) == d.shape.mains && r.usableRegions == d.shape.usable
  {
    d :| Decides(ShapeOf(c), ShapeOf(f), d) && r == Apply(c, f, d);
    if d.Reshape? {
      BuildMains(f.regions, d.shape.mains);
    }
  }

  lemma RoomIsMissing(ms: seq<Main>, fs: seq<Main>)
    ensures HasRoom(ms, fs) <==> |ms| < 2 && AnyMissing(ms, fs)
  {
    if i :| 0 <= i < |fs| && !Has(ms, fs[i].id) {
      assert Missing(ms, fs, i);
    }
  }

  /** While there is room, regions join in the order of their final priorities, the first of all as a primary and others
      at -1, and nothing else changes. */
  lemma JoinTheorem(c: Config, f: Config, r: Config)
    requires Migrates(c, f, r) && HasRoom(Mains(c.regions), Mains(f.regions))
    ensures AllOneMain(r.regions) && r.usableRegions == c.usableRegions
    ensures var ms, fs, ms' := Mains(c.regions), Mains(f.regions), Mains(r.regions);
            && ms <= ms' && |ms| < |ms'| <= 2 && !HasRoom(ms', fs)
            && forall k :: |ms| <= k < |ms'| ==>
                 && ms'[k].priority == (if k == 0 then 1 else -1)
                 && JoinsNext(ms'[..k], fs, ms'[k].id)
  {
    var d := NextShape(c, f, r);
    RoomIsMissing(Mains(c.regions), Mains(f.regions));
    GrowMeans(Mains(c.regions), Mains(f.regions), d.shape.mains);
  }

  lemma GrowMeans(ms: seq<Main>, fs: seq<Main>, ms': seq<Main>)
    requires Grow(ms, fs, ms') && HasRoom(ms, fs)
    ensures |ms| < |ms'| && !HasRoom(ms', fs)
    ensures forall k :: |ms| <= k < |ms'| ==>
              ms'[k].priority == (if k == 0 then 1 else -1) && JoinsNext(ms'[..k], fs, ms'[k].id)
  {
    RoomIsMissing(ms, fs);
    RoomIsMissing(ms', fs);
    forall k | |ms| <= k < |ms'|
      ensures ms'[k].priority == (if k == 0 then 1 else -1) && JoinsNext(ms'[..k], fs, ms'[k].id)
    {
      JoinsMeans(ms'[..k], fs, ms'[k]);
    }
    assert |ms'| == |ms| ==> ms' == ms;
  }

  /** The final configuration has the id, the current regions do not, and no missing region has a higher final
      priority. */
  ghost predicate JoinsNext(ms: seq<Main>, fs: seq<Main>, id: string) {
    exists i :: 0 <= i < |fs| && fs[i].id == id && !Has(ms, id)
                && forall j :: 0 <= j < |fs| && !Has(ms, fs[j].id) ==> fs[j].priority <= fs[i].priority
  }

  lemma JoinsMeans(ms: seq<Main>, fs: seq<Main>, m: Main)
    requires Joins(ms, fs, m)
    ensures JoinsNext(ms, fs, m.id) && m.priority == if |ms| == 0 then 1 else -1
  {
    var i :| Missing(ms, fs, i) && (forall j :: Missing(ms, fs, j) ==> fs[j].priority <= fs[i].priority)
             && m == Main(fs[i].id, if ms == [] then 1 else -1);
    forall j | 0 <= j < |fs| && !Has(ms, fs[j].id) ensures fs[j].priority <= fs[i].priority {
      assert Missing(ms, fs, j);
    }
  }

  ghost predicate Retires(c: Config, f: Config)
    requires WellFormed(c) && WellFormed(f)
  {
    var ms, fs := Mains(c.regions), Mains(f.regions);
    !HasRoom(ms, fs) && |ms| >= 2 && fs != [] && AnyOutdated(ms, fs, Retired())
  }

  /** A region that has left the final configuration and has a negative priority is dropped, the first such one, once
      one region less is usable. */
  lemma RetireTheorem(c: Config, f: Config, r: Config, k: nat)
    requires Migrates(c, f, r) && Retires(c, f) && FirstOutdated(Mains(c.regions), Mains(f.regions), Retired(), k)
    ensures AllOneMain(r.regions) && r.usableRegions == |c.regions| - 1
    ensures var ms := Mains(c.regions);
            Mains(r.regions) == if c.usableRegions == |ms| - 1 then ms[..k] + ms[k + 1..] else ms
  {
    var d := NextShape(c, f, r);
    var cur, fin := ShapeOf(c), ShapeOf(f);
    RoomIsMissing(cur.mains, fin.mains);
    assert Removable(cur, fin, k);
    if c.usableRegions == |cur.mains| - 1 {
      var i :| FirstRemovable(cur, fin, i) && d == Reshape(cur.(mains := cur.mains[..i] + cur.mains[i + 1..]));
      assert i == k;
    }
  }

  /** A region that has left the final configuration stops being a candidate for primary, the first one that may. The
      others keep their priorities if one of them is a primary, and all become primaries otherwise. */
  lemma DemoteTheorem(c: Config, f: Config, r: Config, k: nat)
    requires Migrates(c, f, r) && |c.regions| >= 2 && f.regions != []
    requires !AnyOutdated(Mains(c.regions), Mains(f.regions), Retired())
    requires FirstOutdated(Mains(c.regions), Mains(f.regions), Demotable(c.usableRegions), k)
    ensures AllOneMain(r.regions) && r.usableRegions == c.usableRegions && |r.regions| == |c.regions|
    ensures var ms, ms' := Mains(c.regions), Mains(r.regions);
            var primary := exists j :: 0 <= j < |ms| && j != k && ms[j].priority > 0;
            && ms'[k] == Main(ms[k].id, -1)
            && forall j :: 0 <= j < |ms| && j != k ==> ms'[j] == if primary then ms[j] else Main(ms[j].id, 1)
  {
    var d := NextShape(c, f, r);
    DemoteDecided(c, f, d, k);
  }

  lemma DemoteDecided(c: Config, f: Config, d: Decision, k: nat)
    requires WellFormed(c) && WellFormed(f) && Decides(ShapeOf(c), ShapeOf(f), d)
    requires |c.regions| >= 2 && f.regions != [] && !AnyOutdated(Mains(c.regions), Mains(f.regions), Retired())
    requires FirstOutdated(Mains(c.regions), Mains(f.regions), Demotable(c.usableRegions), k)
    ensures d == Reshape(Shape(c.usableRegions, Demote(Mains(c.regions), k)))
  {
    var cur, fin := ShapeOf(c), ShapeOf(f);
    assert PlannerSpec.Demotable(cur, fin, k);
    forall i ensures !Removable(cur, fin, i) {}
    var i :| FirstDemotable(cur, fin, i) && d == Reshape(cur.(mains := Demote(cur.mains, i)));
    assert i == k;
  }

  /** None of the cases above applies. */
  ghost predicate Settles(c: Config, f: Config)
    requires WellFormed(c) && WellFormed(f)
  {
    var ms, fs := Mains(c.regions), Mains(f.regions);
    && !HasRoom(ms, fs)
    && (|ms| >= 2 && fs != [] ==> !AnyOutdated(ms, fs, Retired()) && !AnyOutdated(ms, fs, Demotable(c.usableRegions)))
  }

  /** The priority that the final configuration gives an id, or -1. */
  ghost predicate FinalPriority(fs: seq<Main>, id: string, p: int) {
    if Has(fs, id) then exists i :: 0 <= i < |fs| && fs[i] == Main(id, p) else p == -1
  }

  /** The priority that region `j` is to get: the final one, except that a region of the highest current priority keeps
      its own if all final priorities are negative. */
  ghost predicate Target(ms: seq<Main>, fs: seq<Main>, top: int, j: nat, p: int)
    requires j < |ms|
  {
    if j == top && forall i :: 0 <= i < |fs| ==> fs[i].priority < 0 then p == ms[j].priority
    else FinalPriority(fs, ms[j].id, p)
  }

  /** `top` is a region of the highest current priority. */
  ghost predicate Highest(ms: seq<Main>, top: int) {
    0 <= top < |ms| && forall j :: 0 <= j < |ms| ==> ms[j].priority <= ms[top].priority
  }

  ghost predicate AtTarget(ms: seq<Main>, fs: seq<Main>, top: int) {
    && (forall j: nat :: j < |ms| ==> Target(ms, fs, top, j, ms[j].priority))
    && (forall i :: 0 <= i < |fs| && !Has(ms, fs[i].id) ==> fs[i].priority == -1)
  }

  /** What the last steps do, for one choice of the highest region. */
  ghost predicate SettledBy(c: Config, f: Config, r: Config, top: int)
    requires WellFormed(c) && WellFormed(f)
  {
    var ms, fs := Mains(c.regions), Mains(f.regions);
    if AtTarget(ms, fs, top) && ms != [] then
      if c.usableRegions != f.usableRegions
      then r.usableRegions == f.usableRegions && AllOneMain(r.regions) && Mains(r.regions) == ms
      else r == c.(regions := f.regions, regionsAreNil := f.regionsAreNil)
    else if c.usableRegions != |ms|
    then r.usableRegions == |ms| && AllOneMain(r.regions) && Mains(r.regions) == ms
    else
      && r.usableRegions == |ms| && AllOneMain(r.regions) && |r.regions| == |ms|
      && forall j: nat :: j < |ms| ==>
           Mains(r.regions)[j].id == ms[j].id && Target(ms, fs, top, j, Mains(r.regions)[j].priority)
  }

  lemma PrioIsFinal(fs: seq<Main>, id: string)
    requires ProperIds(fs)
    ensures FinalPriority(fs, id, Prio(fs, id))
    ensures forall p :: FinalPriority(fs, id, p) ==> p == Prio(fs, id)
  {
    if Has(fs, id) {
      var i :| 0 <= i < |fs| && fs[i].id == id;
      PrioAt(fs, i);
      assert fs[i] == Main(id, Prio(fs, id));
      forall p | FinalPriority(fs, id, p) ensures p == Prio(fs, id) {
        var h :| 0 <= h < |fs| && fs[h] == Main(id, p);
        PrioAt(fs, h);
      }
    } else {
      PrioAbsent(fs, id);
    }
  }

  lemma GoalIsTarget(ms: seq<Main>, fs: seq<Main>, top: string, t: int, j: nat)
    requires ProperIds(ms) && ProperIds(fs) && j < |ms| && 0 <= t < |ms| && ms[t].id == top
    ensures forall p :: Target(ms, fs, t, j, p) <==> p == Goal(ms, fs, top, ms[j].id)
  {
    PrioIsFinal(fs, ms[j].id);
    PrioAt(ms, j);
    assert j == t <==> ms[j].id == top;
  }

  lemma SettledIsAtTarget(ms: seq<Main>, fs: seq<Main>, top: string, t: int)
    requires ProperIds(ms) && ProperIds(fs) && 0 <= t < |ms| && ms[t].id == top
    ensures Settled(ms, fs, top) <==> AtTarget(ms, fs, t)
  {
    forall j: nat | j < |ms|
      ensures Target(ms, fs, t, j, ms[j].priority) <==> ms[j].priority == Goal(ms, fs, top, ms[j].id)
    {
      GoalIsTarget(ms, fs, top, t, j);
    }
    assert forall i :: 0 <= i < |fs| && !Has(ms, fs[i].id) <==> Missing(ms, fs, i);
  }

  lemma SettlingCase(c: Config, f: Config)
    requires WellFormed(c) && WellFormed(f) && Settles(c, f)
    ensures var cur, fin := ShapeOf(c), ShapeOf(f);
            && !(|cur.mains| < 2 && AnyMissing(cur.mains, fin.mains))
            && (|cur.mains| > 1 && fin.mains != [] ==>
                  !(exists i :: Removable(cur, fin, i)) && !(exists i :: PlannerSpec.Demotable(cur, fin, i)))
  {
    RoomIsMissing(Mains(c.regions), Mains(f.regions));
  }

  lemma SettlingTop(c: Config, f: Config, d: Decision) returns (top: string)
    requires WellFormed(c) && WellFormed(f) && Decides(ShapeOf(c), ShapeOf(f), d) && Settles(c, f)
    ensures IsTop(Mains(c.regions), top) && DecidesPriorities(ShapeOf(c), ShapeOf(f), top, d)
  {
    SettlingCase(c, f);
    top :| IsTop(Mains(c.regions), top) && DecidesPriorities(ShapeOf(c), ShapeOf(f), top, d);
  }

  lemma SettledByTop(c: Config, f: Config, r: Config, d: Decision, top: string, t: int)
    requires Migrates(c, f, r) && r == Apply(c, f, d) && DecidesPriorities(ShapeOf(c), ShapeOf(f), top, d)
    requires 0 <= t < |c.regions| && Mains(c.regions)[t].id == top
    ensures SettledBy(c, f, r, t)
  {
    var ms, fs := Mains(c.regions), Mains(f.regions);
    SettledIsAtTarget(ms, fs, top, t);
    if d.Reshape? {
      BuildMains(f.regions, d.shape.mains);
      forall j: nat | j < |ms| ensures Target(ms, fs, t, j, Reprioritized(ms, fs, top)[j].priority) {
        GoalIsTarget(ms, fs, top, t, j);
      }
    }
  }

  /** In all other cases priorities go to their targets while all regions are usable, then the number of usable regions
      becomes final, then the final list is adopted; for some region of the highest current priority. */
  lemma SettleTheorem(c: Config, f: Config, r: Config)
    requires Migrates(c, f, r) && Settles(c, f)
    ensures if c.regions == [] then SettledBy(c, f, r, -1)
            else exists top :: Highest(Mains(c.regions), top) && SettledBy(c, f, r, top)
  {
    var d := NextShape(c, f, r);
    var top := SettlingTop(c, f, d);
    var ms := Mains(c.regions);
    if c.regions != [] {
      var t :| 0 <= t < |ms| && ms[t].id == top && forall j :: 0 <= j < |ms| ==> ms[j].priority <= ms[t].priority;
      SettledByTop(c, f, r, d, top, t);
      assert Highest(ms, t);
    } else {
      assert Reprioritized(ms, Mains(f.regions), top) == [];
    }
  }

  /** The region has everything from the final region of its id but the priority of its main data center, or is bare if
      there is no such region. */
  ghost predicate TakenOver(fs: seq<Region>, r: Region)
    requires AllOneMain(fs) && OneMain(r)
  {
    && (forall i :: 0 <= i < |fs| && MainOf(fs[i]).id == MainOf(r).id ==> SameBut(fs[i], r, MainOf(r).priority))
    && ((forall i :: 0 <= i < |fs| ==> MainOf(fs[i]).id != MainOf(r).id)
          ==> r == Region([DataCenter(MainOf(r).id, MainOf(r).priority, 0)], 0, ""))
  }

  /** The same region with another priority for its main data center. */
  ghost predicate SameBut(a: Region, b: Region, priority: int) {
    && b.satelliteLogs == a.satelliteLogs && b.satelliteRedundancyMode == a.satelliteRedundancyMode
    && |b.dataCenters| == |a.dataCenters|
    && forall j :: 0 <= j < |a.dataCenters| ==>
         b.dataCenters[j] == if a.dataCenters[j].satellite == 0 then a.dataCenters[j].(priority := priority)
                             else a.dataCenters[j]
  }

  lemma RegionForIsTakenOver(fs: seq<Region>, id: string, p: int)
    requires WellFormedRegions(fs)
    ensures var r := RegionFor(fs, id, p); OneMain(r) && MainOf(r) == Main(id, p) && TakenOver(fs, r)
  {
    RegionForMain(fs, id, p);
    forall i | 0 <= i < |fs| && MainOf(fs[i]).id == id ensures SameBut(fs[i], RegionFor(fs, id, p), p) {
      RegionForAt(fs, i, p);
    }
  }

  /** A call changes nothing but regions, and every region it does not adopt unchanged follows the final configuration
      in everything but its priority. Only equal regions let other settings through. */
  lemma ContentTheorem(c: Config, f: Config, r: Config)
    requires WellFormed(c) && WellFormed(f) && Next(c, f, r)
    ensures if SameRegions(c, f) then r == f
            else && r.settings == c.settings
                 && (r.regions == f.regions
                     || (&& AllOneMain(r.regions)
                         && forall j :: 0 <= j < |r.regions| ==> TakenOver(f.regions, r.regions[j])))
  {
    if !SameRegions(c, f) {
      var d := NextShape(c, f, r);
      if d.Reshape? {
        forall j | 0 <= j < |r.regions| ensures TakenOver(f.regions, r.regions[j]) {
          RegionForIsTakenOver(f.regions, d.shape.mains[j].id, d.shape.mains[j].priority);
        }
      }
    }
  }
}
