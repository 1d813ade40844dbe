/** What every call of the planner, and so every configuration along a migration, keeps. */
module MigrationSafety {
  import opened Regions
  import opened PlannerSpec
  import opened Convergence

  // ----- main data centers stay distinct -----

  lemma DropKeepsIds(ms: seq<Main>, i: nat)
    requires ProperIds(ms) && i < |ms|
    ensures ProperIds(ms[..i] + ms[i + 1..])
    ensures forall j :: 0 <= j < |ms| && j != i ==> ms[j] in ms[..i] + ms[i + 1..]
    ensures forall m :: m in ms[..i] + ms[i + 1..] ==> m in ms
  {
    var ms' := ms[..i] + ms[i + 1..];
    assert forall j :: 0 <= j < |ms'| ==> ms'[j] == ms[if j < i then j else j + 1];
    forall j | 0 <= j < |ms| && j != i ensures ms[j] in ms' {
      assert ms[j] == ms'[if j < i then j else j - 1];
    }
  }

  /** Calls add regions up to two, drop one, or leave the regions in their places. */
  ghost predicate Moves(cur: Shape, fin: Shape, ms': seq<Main>) {
    || (cur.mains <= ms' && |ms'| <= 2)
    || (|ms'| == |cur.mains| && forall i :: 0 <= i < |ms'| ==> ms'[i].id == cur.mains[i].id)
    || (exists i: nat :: Removable(cur, fin, i) && cur.usable == |cur.mains| - 1
          && ms' == cur.mains[..i] + cur.mains[i + 1..])
  }

  lemma SamePlaces(ms: seq<Main>, ms': seq<Main>)
    requires ProperIds(ms) && |ms'| == |ms| && forall i :: 0 <= i < |ms'| ==> ms'[i].id == ms[i].id
    ensures ProperIds(ms')
  {
  }

  /** Without a region to add or drop, a call leaves the regions in their places. */
  lemma StaysInPlace(cur: Shape, fin: Shape, d: Decision)
    requires ProperIds(cur.mains) && Decides(cur, fin, d) && d.Reshape?
             && !(|cur.mains| < 2 && AnyMissing(cur.mains, fin.mains))
    requires !(|cur.mains| > 1 && fin.mains != [] && exists i :: Removable(cur, fin, i))
    ensures |d.shape.mains| == |cur.mains|
            && forall i :: 0 <= i < |cur.mains| ==> d.shape.mains[i].id == cur.mains[i].id
  {
    if |cur.mains| > 1 && fin.mains != [] && exists i :: Demotable(cur, fin, i) {
      var i :| FirstDemotable(cur, fin, i) && d == Reshape(cur.(mains := Demote(cur.mains, i)));
    } else {
      var top :| IsTop(cur.mains, top) && DecidesPriorities(cur, fin, top, d);
    }
  }

  lemma DecisionMoves(cur: Shape, fin: Shape, d: Decision)
    requires ProperIds(cur.mains) && ProperIds(fin.mains) && Decides(cur, fin, d) && d.Reshape?
    ensures Moves(cur, fin, d.shape.mains) && ProperIds(d.shape.mains)
  {
    var ms, fs, n := cur.mains, fin.mains, |cur.mains|;
    if n < 2 && AnyMissing(ms, fs) {
      GrowKeeps(ms, fs, d.shape.mains);
    } else if n > 1 && fs != [] && exists i :: Removable(cur, fin, i) {
      if cur.usable == n - 1 {
        var i :| FirstRemovable(cur, fin, i) && d == Reshape(cur.(mains := ms[..i] + ms[i + 1..]));
        DropKeepsIds(ms, i);
      }
    } else {
      StaysInPlace(cur, fin, d);
      SamePlaces(ms, d.shape.mains);
    }
  }

  // ----- a candidate for primary -----

  ghost predicate HasPrimary(ms: seq<Main>) {
    exists i :: 0 <= i < |ms| && ms[i].priority > 0
  }

  ghost predicate EmptyOrPrimary(ms: seq<Main>) {
    ms == [] || HasPrimary(ms)
  }

  lemma GrowKeepsPrimary(ms: seq<Main>, fs: seq<Main>, ms': seq<Main>)
    requires |ms| < 2 && ProperIds(ms) && ProperIds(fs) && AnyMissing(ms, fs) && Grow(ms, fs, ms')
    requires EmptyOrPrimary(ms)
    ensures HasPrimary(ms')
  {
    GrowKeeps(ms, fs, ms');
    if ms == [] {
      assert ms'[0].priority > 0;
    } else {
      var i :| 0 <= i < |ms| && ms[i].priority > 0;
      assert ms'[i].priority > 0;
    }
  }

  lemma DropKeepsPrimary(ms: seq<Main>, i: nat)
    requires ProperIds(ms) && HasPrimary(ms) && i < |ms| && ms[i].priority < 0
    ensures HasPrimary(ms[..i] + ms[i + 1..])
  {
    DropKeepsIds(ms, i);
    var j :| 0 <= j < |ms| && ms[j].priority > 0;
    assert ms[j] in ms[..i] + ms[i + 1..];
  }

  lemma DemoteKeepsPrimary(ms: seq<Main>, i: int)
    requires |ms| >= 2 && 0 <= i < |ms|
    ensures HasPrimary(Demote(ms, i))
  {
    if j :| 0 <= j < |ms| && j != i && ms[j].priority > 0 {
      assert Demote(ms, i)[j].priority > 0;
    } else {
      assert Demote(ms, i)[if i == 0 then 1 else 0].priority > 0;
    }
  }

  /** When all regions are usable, step 3 leaves no stale region behind. */
  lemma NoneStale(cur: Shape, fin: Shape, i: int)
    requires ProperIds(cur.mains) && fin.mains != [] && cur.usable == |cur.mains| && 0 <= i < |cur.mains|
    requires !(|cur.mains| < 2 && AnyMissing(cur.mains, fin.mains))
    requires |cur.mains| > 1 ==> Stuck(cur, fin)
    ensures Has(fin.mains, cur.mains[i].id)
  {
    var ms, fs := cur.mains, fin.mains;
    if |ms| == 1 {
      assert !Missing(ms, fs, 0);
    } else {
      assert !Removable(cur, fin, i) && !Demotable(cur, fin, i);
    }
  }

  /** Final regions of which any two contain a primary, and any one does: whichever of them the planner works with, at
      most two at a time, there is one among them. */
  ghost predicate AlwaysPrimary(fs: seq<Main>) {
    fs == [] || (HasPrimary(fs) && forall i, j :: 0 <= i < j < |fs| ==> fs[i].priority > 0 || fs[j].priority > 0)
  }

  lemma ReprioritizedPrimary(cur: Shape, fin: Shape, top: string)
    requires ProperIds(cur.mains) && ProperIds(fin.mains) && IsTop(cur.mains, top) && cur.usable == |cur.mains|
    requires !(|cur.mains| < 2 && AnyMissing(cur.mains, fin.mains))
    requires |cur.mains| > 1 && fin.mains != [] ==> Stuck(cur, fin)
    requires HasPrimary(cur.mains) && AlwaysPrimary(fin.mains)
    ensures HasPrimary(Reprioritized(cur.mains, fin.mains, top))
  {
    var ms, fs := cur.mains, fin.mains;
    var ms' := Reprioritized(ms, fs, top);
    if fs == [] {
      var i :| 0 <= i < |ms| && ms[i].id == top && forall j :: 0 <= j < |ms| ==> ms[j].priority <= ms[i].priority;
      PrioAt(ms, i);
      assert ms'[i].priority > 0;
    } else {
      forall i | 0 <= i < |ms| ensures Has(fs, ms[i].id) { NoneStale(cur, fin, i); }
      var i := PrimaryThere(ms, fs);
      assert ms'[i].priority > 0;
    }
  }

  /** Without stale regions, and with two regions or none missing, a current region is a final primary. */
  lemma PrimaryThere(ms: seq<Main>, fs: seq<Main>) returns (i: nat)
    requires ms != [] && ProperIds(ms) && fs != [] && ProperIds(fs) && AlwaysPrimary(fs)
    requires (|ms| >= 2 || !AnyMissing(ms, fs)) && forall i :: 0 <= i < |ms| ==> Has(fs, ms[i].id)
    ensures i < |ms| && Prio(fs, ms[i].id) > 0
  {
    var a: nat :| a < |fs| && fs[a].id == ms[0].id;
    PrioAt(fs, a);
    i := 0;
    if |ms| == 1 {
      OnlyRegion(ms, fs);
    } else if fs[a].priority <= 0 {
      var b: nat :| b < |fs| && fs[b].id == ms[1].id;
      PrioAt(fs, b);
      assert ms[0].id != ms[1].id && a != b;
      i := 1;
    }
  }

  lemma OnlyRegion(ms: seq<Main>, fs: seq<Main>)
    requires |ms| == 1 && fs != [] && ProperIds(fs) && !AnyMissing(ms, fs)
    ensures |fs| == 1 && fs[0].id == ms[0].id
  {
    assert !Missing(ms, fs, 0);
    assert !Missing(ms, fs, 1);
  }

  /** A primary, once there, stays until the final list is adopted. */
  lemma DecisionKeepsPrimary(cur: Shape, fin: Shape, d: Decision)
    requires ProperIds(cur.mains) && ProperIds(fin.mains) && Decides(cur, fin, d) && d.Reshape?
    requires EmptyOrPrimary(cur.mains) && AlwaysPrimary(fin.mains)
    ensures EmptyOrPrimary(d.shape.mains)
  {
    var ms, fs, ms' := cur.mains, fin.mains, d.shape.mains;
    if ms' == ms || ms' == [] {
    } else if |ms| < 2 && AnyMissing(ms, fs) {
      GrowKeepsPrimary(ms, fs, ms');
    } else if |ms| > 1 && fs != [] && exists i :: Removable(cur, fin, i) {
      var i :| FirstRemovable(cur, fin, i) && d == Reshape(cur.(mains := ms[..i] + ms[i + 1..]));
      DropKeepsPrimary(ms, i);
    } else if |ms| > 1 && fs != [] && exists i :: Demotable(cur, fin, i) {
      var i :| FirstDemotable(cur, fin, i) && ms' == Demote(ms, i);
      DemoteKeepsPrimary(ms, i);
    } else {
      var top :| IsTop(ms, top) && DecidesPriorities(cur, fin, top, d);
      ReprioritizedPrimary(cur, fin, top);
    }
  }

  // ----- the order in which regions are demoted and dropped -----

  /** A main data center that `ms'` does not have had a negative priority, and one region less than there are was
      usable. */
  ghost predicate DropsOnlyRetired(cur: Shape, ms': seq<Main>) {
    forall i :: 0 <= i < |cur.mains| && !Has(ms', cur.mains[i].id) ==>
      cur.mains[i].priority < 0 && cur.usable == |cur.mains| - 1
  }

  /** A candidate for primary stops being one only while at least two regions are usable. */
  ghost predicate DemotesOnlyReplicated(cur: Shape, ms': seq<Main>) {
    forall i, j :: 0 <= i < |cur.mains| && 0 <= j < |ms'| && ms'[j].id == cur.mains[i].id ==>
      cur.mains[i].priority > 0 && ms'[j].priority <= 0 ==> cur.usable >= 2
  }

  /** Only negative priorities, and fewer than two usable regions: the final list can be adopted over a live primary. */
  ghost predicate Abrupt(fin: Shape) {
    AllNegative(fin.mains) && fin.usable < 2
  }

  /** A single final region that is not a candidate for primary. */
  ghost predicate Headless(fin: Shape) {
    |fin.mains| == 1 && fin.mains[0].priority == 0
  }

  lemma MovesAreRetirements(cur: Shape, fin: Shape, ms': seq<Main>)
    requires ProperIds(cur.mains) && Moves(cur, fin, ms')
    ensures DropsOnlyRetired(cur, ms')
  {
    forall i | 0 <= i < |cur.mains| && !Has(ms', cur.mains[i].id)
      ensures cur.mains[i].priority < 0 && cur.usable == |cur.mains| - 1
    {
      assert i < |ms'| ==> ms'[i].id != cur.mains[i].id;
      var k: nat :| Removable(cur, fin, k) && cur.usable == |cur.mains| - 1
          && ms' == cur.mains[..k] + cur.mains[k + 1..];
      DropKeepsIds(cur.mains, k);
    }
  }

  /** When the final list is adopted, nothing is dropped. */
  lemma AdoptionDropsNothing(cur: Shape, fin: Shape, i: int)
    requires ProperIds(cur.mains) && fin.mains != [] && !Abrupt(fin) && Decides(cur, fin, AdoptFinal)
             && 0 <= i < |cur.mains|
    ensures Has(fin.mains, cur.mains[i].id)
  {
    var ms, fs := cur.mains, fin.mains;
    var top :| IsTop(ms, top) && DecidesPriorities(cur, fin, top, AdoptFinal);
    if |ms| == 1 {
      assert !Missing(ms, fs, 0);
    } else {
      assert !Removable(cur, fin, i) && !Demotable(cur, fin, i);
      assert ms[i].priority == Goal(ms, fs, top, ms[i].id);
      if !Has(fs, ms[i].id) {
        PrioAbsent(fs, ms[i].id);
      }
    }
  }

  lemma DropKeepsPriorities(cur: Shape, i: nat)
    requires ProperIds(cur.mains) && i < |cur.mains|
    ensures DemotesOnlyReplicated(cur, cur.mains[..i] + cur.mains[i + 1..])
  {
    var ms, ms' := cur.mains, cur.mains[..i] + cur.mains[i + 1..];
    assert forall j :: 0 <= j < |ms'| ==> ms'[j] == ms[if j < i then j else j + 1];
  }

  lemma DemotionIsReplicated(cur: Shape, fin: Shape, i: int)
    requires ProperIds(cur.mains) && Demotable(cur, fin, i)
    ensures DemotesOnlyReplicated(cur, Demote(cur.mains, i))
  {
  }

  /** Priorities are settled only while all regions are usable. */
  lemma SettlingDemotes(cur: Shape, fin: Shape, top: string, d: Decision)
    requires ProperIds(cur.mains) && |cur.mains| >= 2 && DecidesPriorities(cur, fin, top, d) && d.Reshape?
    ensures DemotesOnlyReplicated(cur, d.shape.mains)
  {
  }

  lemma GrowthDemotesNothing(cur: Shape, ms': seq<Main>)
    requires cur.mains <= ms' && ProperIds(ms')
    ensures DemotesOnlyReplicated(cur, ms')
  {
  }

  lemma ReshapeDemotes(cur: Shape, fin: Shape, d: Decision)
    requires ProperIds(cur.mains) && ProperIds(fin.mains) && fin.mains != [] && !Headless(fin)
    requires Decides(cur, fin, d) && d.Reshape?
    ensures DemotesOnlyReplicated(cur, d.shape.mains)
  {
    var ms, fs, ms' := cur.mains, fin.mains, d.shape.mains;
    DecisionMoves(cur, fin, d);
    if |ms| < 2 && AnyMissing(ms, fs) {
      GrowthDemotesNothing(cur, ms');
    } else if ms' == ms {
      GrowthDemotesNothing(cur, ms');
    } else if |ms| > 1 && exists i :: Removable(cur, fin, i) {
      var i :| FirstRemovable(cur, fin, i) && d == Reshape(cur.(mains := ms[..i] + ms[i + 1..]));
      DropKeepsPriorities(cur, i);
    } else if |ms| > 1 && exists i :: Demotable(cur, fin, i) {
      var i :| FirstDemotable(cur, fin, i) && ms' == Demote(ms, i);
      DemotionIsReplicated(cur, fin, i);
    } else if |ms| == 1 {
      SingleRegion(cur, fin, d);
    } else {
      var top :| IsTop(ms, top) && DecidesPriorities(cur, fin, top, d);
      SettlingDemotes(cur, fin, top, d);
    }
  }

  lemma SingleRegion(cur: Shape, fin: Shape, d: Decision)
    requires ProperIds(cur.mains) && ProperIds(fin.mains) && fin.mains != [] && !Headless(fin)
    requires |cur.mains| == 1 && !AnyMissing(cur.mains, fin.mains) && Decides(cur, fin, d) && d.Reshape?
             && d.shape.mains != cur.mains
    ensures DemotesOnlyReplicated(cur, d.shape.mains)
  {
    var ms, fs := cur.mains, fin.mains;
    var top :| IsTop(ms, top) && DecidesPriorities(cur, fin, top, d);
    OnlyRegion(ms, fs);
    PrioAt(ms, 0);
    PrioAt(fs, 0);
    assert Goal(ms, fs, top, ms[0].id) > 0 || AllNegative(fs);
    assert d.shape.mains[0] == Main(ms[0].id, Goal(ms, fs, top, ms[0].id));
  }

  lemma AdoptionDemotes(cur: Shape, fin: Shape)
    requires ProperIds(cur.mains) && ProperIds(fin.mains) && !Abrupt(fin) && Decides(cur, fin, AdoptFinal)
    ensures DemotesOnlyReplicated(cur, fin.mains)
  {
    var ms, fs := cur.mains, fin.mains;
    var top :| IsTop(ms, top) && DecidesPriorities(cur, fin, top, AdoptFinal);
    forall i, j | 0 <= i < |ms| && 0 <= j < |fs| && fs[j].id == ms[i].id && ms[i].priority > 0 && fs[j].priority <= 0
      ensures cur.usable >= 2
    {
      assert ms[i].priority == Goal(ms, fs, top, ms[i].id);
      PrioAt(fs, j);
    }
  }

  /** One decision never changes the number of usable regions and a main data center together. */
  lemma OneChangeAtATime(cur: Shape, fin: Shape, d: Decision)
    requires Decides(cur, fin, d)
    ensures d.Reshape? ==> d.shape.usable == cur.usable || d.shape.mains == cur.mains
    ensures d.AdoptFinal? ==> cur.usable == fin.usable
  {
  }

  // ----- single calls -----

  lemma DecisionOf(c: Config, f: Config, r: Config) returns (d: Decision)
    requires WellFormed(c) && WellFormed(f) && Next(c, f, r) && !SameRegions(c, f)
    ensures Decides(ShapeOf(c), ShapeOf(f), d) && r == Apply(c, f, d) && WellFormed(r)
    ensures Mains(r.regions) == if d.Reshape? then d.shape.mains else Mains(f.regions)
  {
    d :| Decides(ShapeOf(c), ShapeOf(f), d) && r == Apply(c, f, d);
    if d.Reshape? {
      DecisionMoves(ShapeOf(c), ShapeOf(f), d);
      BuildMains(f.regions, d.shape.mains);
    }
  }

  /** While the regions differ from the final ones: the number of usable regions never changes together with a main data
      center, all other settings wait, and unless the final regions are abrupt or headless, regions are dropped only
      once they are retired and candidates for primary are demoted only while two regions are usable. */
  lemma CallIsOrdered(c: Config, f: Config, r: Config)
    requires WellFormed(c) && WellFormed(f) && f.regions != [] && Next(c, f, r) && !SameRegions(c, f)
    ensures WellFormed(r) && r.settings == c.settings
    ensures r.usableRegions == c.usableRegions || Mains(r.regions) == Mains(c.regions)
    ensures !Abrupt(ShapeOf(f)) ==> DropsOnlyRetired(ShapeOf(c), Mains(r.regions))
    ensures !Abrupt(ShapeOf(f)) && !Headless(ShapeOf(f)) ==> DemotesOnlyReplicated(ShapeOf(c), Mains(r.regions))
  {
    var cur, fin := ShapeOf(c), ShapeOf(f);
    var d := DecisionOf(c, f, r);
    OneChangeAtATime(cur, fin, d);
    if d.Reshape? {
      DecisionMoves(cur, fin, d);
      MovesAreRetirements(cur, fin, d.shape.mains);
      if !Headless(fin) {
        ReshapeDemotes(cur, fin, d);
      }
    } else if !Abrupt(fin) {
      forall i | 0 <= i < |cur.mains| ensures Has(fin.mains, cur.mains[i].id) { AdoptionDropsNothing(cur, fin, i); }
      AdoptionDemotes(cur, fin);
    }
  }

  /** No more regions than two, than there were, or than there are to be. */
  ghost predicate FewRegions(c: Config, f: Config, r: Config) {
    |r.regions| <= 2 || |r.regions| <= |c.regions| || |r.regions| <= |f.regions|
  }

  lemma CallKeepsPrimary(c: Config, f: Config, r: Config)
    requires WellFormed(c) && WellFormed(f) && Next(c, f, r)
    ensures WellFormed(r) && FewRegions(c, f, r)
    ensures EmptyOrPrimary(Mains(c.regions)) && AlwaysPrimary(Mains(f.regions)) ==> EmptyOrPrimary(Mains(r.regions))
  {
    if !SameRegions(c, f) {
      var d := DecisionOf(c, f, r);
      if d.Reshape? {
        DecisionMoves(ShapeOf(c), ShapeOf(f), d);
        if EmptyOrPrimary(Mains(c.regions)) && AlwaysPrimary(Mains(f.regions)) {
          DecisionKeepsPrimary(ShapeOf(c), ShapeOf(f), d);
        }
      }
    }
  }

  lemma StepOf(f: Config, cs: seq<Config>, i: nat)
    requires WellFormed(f) && Run(f, cs) && 0 < i < |cs| && WellFormed(cs[i - 1])
    ensures Next(cs[i - 1], f, cs[i])
  {
    assert Next(cs[i - 1], f, cs[i - 1 + 1]);
  }

  /** Every configuration along a migration has one main data center per region with distinct ids, no more regions than
      two, than it started or than it ends with, and a candidate for primary if it has any region at all. */
  lemma {:induction false} RunKeepsPrimary(f: Config, cs: seq<Config>, i: nat)
    requires WellFormed(f) && AlwaysPrimary(Mains(f.regions)) && Run(f, cs) && i < |cs|
    requires WellFormed(cs[0]) && EmptyOrPrimary(Mains(cs[0].regions))
    ensures WellFormed(cs[i]) && EmptyOrPrimary(Mains(cs[i].regions)) && FewRegions(cs[0], f, cs[i])
    decreases i
  {
    if i > 0 {
      RunKeepsPrimary(f, cs, i - 1);
      StepOf(f, cs, i);
      CallKeepsPrimary(cs[i - 1], f, cs[i]);
    }
  }
}
