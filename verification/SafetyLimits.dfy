/** For exactly which final configurations migrations are safe: the conditions of `MigrationSafety` are necessary
    too. */
module SafetyLimits {
  import opened Regions
  import opened PlannerSpec
  import opened Convergence
  import opened MigrationSafety

  /** No call for `f` drops a region that is not retired. */
  ghost predicate DropSafe(f: Config)
    requires WellFormed(f)
  {
    forall c, r :: WellFormed(c) && !SameRegions(c, f) && Next(c, f, r) ==>
      WellFormed(r) && DropsOnlyRetired(ShapeOf(c), Mains(r.regions))
  }

  /** No call for `f` demotes a candidate for primary while fewer than two regions are usable. */
  ghost predicate DemoteSafe(f: Config)
    requires WellFormed(f)
  {
    forall c, r :: WellFormed(c) && !SameRegions(c, f) && Next(c, f, r) ==>
      WellFormed(r) && DemotesOnlyReplicated(ShapeOf(c), Mains(r.regions))
  }

  /** No call for `f` loses the last candidate for primary. */
  ghost predicate PrimaryKept(f: Config)
    requires WellFormed(f)
  {
    forall c, r :: WellFormed(c) && Next(c, f, r) && EmptyOrPrimary(Mains(c.regions)) ==>
      WellFormed(r) && EmptyOrPrimary(Mains(r.regions))
  }

  // ----- a region that the final configuration does not know -----

  function LongId(fs: seq<Main>): (id: string)
    ensures id != ""
  {
    if fs == [] then "x" else fs[0].id + LongId(fs[1..])
  }

  lemma {:induction false} LongIdIsFresh(fs: seq<Main>, i: nat)
    requires i < |fs|
    ensures |LongId(fs)| > |fs[i].id|
  {
    if i > 0 {
      LongIdIsFresh(fs[1..], i - 1);
    }
  }

  lemma FreshId(fs: seq<Main>)
    ensures !Has(fs, LongId(fs))
  {
    forall i | 0 <= i < |fs| ensures fs[i].id != LongId(fs) { LongIdIsFresh(fs, i); }
  }

  ghost function ConfigOf(f: Config, s: Shape): Config
    requires WellFormed(f)
  {
    Config(s.usable, Build(f.regions, s.mains), false, f.settings)
  }

  /** A decision on shapes is a call on configurations. */
  lemma CallFor(f: Config, s: Shape, d: Decision) returns (c: Config, r: Config)
    requires WellFormed(f) && ProperIds(s.mains) && s.mains != Mains(f.regions) && Decides(s, ShapeOf(f), d)
    requires d.Reshape? ==> ProperIds(d.shape.mains)
    ensures WellFormed(c) && ShapeOf(c) == s && !SameRegions(c, f) && Next(c, f, r) && WellFormed(r)
    ensures Mains(r.regions) == if d.Reshape? then d.shape.mains else Mains(f.regions)
  {
    c := ConfigOf(f, s);
    r := Apply(c, f, d);
    BuildMains(f.regions, s.mains);
    if d.Reshape? {
      BuildMains(f.regions, d.shape.mains);
    }
    NextBy(c, f, d);
  }

  /** All final regions and a live primary besides. */
  lemma AbruptDrop(fin: Shape)
    requires ProperIds(fin.mains) && fin.mains != [] && Abrupt(fin)
    ensures var s := Shape(fin.usable, fin.mains + [Main(LongId(fin.mains), 1)]);
            ProperIds(s.mains) && Decides(s, fin, AdoptFinal) && !DropsOnlyRetired(s, fin.mains)
  {
    var fs, top, n := fin.mains, LongId(fin.mains), |fin.mains|;
    var ms := fs + [Main(top, 1)];
    var s := Shape(fin.usable, ms);
    FreshId(fs);
    assert ProperIds(ms);
    forall i | 0 <= i < n
      ensures Has(fs, ms[i].id) && ms[i].priority == Goal(ms, fs, top, ms[i].id) && Has(ms, fs[i].id)
    {
      assert ms[i] == fs[i];
      PrioAt(fs, i);
    }
    PrioAt(ms, n);
    assert ms[n].id == top && IsTop(ms, top);
    assert Settled(ms, fs, top);
    assert Stuck(s, fin);
    assert DecidesPriorities(s, fin, top, AdoptFinal);
  }

  /** The final regions, but the first one is a candidate for primary. */
  ghost function Raised(fs: seq<Main>): (ms: seq<Main>)
    requires fs != []
  {
    fs[0 := Main(fs[0].id, 1)]
  }

  lemma RaisedShape(fin: Shape)
    requires ProperIds(fin.mains) && fin.mains != [] && !HasPrimary(fin.mains)
    ensures var ms := Raised(fin.mains);
            && ProperIds(ms) && IsTop(ms, ms[0].id) && HasPrimary(ms)
            && !AnyMissing(ms, fin.mains) && (forall i :: !Stale(ms, fin.mains, i))
            && (forall i :: 0 <= i < |ms|
                  ==> Prio(fin.mains, ms[i].id) == fin.mains[i].priority && Prio(ms, ms[i].id) == ms[i].priority)
  {
    var fs, ms := fin.mains, Raised(fin.mains);
    assert ms[0].priority > 0;
    forall i | 0 <= i < |ms| ensures ms[i].id == fs[i].id && Has(fs, ms[i].id) && Has(ms, fs[i].id) {}
    forall i | 0 <= i < |ms| ensures Prio(fs, ms[i].id) == fs[i].priority && Prio(ms, ms[i].id) == ms[i].priority {
      PrioAt(fs, i);
      PrioAt(ms, i);
    }
  }

  lemma RaisedAdopts(fin: Shape)
    requires ProperIds(fin.mains) && fin.mains != [] && AllNegative(fin.mains)
    ensures Decides(Shape(fin.usable, Raised(fin.mains)), fin, AdoptFinal)
  {
    var fs, ms := fin.mains, Raised(fin.mains);
    RaisedShape(fin);
    assert Settled(ms, fs, ms[0].id);
    assert DecidesPriorities(Shape(fin.usable, ms), fin, ms[0].id, AdoptFinal);
  }

  lemma RaisedLowers(fin: Shape)
    requires ProperIds(fin.mains) && fin.mains != [] && !AllNegative(fin.mains) && !HasPrimary(fin.mains)
    ensures var s := Shape(|fin.mains|, Raised(fin.mains)); Decides(s, fin, Reshape(s.(mains := fin.mains)))
  {
    var fs, ms := fin.mains, Raised(fin.mains);
    var s := Shape(|fs|, ms);
    RaisedShape(fin);
    assert Goal(ms, fs, ms[0].id, ms[0].id) == fs[0].priority;
    assert Reprioritized(ms, fs, ms[0].id) == fs;
    assert DecidesPriorities(s, fin, ms[0].id, Reshape(s.(mains := fs)));
  }

  // ----- the conditions are exact -----

  lemma DropOrderTheorem(f: Config)
    requires WellFormed(f) && f.regions != []
    ensures DropSafe(f) <==> !Abrupt(ShapeOf(f))
  {
    var fin := ShapeOf(f);
    if Abrupt(fin) {
      AbruptDrop(fin);
      var c, r := CallFor(f, Shape(fin.usable, fin.mains + [Main(LongId(fin.mains), 1)]), AdoptFinal);
    } else {
      forall c, r | WellFormed(c) && !SameRegions(c, f) && Next(c, f, r)
        ensures WellFormed(r) && DropsOnlyRetired(ShapeOf(c), Mains(r.regions))
      {
        CallIsOrdered(c, f, r);
      }
    }
  }

  lemma RaisedIsDemoted(fin: Shape, usable: int)
    requires ProperIds(fin.mains) && fin.mains != [] && !HasPrimary(fin.mains) && usable < 2
    ensures !DemotesOnlyReplicated(Shape(usable, Raised(fin.mains)), fin.mains)
  {
    var ms := Raised(fin.mains);
    assert fin.mains[0].id == ms[0].id && ms[0].priority > 0 && fin.mains[0].priority <= 0;
  }

  lemma DemoteOrderTheorem(f: Config)
    requires WellFormed(f) && f.regions != []
    ensures DemoteSafe(f) <==> !Abrupt(ShapeOf(f)) && !Headless(ShapeOf(f))
  {
    var fin := ShapeOf(f);
    if Abrupt(fin) {
      RaisedShape(fin);
      RaisedAdopts(fin);
      RaisedIsDemoted(fin, fin.usable);
      var c, r := CallFor(f, Shape(fin.usable, Raised(fin.mains)), AdoptFinal);
    } else if Headless(fin) {
      RaisedShape(fin);
      RaisedLowers(fin);
      RaisedIsDemoted(fin, 1);
      var c, r := CallFor(f, Shape(1, Raised(fin.mains)), Reshape(Shape(1, fin.mains)));
    } else {
      forall c, r | WellFormed(c) && !SameRegions(c, f) && Next(c, f, r)
        ensures WellFormed(r) && DemotesOnlyReplicated(ShapeOf(c), Mains(r.regions))
      {
        CallIsOrdered(c, f, r);
      }
    }
  }

  /** Two final regions that are no primaries, as the only current ones. */
  lemma PrimariesLost(fin: Shape, a: nat, b: nat)
    requires ProperIds(fin.mains) && HasPrimary(fin.mains) && a < b < |fin.mains|
    requires fin.mains[a].priority <= 0 && fin.mains[b].priority <= 0
    ensures var fs := fin.mains;
            var s := Shape(2, [Main(fs[a].id, 1), Main(fs[b].id, 1)]);
            && ProperIds(s.mains) && HasPrimary(s.mains) && |fs| >= 3
            && Decides(s, fin, Reshape(s.(mains := [fs[a], fs[b]])))
  {
    var fs := fin.mains;
    var ms := [Main(fs[a].id, 1), Main(fs[b].id, 1)];
    var s, top := Shape(2, ms), fs[a].id;
    var k :| 0 <= k < |fs| && fs[k].priority > 0;
    PrioAt(fs, a);
    PrioAt(fs, b);
    assert fs[a].id != fs[b].id;
    assert ms[0].priority > 0 && ms[0].id == top && IsTop(ms, top);
    assert !Stale(ms, fs, 0) && !Stale(ms, fs, 1);
    assert Goal(ms, fs, top, ms[0].id) == fs[a].priority;
    assert Reprioritized(ms, fs, top) == [fs[a], fs[b]];
    assert DecidesPriorities(s, fin, top, Reshape(s.(mains := [fs[a], fs[b]])));
  }

  lemma CallLosesPrimary(f: Config, s: Shape, d: Decision)
    requires WellFormed(f) && ProperIds(s.mains) && HasPrimary(s.mains) && s.mains != Mains(f.regions)
    requires Decides(s, ShapeOf(f), d) && (d.Reshape? ==> ProperIds(d.shape.mains))
    requires !EmptyOrPrimary(if d.Reshape? then d.shape.mains else Mains(f.regions))
    ensures !PrimaryKept(f)
  {
    var c, r := CallFor(f, s, d);
  }

  lemma TwoOthersLosePrimary(f: Config, a: nat, b: nat)
    requires WellFormed(f) && HasPrimary(Mains(f.regions)) && a < b < |f.regions|
    requires Mains(f.regions)[a].priority <= 0 && Mains(f.regions)[b].priority <= 0
    ensures !PrimaryKept(f)
  {
    var fin := ShapeOf(f);
    PrimariesLost(fin, a, b);
    var s, ms' := Shape(2, [Main(fin.mains[a].id, 1), Main(fin.mains[b].id, 1)]), [fin.mains[a], fin.mains[b]];
    assert ProperIds(ms') && !EmptyOrPrimary(ms');
    CallLosesPrimary(f, s, Reshape(s.(mains := ms')));
  }

  lemma NoPrimaryToKeep(f: Config)
    requires WellFormed(f) && f.regions != [] && !HasPrimary(Mains(f.regions))
    ensures !PrimaryKept(f)
  {
    var fin := ShapeOf(f);
    RaisedShape(fin);
    if AllNegative(fin.mains) {
      RaisedAdopts(fin);
      CallLosesPrimary(f, Shape(fin.usable, Raised(fin.mains)), AdoptFinal);
    } else {
      RaisedLowers(fin);
      var s := Shape(|fin.mains|, Raised(fin.mains));
      CallLosesPrimary(f, s, Reshape(s.(mains := fin.mains)));
    }
  }

  /** For any number of final regions: no call loses the last candidate for primary, exactly if there are no final
      regions, or one of them is a primary and at most one is not. */
  lemma PrimaryTheorem(f: Config)
    requires WellFormed(f)
    ensures PrimaryKept(f) <==> AlwaysPrimary(Mains(f.regions))
  {
    if AlwaysPrimary(Mains(f.regions)) {
      forall c, r | WellFormed(c) && Next(c, f, r) && EmptyOrPrimary(Mains(c.regions))
        ensures WellFormed(r) && EmptyOrPrimary(Mains(r.regions))
      {
        CallKeepsPrimary(c, f, r);
      }
    } else if HasPrimary(Mains(f.regions)) {
      var a: nat, b: nat :| a < b < |f.regions| && Mains(f.regions)[a].priority <= 0
          && Mains(f.regions)[b].priority <= 0;
      TwoOthersLosePrimary(f, a, b);
    } else {
      NoPrimaryToKeep(f);
    }
  }
}
