/** The region part of NormalizeConfiguration: a canonical order for data centers and regions. */
module Normalization {
  import opened Regions
  import opened Ordering

  predicate DataCenterLess(a: DataCenter, b: DataCenter) {
    if a.satellite != b.satellite then a.satellite < b.satellite
    else if a.priority != b.priority then a.priority > b.priority
    else StringLess(a.id, b.id)
  }

  /** The first main data center, with a default that the source also uses. */
  function MainDataCenter(r: Region): Main {
    var k := MainIndex(r.dataCenters);
    if k < |r.dataCenters| then Main(r.dataCenters[k].id, r.dataCenters[k].priority) else Main("", -1)
  }

  predicate RegionLess(a: Region, b: Region) {
    var l, r := MainDataCenter(a), MainDataCenter(b);
    if l.priority != r.priority then l.priority > r.priority else StringLess(l.id, r.id)
  }

  function SortDataCenters(r: Region): Region {
    r.(dataCenters := Sort(DataCenterLess, r.dataCenters))
  }

  function SortedInside(rs: seq<Region>): (rs': seq<Region>)
    ensures |rs'| == |rs| && forall i :: 0 <= i < |rs| ==> rs'[i] == SortDataCenters(rs[i])
  {
    seq(|rs|, i requires 0 <= i < |rs| => SortDataCenters(rs[i]))
  }

  function NormalizeRegions(rs: seq<Region>): seq<Region> {
    Sort(RegionLess, SortedInside(rs))
  }

  function Normalize(c: Config): Config {
    c.(usableRegions := if c.usableRegions < 1 then 1 else c.usableRegions, regions := NormalizeRegions(c.regions))
  }

  lemma DataCenterOrder(dcs: seq<DataCenter>)
    ensures StrictOrderOn(DataCenterLess, dcs)
  {
    forall a: DataCenter, b: DataCenter
      ensures DataCenterLess(a, b) ==> !DataCenterLess(b, a)
      ensures a != b ==> DataCenterLess(a, b) || DataCenterLess(b, a)
    {
      StringLessTrichotomy(a.id, b.id);
    }
    forall a, b, c | DataCenterLess(a, b) && DataCenterLess(b, c) ensures DataCenterLess(a, c) {
      if StringLess(a.id, b.id) && StringLess(b.id, c.id) {
        StringLessTransitive(a.id, b.id, c.id);
      }
    }
  }

  lemma RegionOrder(rs: seq<Region>)
    requires WellFormedRegions(rs)
    ensures StrictOrderOn(RegionLess, rs)
  {
    forall a: Region, b: Region ensures RegionLess(a, b) ==> !RegionLess(b, a) {
      StringLessTrichotomy(MainDataCenter(a).id, MainDataCenter(b).id);
    }
    forall a, b, c | RegionLess(a, b) && RegionLess(b, c) ensures RegionLess(a, c) {
      var x, y, z := MainDataCenter(a).id, MainDataCenter(b).id, MainDataCenter(c).id;
      if StringLess(x, y) && StringLess(y, z) {
        StringLessTransitive(x, y, z);
      }
    }
    forall a, b | a in rs && b in rs && a != b ensures RegionLess(a, b) || RegionLess(b, a) {
      var i :| 0 <= i < |rs| && rs[i] == a;
      var j :| 0 <= j < |rs| && rs[j] == b;
      assert Mains(rs)[i].id != Mains(rs)[j].id;
      StringLessTrichotomy(MainDataCenter(a).id, MainDataCenter(b).id);
    }
  }

  // ----- reordering data centers does not change the main one -----

  lemma OnceInMultiset<T>(s: seq<T>, k: nat)
    requires k < |s| && forall j :: 0 <= j < |s| && j != k ==> s[j] != s[k]
    ensures multiset(s)[s[k]] == 1
  {
    assert s == s[..k] + [s[k]] + s[k + 1..];
    assert s[k] !in s[..k] && s[k] !in s[k + 1..];
  }

  lemma SameMain(r: Region, r': Region)
    requires OneMain(r) && multiset(r'.dataCenters) == multiset(r.dataCenters)
    ensures OneMain(r') && MainOf(r') == MainOf(r)
  {
    var dcs, dcs' := r.dataCenters, r'.dataCenters;
    var k := MainIndex(dcs);
    OnceInMultiset(dcs, k);
    forall j | 0 <= j < |dcs'| && IsMain(dcs'[j]) ensures dcs'[j] == dcs[k] {
      assert dcs'[j] in multiset(dcs);
      var h :| 0 <= h < |dcs| && dcs[h] == dcs'[j];
    }
    assert dcs[k] in multiset(dcs');
    var k' := MainIndex(dcs');
    forall j | k' < j < |dcs'| ensures !IsMain(dcs'[j]) {
      if IsMain(dcs'[j]) {
        TwiceInMultiset(dcs', k', j);
      }
    }
  }

  lemma SortDataCentersKeeps(r: Region)
    ensures multiset(SortDataCenters(r).dataCenters) == multiset(r.dataCenters)
    ensures SortDataCenters(SortDataCenters(r)) == SortDataCenters(r)
    ensures OneMain(r) ==> OneMain(SortDataCenters(r)) && MainOf(SortDataCenters(r)) == MainOf(r)
  {
    var r' := SortDataCenters(r);
    DataCenterOrder(r.dataCenters);
    DataCenterOrder(r'.dataCenters);
    SortSorts(DataCenterLess, r.dataCenters);
    SortSorted(DataCenterLess, r'.dataCenters);
    if OneMain(r) {
      SameMain(r, r');
    }
  }

  lemma SortedInsideWellFormed(rs: seq<Region>)
    requires WellFormedRegions(rs)
    ensures WellFormedRegions(SortedInside(rs)) && Mains(SortedInside(rs)) == Mains(rs)
  {
    forall i | 0 <= i < |rs| ensures OneMain(SortedInside(rs)[i]) && MainOf(SortedInside(rs)[i]) == MainOf(rs[i]) {
      SortDataCentersKeeps(rs[i]);
    }
  }

  /** Well-formedness does not depend on the order of regions. */
  lemma {:induction false} PermutedWellFormed(rs: seq<Region>, rs': seq<Region>)
    requires WellFormedRegions(rs) && multiset(rs) == multiset(rs')
    ensures WellFormedRegions(rs')
  {
    forall i | 0 <= i < |rs'| ensures rs'[i] in rs && OneMain(rs'[i]) {
      assert rs'[i] in multiset(rs');
    }
    var ms := Mains(rs);
    forall i | 0 <= i < |rs'| ensures Mains(rs')[i].id != "" {
      var h :| 0 <= h < |rs| && rs[h] == rs'[i];
      assert ms[h].id != "";
    }
    forall i, j | 0 <= i < j < |rs'| ensures Mains(rs')[i].id != Mains(rs')[j].id {
      var g :| 0 <= g < |rs| && rs[g] == rs'[i];
      var h :| 0 <= h < |rs| && rs[h] == rs'[j];
      if g == h {
        assert rs'[i] == rs'[j];
        TwiceInMultiset(rs', i, j);
        assert forall q :: 0 <= q < |rs| && q != g ==> Mains(rs)[q].id != Mains(rs)[g].id;
        OnceInMultiset(rs, g);
      } else {
        assert ms[g].id != ms[h].id;
      }
    }
  }

  lemma RemoveAt<T>(s: seq<T>, k: nat)
    requires k < |s|
    ensures multiset(s) == multiset(s[..k] + s[k + 1..]) + multiset{s[k]}
    ensures multiset(s[..k] + s[k + 1..]) == multiset(s) - multiset{s[k]}
  {
    assert s == s[..k] + [s[k]] + s[k + 1..];
  }

  /** `t` is `s` with `f` applied to every element. */
  ghost predicate Image<A, B>(f: A -> B, s: seq<A>, t: seq<B>) {
    |s| == |t| && forall i :: 0 <= i < |s| ==> t[i] == f(s[i])
  }

  lemma FindFirst<T>(s: seq<T>, s': seq<T>) returns (k: nat)
    requires s != [] && multiset(s) == multiset(s')
    ensures k < |s'| && s'[k] == s[0]
  {
    assert s[0] in multiset(s');
    k :| k < |s'| && s'[k] == s[0];
  }

  lemma ImageRemoveAt<A, B>(f: A -> B, s: seq<A>, t: seq<B>, k: nat)
    requires Image(f, s, t) && k < |s|
    ensures Image(f, RestOf(s, k), RestOf(t, k))
  {
  }

  /** Images of permutations are permutations. */
  lemma {:induction false} ImageMultiset<A, B>(f: A -> B, s: seq<A>, t: seq<B>, s': seq<A>, t': seq<B>)
    requires Image(f, s, t) && Image(f, s', t') && multiset(s) == multiset(s')
    ensures multiset(t) == multiset(t')
    decreases |s|
  {
    SameLength(s, s');
    if s != [] {
      var k := FindFirst(s, s');
      var r, r', u, u' := RestOf(s, 0), RestOf(s', k), RestOf(t, 0), RestOf(t', k);
      Cancel(multiset(r), multiset(r'), s[0]);
      ImageRemoveAt(f, s, t, 0);
      ImageRemoveAt(f, s', t', k);
      ImageMultiset(f, r, u, r', u');
    }
  }

  ghost function RestOf<T>(s: seq<T>, k: nat): (rest: seq<T>)
    requires k < |s|
    ensures multiset(s) == multiset(rest) + multiset{s[k]} && |rest| == |s| - 1
  {
    RemoveAt(s, k);
    s[..k] + s[k + 1..]
  }

  lemma Cancel<T>(a: multiset<T>, b: multiset<T>, x: T)
    requires a + multiset{x} == b + multiset{x}
    ensures a == b
  {
    assert (a + multiset{x}) - multiset{x} == a && (b + multiset{x}) - multiset{x} == b;
  }

  lemma SortedInsideMultiset(rs: seq<Region>, rs': seq<Region>)
    requires multiset(rs) == multiset(rs')
    ensures multiset(SortedInside(rs)) == multiset(SortedInside(rs'))
  {
    ImageMultiset(SortDataCenters, rs, SortedInside(rs), rs', SortedInside(rs'));
  }

  // ----- the canonical form -----

  /** `rs'` lists the same regions in another order, each with its data centers in another order. */
  ghost predicate Reordered(rs: seq<Region>, rs': seq<Region>) {
    exists mid: seq<Region> :: multiset(mid) == multiset(rs) && SameButInside(mid, rs')
  }

  ghost predicate SameButInside(mid: seq<Region>, rs': seq<Region>) {
    && |mid| == |rs'|
    && forall i :: 0 <= i < |mid| ==>
         && multiset(mid[i].dataCenters) == multiset(rs'[i].dataCenters)
         && mid[i].satelliteLogs == rs'[i].satelliteLogs
         && mid[i].satelliteRedundancyMode == rs'[i].satelliteRedundancyMode
  }

  /** Every reordering normalizes to the same list. */
  lemma NormalizationIsCanonical(rs: seq<Region>, rs': seq<Region>)
    requires WellFormedRegions(rs) && Reordered(rs, rs')
    ensures NormalizeRegions(rs') == NormalizeRegions(rs)
  {
    var mid: seq<Region> :| multiset(mid) == multiset(rs) && SameButInside(mid, rs');
    SortedInsideSame(mid, rs');
    PermutationNormalizes(rs, mid);
  }

  lemma SortedInsideSame(mid: seq<Region>, rs': seq<Region>)
    requires SameButInside(mid, rs')
    ensures SortedInside(mid) == SortedInside(rs')
  {
    forall i | 0 <= i < |mid| ensures SortDataCenters(mid[i]) == SortDataCenters(rs'[i]) {
      DataCenterOrder(mid[i].dataCenters);
      SortPermutation(DataCenterLess, mid[i].dataCenters, rs'[i].dataCenters);
    }
  }

  lemma PermutationNormalizes(rs: seq<Region>, mid: seq<Region>)
    requires WellFormedRegions(rs) && multiset(mid) == multiset(rs)
    ensures NormalizeRegions(mid) == NormalizeRegions(rs)
  {
    SortedInsideMultiset(rs, mid);
    SortedInsideWellFormed(rs);
    RegionOrder(SortedInside(rs));
    SortPermutation(RegionLess, SortedInside(rs), SortedInside(mid));
  }

  /** The result is a reordering of the input, in order, and normalizing it again changes nothing. */
  lemma NormalizationIsIdempotent(rs: seq<Region>)
    requires WellFormedRegions(rs)
    ensures var n := NormalizeRegions(rs);
            && WellFormedRegions(n)
            && Sorted(RegionLess, n)
            && multiset(n) == multiset(SortedInside(rs))
            && NormalizeRegions(n) == n
  {
    var s := SortedInside(rs);
    var n := NormalizeRegions(rs);
    SortedInsideWellFormed(rs);
    RegionOrder(s);
    SortSorts(RegionLess, s);
    PermutedWellFormed(s, n);
    forall i | 0 <= i < |n| ensures SortedInside(n)[i] == n[i] {
      assert n[i] in multiset(n);
      var j :| 0 <= j < |s| && s[j] == n[i];
      SortDataCentersKeeps(rs[j]);
    }
    assert SortedInside(n) == n;
    RegionOrder(n);
    SortSorted(RegionLess, n);
  }

  /** The normalized configuration has the same regions, in order: priorities do not increase, and regions of equal
      priority are ordered by the id of their main data center. It has at least one usable region. */
  lemma NormalizedTheorem(c: Config)
    requires WellFormed(c)
    ensures var n := Normalize(c);
            && Reordered(n.regions, c.regions) && AllOneMain(n.regions)
            && (forall i, j :: 0 <= i < j < |n.regions| ==> RegionBefore(n.regions[i], n.regions[j]))
            && (forall h :: 0 <= h < |n.regions| ==> DataCentersInOrder(n.regions[h].dataCenters))
            && n == c.(regions := n.regions, usableRegions := if c.usableRegions < 1 then 1 else c.usableRegions)
  {
    var rs, n, s := c.regions, NormalizeRegions(c.regions), SortedInside(c.regions);
    NormalizationIsIdempotent(rs);
    forall i, j | 0 <= i < j < |n| ensures RegionBefore(n[i], n[j]) {
      assert !RegionLess(n[j], n[i]);
      assert Mains(n)[i].id != Mains(n)[j].id;
      StringLessTrichotomy(MainOf(n[i]).id, MainOf(n[j]).id);
    }
    forall h | 0 <= h < |n| ensures DataCentersInOrder(n[h].dataCenters) {
      assert n[h] in multiset(n);
      var k :| 0 <= k < |s| && s[k] == n[h];
      SortedDataCenters(rs[k]);
    }
    SameRegionsInside(rs);
    assert multiset(s) == multiset(n) && SameButInside(s, rs);
  }

  predicate RegionBefore(r: Region, r': Region)
    requires OneMain(r) && OneMain(r')
  {
    || MainOf(r).priority > MainOf(r').priority
    || (MainOf(r).priority == MainOf(r').priority && StringLess(MainOf(r).id, MainOf(r').id))
  }

  lemma SameRegionsInside(rs: seq<Region>)
    ensures SameButInside(SortedInside(rs), rs)
  {
    forall i | 0 <= i < |rs| ensures multiset(SortedInside(rs)[i].dataCenters) == multiset(rs[i].dataCenters) {
      SortDataCentersKeeps(rs[i]);
    }
  }

  /** Inside a region main data centers come before satellites, higher priorities before lower ones, and then smaller
      ids. */
  ghost predicate DataCentersInOrder(dcs: seq<DataCenter>) {
    forall i, j :: 0 <= i < j < |dcs| ==> NotAfter(dcs[i], dcs[j])
  }

  predicate NotAfter(a: DataCenter, b: DataCenter) {
    || a.satellite < b.satellite
    || (a.satellite == b.satellite && a.priority > b.priority)
    || (a.satellite == b.satellite && a.priority == b.priority && (StringLess(a.id, b.id) || a.id == b.id))
  }

  lemma SortedDataCenters(r: Region)
    ensures DataCentersInOrder(SortDataCenters(r).dataCenters)
  {
    var dcs := SortDataCenters(r).dataCenters;
    DataCenterOrder(r.dataCenters);
    SortSorts(DataCenterLess, r.dataCenters);
    forall i, j | 0 <= i < j < |dcs| ensures NotAfter(dcs[i], dcs[j]) {
      assert !DataCenterLess(dcs[j], dcs[i]);
      StringLessTrichotomy(dcs[i].id, dcs[j].id);
    }
  }
}
