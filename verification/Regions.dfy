/** The region part of a database configuration, and the view of it the planner works on.

    A well-formed region has exactly one main data center, the one whose `satellite` is 0.
    What the planner decides depends on the regions only through their main data centers,
    so `Mains` projects a region list to a list of (id, priority) pairs and `Build` goes
    back, taking everything but the priority from the final configuration.
 */
module Regions {

  datatype DataCenter = DataCenter(id: string, priority: int, satellite: int)

  datatype Region = Region(dataCenters: seq<DataCenter>, satelliteLogs: int, satelliteRedundancyMode: string)

  /** `settings` stands for all fields that have nothing to do with regions. A Go slice is
      either nil or a list, and the two kinds of "no regions" are told apart by the planner. */
  datatype Config = Config(usableRegions: int, regions: seq<Region>, regionsAreNil: bool, settings: map<string, string>)

  /** The main data center of a region. */
  datatype Main = Main(id: string, priority: int)

  predicate IsMain(dc: DataCenter) {
    dc.satellite == 0
  }

  /** Index of the first main data center, or the length if there is none. */
  function MainIndex(dcs: seq<DataCenter>): (k: nat)
    ensures k <= |dcs|
    ensures k < |dcs| ==> IsMain(dcs[k])
    ensures forall j :: 0 <= j < k ==> !IsMain(dcs[j])
  {
    if dcs == [] then 0
    else if IsMain(dcs[0]) then 0
    else 1 + MainIndex(dcs[1..])
  }

  predicate OneMain(r: Region) {
    var k := MainIndex(r.dataCenters);
    k < |r.dataCenters| && forall j :: k < j < |r.dataCenters| ==> !IsMain(r.dataCenters[j])
  }

  lemma MainIndexUnique(dcs: seq<DataCenter>, k: nat)
    requires k < |dcs| && IsMain(dcs[k])
    requires forall j :: 0 <= j < k ==> !IsMain(dcs[j])
    ensures MainIndex(dcs) == k
  {
  }

  function MainOf(r: Region): Main
    requires OneMain(r)
  {
    var dc := r.dataCenters[MainIndex(r.dataCenters)];
    Main(dc.id, dc.priority)
  }

  function WithPriority(r: Region, p: int): Region
    requires OneMain(r)
  {
    var k := MainIndex(r.dataCenters);
    r.(dataCenters := r.dataCenters[k := r.dataCenters[k].(priority := p)])
  }

  lemma WithPriorityMain(r: Region, p: int)
    requires OneMain(r)
    ensures OneMain(WithPriority(r, p))
    ensures MainIndex(WithPriority(r, p).dataCenters) == MainIndex(r.dataCenters)
    ensures MainOf(WithPriority(r, p)) == Main(MainOf(r).id, p)
    ensures forall q :: WithPriority(WithPriority(r, p), q) == WithPriority(r, q)
    ensures WithPriority(r, MainOf(r).priority) == r
  {
    var k := MainIndex(r.dataCenters);
    var dcs := WithPriority(r, p).dataCenters;
    MainIndexUnique(dcs, k);
    forall q
      ensures WithPriority(WithPriority(r, p), q) == WithPriority(r, q)
    {
      assert dcs[k := dcs[k].(priority := q)] == r.dataCenters[k := r.dataCenters[k].(priority := q)];
    }
    assert r.dataCenters[k := r.dataCenters[k].(priority := MainOf(r).priority)] == r.dataCenters;
  }

  ghost predicate AllOneMain(rs: seq<Region>) {
    forall i :: 0 <= i < |rs| ==> OneMain(rs[i])
  }

  ghost function Mains(rs: seq<Region>): (ms: seq<Main>)
    requires AllOneMain(rs)
    ensures |ms| == |rs|
    ensures forall i :: 0 <= i < |rs| ==> ms[i] == MainOf(rs[i])
  {
    seq(|rs|, i requires 0 <= i < |rs| => MainOf(rs[i]))
  }

  ghost predicate Has(ms: seq<Main>, id: string) {
    exists i :: 0 <= i < |ms| && ms[i].id == id
  }

  /** Main ids are non-empty and pairwise different. */
  ghost predicate ProperIds(ms: seq<Main>) {
    && (forall i :: 0 <= i < |ms| ==> ms[i].id != "")
    && (forall i, j :: 0 <= i < j < |ms| ==> ms[i].id != ms[j].id)
  }

  ghost predicate WellFormedRegions(rs: seq<Region>) {
    AllOneMain(rs) && ProperIds(Mains(rs))
  }

  ghost predicate WellFormed(c: Config) {
    WellFormedRegions(c.regions) && (c.regionsAreNil ==> c.regions == [])
  }

  /** `m` maps the main ids of `ms` to their priorities, and nothing else. */
  ghost predicate PriorityMap(m: map<string, int>, ms: seq<Main>) {
    && (forall id :: id in m <==> Has(ms, id))
    && (forall i :: 0 <= i < |ms| ==> ms[i].id in m && m[ms[i].id] == ms[i].priority)
  }

  lemma ExtendPriorityMap(m: map<string, int>, ms: seq<Main>, x: Main)
    requires PriorityMap(m, ms) && ProperIds(ms + [x])
    ensures PriorityMap(m[x.id := x.priority], ms + [x])
  {
    var all := ms + [x];
    assert all[|ms|] == x && forall i :: 0 <= i < |ms| ==> all[i] == ms[i];
    forall id ensures Has(all, id) <==> Has(ms, id) || id == x.id {
      if i :| 0 <= i < |ms| && ms[i].id == id {
        assert all[i].id == id;
      }
    }
  }

  /** The priority of a main data center, or -1 if the list does not mention it. */
  ghost function Prio(ms: seq<Main>, id: string): int {
    if ms == [] then -1
    else if ms[0].id == id then ms[0].priority
    else Prio(ms[1..], id)
  }

  lemma {:induction false} PrioAt(ms: seq<Main>, i: nat)
    requires ProperIds(ms) && i < |ms|
    ensures Prio(ms, ms[i].id) == ms[i].priority
  {
    if i > 0 {
      assert ms[0].id != ms[i].id;
      PrioAt(ms[1..], i - 1);
    }
  }

  lemma {:induction false} PrioAbsent(ms: seq<Main>, id: string)
    requires !Has(ms, id)
    ensures Prio(ms, id) == -1
  {
    if ms != [] {
      assert ms[0].id != id;
      forall i | 0 <= i < |ms[1..]| ensures ms[1..][i].id != id {
        assert ms[1..][i] == ms[i + 1];
      }
      PrioAbsent(ms[1..], id);
    }
  }

  /** The region the final configuration gives a main data center, with a chosen priority;
      a bare region if the final configuration does not know it. */
  ghost function RegionFor(fin: seq<Region>, id: string, p: int): Region
    requires AllOneMain(fin)
  {
    if exists i :: 0 <= i < |fin| && MainOf(fin[i]).id == id then
      var i :| 0 <= i < |fin| && MainOf(fin[i]).id == id;
      WithPriority(fin[i], p)
    else
      Region([DataCenter(id, p, 0)], 0, "")
  }

  lemma RegionForAt(fin: seq<Region>, i: nat, p: int)
    requires WellFormedRegions(fin) && i < |fin|
    ensures RegionFor(fin, MainOf(fin[i]).id, p) == WithPriority(fin[i], p)
  {
    forall j | 0 <= j < |fin| && MainOf(fin[j]).id == MainOf(fin[i]).id
      ensures j == i
    {
      assert Mains(fin)[j].id == Mains(fin)[i].id;
    }
  }

  lemma RegionForMain(fin: seq<Region>, id: string, p: int)
    requires WellFormedRegions(fin)
    ensures var r := RegionFor(fin, id, p);
            OneMain(r) && MainOf(r) == Main(id, p) && forall q :: WithPriority(r, q) == RegionFor(fin, id, q)
  {
    if i :| 0 <= i < |fin| && MainOf(fin[i]).id == id {
      RegionForAt(fin, i, p);
      WithPriorityMain(fin[i], p);
      forall q ensures WithPriority(RegionFor(fin, id, p), q) == RegionFor(fin, id, q) {
        RegionForAt(fin, i, q);
      }
    } else {
      var r := RegionFor(fin, id, p);
      assert r == Region([DataCenter(id, p, 0)], 0, "");
      MainIndexUnique(r.dataCenters, 0);
    }
  }

  ghost function Build(fin: seq<Region>, ms: seq<Main>): (rs: seq<Region>)
    requires AllOneMain(fin)
    ensures |rs| == |ms|
    ensures forall i :: 0 <= i < |ms| ==> rs[i] == RegionFor(fin, ms[i].id, ms[i].priority)
  {
    seq(|ms|, i requires 0 <= i < |ms| => RegionFor(fin, ms[i].id, ms[i].priority))
  }

  lemma BuildMains(fin: seq<Region>, ms: seq<Main>)
    requires WellFormedRegions(fin)
    ensures AllOneMain(Build(fin, ms))
    ensures Mains(Build(fin, ms)) == ms
  {
    var rs := Build(fin, ms);
    forall i | 0 <= i < |ms| ensures OneMain(rs[i]) && MainOf(rs[i]) == ms[i] {
      RegionForMain(fin, ms[i].id, ms[i].priority);
    }
  }
}
