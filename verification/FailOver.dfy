/** Switching the priorities of the main and the remote data center. */
module FailOver {
  import opened Regions

  /** What the Kubernetes schema allows for `satellite`. */
  ghost predicate SatelliteFlags(rs: seq<Region>) {
    forall i, j :: 0 <= i < |rs| && 0 <= j < |rs[i].dataCenters| ==> 0 <= rs[i].dataCenters[j].satellite <= 1
  }

  ghost predicate TwoRegions(c: Config) {
    |c.regions| == 2 && WellFormed(c) && SatelliteFlags(c.regions)
  }

  ghost function Swapped(c: Config): Config
    requires TwoRegions(c)
  {
    var r0, r1 := c.regions[0], c.regions[1];
    c.(regions := [WithPriority(r0, MainOf(r1).priority), WithPriority(r1, MainOf(r0).priority)])
  }

  // ----- what failing over does to any regions -----

  function AllDataCenters(rs: seq<Region>): seq<DataCenter> {
    if rs == [] then [] else AllDataCenters(rs[..|rs| - 1]) + rs[|rs| - 1].dataCenters
  }

  /** The priority of every data center that is no satellite; of several with one id the last counts. */
  function Priorities(dcs: seq<DataCenter>): map<string, int> {
    if dcs == [] then map[]
    else
      var front, last := Priorities(dcs[..|dcs| - 1]), dcs[|dcs| - 1];
      if last.satellite == 1 then front else front[last.id := last.priority]
  }

  ghost predicate Lists<T(!new)>(keys: seq<T>, elements: set<T>) {
    (forall k :: k in keys <==> k in elements) && forall i, j :: 0 <= i < j < |keys| ==> keys[i] != keys[j]
  }

  /** One data center per map entry of another data center, in some order. */
  ghost predicate Others(dc: DataCenter, priorities: map<string, int>, part: seq<DataCenter>) {
    exists keys :: Lists(keys, priorities.Keys - {dc.id}) && Copies(dc.id, priorities, keys, part)
  }

  ghost predicate Copies(id: string, priorities: map<string, int>, keys: seq<string>, part: seq<DataCenter>) {
    && |part| == |keys|
    && forall i :: 0 <= i < |keys| ==> keys[i] in priorities && part[i] == DataCenter(id, priorities[keys[i]], 0)
  }

  ghost predicate Part(dc: DataCenter, priorities: map<string, int>, part: seq<DataCenter>) {
    if dc.satellite == 1 then part == [dc] else Others(dc, priorities, part)
  }

  /** Satellites stay, and every other data center is replaced by its copies. */
  ghost predicate Parts(dcs: seq<DataCenter>, priorities: map<string, int>, result: seq<DataCenter>) {
    if dcs == [] then result == []
    else
      exists cut: nat :: cut <= |result| && Parts(dcs[..|dcs| - 1], priorities, result[..cut])
                         && Part(dcs[|dcs| - 1], priorities, result[cut..])
  }

  ghost predicate FailedRegion(r: Region, priorities: map<string, int>, r': Region) {
    && Parts(r.dataCenters, priorities, r'.dataCenters)
    && r' == if r.dataCenters == [] then Region([], 0, "") else r.(dataCenters := r'.dataCenters)
  }

  /** What failing over may return. */
  ghost predicate FailedOver(c: Config, r: Config) {
    if |c.regions| <= 1 then r == c
    else
      && r == c.(regions := r.regions) && |r.regions| == |c.regions|
      && forall i :: 0 <= i < |c.regions|
          ==> FailedRegion(c.regions[i], Priorities(AllDataCenters(c.regions)), r.regions[i])
  }

  lemma PrioritiesStep(before: seq<DataCenter>, dcs: seq<DataCenter>, j: nat)
    requires j < |dcs|
    ensures var p := Priorities(before + dcs[..j]);
            Priorities(before + dcs[..j + 1]) == if dcs[j].satellite == 1 then p else p[dcs[j].id := dcs[j].priority]
  {
    var longer := before + dcs[..j + 1];
    assert longer[..|longer| - 1] == before + dcs[..j] && longer[|longer| - 1] == dcs[j];
  }

  method AddPriorities(priorities: map<string, int>, dcs: seq<DataCenter>, ghost before: seq<DataCenter>)
    returns (priorities': map<string, int>)
    requires priorities == Priorities(before)
    ensures priorities' == Priorities(before + dcs)
  {
    priorities' := priorities;
    assert before + dcs[..0] == before;
    for j := 0 to |dcs|
      invariant priorities' == Priorities(before + dcs[..j])
    {
      PrioritiesStep(before, dcs, j);
      if dcs[j].satellite == 1 {
        continue;
      }
      priorities' := priorities'[dcs[j].id := dcs[j].priority];
    }
    assert dcs[..|dcs|] == dcs;
  }

  method MainPriorities(rs: seq<Region>) returns (priorities: map<string, int>)
    ensures priorities == Priorities(AllDataCenters(rs))
  {
    priorities := map[];
    for i := 0 to |rs|
      invariant priorities == Priorities(AllDataCenters(rs[..i]))
    {
      assert rs[..i + 1][..i] == rs[..i];
      priorities := AddPriorities(priorities, rs[i].dataCenters, AllDataCenters(rs[..i]));
    }
    assert rs[..|rs|] == rs;
  }

  method OtherPriorities(priorities: map<string, int>, dc: DataCenter) returns (dcs: seq<DataCenter>)
    ensures Others(dc, priorities, dcs)
  {
    dcs := [];
    var todo := priorities.Keys;
    ghost var keys: seq<string> := [];
    while todo != {}
      invariant todo <= priorities.Keys
      invariant Lists(keys, priorities.Keys - {dc.id} - todo) && Copies(dc.id, priorities, keys, dcs)
    {
      var key :| key in todo;
      todo := todo - {key};
      if key == dc.id {
        continue;
      }
      dcs := dcs + [DataCenter(dc.id, priorities[key], 0)];
      keys := keys + [key];
    }
  }

  method FailOverRegion(r: Region, priorities: map<string, int>) returns (r': Region)
    ensures FailedRegion(r, priorities, r')
  {
    r' := Region([], 0, "");
    var dcs := r.dataCenters;
    for j := 0 to |dcs|
      invariant Parts(dcs[..j], priorities, r'.dataCenters)
      invariant r' == if j == 0 then Region([], 0, "") else r.(dataCenters := r'.dataCenters)
    {
      r' := r'.(satelliteLogs := r.satelliteLogs, satelliteRedundancyMode := r.satelliteRedundancyMode);
      var part := [dcs[j]];
      if dcs[j].satellite != 1 {
        part := OtherPriorities(priorities, dcs[j]);
      }
      PartsStep(dcs, j, priorities, r'.dataCenters, part);
      r' := r'.(dataCenters := r'.dataCenters + part);
    }
    assert dcs[..|dcs|] == dcs;
  }

  lemma PartsStep(dcs: seq<DataCenter>, j: nat, priorities: map<string, int>, result: seq<DataCenter>,
                  part: seq<DataCenter>)
    requires j < |dcs| && Parts(dcs[..j], priorities, result) && Part(dcs[j], priorities, part)
    ensures Parts(dcs[..j + 1], priorities, result + part)
  {
    var longer, all := dcs[..j + 1], result + part;
    assert longer[..|longer| - 1] == dcs[..j] && longer[|longer| - 1] == dcs[j];
    assert all[..|result|] == result && all[|result|..] == part;
  }

  ghost predicate FailedPrefix(rs: seq<Region>, priorities: map<string, int>, rs': seq<Region>, i: nat) {
    |rs'| == i <= |rs| && forall h :: 0 <= h < i ==> FailedRegion(rs[h], priorities, rs'[h])
  }

  lemma FailedPrefixStep(rs: seq<Region>, priorities: map<string, int>, rs': seq<Region>, i: nat, r: Region)
    requires FailedPrefix(rs, priorities, rs', i) && i < |rs| && FailedRegion(rs[i], priorities, r)
    ensures FailedPrefix(rs, priorities, rs' + [r], i + 1)
  {
  }

  method FailOver(c: Config) returns (r: Config)
    ensures FailedOver(c, r)
  {
    if |c.regions| <= 1 {
      return c;
    }
    var priorities := MainPriorities(c.regions);
    var newRegions := [];
    for i := 0 to |c.regions|
      invariant FailedPrefix(c.regions, priorities, newRegions, i)
    {
      var region := FailOverRegion(c.regions[i], priorities);
      FailedPrefixStep(c.regions, priorities, newRegions, i, region);
      newRegions := newRegions + [region];
    }
    r := c.(regions := newRegions);
  }

  // ----- for how many regions it works -----

  ghost predicate FlagsOf(dcs: seq<DataCenter>) {
    forall j :: 0 <= j < |dcs| ==> 0 <= dcs[j].satellite <= 1
  }

  /** Each region contributes its main data center. */
  lemma {:induction false} PrioritiesOfRegions(rs: seq<Region>)
    requires WellFormedRegions(rs) && SatelliteFlags(rs)
    ensures PriorityMap(Priorities(AllDataCenters(rs)), Mains(rs))
  {
    if rs != [] {
      var front, last := rs[..|rs| - 1], rs[|rs| - 1];
      assert Mains(rs) == Mains(front) + [MainOf(last)];
      FrontProper(Mains(front), MainOf(last));
      PrioritiesOfRegions(front);
      PrioritiesOfOne(AllDataCenters(front), last, |last.dataCenters|);
      assert last.dataCenters[..|last.dataCenters|] == last.dataCenters;
      ExtendPriorityMap(Priorities(AllDataCenters(front)), Mains(front), MainOf(last));
    }
  }

  lemma FrontProper(ms: seq<Main>, m: Main)
    requires ProperIds(ms + [m])
    ensures ProperIds(ms)
  {
    assert forall i :: 0 <= i < |ms| ==> (ms + [m])[i] == ms[i];
  }

  lemma {:induction false} PrioritiesOfOne(before: seq<DataCenter>, r: Region, n: nat)
    requires OneMain(r) && FlagsOf(r.dataCenters) && n <= |r.dataCenters|
    ensures Priorities(before + r.dataCenters[..n])
            == if n <= MainIndex(r.dataCenters) then Priorities(before)
               else Priorities(before)[MainOf(r).id := MainOf(r).priority]
    decreases n
  {
    if n == 0 {
      assert before + r.dataCenters[..0] == before;
    } else {
      PrioritiesOfOne(before, r, n - 1);
      PrioritiesStep(before, r.dataCenters, n - 1);
      OnlyMain(r, n - 1);
    }
  }

  lemma OnlyMain(r: Region, j: nat)
    requires OneMain(r) && FlagsOf(r.dataCenters) && j < |r.dataCenters|
    ensures r.dataCenters[j].satellite == 1 <==> j != MainIndex(r.dataCenters)
  {
  }

  /** With one other data center, the main data center gets its priority. */
  lemma {:induction false} PartsOfTwo(r: Region, n: nat, priorities: map<string, int>, other: string,
                                      result: seq<DataCenter>)
    requires OneMain(r) && FlagsOf(r.dataCenters) && n <= |r.dataCenters| && other != MainOf(r).id
    requires priorities.Keys == {MainOf(r).id, other} && Parts(r.dataCenters[..n], priorities, result)
    ensures result == WithPriority(r, priorities[other]).dataCenters[..n]
  {
    var dcs, swapped := r.dataCenters, WithPriority(r, priorities[other]).dataCenters;
    if n > 0 {
      var cut := LastPart(dcs, n, priorities, result);
      PartsOfTwo(r, n - 1, priorities, other, result[..cut]);
      PartOfTwo(r, n - 1, priorities, other, result[cut..]);
      Snoc(swapped, n, result, cut);
    }
  }

  lemma Snoc<T>(s: seq<T>, n: nat, result: seq<T>, cut: nat)
    requires 0 < n <= |s| && cut <= |result| && result[..cut] == s[..n - 1] && result[cut..] == [s[n - 1]]
    ensures result == s[..n]
  {
    assert result == result[..cut] + result[cut..];
  }

  lemma LastPart(dcs: seq<DataCenter>, n: nat, priorities: map<string, int>, result: seq<DataCenter>) returns (cut: nat)
    requires 0 < n <= |dcs| && Parts(dcs[..n], priorities, result)
    ensures cut <= |result| && Parts(dcs[..n - 1], priorities, result[..cut])
            && Part(dcs[n - 1], priorities, result[cut..])
  {
    var front := dcs[..n];
    assert front[..n - 1] == dcs[..n - 1] && front[n - 1] == dcs[n - 1];
    cut :| cut <= |result| && Parts(front[..|front| - 1], priorities, result[..cut])
           && Part(front[|front| - 1], priorities, result[cut..]);
  }

  lemma PartOfTwo(r: Region, n: nat, priorities: map<string, int>, other: string, part: seq<DataCenter>)
    requires OneMain(r) && FlagsOf(r.dataCenters) && n < |r.dataCenters| && other != MainOf(r).id
    requires priorities.Keys == {MainOf(r).id, other} && Part(r.dataCenters[n], priorities, part)
    ensures part == [WithPriority(r, priorities[other]).dataCenters[n]]
  {
    if n == MainIndex(r.dataCenters) {
      SingleCopy(r.dataCenters[n], priorities, other, part);
    }
  }

  lemma SingleCopy(dc: DataCenter, priorities: map<string, int>, other: string, part: seq<DataCenter>)
    requires other != dc.id && priorities.Keys == {dc.id, other} && Others(dc, priorities, part)
    ensures part == [DataCenter(dc.id, priorities[other], 0)]
  {
    var keys :| Lists(keys, priorities.Keys - {dc.id}) && Copies(dc.id, priorities, keys, part);
    assert other in keys;
    assert keys[0] in keys && keys[|keys| - 1] in keys;
    SamePlace(keys, 0, |keys| - 1);
  }

  lemma SamePlace<T>(s: seq<T>, i: nat, j: nat)
    requires i < |s| && j < |s| && s[i] == s[j] && forall i, j :: 0 <= i < j < |s| ==> s[i] != s[j]
    ensures i == j
  {
  }

  /** With two others, a region gets its main data center twice. */
  lemma {:induction false} PartsOfMore(dcs: seq<DataCenter>, k: nat, priorities: map<string, int>, x: string, y: string,
                                       result: seq<DataCenter>) returns (a: nat, b: nat)
    requires k < |dcs| && dcs[k].satellite != 1 && x != y && x != dcs[k].id && y != dcs[k].id
    requires x in priorities && y in priorities && Parts(dcs, priorities, result)
    ensures a < b < |result| && IsMain(result[a]) && IsMain(result[b])
    decreases |dcs|
  {
    var n := |dcs| - 1;
    assert dcs[..n + 1] == dcs;
    var cut := LastPart(dcs, n + 1, priorities, result);
    if k < n {
      a, b := PartsOfMore(dcs[..n], k, priorities, x, y, result[..cut]);
    } else {
      TwoCopies(dcs[n], priorities, x, y, result[cut..]);
      a, b := cut, cut + 1;
    }
  }

  lemma TwoCopies(dc: DataCenter, priorities: map<string, int>, x: string, y: string, part: seq<DataCenter>)
    requires x != y && x != dc.id && y != dc.id && x in priorities && y in priorities && Others(dc, priorities, part)
    ensures |part| >= 2 && IsMain(part[0]) && IsMain(part[1])
  {
    var keys :| Lists(keys, priorities.Keys - {dc.id}) && Copies(dc.id, priorities, keys, part);
    assert x in keys && y in keys;
  }

  /** For well-formed regions, failing over keeps them well-formed exactly if there are two; then it swaps the
      priorities of the main data centers and changes nothing else. */
  lemma FailOverTheorem(c: Config, r: Config)
    requires WellFormed(c) && SatelliteFlags(c.regions) && |c.regions| >= 2 && FailedOver(c, r)
    ensures WellFormed(r) <==> |c.regions| == 2
    ensures |c.regions| == 2 ==> r == Swapped(c)
  {
    var p := Priorities(AllDataCenters(c.regions));
    PrioritiesOfRegions(c.regions);
    if |c.regions| == 2 {
      forall i | 0 <= i < 2 ensures r.regions[i] == Swapped(c).regions[i] {
        SwapsRegion(c, r, i);
      }
      assert r.regions == Swapped(c).regions;
      SwappedIsWellFormed(c);
    } else {
      var ms := Mains(c.regions);
      var k := MainIndex(c.regions[0].dataCenters);
      assert Has(ms, ms[1].id) && Has(ms, ms[2].id);
      var a, b := PartsOfMore(c.regions[0].dataCenters, k, p, ms[1].id, ms[2].id, r.regions[0].dataCenters);
      assert !OneMain(r.regions[0]);
    }
  }

  lemma TwoKeys(p: map<string, int>, ms: seq<Main>)
    requires |ms| == 2 && PriorityMap(p, ms)
    ensures p.Keys == {ms[0].id, ms[1].id}
  {
    forall id ensures id in p <==> id == ms[0].id || id == ms[1].id {
      assert Has(ms, id) <==> ms[0].id == id || ms[1].id == id;
    }
  }

  lemma SwapsRegion(c: Config, r: Config, i: nat)
    requires TwoRegions(c) && FailedOver(c, r) && i < 2
    ensures r.regions[i] == Swapped(c).regions[i]
  {
    var p, region, other := Priorities(AllDataCenters(c.regions)), c.regions[i], MainOf(c.regions[1 - i]).id;
    var ms := Mains(c.regions);
    PrioritiesOfRegions(c.regions);
    assert ms[0].id != ms[1].id;
    assert p.Keys == {MainOf(region).id, other} by { TwoKeys(p, ms); }
    assert FlagsOf(region.dataCenters) && region.dataCenters[..|region.dataCenters|] == region.dataCenters;
    PartsOfTwo(region, |region.dataCenters|, p, other, r.regions[i].dataCenters);
  }

  lemma SwappedIsWellFormed(c: Config)
    requires TwoRegions(c)
    ensures TwoRegions(Swapped(c))
  {
    var r0, r1, s := c.regions[0], c.regions[1], Swapped(c);
    WithPriorityMain(r0, MainOf(r1).priority);
    WithPriorityMain(r1, MainOf(r0).priority);
    assert MainOf(r0) == Mains(c.regions)[0] && MainOf(r1) == Mains(c.regions)[1];
    assert s.regions[0] == WithPriority(r0, MainOf(r1).priority)
        && s.regions[1] == WithPriority(r1, MainOf(r0).priority);
  }

  // ----- the primary -----

  /** The primary is the main data center with the highest priority, the first one if there are several.
      A priority equal to Go's smallest int never wins. */
  const MIN_INT: int := -0x8000_0000_0000_0000

  /** All data centers that are no satellites, in order. */
  function MainList(dcs: seq<DataCenter>): seq<Main> {
    if dcs == [] then []
    else
      var last := dcs[|dcs| - 1];
      MainList(dcs[..|dcs| - 1]) + if IsMain(last) then [Main(last.id, last.priority)] else []
  }

  method GetPrimaryDCID(c: Config) returns (candidate: string)
    ensures candidate == PrimaryId(MainList(AllDataCenters(c.regions)))
  {
    candidate := "";
    var priority := MIN_INT;
    for i := 0 to |c.regions|
      invariant Best(MainList(AllDataCenters(c.regions[..i]))) == Main(candidate, priority)
    {
      var dcs := c.regions[i].dataCenters;
      ghost var before := AllDataCenters(c.regions[..i]);
      assert before + dcs[..0] == before;
      for j := 0 to |dcs|
        invariant Best(MainList(before + dcs[..j])) == Main(candidate, priority)
      {
        BestStep(before, dcs, j);
        if dcs[j].satellite != 0 {
          continue;
        }
        if dcs[j].priority > priority {
          candidate := dcs[j].id;
          priority := dcs[j].priority;
        }
      }
      assert dcs[..|dcs|] == dcs && c.regions[..i + 1][..i] == c.regions[..i];
    }
    assert c.regions[..|c.regions|] == c.regions;
  }

  lemma BestStep(before: seq<DataCenter>, dcs: seq<DataCenter>, j: nat)
    requires j < |dcs|
    ensures var best := Best(MainList(before + dcs[..j]));
            Best(MainList(before + dcs[..j + 1])) == if IsMain(dcs[j])
                then Better(best, Main(dcs[j].id, dcs[j].priority)) else best
  {
    var longer := before + dcs[..j + 1];
    assert longer[..|longer| - 1] == before + dcs[..j] && longer[|longer| - 1] == dcs[j];
    var ms := MainList(before + dcs[..j]);
    var m := Main(dcs[j].id, dcs[j].priority);
    assert (ms + [m])[..|ms|] == ms && ms + [] == ms;
  }

  lemma {:induction false} MainListOfOne(before: seq<DataCenter>, r: Region, n: nat)
    requires OneMain(r) && n <= |r.dataCenters|
    ensures MainList(before + r.dataCenters[..n]) == MainList(before) + if n <= MainIndex(r.dataCenters) then []
            else [MainOf(r)]
  {
    if n == 0 {
      assert before + r.dataCenters[..0] == before;
    } else {
      MainListOfOne(before, r, n - 1);
      var all := before + r.dataCenters[..n];
      assert all[..|all| - 1] == before + r.dataCenters[..n - 1] && all[|all| - 1] == r.dataCenters[n - 1];
    }
  }

  /** With one main data center per region, these are the main data centers. */
  lemma {:induction false} MainListIsMains(rs: seq<Region>)
    requires AllOneMain(rs)
    ensures MainList(AllDataCenters(rs)) == Mains(rs)
  {
    if rs != [] {
      var front, last := rs[..|rs| - 1], rs[|rs| - 1];
      MainListIsMains(front);
      MainListOfOne(AllDataCenters(front), last, |last.dataCenters|);
      assert last.dataCenters[..|last.dataCenters|] == last.dataCenters;
    }
  }

  function Better(a: Main, b: Main): Main {
    if b.priority > a.priority then b else a
  }

  function Best(ms: seq<Main>): Main {
    if ms == [] then Main("", MIN_INT) else Better(Best(ms[..|ms| - 1]), ms[|ms| - 1])
  }

  function PrimaryId(ms: seq<Main>): string {
    Best(ms).id
  }

  /** No main data center beats the primary, and it is the first such. */
  lemma {:induction false} PrimaryIsBest(ms: seq<Main>)
    ensures forall i :: 0 <= i < |ms| ==> ms[i].priority <= Best(ms).priority
    ensures (exists i :: 0 <= i < |ms| && ms[i].priority > MIN_INT) ==>
              exists i :: 0 <= i < |ms| && ms[i] == Best(ms)
                && forall j :: 0 <= j < i ==> ms[j].priority < ms[i].priority
    ensures Best(ms).priority >= MIN_INT && (Best(ms).priority == MIN_INT ==> Best(ms).id == "")
  {
    if ms != [] {
      var front, last := ms[..|ms| - 1], ms[|ms| - 1];
      PrimaryIsBest(front);
      assert forall i :: 0 <= i < |front| ==> ms[i] == front[i];
      if last.priority > Best(front).priority {
        assert ms[|ms| - 1] == Best(ms);
      } else if Best(front).priority > MIN_INT {
        assert exists i :: 0 <= i < |front| && front[i].priority > MIN_INT by {
          if forall i :: 0 <= i < |front| ==> front[i].priority <= MIN_INT {
            BestOfNone(front);
          }
        }
        var i :| 0 <= i < |front| && front[i] == Best(front)
          && forall j :: 0 <= j < i ==> front[j].priority < front[i].priority;
        assert ms[i] == Best(ms);
      }
    }
  }

  lemma {:induction false} BestOfNone(ms: seq<Main>)
    requires forall i :: 0 <= i < |ms| ==> ms[i].priority <= MIN_INT
    ensures Best(ms) == Main("", MIN_INT)
  {
    if ms != [] {
      BestOfNone(ms[..|ms| - 1]);
    }
  }

  /** Failing over twice changes nothing, and with different priorities the primary moves to the other region. */
  lemma FailOverMovesPrimary(c: Config, r: Config, r': Config)
    requires TwoRegions(c) && FailedOver(c, r) && FailedOver(r, r')
    ensures TwoRegions(r) && r' == c
    ensures var ms := Mains(c.regions);
            ms[0].priority != ms[1].priority && ms[0].priority >= MIN_INT && ms[1].priority >= MIN_INT ==>
              {PrimaryId(ms), PrimaryId(Mains(r.regions))} == {ms[0].id, ms[1].id}
  {
    FailOverTheorem(c, r);
    SwappedIsWellFormed(c);
    FailOverTheorem(r, r');
    var r0, r1 := c.regions[0], c.regions[1];
    WithPriorityMain(r0, MainOf(r1).priority);
    WithPriorityMain(r1, MainOf(r0).priority);
    assert MainOf(r0) == Mains(c.regions)[0] && MainOf(r1) == Mains(c.regions)[1];
    assert Swapped(r).regions == c.regions;
    BestOfTwo(Mains(c.regions));
    BestOfTwo(Mains(r.regions));
  }

  lemma BestOfTwo(ms: seq<Main>)
    requires |ms| == 2
    ensures Best(ms) == Better(Better(Main("", MIN_INT), ms[0]), ms[1])
  {
    assert ms[..|ms| - 1] == [ms[0]];
    assert [ms[0]][..|[ms[0]]| - 1] == [];
    assert Best([ms[0]]) == Better(Best([]), ms[0]);
  }
}
