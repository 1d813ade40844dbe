/** The planner as the operator computes it: loops over regions and over priority maps. The order
    in which a map is visited is left open, so a proof covers every order. */
module Planner {
  import opened Regions
  import opened PlannerSpec

  method GetRegionPriorities(rs: seq<Region>) returns (m: map<string, int>)
    requires WellFormedRegions(rs)
    ensures PriorityMap(m, Mains(rs))
  {
    m := map[];
    ghost var ms := Mains(rs);
    for i := 0 to |rs|
      invariant PriorityMap(m, ms[..i])
    {
      var dcs := rs[i].dataCenters;
      ghost var before := m;
      ghost var k := MainIndex(dcs);
      for j := 0 to |dcs|
        invariant m == if j <= k then before else before[dcs[k].id := dcs[k].priority]
      {
        if dcs[j].satellite == 0 {
          m := m[dcs[j].id := dcs[j].priority];
        }
      }
      PriorityMapStep(before, ms, i);
    }
    assert ms[..|rs|] == ms;
  }

  lemma PriorityMapStep(m: map<string, int>, ms: seq<Main>, i: nat)
    requires i < |ms| && ProperIds(ms) && PriorityMap(m, ms[..i])
    ensures PriorityMap(m[ms[i].id := ms[i].priority], ms[..i + 1])
  {
    assert ms[..i + 1] == ms[..i] + [ms[i]];
    ExtendPriorityMap(m, ms[..i], ms[i]);
  }

  method GetRegion(fin: seq<Region>, id: string, priority: int) returns (r: Region)
    requires WellFormedRegions(fin)
    ensures r == RegionFor(fin, id, priority)
  {
    for i := 0 to |fin|
      invariant forall h :: 0 <= h < i ==> MainOf(fin[h]).id != id
    {
      var dcs := fin[i].dataCenters;
      ghost var k := MainIndex(dcs);
      for j := 0 to |dcs|
        invariant j > k ==> dcs[k].id != id
      {
        if dcs[j].satellite == 0 && dcs[j].id == id {
          assert j == k;
          RegionForAt(fin, i, priority);
          return fin[i].(dataCenters := dcs[j := dcs[j].(priority := priority)]);
        }
      }
    }
    r := Region([DataCenter(id, priority, 0)], 0, "");
  }

  /** Step 1: every region takes over what the final configuration says about it, except for the priority. */
  method SyncSatellites(rs: seq<Region>, fin: seq<Region>) returns (result: seq<Region>)
    requires WellFormedRegions(rs) && WellFormedRegions(fin)
    ensures result == Build(fin, Mains(rs))
  {
    result := rs;
    for i := 0 to |rs|
      invariant |result| == |rs|
      invariant forall h :: 0 <= h < i ==> result[h] == Build(fin, Mains(rs))[h]
      invariant forall h :: i <= h < |rs| ==> result[h] == rs[h]
    {
      var dcs := rs[i].dataCenters;
      for j := 0 to |dcs|
        invariant j <= MainIndex(dcs)
      {
        if dcs[j].satellite == 0 {
          var region := GetRegion(fin, dcs[j].id, dcs[j].priority);
          result := result[i := region];
          break;
        }
      }
    }
  }

  /** The id to add next: one of `next` that is not in `current`, with the highest priority; "" if there is none. */
  method ChooseRegion(current: map<string, int>, next: map<string, int>) returns (best: string)
    requires "" !in next
    ensures best == "" ==> forall id :: id in next ==> id in current
    ensures best != "" ==> best in next && best !in current
                           && forall id :: id in next && id !in current ==> next[id] <= next[best]
  {
    best := "";
    var todo := next.Keys;
    while todo != {}
      invariant todo <= next.Keys
      invariant best == "" ==> forall id :: id in next && id !in todo ==> id in current
      invariant best != "" ==> best in next && best !in current
      invariant best != "" ==> forall id :: id in next && id !in todo && id !in current ==> next[id] <= next[best]
    {
      var id :| id in todo;
      todo := todo - {id};
      if id !in current && (best == "" || next[id] > next[best]) {
        best := id;
      }
    }
  }

  /** Regions have joined, but maybe not yet all that should. */
  ghost predicate PartlyGrown(ms: seq<Main>, fs: seq<Main>, ms': seq<Main>) {
    && ms <= ms' && (|ms'| <= 2 || ms' == ms)
    && forall k :: |ms| <= k < |ms'| ==> Joins(ms'[..k], fs, ms'[k])
  }

  lemma GrownCases(ms: seq<Main>, fs: seq<Main>, ms': seq<Main>)
    requires PartlyGrown(ms, fs, ms') && (|ms'| >= 2 || !AnyMissing(ms', fs))
    ensures if |ms| < 2 && AnyMissing(ms, fs) then Grow(ms, fs, ms') && |ms'| > |ms| else ms' == ms
  {
    assert |ms'| == |ms| ==> ms' == ms;
    if |ms'| > |ms| {
      assert ms'[..|ms|] == ms;
      assert Joins(ms, fs, ms'[|ms|]);
    }
  }

  lemma JoinExtends(ms: seq<Main>, ms': seq<Main>, fs: seq<Main>, m: Main)
    requires PartlyGrown(ms, fs, ms') && |ms'| < 2 && Joins(ms', fs, m)
    ensures PartlyGrown(ms, fs, ms' + [m])
  {
    var longer := ms' + [m];
    forall k | |ms| <= k < |longer| ensures Joins(longer[..k], fs, longer[k]) {
      assert longer[..|ms'|] == ms';
      assert k < |ms'| ==> longer[..k] == ms'[..k];
    }
  }

  method AddRegion(regions: seq<Region>, current: map<string, int>, next: map<string, int>,
                   fin: seq<Region>, regionToAdd: string, ghost ms: seq<Main>)
    returns (result: seq<Region>, current': map<string, int>, ghost ms': seq<Main>)
    requires WellFormedRegions(fin) && ProperIds(ms)
    requires PriorityMap(current, ms) && PriorityMap(next, Mains(fin)) && regions == Build(fin, ms)
    requires regionToAdd in next && regionToAdd !in current
    requires forall id :: id in next && id !in current ==> next[id] <= next[regionToAdd]
    ensures |ms'| == |ms| + 1 && ms' == ms + [ms'[|ms|]] && Joins(ms, Mains(fin), ms'[|ms|])
    ensures result == Build(fin, ms') && PriorityMap(current', ms') && ProperIds(ms')
  {
    var priority := -1;
    if |regions| == 0 {
      priority := 1;
    }
    var region := GetRegion(fin, regionToAdd, priority);
    result := regions + [region];
    current' := current[regionToAdd := priority];
    ghost var m := Main(regionToAdd, priority);
    ChosenJoins(ms, Mains(fin), current, next, regionToAdd, priority);
    ChosenExtends(ms, Mains(fin), current, next, m);
    BuildOneMore(fin, ms, m);
    ms' := ms + [m];
  }

  /** Step 2. */
  method AddRegions(regions: seq<Region>, current: map<string, int>, next: map<string, int>,
                    fin: seq<Region>, ghost ms: seq<Main>)
    returns (result: seq<Region>)
    requires WellFormedRegions(fin) && ProperIds(ms)
    requires PriorityMap(current, ms) && PriorityMap(next, Mains(fin)) && regions == Build(fin, ms)
    ensures exists grown :: PartlyGrown(ms, Mains(fin), grown) && (|grown| >= 2 || !AnyMissing(grown, Mains(fin)))
                            && result == Build(fin, grown)
  {
    ghost var fs, ms' := Mains(fin), ms;
    var current' := current;
    result := regions;
    var regionToAdd := "none";
    while |result| < 2 && regionToAdd != ""
      invariant result == Build(fin, ms') && PriorityMap(current', ms') && ProperIds(ms')
      invariant PartlyGrown(ms, fs, ms')
      invariant regionToAdd == "" ==> !AnyMissing(ms', fs)
      decreases 2 - |result|, regionToAdd != ""
    {
      regionToAdd := ChooseRegion(current', next);
      if regionToAdd != "" {
        ghost var before := ms';
        result, current', ms' := AddRegion(result, current', next, fin, regionToAdd, before);
        JoinExtends(ms, before, fs, ms'[|before|]);
      }
    }
  }

  lemma ChosenJoins(ms: seq<Main>, fs: seq<Main>, current: map<string, int>, next: map<string, int>, id: string,
                    priority: int)
    requires PriorityMap(current, ms) && PriorityMap(next, fs)
    requires id in next && id !in current
    requires forall id' :: id' in next && id' !in current ==> next[id'] <= next[id]
    requires priority == if ms == [] then 1 else -1
    ensures Joins(ms, fs, Main(id, priority))
  {
    var i :| 0 <= i < |fs| && fs[i].id == id;
    assert Missing(ms, fs, i);
    forall j | Missing(ms, fs, j) ensures fs[j].priority <= fs[i].priority {
      assert fs[j].id in next && fs[j].id !in current;
    }
  }

  lemma ChosenExtends(ms: seq<Main>, fs: seq<Main>, current: map<string, int>, next: map<string, int>, m: Main)
    requires ProperIds(ms) && ProperIds(fs) && PriorityMap(current, ms) && PriorityMap(next, fs)
    requires m.id in next && m.id !in current
    ensures PriorityMap(current[m.id := m.priority], ms + [m]) && ProperIds(ms + [m])
  {
    assert !Has(ms, m.id) && Has(fs, m.id);
    forall i | 0 <= i < |ms| ensures ms[i].id != m.id {}
    ExtendPriorityMap(current, ms, m);
  }

  lemma BuildOneMore(fin: seq<Region>, ms: seq<Main>, m: Main)
    requires AllOneMain(fin)
    ensures Build(fin, ms + [m]) == Build(fin, ms) + [RegionFor(fin, m.id, m.priority)]
  {
  }

  method MainIds(rs: seq<Region>) returns (ids: seq<string>)
    requires AllOneMain(rs)
    ensures |ids| == |rs| && forall i :: 0 <= i < |rs| ==> ids[i] == MainOf(rs[i]).id
  {
    ids := [];
    for i := 0 to |rs|
      invariant |ids| == i && forall h :: 0 <= h < i ==> ids[h] == MainOf(rs[h]).id
    {
      var main := MainIdsOf(rs[i]);
      ids := ids + main;
    }
  }

  method MainIdsOf(r: Region) returns (ids: seq<string>)
    requires OneMain(r)
    ensures ids == [MainOf(r).id]
  {
    ids := [];
    ghost var k := MainIndex(r.dataCenters);
    for j := 0 to |r.dataCenters|
      invariant ids == if j <= k then [] else [r.dataCenters[k].id]
    {
      if r.dataCenters[j].satellite == 0 {
        ids := ids + [r.dataCenters[j].id];
      }
    }
  }

  method HasMain(r: Region, id: string) returns (found: bool)
    requires OneMain(r)
    ensures found <==> MainOf(r).id == id
  {
    found := false;
    ghost var m := MainIndex(r.dataCenters);
    for j := 0 to |r.dataCenters|
      invariant found <==> j > m && r.dataCenters[m].id == id
    {
      if r.dataCenters[j].satellite == 0 && r.dataCenters[j].id == id {
        found := true;
      }
    }
  }

  /** The first `i` elements, without element `k`. */
  ghost function Without<T>(s: seq<T>, k: nat, i: nat): seq<T>
    requires k < |s| && i <= |s|
  {
    if i <= k then s[..i] else s[..k] + s[k + 1..i]
  }

  lemma WithoutStep<T>(s: seq<T>, k: nat, i: nat)
    requires k < |s| && i < |s|
    ensures Without(s, k, i + 1) == if i == k then Without(s, k, i) else Without(s, k, i) + [s[i]]
  {
    if i == k {
      assert s[k + 1..i + 1] == [];
    }
  }

  lemma OnlyOneMain(rs: seq<Region>, i: nat, k: nat)
    requires WellFormedRegions(rs) && i < |rs| && k < |rs|
    ensures MainOf(rs[i]).id == MainOf(rs[k]).id <==> i == k
  {
    assert Mains(rs)[i] == MainOf(rs[i]) && Mains(rs)[k] == MainOf(rs[k]);
  }

  /** The regions without the one whose main data center is `id`. */
  method DropRegion(rs: seq<Region>, id: string, ghost k: nat) returns (result: seq<Region>)
    requires WellFormedRegions(rs) && k < |rs| && MainOf(rs[k]).id == id
    ensures result == rs[..k] + rs[k + 1..]
  {
    result := [];
    for i := 0 to |rs|
      invariant result == Without(rs, k, i)
    {
      var toRemove := HasMain(rs[i], id);
      OnlyOneMain(rs, i, k);
      WithoutStep(rs, k, i);
      if !toRemove {
        result := result + [rs[i]];
      }
    }
    assert rs[k + 1..|rs|] == rs[k + 1..];
  }

  /** The region with main data center `id` gets priority -1; `alternative` tells if it is another
      region with a positive priority. */
  method DemoteMain(r: Region, id: string) returns (r': Region, alternative: bool)
    requires OneMain(r)
    ensures r' == if MainOf(r).id == id then WithPriority(r, -1) else r
    ensures alternative <==> MainOf(r).id != id && MainOf(r).priority > 0
  {
    r', alternative := r, false;
    var dcs := r.dataCenters;
    ghost var m := MainIndex(dcs);
    for j := 0 to |dcs|
      invariant r' == if j > m && dcs[m].id == id then WithPriority(r, -1) else r
      invariant alternative <==> j > m && dcs[m].id != id && dcs[m].priority > 0
    {
      if dcs[j].satellite == 0 {
        if dcs[j].id == id {
          r' := r'.(dataCenters := dcs[j := dcs[j].(priority := -1)]);
        } else if dcs[j].priority > 0 {
          alternative := true;
        }
      }
    }
  }

  /** A region with another main data center than `id` gets priority 1. */
  method PromoteMain(r: Region, id: string) returns (r': Region)
    requires OneMain(r)
    ensures r' == if MainOf(r).id != id then WithPriority(r, 1) else r
  {
    r' := r;
    var dcs := r.dataCenters;
    for j := 0 to |dcs|
      invariant r' == r && (MainOf(r).id != id ==> j <= MainIndex(dcs))
    {
      if dcs[j].satellite == 0 {
        if dcs[j].id != id {
          return r.(dataCenters := dcs[j := dcs[j].(priority := 1)]);
        }
      }
    }
  }

  /** The stale region gets priority -1; unless another region has a positive priority, the others get priority 1. */
  method DemoteRegion(rs: seq<Region>, id: string, ghost k: nat) returns (result: seq<Region>)
    requires WellFormedRegions(rs) && k < |rs| && MainOf(rs[k]).id == id
    ensures AllOneMain(result) && Mains(result) == Demote(Mains(rs), k)
    ensures forall i :: 0 <= i < |rs| ==> result[i] == WithPriority(rs[i], MainOf(result[i]).priority)
  {
    ghost var ms := Mains(rs);
    result := rs;
    var hasAlternativePrimary := false;
    for i := 0 to |rs|
      invariant |result| == |rs|
      invariant forall h :: 0 <= h < |rs| ==> result[h] == if h == k && h < i then WithPriority(rs[h], -1) else rs[h]
      invariant hasAlternativePrimary <==> exists h :: 0 <= h < i && h != k && ms[h].priority > 0
    {
      assert ms[i].id == id <==> i == k by { assert ms[i].id == ms[k].id <==> i == k; }
      var region, alternative := DemoteMain(rs[i], id);
      result := result[i := region];
      hasAlternativePrimary := hasAlternativePrimary || alternative;
    }
    if !hasAlternativePrimary {
      WithPriorityMain(rs[k], -1);
      for i := 0 to |rs|
        invariant |result| == |rs|
        invariant forall h :: 0 <= h < |rs| ==>
          result[h] == if h == k then WithPriority(rs[h], -1) else if h < i then WithPriority(rs[h], 1) else rs[h]
      {
        assert ms[i].id == id <==> i == k by { assert ms[i].id == ms[k].id <==> i == k; }
        var region := PromoteMain(result[i], id);
        result := result[i := region];
      }
    }
    forall h | 0 <= h < |rs| ensures OneMain(result[h]) && MainOf(result[h]) == Demote(ms, k)[h]
                               && result[h] == WithPriority(rs[h], MainOf(result[h]).priority)
    {
      WithPriorityMain(rs[h], -1);
      WithPriorityMain(rs[h], 1);
    }
  }

  method SetMain(r: Region, next: map<string, int>) returns (r': Region)
    requires OneMain(r) && MainOf(r).id in next
    ensures r' == WithPriority(r, next[MainOf(r).id])
  {
    r' := r;
    var dcs := r.dataCenters;
    for j := 0 to |dcs|
      invariant r' == r && j <= MainIndex(dcs)
    {
      if dcs[j].satellite == 0 {
        return r.(dataCenters := dcs[j := dcs[j].(priority := next[dcs[j].id])]);
      }
    }
  }

  /** All main priorities are set to what the map says. */
  method SetPriorities(rs: seq<Region>, next: map<string, int>) returns (result: seq<Region>)
    requires AllOneMain(rs) && forall i :: 0 <= i < |rs| ==> MainOf(rs[i]).id in next
    ensures |result| == |rs|
    ensures forall i :: 0 <= i < |rs| ==> result[i] == WithPriority(rs[i], next[MainOf(rs[i]).id])
  {
    result := rs;
    for i := 0 to |rs|
      invariant |result| == |rs|
      invariant forall h :: 0 <= h < |rs|
                  ==> result[h] == if h < i then WithPriority(rs[h], next[MainOf(rs[h]).id]) else rs[h]
    {
      var region := SetMain(rs[i], next);
      result := result[i := region];
    }
  }

  // ----- step 4: the two priority maps -----

  /** `m`, and -1 for what only `other` has. */
  ghost function Extended(m: map<string, int>, other: map<string, int>): map<string, int> {
    map id | id in m.Keys + other.Keys :: if id in m then m[id] else -1
  }

  /** Adds -1 for every id of `current` that `next` lacks, and finds a highest current priority. */
  method ExtendNext(current: map<string, int>, next: map<string, int>) returns (next': map<string, int>, top: string)
    requires "" !in current
    ensures next' == Extended(next, current)
    ensures if current == map[] then top == ""
            else top in current && forall id :: id in current ==> current[id] <= current[top]
  {
    next', top := next, "";
    var todo := current.Keys;
    while todo != {}
      invariant todo <= current.Keys
      invariant next' == map id | id in next.Keys + (current.Keys - todo) :: if id in next then next[id] else -1
      invariant if todo == current.Keys then top == ""
                else top in current && forall id :: id in current && id !in todo ==> current[id] <= current[top]
    {
      var id :| id in todo;
      todo := todo - {id};
      if id !in next' {
        next' := next'[id := -1];
      }
      if top == "" || current[top] < current[id] {
        top := id;
      }
    }
  }

  lemma PriorityMapValue(m: map<string, int>, ms: seq<Main>, id: string)
    requires PriorityMap(m, ms) && ProperIds(ms)
    ensures Prio(ms, id) == if id in m then m[id] else -1
  {
    if id in m {
      var i :| 0 <= i < |ms| && ms[i].id == id;
      PrioAt(ms, i);
    } else {
      PrioAbsent(ms, id);
    }
  }

  /** The first main data center id is not empty, so the empty id stands for "none". */
  lemma NoEmptyId(m: map<string, int>, ms: seq<Main>)
    requires PriorityMap(m, ms) && ProperIds(ms)
    ensures "" !in m && (m == map[] <==> ms == [])
  {
    if ms != [] {
      assert ms[0].id in m;
    } else {
      assert forall id :: id !in m;
    }
  }

  lemma TopOf(current: map<string, int>, ms: seq<Main>, top: string)
    requires PriorityMap(current, ms) && ProperIds(ms)
    requires if current == map[] then top == ""
             else top in current && forall id :: id in current ==> current[id] <= current[top]
    ensures IsTop(ms, top)
  {
    NoEmptyId(current, ms);
    if ms != [] {
      var i :| 0 <= i < |ms| && ms[i].id == top;
      assert forall j :: 0 <= j < |ms| ==> ms[j].priority <= ms[i].priority;
    }
  }

  /** The two maps step 4 compares. The region `top` keeps its priority if otherwise none were left non-negative. */
  method NextPriorities(current: map<string, int>, next: map<string, int>, ghost ms: seq<Main>, ghost fs: seq<Main>)
    returns (current': map<string, int>, next': map<string, int>, ghost top: string)
    requires PriorityMap(current, ms) && PriorityMap(next, fs) && ProperIds(ms) && ProperIds(fs)
    ensures IsTop(ms, top) && current' == Extended(current, next)
    ensures next' == if AllNegative(fs)
            then Extended(next, current)[top := if top in current' then current'[top] else 0]
                     else Extended(next, current)
  {
    NoEmptyId(current, ms);
    NoEmptyId(next, fs);
    var maxCurrent, maxNext;
    next', maxCurrent := ExtendNext(current, next);
    top := maxCurrent;
    assert IsTop(ms, top) by { TopOf(current, ms, top); }
    ghost var extended := next';
    current', maxNext := ExtendNext(next', current);
    ExtendedTwice(current, next);
    assert AllNegative(fs) <==> (extended == map[] || extended[maxNext] < 0) by {
      AllNegativeMap(next, fs, extended, maxNext);
    }
    if maxNext == "" || next'[maxNext] < 0 {
      next' := next'[maxCurrent := if maxCurrent in current' then current'[maxCurrent] else 0];
    }
  }

  lemma ExtendedTwice(current: map<string, int>, next: map<string, int>)
    ensures Extended(current, Extended(next, current)) == Extended(current, next)
  {
  }

  lemma AllNegativeMap(next: map<string, int>, fs: seq<Main>, extended: map<string, int>, top: string)
    requires PriorityMap(next, fs) && ProperIds(fs)
    requires forall id :: id in next ==> id in extended && extended[id] == next[id]
    requires forall id :: id in extended && id !in next ==> extended[id] == -1
    requires extended != map[] ==> top in extended && forall id :: id in extended ==> extended[id] <= extended[top]
    ensures AllNegative(fs) <==> (extended == map[] || extended[top] < 0)
  {
    if extended == map[] {
      assert forall i :: 0 <= i < |fs| ==> fs[i].id in extended;
    } else if AllNegative(fs) {
      if top in next {
        var i :| 0 <= i < |fs| && fs[i].id == top;
      }
    } else {
      var i :| 0 <= i < |fs| && fs[i].priority >= 0;
      assert extended[fs[i].id] >= 0;
    }
  }

  /** The maps agree exactly if no priority has to change. */
  lemma MapsAgree(current: map<string, int>, next: map<string, int>, ms: seq<Main>, fs: seq<Main>, top: string,
                  next': map<string, int>)
    requires PriorityMap(current, ms) && PriorityMap(next, fs) && ProperIds(ms) && ProperIds(fs) && IsTop(ms, top)
    requires var current' := Extended(current, next);
             next' == if AllNegative(fs)
                 then Extended(next, current)[top := if top in current' then current'[top] else 0]
                      else Extended(next, current)
    requires ms != [] || fs == []
    ensures Extended(current, next) == next' <==> Settled(ms, fs, top)
    ensures forall i :: 0 <= i < |ms| ==> ms[i].id in next' && next'[ms[i].id] == Goal(ms, fs, top, ms[i].id)
  {
    var current' := Extended(current, next);
    NoEmptyId(current, ms);
    NoEmptyId(next, fs);
    forall id ensures Prio(ms, id) == (if id in current then current[id] else -1)
                   && Prio(fs, id) == (if id in next then next[id] else -1)
    {
      PriorityMapValue(current, ms, id);
      PriorityMapValue(next, fs, id);
    }
    if ms == [] {
      assert "" in next' && "" !in current';
    } else {
      assert top in current;
      assert current'.Keys == next'.Keys;
      assert forall id :: id in next' ==> next'[id] == Goal(ms, fs, top, id);
      if Settled(ms, fs, top) {
        SettledMeansEqual(current', next', ms, fs, top);
      } else if current' == next' {
        EqualMeansSettled(current', ms, fs, top);
      }
    }
  }

  lemma SettledMeansEqual(current': map<string, int>, next': map<string, int>, ms: seq<Main>, fs: seq<Main>,
                          top: string)
    requires current'.Keys == next'.Keys && IsTop(ms, top) && ProperIds(fs)
    requires forall id :: id in current' ==> (Has(ms, id) || Has(fs, id)) && current'[id] == Prio(ms, id)
    requires forall id :: id in next' ==> next'[id] == Goal(ms, fs, top, id)
    requires ProperIds(ms) && Settled(ms, fs, top)
    ensures current' == next'
  {
    forall id | id in current' ensures current'[id] == next'[id] {
      if i :| 0 <= i < |ms| && ms[i].id == id {
        PrioAt(ms, i);
      } else {
        var i :| 0 <= i < |fs| && fs[i].id == id;
        assert Missing(ms, fs, i);
        PrioAbsent(ms, id);
        PrioAt(fs, i);
      }
    }
  }

  lemma EqualMeansSettled(current': map<string, int>, ms: seq<Main>, fs: seq<Main>, top: string)
    requires ms != [] && ProperIds(ms) && ProperIds(fs) && IsTop(ms, top)
    requires forall id :: Has(ms, id) || Has(fs, id) ==> id in current'
    requires forall id :: id in current' ==> current'[id] == Prio(ms, id) && current'[id] == Goal(ms, fs, top, id)
    ensures Settled(ms, fs, top)
  {
    forall i | 0 <= i < |ms| ensures ms[i].priority == Goal(ms, fs, top, ms[i].id) {
      assert Has(ms, ms[i].id);
      PrioAt(ms, i);
    }
    forall i | Missing(ms, fs, i) ensures fs[i].priority == -1 {
      assert Has(fs, fs[i].id);
      PrioAt(fs, i);
      PrioAbsent(ms, fs[i].id);
    }
  }

  // ----- steps 3 to 6 -----

  lemma StaleInMaps(final: map<string, int>, ms: seq<Main>, fs: seq<Main>, i: nat)
    requires PriorityMap(final, fs) && i < |ms|
    ensures ms[i].id !in final <==> Stale(ms, fs, i)
  {
  }

  /** The index of the first stale region with a negative priority, or the number of regions. */
  method FindRemovable(ids: seq<string>, current: map<string, int>, final: map<string, int>, ghost cur: Shape,
                       ghost fin: Shape)
    returns (k: nat)
    requires PriorityMap(current, cur.mains) && PriorityMap(final, fin.mains)
    requires |ids| == |cur.mains| && forall i :: 0 <= i < |ids| ==> ids[i] == cur.mains[i].id
    ensures k <= |ids|
    ensures k < |ids| ==> FirstRemovable(cur, fin, k)
    ensures k == |ids| ==> !(exists i :: Removable(cur, fin, i))
  {
    for i := 0 to |ids|
      invariant forall j :: 0 <= j < i ==> !Removable(cur, fin, j)
    {
      StaleInMaps(final, cur.mains, fin.mains, i);
      if ids[i] !in final {
        if current[ids[i]] >= 0 {
          continue;
        }
        return i;
      }
    }
    k := |ids|;
  }

  /** The index of the first stale region that can be demoted, or the number of regions. */
  method FindDemotable(ids: seq<string>, current: map<string, int>, final: map<string, int>, usable: int,
                       ghost cur: Shape, ghost fin: Shape)
    returns (k: nat)
    requires PriorityMap(current, cur.mains) && PriorityMap(final, fin.mains) && usable == cur.usable
    requires |ids| == |cur.mains| && forall i :: 0 <= i < |ids| ==> ids[i] == cur.mains[i].id
    requires !(exists i :: Removable(cur, fin, i))
    ensures k <= |ids|
    ensures k < |ids| ==> FirstDemotable(cur, fin, k)
    ensures k == |ids| ==> !(exists i :: Demotable(cur, fin, i))
  {
    for i := 0 to |ids|
      invariant forall j :: 0 <= j < i ==> !Demotable(cur, fin, j)
    {
      StaleInMaps(final, cur.mains, fin.mains, i);
      assert !Removable(cur, fin, i);
      if ids[i] !in final {
        if current[ids[i]] > 0 && usable < 2 {
          continue;
        }
        return i;
      }
    }
    k := |ids|;
  }

  /** Step 3, first half: retire the first stale region with a negative priority. */
  method RetireRegion(c: Config, f: Config, regions: seq<Region>, id: string, ghost k: nat) returns (r: Config)
    requires WellFormed(c) && WellFormed(f) && !SameRegions(c, f) && regions == Build(f.regions, Mains(c.regions))
    requires |c.regions| > 1 && f.regions != []
    requires k < |c.regions| && MainOf(c.regions[k]).id == id && FirstRemovable(ShapeOf(c), ShapeOf(f), k)
    ensures Next(c, f, r)
  {
    BuildMains(f.regions, Mains(c.regions));
    RetireIsNext(c, f, k);
    if c.usableRegions != |regions| - 1 {
      r := c.(usableRegions := |regions| - 1, regions := regions);
    } else {
      var rest := DropRegion(regions, id, k);
      r := c.(regions := rest);
    }
  }

  lemma RetireIsNext(c: Config, f: Config, k: nat)
    requires WellFormed(c) && WellFormed(f) && !SameRegions(c, f) && |c.regions| > 1 && f.regions != []
    requires FirstRemovable(ShapeOf(c), ShapeOf(f), k)
    ensures var rs := Build(f.regions, Mains(c.regions));
            if c.usableRegions != |rs| - 1
            then Next(c, f, c.(usableRegions := |rs| - 1, regions := rs))
            else Next(c, f, c.(regions := rs[..k] + rs[k + 1..]))
  {
    var cur, ms := ShapeOf(c), Mains(c.regions);
    var rs := Build(f.regions, ms);
    RetireDecides(cur, ShapeOf(f), k);
    if c.usableRegions != |rs| - 1 {
      NextBy(c, f, Reshape(cur.(usable := |ms| - 1)));
    } else {
      assert rs[..k] + rs[k + 1..] == Build(f.regions, ms[..k] + ms[k + 1..]);
      NextBy(c, f, Reshape(cur.(mains := ms[..k] + ms[k + 1..])));
    }
  }

  lemma RetireDecides(cur: Shape, fin: Shape, k: nat)
    requires |cur.mains| > 1 && fin.mains != [] && FirstRemovable(cur, fin, k)
    ensures if cur.usable != |cur.mains| - 1
            then Decides(cur, fin, Reshape(cur.(usable := |cur.mains| - 1)))
            else Decides(cur, fin, Reshape(cur.(mains := cur.mains[..k] + cur.mains[k + 1..])))
  {
  }

  lemma RebuiltFrom(fin: seq<Region>, ms: seq<Main>, rs: seq<Region>, ms': seq<Main>)
    requires WellFormedRegions(fin) && |rs| == |ms| == |ms'|
    requires AllOneMain(Build(fin, ms))
    requires forall i :: 0 <= i < |ms|
               ==> ms'[i].id == ms[i].id && rs[i] == WithPriority(Build(fin, ms)[i], ms'[i].priority)
    ensures rs == Build(fin, ms')
  {
    forall i | 0 <= i < |ms| ensures rs[i] == Build(fin, ms')[i] {
      RegionForMain(fin, ms[i].id, ms[i].priority);
    }
  }

  /** Step 3, second half: a stale region stops being a candidate for primary. */
  method DemoteStale(c: Config, f: Config, regions: seq<Region>, id: string, ghost k: nat) returns (r: Config)
    requires WellFormed(c) && WellFormed(f) && !SameRegions(c, f) && regions == Build(f.regions, Mains(c.regions))
    requires |c.regions| > 1 && f.regions != [] && !(exists i :: Removable(ShapeOf(c), ShapeOf(f), i))
    requires k < |c.regions| && MainOf(c.regions[k]).id == id && FirstDemotable(ShapeOf(c), ShapeOf(f), k)
    ensures Next(c, f, r)
  {
    ghost var cur, fin := ShapeOf(c), ShapeOf(f);
    ghost var ms := cur.mains;
    BuildMains(f.regions, ms);
    var demoted := DemoteRegion(regions, id, k);
    RebuiltFrom(f.regions, ms, demoted, Demote(ms, k));
    r := c.(regions := demoted);
    assert Decides(cur, fin, Reshape(cur.(mains := Demote(ms, k))));
    NextBy(c, f, Reshape(cur.(mains := Demote(ms, k))));
  }

  method Reprioritize(regions: seq<Region>, next: map<string, int>, ghost fin: seq<Region>, ghost ms: seq<Main>,
                      ghost top: string)
    returns (result: seq<Region>)
    requires WellFormedRegions(fin) && regions == Build(fin, ms)
    requires forall i :: 0 <= i < |ms| ==> ms[i].id in next && next[ms[i].id] == Goal(ms, Mains(fin), top, ms[i].id)
    ensures result == Build(fin, Reprioritized(ms, Mains(fin), top))
  {
    BuildMains(fin, ms);
    assert forall i :: 0 <= i < |ms| ==> MainOf(regions[i]) == ms[i];
    result := SetPriorities(regions, next);
    RebuiltFrom(fin, ms, result, Reprioritized(ms, Mains(fin), top));
  }

  /** No region joins, none is retired or demoted. */
  ghost predicate OnlyPrioritiesLeft(cur: Shape, fin: Shape) {
    && !(|cur.mains| < 2 && AnyMissing(cur.mains, fin.mains))
    && (|cur.mains| > 1 && fin.mains != [] ==>
          !(exists i :: Removable(cur, fin, i)) && !(exists i :: Demotable(cur, fin, i)))
  }

  lemma PrioritiesDecide(c: Config, f: Config, top: string, d: Decision)
    requires WellFormed(c) && WellFormed(f) && !SameRegions(c, f) && OnlyPrioritiesLeft(ShapeOf(c), ShapeOf(f))
    requires IsTop(Mains(c.regions), top) && DecidesPriorities(ShapeOf(c), ShapeOf(f), top, d)
    ensures Next(c, f, Apply(c, f, d))
  {
    NextBy(c, f, d);
  }

  /** Steps 4 to 6. */
  method SettlePriorities(c: Config, f: Config, regions: seq<Region>, current: map<string, int>, next: map<string, int>)
    returns (r: Config)
    requires WellFormed(c) && WellFormed(f) && !SameRegions(c, f) && regions == Build(f.regions, Mains(c.regions))
    requires PriorityMap(current, Mains(c.regions)) && PriorityMap(next, Mains(f.regions))
    requires OnlyPrioritiesLeft(ShapeOf(c), ShapeOf(f))
    ensures Next(c, f, r)
  {
    ghost var cur, fin := ShapeOf(c), ShapeOf(f);
    ghost var ms, fs := cur.mains, fin.mains;
    var current', next';
    ghost var top;
    current', next', top := NextPriorities(current, next, ms, fs);
    assert ms == [] && fs != [] ==> Missing(ms, fs, 0);
    MapsAgree(current, next, ms, fs, top, next');
    ghost var d;
    if current' != next' {
      if c.usableRegions != |c.regions| {
        r := c.(usableRegions := |c.regions|, regions := regions);
        d := Reshape(cur.(usable := |ms|));
      } else {
        var prioritized := Reprioritize(regions, next', f.regions, ms, top);
        r := c.(regions := prioritized);
        d := Reshape(cur.(mains := Reprioritized(ms, fs, top)));
      }
    } else if c.usableRegions != f.usableRegions {
      r := c.(usableRegions := f.usableRegions, regions := regions);
      d := Reshape(cur.(usable := fin.usable));
    } else {
      r := c.(regions := f.regions, regionsAreNil := f.regionsAreNil);
      d := AdoptFinal;
    }
    assert r == Apply(c, f, d);
    PrioritiesDecide(c, f, top, d);
  }

  /** The next marginal change on the way from `c` to `f`. */
  method GetNextConfigurationChange(c: Config, f: Config) returns (r: Config)
    requires WellFormed(c) && WellFormed(f)
    ensures Next(c, f, r)
  {
    if c.regions == f.regions && c.regionsAreNil == f.regionsAreNil {
      return f;
    }
    ghost var cur, fin := ShapeOf(c), ShapeOf(f);
    var currentPriorities := GetRegionPriorities(c.regions);
    var finalPriorities := GetRegionPriorities(f.regions);
    var regions := SyncSatellites(c.regions, f.regions);

    var grown := AddRegions(regions, currentPriorities, finalPriorities, f.regions, cur.mains);
    ghost var ms' :| PartlyGrown(cur.mains, fin.mains, ms') && (|ms'| >= 2 || !AnyMissing(ms', fin.mains))
                     && grown == Build(f.regions, ms');
    GrownCases(cur.mains, fin.mains, ms');
    if |grown| != |c.regions| {
      r := c.(regions := grown, regionsAreNil := false);
      NextBy(c, f, Reshape(cur.(mains := ms')));
      return;
    }

    var ids := MainIds(c.regions);
    if |c.regions| > 1 && |f.regions| > 0 {
      var k := FindRemovable(ids, currentPriorities, finalPriorities, cur, fin);
      if k < |ids| {
        r := RetireRegion(c, f, grown, ids[k], k);
        return;
      }
      k := FindDemotable(ids, currentPriorities, finalPriorities, c.usableRegions, cur, fin);
      if k < |ids| {
        r := DemoteStale(c, f, grown, ids[k], k);
        return;
      }
    }
    r := SettlePriorities(c, f, grown, currentPriorities, finalPriorities);
  }
}
