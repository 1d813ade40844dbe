/** What rolling updates promise over whole runs: a bound on unavailable fault domains, and exactly for which groups,
    modes and limits it holds. */
module RollingUpdate {
  import opened Basics
  import opened Ordering
  import opened UpdatePods
  import opened PodDeletion

  ghost predicate OnePodEach(gs: seq<Group>) {
    forall i, j :: 0 <= i < j < |gs| ==> gs[i].pod != gs[j].pod
  }

  lemma SubsetSize<T>(a: set<T>, b: set<T>)
    requires a <= b
    ensures |a| <= |b|
  {
    assert b == a + (b - a);
  }

  function Max(a: int, b: int): int {
    if a < b then b else a
  }

  // ----- which Pods one pass deletes -----

  /** Two groups whose Pods one pass may delete together. */
  predicate Together(mode: Mode, g: Group, h: Group) {
    mode == All || (mode == PerZone && g.verdict == h.verdict)
  }

  /** A group that fails stops a pass, and so does a Pod that is missing recently if there is something to update. */
  ghost predicate Stopped(gs: seq<Group>) {
    || (exists i :: 0 <= i < |gs| && gs[i].verdict.Fail?)
    || (Waits(gs) && exists i :: 0 <= i < |gs| && gs[i].verdict.Update?)
  }

  ghost predicate Waits(gs: seq<Group>) {
    exists i :: 0 <= i < |gs| && gs[i].verdict == PodMissing(true)
  }

  /** The group may be updated under this limit. */
  predicate Eligible(gs: seq<Group>, limit: int, i: nat) {
    i < |gs| && gs[i].verdict.Update? && WithinLimit(gs[i], UnavailableDomains(gs), limit)
  }

  /** These Pods may be deleted by one pass. */
  ghost predicate OnePassDeletes(gs: seq<Group>, mode: Mode, limit: int, pods: seq<Pod>) {
    && (forall i: nat :: i < |gs| && gs[i].pod in pods ==> Eligible(gs, limit, i))
    && (forall i, j :: 0 <= i < j < |gs| && gs[i].pod in pods && gs[j].pod in pods ==> Together(mode, gs[i], gs[j]))
    && (Stopped(gs) && |UnavailableDomains(gs)| < limit ==> pods == [])
  }

  /** The group of a Pod among the updates of a zone. */
  lemma GroupOf(gs: seq<Group>, limit: int, zone: Zone, i: nat)
    requires OnePodEach(gs) && i < |gs| && gs[i].pod in PodsIn(gs, UnavailableDomains(gs), limit, zone)
    ensures gs[i].verdict == Update(zone) && Eligible(gs, limit, i)
  {
    PodsInMember(gs, UnavailableDomains(gs), limit, zone, gs[i].pod);
    var h :| 0 <= h < |gs| && gs[h].pod == gs[i].pod && gs[h].verdict == Update(zone)
      && WithinLimit(gs[h], UnavailableDomains(gs), limit);
    assert h == i;
  }

  /** A Pod of a choice is among the updates of a zone, which is the choice's zone unless all zones are chosen. */
  lemma ChosenPod(mode: Mode, updates: Updates, known: Zone, c: Choice, pod: Pod) returns (zone: Zone)
    requires Chosen(mode, updates, known, Some(c)) && pod in c.pods
    ensures pod in PodsAt(updates, zone) && (mode == All || zone == c.zone)
  {
    zone := c.zone;
    if mode == All {
      zone :| zone in updates && pod in updates[zone];
    } else if mode == ProcessGroup {
      assert updates[c.zone][0] in updates[c.zone];
    }
  }

  lemma StoppedIsNone(gs: seq<Group>, limit: int, updates: Option<Updates>)
    requires Stopped(gs) && |UnavailableDomains(gs)| < limit && Wanted(gs, limit, updates)
    ensures updates.None?
  {
    var domains := UnavailableDomains(gs);
    var some := AnyUpdate(gs, domains, limit);
    if i :| 0 <= i < |gs| && gs[i].verdict.Fail? {
      assert Blocks(gs[i], domains, limit, some);
    } else {
      var i :| 0 <= i < |gs| && gs[i].verdict.Update?;
      PodsInMember(gs, domains, limit, gs[i].verdict.zone, gs[i].pod);
      assert PodsIn(gs, domains, limit, gs[i].verdict.zone) != [];
      var j :| 0 <= j < |gs| && gs[j].verdict == PodMissing(true);
      assert Blocks(gs[j], domains, limit, some);
    }
  }

  lemma ChosenGroup(gs: seq<Group>, mode: Mode, limit: int, updates: Updates, known: Zone, c: Choice, i: nat)
    requires OnePodEach(gs) && Wanted(gs, limit, Some(updates)) && Chosen(mode, updates, known, Some(c))
    requires i < |gs| && gs[i].pod in c.pods
    ensures Eligible(gs, limit, i) && (mode == All || gs[i].verdict == Update(c.zone))
  {
    var zone := ChosenPod(mode, updates, known, c, gs[i].pod);
    assert PodsAt(updates, zone) == PodsIn(gs, UnavailableDomains(gs), limit, zone);
    GroupOf(gs, limit, zone, i);
  }

  lemma AtMostOne(mode: Mode, updates: Updates, known: Zone, c: Choice)
    requires Chosen(mode, updates, known, Some(c)) && mode != All && mode != PerZone
    ensures |c.pods| <= 1
  {
  }

  lemma ChoiceIsOnePass(gs: seq<Group>, mode: Mode, limit: int, updates: Updates, known: Zone, c: Choice)
    requires OnePodEach(gs) && Wanted(gs, limit, Some(updates)) && Chosen(mode, updates, known, Some(c))
    ensures OnePassDeletes(gs, mode, limit, c.pods)
  {
    ChosenGroups(gs, mode, limit, updates, known, c);
    if mode != All && mode != PerZone {
      AtMostOne(mode, updates, known, c);
    }
    ChosenTogether(gs, mode, c.pods, c.zone);
    if Stopped(gs) && |UnavailableDomains(gs)| < limit {
      StoppedIsNone(gs, limit, Some(updates));
    }
  }

  /** The groups of these Pods are in one zone, unless all zones are chosen. */
  ghost predicate InZone(gs: seq<Group>, mode: Mode, pods: seq<Pod>, zone: Zone) {
    forall i: nat :: i < |gs| && gs[i].pod in pods ==> mode == All || gs[i].verdict == Update(zone)
  }

  lemma ChosenGroups(gs: seq<Group>, mode: Mode, limit: int, updates: Updates, known: Zone, c: Choice)
    requires OnePodEach(gs) && Wanted(gs, limit, Some(updates)) && Chosen(mode, updates, known, Some(c))
    ensures forall i: nat :: i < |gs| && gs[i].pod in c.pods ==> Eligible(gs, limit, i)
    ensures InZone(gs, mode, c.pods, c.zone)
  {
    forall i: nat | i < |gs| && gs[i].pod in c.pods
      ensures Eligible(gs, limit, i) && (mode == All || gs[i].verdict == Update(c.zone))
    {
      ChosenGroup(gs, mode, limit, updates, known, c, i);
    }
  }

  lemma ChosenTogether(gs: seq<Group>, mode: Mode, pods: seq<Pod>, zone: Zone)
    requires OnePodEach(gs) && InZone(gs, mode, pods, zone) && (mode == All || mode == PerZone || |pods| <= 1)
    ensures forall i, j :: 0 <= i < j < |gs| && gs[i].pod in pods && gs[j].pod in pods ==> Together(mode, gs[i], gs[j])
  {
  }

  lemma DeletedIsChosen(c: Choice, a: Answers)
    ensures forall pod :: pod in Deleted(c, a) ==> pod in c.pods
    ensures c.pods == [] ==> Deleted(c, a) == []
  {
  }

  lemma FewerDeleted(gs: seq<Group>, mode: Mode, limit: int, pods: seq<Pod>, fewer: seq<Pod>)
    requires OnePassDeletes(gs, mode, limit, pods) && (forall pod :: pod in fewer ==> pod in pods)
    requires pods == [] ==> fewer == []
    ensures OnePassDeletes(gs, mode, limit, fewer)
  {
  }

  /** What a pass does to the groups. */
  lemma PassDeletes(w: World, s: Settings, a: Answers, w': World) returns (pods: seq<Pod>)
    requires Pass(w, s, a, w') && OnePodEach(w.groups)
    ensures w'.groups == Terminate(w.groups, pods) && OnePassDeletes(w.groups, s.mode, s.limit, pods)
  {
    pods := [];
    if w'.groups != w.groups {
      var updates, c := ChangingPass(w, s, a, w');
      ChoiceIsOnePass(w.groups, s.mode, s.limit, updates, Known(w, a), c);
      DeletedIsChosen(c, a);
      FewerDeleted(w.groups, s.mode, s.limit, c.pods, Deleted(c, a));
      pods := Deleted(c, a);
    } else {
      assert Terminate(w.groups, []) == w.groups;
    }
  }

  /** A pass that changes groups carries out a choice. */
  lemma ChangingPass(w: World, s: Settings, a: Answers, w': World) returns (updates: Updates, c: Choice)
    requires Pass(w, s, a, w') && w'.groups != w.groups
    ensures Wanted(w.groups, s.limit, Some(updates)) && Chosen(s.mode, updates, Known(w, a), Some(c))
    ensures w'.groups == Terminate(w.groups, Deleted(c, a))
  {
    var wanted: Option<Updates> :| Wanted(w.groups, s.limit, wanted) && PassFor(w, s, a, wanted, w');
    updates := wanted.value;
    var choice: Option<Choice> :| Chosen(s.mode, updates, Known(w, a), choice)
      && w' == if choice.None? then w else After(w, s, a, choice.value);
    c := choice.value;
    AfterGroups(w, s, a, c);
  }

  lemma AfterGroups(w: World, s: Settings, a: Answers, c: Choice)
    ensures After(w, s, a, c).groups == w.groups || After(w, s, a, c).groups == Terminate(w.groups, Deleted(c, a))
  {
  }

  // ----- the bound -----

  /** Taking down this group makes a further fault domain unavailable. */
  ghost predicate Fresh(gs: seq<Group>, i: nat) {
    && i < |gs| && gs[i].verdict.Update? && IsStateful(gs[i].pod.kind) && !Unavailable(gs[i])
    && gs[i].faultDomain !in UnavailableDomains(gs)
  }

  /** What one pass may delete together lies in one further fault domain. */
  ghost predicate OneDomainEach(gs: seq<Group>, mode: Mode) {
    forall i: nat, j: nat :: Fresh(gs, i) && Fresh(gs, j) && Together(mode, gs[i], gs[j])
      ==> gs[i].faultDomain == gs[j].faultDomain
  }

  /** A fault domain that a pass makes unavailable is that of a fresh group, which the limit allowed. */
  lemma NewDomain(gs: seq<Group>, mode: Mode, limit: int, pods: seq<Pod>, domain: Zone) returns (i: nat)
    requires OnePassDeletes(gs, mode, limit, pods)
    requires domain in UnavailableDomains(Terminate(gs, pods)) && domain !in UnavailableDomains(gs)
    ensures Fresh(gs, i) && gs[i].faultDomain == domain && gs[i].pod in pods && |UnavailableDomains(gs)| < limit
  {
    var after := Terminate(gs, pods);
    i :| i < |after| && Unavailable(after[i]) && after[i].faultDomain == domain;
    assert after[i] == Terminated(gs[i], pods);
    assert gs[i].pod in pods && Eligible(gs, limit, i);
  }

  lemma DeletionIsBounded(gs: seq<Group>, mode: Mode, limit: int, pods: seq<Pod>)
    requires OnePassDeletes(gs, mode, limit, pods) && (Stopped(gs) || OneDomainEach(gs, mode))
    ensures |UnavailableDomains(Terminate(gs, pods))| <= Max(|UnavailableDomains(gs)|, limit)
  {
    var before, after := UnavailableDomains(gs), UnavailableDomains(Terminate(gs, pods));
    if after <= before {
      SubsetSize(after, before);
    } else {
      var d :| d in after && d !in before;
      var i := NewDomain(gs, mode, limit, pods, d);
      forall e | e in after && e !in before ensures e == d {
        var j := NewDomain(gs, mode, limit, pods, e);
        assert i == j || Together(mode, gs[i], gs[j]);
      }
      SubsetSize(after, before + {d});
    }
  }

  /** One pass leaves no more fault domains unavailable than there were, or than the limit allows. */
  lemma RollingUpdateBound(w: World, s: Settings, a: Answers, w': World)
    requires Pass(w, s, a, w') && OnePodEach(w.groups) && (Stopped(w.groups) || OneDomainEach(w.groups, s.mode))
    ensures |UnavailableDomains(w'.groups)| <= Max(|UnavailableDomains(w.groups)|, s.limit)
  {
    var pods := PassDeletes(w, s, a, w');
    DeletionIsBounded(w.groups, s.mode, s.limit, pods);
  }

  /** A pass, or any other change that makes no further fault domain unavailable. */
  ghost predicate UpdateStep(w: World, w': World, mode: Mode, limit: int) {
    || (exists s: Settings, a: Answers :: s.limit == limit && s.mode == mode && Pass(w, s, a, w'))
    || UnavailableDomains(w'.groups) <= UnavailableDomains(w.groups)
  }

  ghost predicate UpdateRun(ws: seq<World>, mode: Mode, limit: int) {
    && (forall i :: 0 <= i < |ws|
          ==> OnePodEach(ws[i].groups) && (Stopped(ws[i].groups) || OneDomainEach(ws[i].groups, mode)))
    && (forall i, j :: 0 <= i && j == i + 1 && j < |ws| ==> UpdateStep(ws[i], ws[j], mode, limit))
  }

  /** Staying within the limit is an invariant as long as only the operator takes Pods down. */
  lemma {:induction false} RunStaysWithinLimit(ws: seq<World>, mode: Mode, limit: int, i: nat)
    requires UpdateRun(ws, mode, limit) && i < |ws|
    ensures |UnavailableDomains(ws[i].groups)| <= Max(|UnavailableDomains(ws[0].groups)|, limit)
  {
    if i > 0 {
      RunStaysWithinLimit(ws, mode, limit, i - 1);
      var w, w' := ws[i - 1], ws[i];
      assert UpdateStep(w, w', mode, limit);
      if UnavailableDomains(w'.groups) <= UnavailableDomains(w.groups) {
        SubsetSize(UnavailableDomains(w'.groups), UnavailableDomains(w.groups));
      } else {
        var s: Settings, a: Answers :| s.limit == limit && s.mode == mode && Pass(w, s, a, w');
        RollingUpdateBound(w, s, a, w');
      }
    }
  }

  /** The zone that a Pod reports is the fault domain of its group. */
  ghost predicate ZonesAgree(gs: seq<Group>) {
    forall i :: 0 <= i < |gs| && gs[i].verdict.Update? ==> gs[i].verdict.zone == gs[i].faultDomain
  }

  /** Where zones agree with fault domains, one zone at a time is one fault domain at a time. */
  lemma AgreeingZones(gs: seq<Group>)
    requires ZonesAgree(gs)
    ensures OneDomainEach(gs, PerZone)
  {
  }

  // ----- passes that delete as much as they may -----

  /** The updates that the loop over the groups collects. */
  ghost function UpdatesOf(gs: seq<Group>, domains: set<Zone>, limit: int): Updates {
    if gs == [] then map[]
    else
      var rest, g := UpdatesOf(gs[..|gs| - 1], domains, limit), gs[|gs| - 1];
      if WithinLimit(g, domains, limit) && g.verdict.Update?
      then rest[g.verdict.zone := PodsAt(rest, g.verdict.zone) + [g.pod]]
      else rest
  }

  lemma {:induction false} UpdatesListed(gs: seq<Group>, domains: set<Zone>, limit: int)
    ensures Listed(UpdatesOf(gs, domains, limit), gs, domains, limit)
  {
    if gs != [] {
      var n := |gs| - 1;
      UpdatesListed(gs[..n], domains, limit);
      ListedStep(UpdatesOf(gs[..n], domains, limit), gs, domains, limit, n, UpdatesOf(gs, domains, limit));
      assert gs[..n + 1] == gs;
    }
  }

  lemma UpdatesWanted(gs: seq<Group>, limit: int)
    requires !Stopped(gs)
    ensures Wanted(gs, limit, Some(UpdatesOf(gs, UnavailableDomains(gs), limit)))
  {
    var domains := UnavailableDomains(gs);
    UpdatesListed(gs, domains, limit);
    if zone :| PodsIn(gs, domains, limit, zone) != [] {
      PodsInMember(gs, domains, limit, zone, PodsIn(gs, domains, limit, zone)[0]);
    }
  }

  /** The Pods of some groups, in order. */
  ghost function PodsOf(gs: seq<Group>, mode: Mode, zone: Zone): seq<Pod> {
    if gs == [] then []
    else PodsOf(gs[..|gs| - 1], mode, zone) + if Joins(gs[|gs| - 1], mode, zone) then [gs[|gs| - 1].pod] else []
  }

  predicate Joins(g: Group, mode: Mode, zone: Zone) {
    g.verdict.Update? && (mode == All || g.verdict.zone == zone)
  }

  lemma {:induction false} PodsOfMember(gs: seq<Group>, mode: Mode, zone: Zone, pod: Pod)
    ensures pod in PodsOf(gs, mode, zone) <==> exists i :: 0 <= i < |gs| && gs[i].pod == pod && Joins(gs[i], mode, zone)
  {
    if gs != [] {
      var front := gs[..|gs| - 1];
      assert gs == front + [gs[|gs| - 1]];
      PodsOfMember(front, mode, zone, pod);
      assert forall i :: 0 <= i < |front| ==> front[i] == gs[i];
    }
  }

  /** Below the limit, the updates of a zone are all Pods to update there. */
  lemma {:induction false} PodsOfZone(gs: seq<Group>, domains: set<Zone>, limit: int, zone: Zone)
    requires |domains| < limit
    ensures PodsIn(gs, domains, limit, zone) == PodsOf(gs, PerZone, zone)
  {
    if gs != [] {
      PodsOfZone(gs[..|gs| - 1], domains, limit, zone);
    }
  }

  lemma AllPodsChosen(gs: seq<Group>, limit: int, zone: Zone, known: Zone)
    requires |UnavailableDomains(gs)| < limit
    ensures Chosen(All, UpdatesOf(gs, UnavailableDomains(gs), limit), known,
                   Some(Choice("cluster", PodsOf(gs, All, zone))))
  {
    var domains, pods := UnavailableDomains(gs), PodsOf(gs, All, zone);
    var updates := UpdatesOf(gs, domains, limit);
    UpdatesListed(gs, domains, limit);
    forall pod ensures pod in pods <==> exists z :: z in updates && pod in updates[z] {
      PodsOfMember(gs, All, zone, pod);
      if i :| 0 <= i < |gs| && gs[i].pod == pod && Joins(gs[i], All, zone) {
        var z := gs[i].verdict.zone;
        PodsInMember(gs, domains, limit, z, pod);
        assert pod in PodsAt(updates, z);
      }
      if z :| z in updates && pod in updates[z] {
        assert pod in PodsAt(updates, z);
        PodsInMember(gs, domains, limit, z, pod);
      }
    }
  }

  lemma ZoneChosen(gs: seq<Group>, limit: int, zone: Zone)
    requires |UnavailableDomains(gs)| < limit && PodsOf(gs, PerZone, zone) != []
    ensures Chosen(PerZone, UpdatesOf(gs, UnavailableDomains(gs), limit), zone,
                   Some(Choice(zone, PodsOf(gs, PerZone, zone))))
  {
    var domains := UnavailableDomains(gs);
    var updates := UpdatesOf(gs, domains, limit);
    UpdatesListed(gs, domains, limit);
    PodsOfZone(gs, domains, limit, zone);
    assert PodsAt(updates, zone) == PodsIn(gs, domains, limit, zone);
    assert zone in Allowed(updates, zone);
    if zone == "" {
      forall z | z in Allowed(updates, zone) && z != zone ensures StringLess(zone, z) {}
    }
  }

  /** A choice without maintenance is carried out. */
  lemma PassWith(w: World, s: Settings, a: Answers, updates: Updates, c: Choice)
    requires Wanted(w.groups, s.limit, Some(updates)) && updates != map[] && !s.paused && !s.replacing
    requires Chosen(s.mode, updates, Known(w, a), Some(c))
    ensures Pass(w, s, a, After(w, s, a, c))
  {
    assert PassFor(w, s, a, Some(updates), After(w, s, a, c));
  }

  /** A pass that deletes all Pods in all zones, or in the zone of group `i`. */
  lemma FullPass(gs: seq<Group>, mode: Mode, limit: int, i: nat)
    returns (w: World, s: Settings, a: Answers, pods: seq<Pod>)
    requires (mode == All || mode == PerZone) && |UnavailableDomains(gs)| < limit && !Stopped(gs)
    requires i < |gs| && gs[i].verdict.Update?
    ensures s.mode == mode && s.limit == limit && w.groups == gs && pods == PodsOf(gs, mode, gs[i].verdict.zone)
    ensures Pass(w, s, a, w.(groups := Terminate(gs, pods)))
  {
    var zone := gs[i].verdict.zone;
    var updates := UpdatesOf(gs, UnavailableDomains(gs), limit);
    pods := PodsOf(gs, mode, zone);
    PodsOfMember(gs, mode, zone, gs[i].pod);
    w, s := World(gs, zone, {}), Settings(mode, false, limit, false, false);
    a := Answers(true, Some(true), true, true, true, |pods|);
    var c := Choice(if mode == All then "cluster" else zone, pods);
    UpdatesWanted(gs, limit);
    if mode == All {
      AllPodsChosen(gs, limit, zone, zone);
    } else {
      ZoneChosen(gs, limit, zone);
    }
    SomethingToUpdate(gs, limit, i);
    PassWith(w, s, a, updates, c);
    assert After(w, s, a, c) == w.(groups := Terminate(gs, pods));
  }

  lemma SomethingToUpdate(gs: seq<Group>, limit: int, i: nat)
    requires |UnavailableDomains(gs)| < limit && i < |gs| && gs[i].verdict.Update?
    ensures UpdatesOf(gs, UnavailableDomains(gs), limit) != map[]
  {
    var domains, zone := UnavailableDomains(gs), gs[i].verdict.zone;
    UpdatesListed(gs, domains, limit);
    PodsInMember(gs, domains, limit, zone, gs[i].pod);
    assert PodsAt(UpdatesOf(gs, domains, limit), zone) == PodsIn(gs, domains, limit, zone);
  }

  lemma StaysUnavailable(gs: seq<Group>, pods: seq<Pod>, i: nat)
    requires i < |gs| && IsStateful(gs[i].pod.kind) && (gs[i].pod in pods || Unavailable(gs[i]))
    ensures gs[i].faultDomain in UnavailableDomains(Terminate(gs, pods))
  {
    var after := Terminate(gs, pods);
    assert after[i] == Terminated(gs[i], pods);
    assert Unavailable(after[i]) && after[i].faultDomain == gs[i].faultDomain;
  }

  // ----- for exactly which groups the bound holds -----

  /** Every pass over these groups, under every limit, leaves no more fault domains unavailable than there were, or than
      the limit allows. */
  ghost predicate KeepsBoundFor(gs: seq<Group>, mode: Mode) {
    forall w: World, s: Settings, a: Answers, w': World :: Pass(w, s, a, w') && w.groups == gs && s.mode == mode ==>
      |UnavailableDomains(w'.groups)| <= Max(|UnavailableDomains(gs)|, s.limit)
  }

  lemma TwoDomainsAtOnce(gs: seq<Group>, mode: Mode, i: nat, j: nat)
    requires !Stopped(gs) && Fresh(gs, i) && Fresh(gs, j) && Together(mode, gs[i], gs[j])
    requires gs[i].faultDomain != gs[j].faultDomain
    ensures !KeepsBoundFor(gs, mode)
  {
    var w, s, a, pods := FullPass(gs, mode, |UnavailableDomains(gs)| + 1, i);
    PodsOfMember(gs, mode, gs[i].verdict.zone, gs[i].pod);
    PodsOfMember(gs, mode, gs[i].verdict.zone, gs[j].pod);
    TwoMoreDown(gs, pods, i, j);
  }

  lemma TwoMoreDown(gs: seq<Group>, pods: seq<Pod>, i: nat, j: nat)
    requires Fresh(gs, i) && Fresh(gs, j) && gs[i].pod in pods && gs[j].pod in pods
    requires gs[i].faultDomain != gs[j].faultDomain
    ensures |UnavailableDomains(Terminate(gs, pods))| >= |UnavailableDomains(gs)| + 2
  {
    var before, after := UnavailableDomains(gs), UnavailableDomains(Terminate(gs, pods));
    StaysUnavailable(gs, pods, i);
    StaysUnavailable(gs, pods, j);
    forall d | d in before ensures d in after {
      var k :| 0 <= k < |gs| && Unavailable(gs[k]) && gs[k].faultDomain == d;
      StaysUnavailable(gs, pods, k);
    }
    SubsetSize(before + {gs[i].faultDomain, gs[j].faultDomain}, after);
  }

  /** The bound holds for exactly the groups that stop every pass, or of which no two are deleted together that would
      make two further fault domains unavailable. */
  lemma ZoneTheorem(gs: seq<Group>, mode: Mode)
    requires OnePodEach(gs)
    ensures KeepsBoundFor(gs, mode) <==> Stopped(gs) || OneDomainEach(gs, mode)
  {
    if Stopped(gs) || OneDomainEach(gs, mode) {
      forall w: World, s: Settings, a: Answers, w': World | Pass(w, s, a, w') && w.groups == gs && s.mode == mode
        ensures |UnavailableDomains(w'.groups)| <= Max(|UnavailableDomains(gs)|, s.limit)
      {
        RollingUpdateBound(w, s, a, w');
      }
    } else {
      var i: nat, j: nat :| Fresh(gs, i) && Fresh(gs, j) && Together(mode, gs[i], gs[j])
        && gs[i].faultDomain != gs[j].faultDomain;
      TwoDomainsAtOnce(gs, mode, i, j);
    }
  }

  // ----- for exactly which modes and limits the bound holds -----

  /** Every pass with this mode and limit leaves no more fault domains unavailable than there were, or than the limit
      allows. */
  ghost predicate KeepsBound(mode: Mode, limit: int) {
    forall w: World, s: Settings, a: Answers, w': World ::
      Pass(w, s, a, w') && s.mode == mode && s.limit == limit && OnePodEach(w.groups) ==>
        |UnavailableDomains(w'.groups)| <= Max(|UnavailableDomains(w.groups)|, limit)
  }

  function DomainName(i: nat): Zone {
    seq(i + 1, _ => 'z')
  }

  /** A storage Pod to update. In simulations all Pods report the same zone. */
  function StoragePod(i: nat, simulation: bool): Group {
    Group(Pod(DomainName(i), STORAGE, DomainName(i)), DomainName(i), false, Running,
          Update(if simulation then "simulation" else DomainName(i)))
  }

  ghost function StoragePods(n: nat, simulation: bool): (gs: seq<Group>)
    ensures |gs| == n && forall i :: 0 <= i < n ==> gs[i] == StoragePod(i, simulation)
  {
    seq(n, i requires 0 <= i < n => StoragePod(i, simulation))
  }

  lemma DomainNames(i: nat, j: nat)
    ensures DomainName(i) == DomainName(j) <==> i == j
  {
    assert |DomainName(i)| == i + 1 && |DomainName(j)| == j + 1;
  }

  lemma AllAvailable(n: nat, simulation: bool)
    ensures var gs := StoragePods(n, simulation);
            UnavailableDomains(gs) == {} && OnePodEach(gs) && !Stopped(gs) && (!simulation ==> ZonesAgree(gs))
  {
    var gs := StoragePods(n, simulation);
    forall i, j | 0 <= i < j < n ensures gs[i].pod != gs[j].pod {
      DomainNames(i, j);
    }
  }

  ghost function DomainNameSet(n: nat): set<Zone> {
    set i | 0 <= i < n :: DomainName(i)
  }

  lemma {:induction false} CountDomains(n: nat)
    ensures |DomainNameSet(n)| == n
  {
    if n > 0 {
      CountDomains(n - 1);
      assert DomainName(n - 1) !in DomainNameSet(n - 1) by {
        forall i | 0 <= i < n - 1 ensures DomainName(i) != DomainName(n - 1) { DomainNames(i, n - 1); }
      }
      assert DomainNameSet(n) == DomainNameSet(n - 1) + {DomainName(n - 1)};
    }
  }

  lemma AllDomainsDown(n: nat, simulation: bool, pods: seq<Pod>)
    requires forall i :: 0 <= i < n ==> StoragePod(i, simulation).pod in pods
    ensures |UnavailableDomains(Terminate(StoragePods(n, simulation), pods))| == n
  {
    var gs := StoragePods(n, simulation);
    var after := Terminate(gs, pods);
    forall domain ensures domain in UnavailableDomains(after) <==> domain in DomainNameSet(n) {
      if i :| 0 <= i < n && DomainName(i) == domain {
        StaysUnavailable(gs, pods, i);
      }
      if i :| 0 <= i < |after| && Unavailable(after[i]) && after[i].faultDomain == domain {
        assert after[i] == Terminated(gs[i], pods) && DomainName(i) == domain;
      }
    }
    assert UnavailableDomains(after) == DomainNameSet(n);
    CountDomains(n);
  }

  /** One pass takes down any number of fault domains, under any positive limit, if it deletes all Pods, or if it
      deletes a zone at a time and the zone is that of a simulation. */
  lemma TakesDownAll(n: nat, mode: Mode, limit: int) returns (w: World, s: Settings, a: Answers, w': World)
    requires n > 0 && limit > 0 && (mode == All || mode == PerZone)
    ensures Pass(w, s, a, w') && s.mode == mode && s.limit == limit && OnePodEach(w.groups)
    ensures mode == All ==> ZonesAgree(w.groups)
    ensures |UnavailableDomains(w.groups)| == 0 && |UnavailableDomains(w'.groups)| == n
  {
    var simulation := mode == PerZone;
    var gs := StoragePods(n, simulation);
    AllAvailable(n, simulation);
    var pods;
    w, s, a, pods := FullPass(gs, mode, limit, 0);
    w' := w.(groups := Terminate(gs, pods));
    forall i | 0 <= i < n ensures StoragePod(i, simulation).pod in pods {
      PodsOfMember(gs, mode, gs[0].verdict.zone, gs[i].pod);
    }
    AllDomainsDown(n, simulation, pods);
  }

  lemma NothingEligible(gs: seq<Group>, mode: Mode, limit: int, pods: seq<Pod>)
    requires limit <= 0 && OnePassDeletes(gs, mode, limit, pods)
    ensures |UnavailableDomains(Terminate(gs, pods))| <= Max(|UnavailableDomains(gs)|, limit)
  {
    forall d | d in UnavailableDomains(Terminate(gs, pods)) ensures d in UnavailableDomains(gs) {
      if d !in UnavailableDomains(gs) {
        var i := NewDomain(gs, mode, limit, pods, d);
      }
    }
    SubsetSize(UnavailableDomains(Terminate(gs, pods)), UnavailableDomains(gs));
  }

  /** Whatever zones the Pods report, the bound holds for exactly the modes that delete at most one Pod in a pass, and
      the limits that let nothing happen. */
  lemma BoundTheorem(mode: Mode, limit: int)
    ensures KeepsBound(mode, limit) <==> (mode != All && mode != PerZone) || limit <= 0
  {
    if (mode == All || mode == PerZone) && limit > 0 {
      var w, s, a, w' := TakesDownAll(limit + 1, mode, limit);
    } else {
      forall w: World, s: Settings, a: Answers, w': World
        | Pass(w, s, a, w') && s.mode == mode && s.limit == limit && OnePodEach(w.groups)
        ensures |UnavailableDomains(w'.groups)| <= Max(|UnavailableDomains(w.groups)|, limit)
      {
        if limit <= 0 {
          var pods := PassDeletes(w, s, a, w');
          NothingEligible(w.groups, mode, limit, pods);
        } else {
          RollingUpdateBound(w, s, a, w');
        }
      }
    }
  }
}
