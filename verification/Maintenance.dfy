/** What updates under a maintenance zone promise: storage is taken down in one zone at a time. */
module Maintenance {
  import opened Basics
  import opened UpdatePods
  import opened PodDeletion
  import opened RollingUpdate

  predicate OneZoneMode(mode: Mode) {
    mode == PerZone || mode == ProcessGroup
  }

  /** A pass deletes Pods that were to be updated in one zone, after `After`'s preparations, or none at all. */
  lemma PassInZone(w: World, s: Settings, a: Answers, w': World) returns (c: Choice)
    requires OneZoneMode(s.mode) && Pass(w, s, a, w')
    ensures w' == After(w, s, a, c)
    ensures forall pod :: pod in c.pods ==> pod in PodsIn(w.groups, UnavailableDomains(w.groups), s.limit, c.zone)
  {
    c := Choice("", []);
    if !s.paused {
      var updates: Option<Updates> :| Wanted(w.groups, s.limit, updates) && PassFor(w, s, a, updates, w');
      if updates.Some? && updates.value != map[] && !s.replacing {
        var choice: Option<Choice> :| Chosen(s.mode, updates.value, Known(w, a), choice)
          && w' == if choice.None? then w else After(w, s, a, choice.value);
        if choice.Some? {
          c := choice.value;
          forall pod | pod in c.pods
            ensures pod in PodsIn(w.groups, UnavailableDomains(w.groups), s.limit, c.zone)
          {
            var zone := ChosenPod(s.mode, updates.value, Known(w, a), c, pod);
            assert PodsAt(updates.value, zone) == PodsIn(w.groups, UnavailableDomains(w.groups), s.limit, zone);
          }
        }
      }
    }
  }

  /** Storage Pods carry their process group label. */
  ghost predicate Labelled(gs: seq<Group>) {
    forall i :: 0 <= i < |gs| && gs[i].pod.kind == STORAGE ==> gs[i].pod.groupId != ""
  }

  /** The pass from `w` to `w'` takes down the storage Pod of group `i`. */
  predicate TakesDown(w: World, w': World, i: nat) {
    i < |w.groups| && i < |w'.groups| && w.groups[i].pod.kind == STORAGE && w'.groups[i] != w.groups[i]
  }

  /** Storage Pods are taken down in one zone only, which the same pass puts in maintenance together with the
      groups of these Pods, and never while the pass knows of another zone in maintenance. A Pod whose zone is not known
      has the zone "", and setting that zone means that no zone is in maintenance. */
  lemma MaintenanceDiscipline(w: World, s: Settings, a: Answers, w': World, i: nat)
    requires OneZoneMode(s.mode) && s.useMaintenance && Pass(w, s, a, w')
    requires OnePodEach(w.groups) && Labelled(w.groups) && TakesDown(w, w', i)
    ensures w.groups[i].verdict == Update(w'.maintenance) && w.groups[i].pod.groupId in w'.underMaintenance
    ensures a.hasStatus ==> w.maintenance == "" || w.maintenance == w'.maintenance
    ensures !a.hasStatus ==> w'.maintenance == "unknown"
    ensures a.safe == Some(true) && a.locked
  {
    var c := PassInZone(w, s, a, w');
    var pod := w.groups[i].pod;
    assert pod in Deleted(c, a) && pod in c.pods;
    var k :| 0 <= k < |c.pods| && c.pods[k] == pod;
    assert pod.groupId in StorageIds(c.pods);
    GroupOf(w.groups, s.limit, c.zone, i);
  }

  /** A pass that sees a zone in maintenance leaves that zone in maintenance. */
  lemma PassKeepsMaintenance(w: World, s: Settings, a: Answers, w': World)
    requires OneZoneMode(s.mode) && Pass(w, s, a, w') && a.hasStatus && w.maintenance != ""
    ensures w'.maintenance == w.maintenance
  {
    var c := PassInZone(w, s, a, w');
  }

  ghost predicate SightedPass(w: World, w': World) {
    exists s: Settings, a: Answers :: OneZoneMode(s.mode) && s.useMaintenance && a.hasStatus && Pass(w, s, a, w')
  }

  /** What a pass that sees the status does about maintenance: a zone in maintenance stays, and storage Pods are taken
      down only in the zone that is in maintenance afterwards. */
  predicate Disciplined(w: World, w': World) {
    && (w.maintenance != "" ==> w'.maintenance == w.maintenance)
    && (forall i :: 0 <= i < |w.groups| && TakesDown(w, w', i) ==> w.groups[i].verdict == Update(w'.maintenance))
  }

  lemma SightedPassIsDisciplined(w: World, w': World)
    requires SightedPass(w, w') && OnePodEach(w.groups) && Labelled(w.groups)
    ensures Disciplined(w, w')
  {
    var s: Settings, a: Answers :| OneZoneMode(s.mode) && s.useMaintenance && a.hasStatus && Pass(w, s, a, w');
    if w.maintenance != "" {
      PassKeepsMaintenance(w, s, a, w');
    }
    forall i: nat | i < |w.groups| && TakesDown(w, w', i) ensures w.groups[i].verdict == Update(w'.maintenance) {
      MaintenanceDiscipline(w, s, a, w', i);
    }
  }

  /** Step `k` is a pass that sees the status where `passes[k]`, and otherwise a change that keeps the maintenance
      zone. */
  ghost predicate MaintainedRun(ws: seq<World>, passes: seq<bool>) {
    && |ws| == |passes| + 1
    && forall k :: 0 <= k < |passes| ==>
         if passes[k] then SightedPass(ws[k], ws[k + 1]) && OnePodEach(ws[k].groups) && Labelled(ws[k].groups)
         else ws[k + 1].maintenance == ws[k].maintenance
  }

  predicate DisciplinedRun(ws: seq<World>, passes: seq<bool>) {
    && |ws| == |passes| + 1
    && forall k :: 0 <= k < |passes| ==>
         if passes[k] then Disciplined(ws[k], ws[k + 1]) else ws[k + 1].maintenance == ws[k].maintenance
  }

  lemma MaintainedIsDisciplined(ws: seq<World>, passes: seq<bool>)
    requires MaintainedRun(ws, passes)
    ensures DisciplinedRun(ws, passes)
  {
    forall k | 0 <= k < |passes| && passes[k] ensures Disciplined(ws[k], ws[k + 1]) {
      SightedPassIsDisciplined(ws[k], ws[k + 1]);
    }
  }

  lemma {:induction false} MaintenanceStays(ws: seq<World>, passes: seq<bool>, i: nat, j: nat)
    requires DisciplinedRun(ws, passes) && i <= j < |ws| && ws[i].maintenance != ""
    ensures ws[j].maintenance == ws[i].maintenance
    decreases j
  {
    if i < j {
      MaintenanceStays(ws, passes, i, j - 1);
      assert passes[j - 1] ==> Disciplined(ws[j - 1], ws[j - 1 + 1]);
    }
  }

  /** Step `k` is a pass that takes down the storage Pod of group `g` in `zone`. */
  predicate TakesDownIn(ws: seq<World>, passes: seq<bool>, k: nat, g: nat, zone: Zone) {
    && k < |passes| < |ws| && passes[k] && TakesDown(ws[k], ws[k + 1], g)
    && ws[k].groups[g].verdict == Update(zone)
  }

  /** Until the maintenance zone is reset, all passes together take down storage Pods in one zone only, once a pass has
      put a zone in maintenance. */
  lemma OneStorageZoneAtATime(ws: seq<World>, passes: seq<bool>, i: nat, j: nat, g: nat, h: nat, z: Zone, z': Zone)
    requires MaintainedRun(ws, passes) && i < j && z != ""
    requires TakesDownIn(ws, passes, i, g, z) && TakesDownIn(ws, passes, j, h, z')
    ensures z' == z
  {
    MaintainedIsDisciplined(ws, passes);
    OneZone(ws, passes, i, j, g, h, z, z');
  }

  lemma OneZone(ws: seq<World>, passes: seq<bool>, i: nat, j: nat, g: nat, h: nat, z: Zone, z': Zone)
    requires DisciplinedRun(ws, passes) && i < j && z != ""
    requires TakesDownIn(ws, passes, i, g, z) && TakesDownIn(ws, passes, j, h, z')
    ensures z' == z
  {
    assert Disciplined(ws[i], ws[i + 1]) && Disciplined(ws[j], ws[j + 1]);
    MaintenanceStays(ws, passes, i + 1, j);
  }

  // ----- for exactly which zones a pass holds the others back -----

  /** After a pass that takes down storage in `z`, and until the maintenance zone is reset, no pass of any run takes
      down storage elsewhere. */
  ghost predicate HoldsOthersBack(z: Zone) {
    forall ws: seq<World>, passes: seq<bool>, i: nat, j: nat, g: nat, h: nat, z': Zone ::
      TakesDownIn(ws, passes, i, g, z) && TakesDownIn(ws, passes, j, h, z') && MaintainedRun(ws, passes) && i < j ==>
        z' == z
  }

  function StorageGroup(zone: Zone): Group {
    Group(Pod("pod", STORAGE, "1"), zone, false, Running, Update(zone))
  }

  const MAINTAINED: Settings := Settings(PerZone, true, 1, false, false)
  const WILLING: Answers := Answers(true, Some(true), true, true, true, 1)

  /** A zone with one storage Pod, before and after a pass. */
  function Before(zone: Zone): World {
    World([StorageGroup(zone)], "", {})
  }

  function Updated(zone: Zone): World {
    World([StorageGroup(zone).(state := Terminating)], zone, {"1"})
  }

  lemma SingleZoneWanted(zone: Zone)
    ensures Wanted([StorageGroup(zone)], 1, Some(map[zone := [StorageGroup(zone).pod]]))
  {
    var gs, updates := [StorageGroup(zone)], map[zone := [StorageGroup(zone).pod]];
    assert UnavailableDomains(gs) == {};
    assert gs[..0] == [];
    assert forall z :: PodsIn(gs, {}, 1, z) == if z == zone then [gs[0].pod] else [];
    assert forall some :: !Blocks(gs[0], {}, 1, some);
  }

  lemma SingleZoneChosen(zone: Zone)
    ensures Chosen(PerZone, map[zone := [StorageGroup(zone).pod]], "", Some(Choice(zone, [StorageGroup(zone).pod])))
  {
    var updates: Updates := map[zone := [StorageGroup(zone).pod]];
    assert zone in Allowed(updates, "");
  }

  lemma SingleZoneAfter(zone: Zone)
    ensures After(Before(zone), MAINTAINED, WILLING, Choice(zone, [StorageGroup(zone).pod])) == Updated(zone)
  {
    var g, pods := StorageGroup(zone), [StorageGroup(zone).pod];
    assert Deleted(Choice(zone, pods), WILLING) == pods;
    assert pods[0].groupId in StorageIds(pods);
    assert StorageIds(pods) == {"1"};
    assert Terminate([g], pods) == [g.(state := Terminating)];
  }

  lemma SingleZonePass(zone: Zone)
    ensures SightedPass(Before(zone), Updated(zone)) && OnePodEach(Before(zone).groups) && Labelled(Before(zone).groups)
  {
    var pods := [StorageGroup(zone).pod];
    SingleZoneWanted(zone);
    SingleZoneChosen(zone);
    PassWith(Before(zone), MAINTAINED, WILLING, map[zone := pods], Choice(zone, pods));
    SingleZoneAfter(zone);
  }

  /** Without a known zone nothing is held back: storage goes down in zone "" and then in another zone. */
  function UnknownZoneRun(zone: Zone): seq<World> {
    [Before(""), Updated(""), Before(zone), Updated(zone)]
  }

  lemma UnknownZoneRunIsMaintained(zone: Zone)
    ensures MaintainedRun(UnknownZoneRun(zone), [true, false, true])
  {
    SingleZonePass("");
    SingleZonePass(zone);
    ThreeSteps(Before(""), Updated(""), Before(zone), Updated(zone));
  }

  lemma UnknownZoneRunTakesDown(zone: Zone)
    ensures TakesDownIn(UnknownZoneRun(zone), [true, false, true], 0, 0, "")
    ensures TakesDownIn(UnknownZoneRun(zone), [true, false, true], 2, 0, zone)
  {
    assert TakesDown(Before(""), Updated(""), 0) && TakesDown(Before(zone), Updated(zone), 0);
  }

  lemma ThreeSteps(w0: World, w1: World, w2: World, w3: World)
    requires SightedPass(w0, w1) && OnePodEach(w0.groups) && Labelled(w0.groups) && w2.maintenance == w1.maintenance
    requires SightedPass(w2, w3) && OnePodEach(w2.groups) && Labelled(w2.groups)
    ensures MaintainedRun([w0, w1, w2, w3], [true, false, true])
  {
    var ws, passes := [w0, w1, w2, w3], [true, false, true];
    forall k | 0 <= k < |passes|
      ensures if passes[k] then SightedPass(ws[k], ws[k + 1]) && OnePodEach(ws[k].groups) && Labelled(ws[k].groups)
              else ws[k + 1].maintenance == ws[k].maintenance
    {
      assert k == 0 || k == 1 || k == 2;
    }
  }

  lemma HoldsOthersBackTheorem(z: Zone)
    ensures HoldsOthersBack(z) <==> z != ""
  {
    if z == "" {
      UnknownZoneRunIsMaintained("z");
      UnknownZoneRunTakesDown("z");
    } else {
      forall ws: seq<World>, passes: seq<bool>, i: nat, j: nat, g: nat, h: nat, z': Zone
        | TakesDownIn(ws, passes, i, g, z) && TakesDownIn(ws, passes, j, h, z') && MaintainedRun(ws, passes) && i < j
        ensures z' == z
      {
        OneStorageZoneAtATime(ws, passes, i, j, g, h, z, z');
      }
    }
  }
}
