/** The life of a process group, from the first resource to the end of its entry in the status: which steps the
    operator takes, and what they keep. Groups, exclusion list and Kubernetes resources form the state. */
module Lifecycle {
  import opened Basics
  import opened ProcessGroups
  import opened ExclusionStatus
  import opened Removal
  import opened RemovalRules

  /** A Pod, volume claim or service that belongs to a group. Deleting it sets a timestamp; it vanishes later. */
  datatype Resource = Resource(kind: Class, terminating: bool)

  datatype World = World(groups: seq<Group>, exclusions: set<Address>, pods: map<GroupId, Resource>,
                         pvcs: map<GroupId, Resource>, services: map<GroupId, Resource>)

  ghost predicate KnownTo(gs: seq<Group>, resources: map<GroupId, Resource>) {
    forall id :: id in resources ==> HasId(gs, id)
  }

  ghost predicate StatefulGroup(gs: seq<Group>, id: GroupId) {
    exists i :: 0 <= i < |gs| && gs[i].id == id && IsStateful(gs[i].kind)
  }

  /** Ids are unique, every resource belongs to a listed group, and only stateful groups have volumes. */
  ghost predicate NoOrphans(w: World) {
    && DistinctIds(w.groups)
    && KnownTo(w.groups, w.pods) && KnownTo(w.groups, w.pvcs) && KnownTo(w.groups, w.services)
    && forall id :: id in w.pvcs ==> StatefulGroup(w.groups, id)
  }

  // ----- the steps -----

  /** Resources of `ids` may have been deleted: they have vanished, or terminate, or the deletion failed. */
  ghost predicate Deletes(before: map<GroupId, Resource>, after: map<GroupId, Resource>, ids: set<GroupId>) {
    && (forall id :: id in after
          ==> id in before && after[id].kind == before[id].kind && (before[id].terminating ==> after[id].terminating))
    && (forall id :: id in before && id !in ids ==> id in after && after[id] == before[id])
  }

  /** The status gets new groups for live resources that belong to no listed group. */
  ghost predicate Refreshed(w: World, gs: seq<Group>) {
    && w.groups <= gs
    && (DistinctIds(w.groups) ==> DistinctIds(gs))
    && forall id :: HasId(gs, id)
        <==> HasId(w.groups, id) || Live(w.pods, id) || Live(w.pvcs, id) || (id != "" && Live(w.services, id))
  }

  predicate Live(resources: map<GroupId, Resource>, id: GroupId) {
    id in resources && !resources[id].terminating
  }

  datatype Event =
    | Refresh
    | AddGroup(g: Group)
    | UpdateGroup(i: nat, g: Group)
    | CreatePod(i: nat)
    | CreatePvc(i: nat)
    | CreateService(i: nat)
    | Exclude(addresses: set<Address>)
    | Remove(report: Report, coordinators: set<GroupId>, now: int, doomed: set<GroupId>, removed: map<GroupId, bool>,
             drops: bool)
    | Environment

  predicate FullyExcluded(g: Group) {
    g.marked && IsExcluded(g)
  }

  /** What the checks of a removal pass find. */
  function Found(w: World, e: Event): RemainingMap
    requires e.Remove?
  {
    RemainingOf(w.groups, e.report)
  }

  ghost predicate MayBeDoomed(w: World, e: Event, id: GroupId)
    requires e.Remove?
  {
    exists i :: 0 <= i < |w.groups| && w.groups[i].id == id
                && Removal.Removable(w.groups[i], Found(w, e), e.coordinators, e.now)
  }

  /** The exclusion list after the checks of a removal pass. */
  function CheckedExclusions(w: World, report: Report): set<Address> {
    w.exclusions + Written(w.groups, report)
  }

  /** One removal pass. The checks exclude what the database does not show and what seems to be excluded completely,
      groups found excluded are recorded as such, resources of some removable groups are deleted, and groups whose
      resources are all gone may be included and dropped. */
  ghost predicate RemovePass(w: World, e: Event, w': World)
    requires e.Remove?
  {
    var gs, exclusions := RecordedAll(w.groups, Found(w, e), e.coordinators, e.now), CheckedExclusions(w, e.report);
    && !CheckFails(w.groups, e.report)
    && (forall id :: id in e.doomed ==> MayBeDoomed(w, e, id))
    && Deletes(w.pods, w'.pods, e.doomed) && Deletes(w.pvcs, w'.pvcs, e.doomed)
        && Deletes(w.services, w'.services, e.doomed)
    && (forall id :: id in e.removed && e.removed[id]
          ==> id in e.doomed && id !in w'.pods && id !in w'.pvcs && id !in w'.services)
    && if e.drops
       then w'.groups == Remaining(gs, e.removed)
           && w'.exclusions == exclusions - (set a | a in Included(gs, e.removed, exclusions))
       else w'.groups == gs && w'.exclusions == exclusions
  }

  ghost predicate Step(w: World, e: Event, w': World) {
    var gs := w.groups;
    match e
    case Refresh => w' == w.(groups := w'.groups) && Refreshed(w, w'.groups)
    case AddGroup(g) => !HasId(gs, g.id) && w' == w.(groups := gs + [g])
    case UpdateGroup(i, g) => i < |gs| && g.id == gs[i].id && g.kind == gs[i].kind && w' == w.(groups := gs[i := g])
    case CreatePod(i) =>
      i < |gs| && !FullyExcluded(gs[i]) && gs[i].id !in w.pods
          && w' == w.(pods := w.pods[gs[i].id := Resource(gs[i].kind, false)])
    case CreatePvc(i) =>
      && i < |gs| && !FullyExcluded(gs[i]) && IsStateful(gs[i].kind) && gs[i].id !in w.pvcs
      && w' == w.(pvcs := w.pvcs[gs[i].id := Resource(gs[i].kind, false)])
    case CreateService(i) =>
      i < |gs| && !FullyExcluded(gs[i]) && gs[i].id !in w.services
          && w' == w.(services := w.services[gs[i].id := Resource(gs[i].kind, false)])
    case Exclude(addresses) => w' == w.(exclusions := w.exclusions + addresses)
    case Remove(_, _, _, _, _, _) => RemovePass(w, e, w')
    case Environment =>
      && w' == w.(pods := w'.pods, pvcs := w'.pvcs, services := w'.services)
      && Deletes(w.pods, w'.pods, w.pods.Keys) && Deletes(w.pvcs, w'.pvcs, w.pvcs.Keys)
          && Deletes(w.services, w'.services, w.services.Keys)
  }

  ghost predicate Run(ws: seq<World>, es: seq<Event>) {
    |ws| == |es| + 1 && forall i :: 0 <= i < |es| ==> Step(ws[i], es[i], ws[i + 1])
  }

  // ----- no resurrection -----

  /** Where no resource is orphaned, looking for unlisted groups finds none. */
  lemma RefreshAddsNothing(w: World, gs: seq<Group>)
    requires NoOrphans(w) && Refreshed(w, gs)
    ensures gs == w.groups
  {
    forall k | |w.groups| <= k < |gs| ensures HasId(gs, gs[k].id) && !HasId(w.groups, gs[k].id) {
      assert forall i :: 0 <= i < |w.groups| ==> gs[i].id == w.groups[i].id;
    }
    assert |gs| > |w.groups| ==> HasId(gs, gs[|w.groups|].id);
  }

  lemma SameIds(gs: seq<Group>, gs': seq<Group>)
    requires |gs| == |gs'| && forall i :: 0 <= i < |gs| ==> gs'[i].id == gs[i].id && gs'[i].kind == gs[i].kind
    ensures DistinctIds(gs) ==> DistinctIds(gs')
    ensures forall id :: HasId(gs, id) ==> HasId(gs', id)
    ensures forall id :: StatefulGroup(gs, id) ==> StatefulGroup(gs', id)
  {
    forall id | HasId(gs, id) ensures HasId(gs', id) {
      var i :| 0 <= i < |gs| && gs[i].id == id;
      assert gs'[i].id == id;
    }
    forall id | StatefulGroup(gs, id) ensures StatefulGroup(gs', id) {
      var i :| 0 <= i < |gs| && gs[i].id == id && IsStateful(gs[i].kind);
      assert gs'[i].id == id && IsStateful(gs'[i].kind);
    }
  }

  lemma LongerListKnows(gs: seq<Group>, gs': seq<Group>)
    requires gs <= gs'
    ensures forall id :: HasId(gs, id) ==> HasId(gs', id)
    ensures forall id :: StatefulGroup(gs, id) ==> StatefulGroup(gs', id)
  {
    forall id | HasId(gs, id) ensures HasId(gs', id) {
      var i :| 0 <= i < |gs| && gs[i].id == id;
      assert gs'[i].id == id;
    }
    forall id | StatefulGroup(gs, id) ensures StatefulGroup(gs', id) {
      var i :| 0 <= i < |gs| && gs[i].id == id && IsStateful(gs[i].kind);
      assert gs'[i].id == id && IsStateful(gs'[i].kind);
    }
  }

  /** Dropping some groups keeps ids unique, and keeps every group that is not dropped. */
  lemma RemainingIds(gs: seq<Group>, removed: map<GroupId, bool>)
    requires DistinctIds(gs)
    ensures DistinctIds(Remaining(gs, removed))
    ensures forall i :: 0 <= i < |gs| && !Dropped(gs[i], removed) ==> gs[i] in Remaining(gs, removed)
    ensures forall g :: g in Remaining(gs, removed) ==> g in gs
  {
    var keep := (g: Group) => !Dropped(g, removed);
    FilterDistinct(gs, keep);
    forall i | 0 <= i < |gs| && !Dropped(gs[i], removed) ensures gs[i] in Remaining(gs, removed) {
      FilterMember(gs, keep, gs[i]);
    }
    forall g | g in Remaining(gs, removed) ensures g in gs {
      FilterMember(gs, keep, g);
    }
  }

  lemma RemovePassKeepsNoOrphans(w: World, e: Event, w': World)
    requires NoOrphans(w) && e.Remove? && RemovePass(w, e, w')
    ensures NoOrphans(w')
  {
    var gs := RecordedAll(w.groups, Found(w, e), e.coordinators, e.now);
    SameIds(w.groups, gs);
    if e.drops {
      RemainingIds(gs, e.removed);
      forall id | id in w'.pods || id in w'.services ensures HasId(w'.groups, id) {
        var i: nat :| i < |gs| && gs[i].id == id;
        OwnersStay(w, e, w', i);
      }
      forall id | id in w'.pvcs ensures StatefulGroup(w'.groups, id) && HasId(w'.groups, id) {
        var i: nat :| i < |gs| && gs[i].id == id && IsStateful(gs[i].kind);
        OwnersStay(w, e, w', i);
      }
    }
  }

  /** A group of which a resource is left is not dropped. */
  lemma OwnersStay(w: World, e: Event, w': World, i: nat)
    requires e.Remove? && RemovePass(w, e, w') && e.drops && i < |w.groups|
    requires w.groups[i].id in w'.pods || w.groups[i].id in w'.services || w.groups[i].id in w'.pvcs
    ensures RecordedAll(w.groups, Found(w, e), e.coordinators, e.now)[i] in w'.groups
  {
    var gs := RecordedAll(w.groups, Found(w, e), e.coordinators, e.now);
    assert gs[i] in gs && !Dropped(gs[i], e.removed);
    FilterMember(gs, g => !Dropped(g, e.removed), gs[i]);
  }

  /** Every step of the operator and its environment keeps the invariant. */
  lemma StepKeepsNoOrphans(w: World, e: Event, w': World)
    requires NoOrphans(w) && Step(w, e, w')
    ensures NoOrphans(w')
    ensures e.Refresh? ==> w' == w
  {
    match e
    case Refresh => RefreshAddsNothing(w, w'.groups);
    case AddGroup(g) => LongerListKnows(w.groups, w'.groups);
    case UpdateGroup(i, g) => SameIds(w.groups, w'.groups);
    case CreatePod(i) => assert HasId(w.groups, w.groups[i].id);
    case CreatePvc(i) => assert HasId(w.groups, w.groups[i].id) && StatefulGroup(w.groups, w.groups[i].id);
    case CreateService(i) => assert HasId(w.groups, w.groups[i].id);
    case Exclude(_) =>
    case Remove(_, _, _, _, _, _) => RemovePassKeepsNoOrphans(w, e, w');
    case Environment =>
  }

  lemma {:induction false} RunHasNoOrphans(ws: seq<World>, es: seq<Event>, n: nat)
    requires Run(ws, es) && NoOrphans(ws[0]) && n < |ws|
    ensures NoOrphans(ws[n])
  {
    if n > 0 {
      RunHasNoOrphans(ws, es, n - 1);
      assert Step(ws[n - 1], es[n - 1], ws[n - 1 + 1]);
      StepKeepsNoOrphans(ws[n - 1], es[n - 1], ws[n]);
    }
  }

  /** No resurrection: once an id is not listed, it comes back only as a new group. */
  lemma {:induction false} DroppedStaysDropped(ws: seq<World>, es: seq<Event>, m: nat, n: nat, id: GroupId)
    requires Run(ws, es) && NoOrphans(ws[0]) && m <= n < |ws| && !HasId(ws[m].groups, id)
    requires forall k :: m <= k < n ==> !(es[k].AddGroup? && es[k].g.id == id)
    ensures !HasId(ws[n].groups, id)
    decreases n
  {
    if m < n {
      DroppedStaysDropped(ws, es, m, n - 1, id);
      RunHasNoOrphans(ws, es, n - 1);
      RunStepIds(ws, es, n - 1, id);
    }
  }

  lemma RunStepIds(ws: seq<World>, es: seq<Event>, i: nat, id: GroupId)
    requires Run(ws, es) && i < |es| && NoOrphans(ws[i])
    ensures HasId(ws[i + 1].groups, id) ==> HasId(ws[i].groups, id) || (es[i].AddGroup? && es[i].g.id == id)
  {
    if HasId(ws[i + 1].groups, id) {
      StepIds(ws[i], es[i], ws[i + 1], id);
    }
  }

  lemma RemoveIds(w: World, e: Event, w': World, i: nat)
    requires NoOrphans(w) && e.Remove? && RemovePass(w, e, w') && i < |w'.groups|
    ensures HasId(w.groups, w'.groups[i].id)
  {
    var gs := RecordedAll(w.groups, Found(w, e), e.coordinators, e.now);
    SameIds(w.groups, gs);
    RemainingIds(gs, e.removed);
    assert w'.groups[i] in gs;
    var j :| 0 <= j < |gs| && gs[j] == w'.groups[i];
    assert w.groups[j].id == w'.groups[i].id;
  }

  lemma StepIds(w: World, e: Event, w': World, id: GroupId)
    requires NoOrphans(w) && Step(w, e, w') && HasId(w'.groups, id)
    ensures HasId(w.groups, id) || (e.AddGroup? && e.g.id == id)
  {
    var i :| 0 <= i < |w'.groups| && w'.groups[i].id == id;
    match e
    case Refresh => StepKeepsNoOrphans(w, e, w');
    case Remove(_, _, _, _, _, _) => RemoveIds(w, e, w', i);
    case AddGroup(g) => assert i < |w.groups| ==> w.groups[i].id == id;
    case _ => assert w.groups[i].id == id;
  }

  // ----- data safety -----

  /** A volume claim was there and live, and now it is gone or terminates. */
  predicate PvcDeleted(w: World, w': World, id: GroupId) {
    Live(w.pvcs, id) && !Live(w'.pvcs, id)
  }

  /** The group with this id, as it was before a removal pass, was fit to lose its data. */
  ghost predicate SafeToDelete(w: World, e: Event, id: GroupId)
    requires e.Remove?
  {
    exists i :: 0 <= i < |w.groups| && w.groups[i].id == id && SafeGroup(w, e, w.groups[i])
  }

  /** Marked for removal, not a coordinator, recorded as excluded by now, and nothing of it is reported as remaining,
      so that everything that was checked of it is vacated, unless its checks were ignored: it is a log process that
      was not yet recorded as excluded, is excluded by locality and has an address. With own addresses no process of it
      is left, as far as the rules tell, and without any address its Pod has been pending for more than an hour. */
  ghost predicate SafeGroup(w: World, e: Event, g: Group)
    requires e.Remove?
  {
    && g.marked && g.id !in e.coordinators
    && IsExcluded(Recorded(g, Found(w, e), e.coordinators, e.now))
    && (if SomethingRemains(g, Found(w, e)) then ChecksIgnored(g, Found(w, e).Keys) else NothingRuns(g, e.report))
    && (SomethingRemains(g, Found(w, e)) && AllOwnAddresses(w.groups) ==>
          e.report.useLocalities && IsLogProcess(g.kind) && !IsExcluded(g) && g.addresses != [])
    && (AllOwnAddresses(w.groups) ==> NoProcessLeft(g, e.report, e.now))
    && (!IsExcluded(g) && g.addresses == [] && ExclusionString(g.id) !in Found(w, e) ==>
          g.pendingSince.Some? && e.now - g.pendingSince.value > 3600)
  }

  lemma RemovableIsSafe(w: World, e: Event, i: nat)
    requires e.Remove? && i < |w.groups| && IsStateful(w.groups[i].kind)
    requires Removal.Removable(w.groups[i], Found(w, e), e.coordinators, e.now)
    ensures SafeGroup(w, e, w.groups[i])
  {
    var g := w.groups[i];
    OverlookedTheorem(g, Found(w, e).Keys);
    NothingRunsTheorem(w.groups, e.report, i);
    if AllOwnAddresses(w.groups) {
      RemovalSafetyTheorem(w.groups, e.report, i);
      RemovableTheorem(w.groups, e.report, i, e.coordinators, e.now);
    }
  }

  lemma DeletionIsSafe(w: World, e: Event, w': World, id: GroupId)
    requires NoOrphans(w) && Step(w, e, w') && !e.Environment? && PvcDeleted(w, w', id)
    ensures e.Remove? && SafeToDelete(w, e, id)
  {
    OnlyRemovalsDelete(w, e, w', id);
    var i := DoomedGroup(w, e, id);
    RemovableIsSafe(w, e, i);
  }

  lemma OnlyRemovalsDelete(w: World, e: Event, w': World, id: GroupId)
    requires Step(w, e, w') && !e.Environment? && PvcDeleted(w, w', id)
    ensures e.Remove? && MayBeDoomed(w, e, id)
  {
    assert e.Remove?;
    assert id in e.doomed;
  }

  /** The group with this id and a volume claim is the one that can be removed. */
  lemma DoomedGroup(w: World, e: Event, id: GroupId) returns (i: nat)
    requires NoOrphans(w) && id in w.pvcs && e.Remove? && MayBeDoomed(w, e, id)
    ensures i < |w.groups| && w.groups[i].id == id && IsStateful(w.groups[i].kind)
    ensures Removal.Removable(w.groups[i], Found(w, e), e.coordinators, e.now)
  {
    i :| i < |w.groups| && w.groups[i].id == id
         && Removal.Removable(w.groups[i], Found(w, e), e.coordinators, e.now);
    var j: nat :| j < |w.groups| && w.groups[j].id == id && IsStateful(w.groups[j].kind);
    assert i == j;
  }

  /** Data safety over whole runs: whenever the operator deletes a volume claim, the group was fit for it. */
  lemma RunDeletesSafely(ws: seq<World>, es: seq<Event>, n: nat, id: GroupId)
    requires Run(ws, es) && NoOrphans(ws[0]) && n < |es| && !es[n].Environment? && PvcDeleted(ws[n], ws[n + 1], id)
    ensures es[n].Remove? && SafeToDelete(ws[n], es[n], id)
  {
    RunHasNoOrphans(ws, es, n);
    assert Step(ws[n], es[n], ws[n + 1]);
    DeletionIsSafe(ws[n], es[n], ws[n + 1], id);
  }

  // ----- no leaked exclusions -----

  /** When a group disappears from the list, all its resources are gone and neither its locality nor any of its
      addresses stays in the exclusion list. */
  lemma DroppedGroupLeavesNothing(w: World, e: Event, w': World, i: nat)
    requires NoOrphans(w) && Step(w, e, w') && i < |w.groups| && !HasId(w'.groups, w.groups[i].id)
    ensures e.Remove? && w.groups[i].marked
    ensures w.groups[i].id !in w'.pods && w.groups[i].id !in w'.pvcs && w.groups[i].id !in w'.services
    ensures w.groups[i].kind != TEST ==>
              ExclusionString(w.groups[i].id) !in w'.exclusions
                && forall a :: a in w.groups[i].addresses ==> a !in w'.exclusions
  {
    StepKeepsNoOrphans(w, e, w');
    if !(e.Remove? && e.drops) {
      OthersKeepIds(w, e, w', i);
    }
    var gs := RecordedAll(w.groups, Found(w, e), e.coordinators, e.now);
    SameIds(w.groups, gs);
    RemainingIds(gs, e.removed);
    assert forall j :: 0 <= j < |w'.groups| ==> w'.groups[j].id != w.groups[i].id;
    assert gs[i] !in w'.groups;
    assert Dropped(gs[i], e.removed);
    if w.groups[i].kind != TEST {
      IncludedCovers(gs, e.removed, CheckedExclusions(w, e.report), i);
    }
  }

  /** The checks exclude testers like all other groups, but they are not included again: a tester that is dropped leaves
      behind exactly the entries that were excluded before, or by the checks. */
  lemma DroppedTesterLeaves(w: World, e: Event, w': World, i: nat, a: Address)
    requires NoOrphans(w) && AllOwnAddresses(w.groups) && Step(w, e, w') && i < |w.groups| && w.groups[i].kind == TEST
    requires !HasId(w'.groups, w.groups[i].id) && (a == ExclusionString(w.groups[i].id) || a in w.groups[i].addresses)
    ensures e.Remove?
    ensures var checked := e.report.checkable && a in ChecksOf(w.groups[i], e.report);
            a in w'.exclusions <==> a in w.exclusions || (checked && Commanded(e.report, a))
  {
    DroppedGroupLeavesNothing(w, e, w', i);
    if !e.drops {
      OthersKeepIds(w, e, w', i);
    }
    var gs := RecordedAll(w.groups, Found(w, e), e.coordinators, e.now);
    if a in Included(gs, e.removed, CheckedExclusions(w, e.report)) {
      var j := IncludedIsDropped(gs, e.removed, CheckedExclusions(w, e.report), a);
      OwnEntry(w.groups, i, j, a);
    }
    OwnChecks(w.groups, e.report, i, a);
  }

  lemma OthersKeepIds(w: World, e: Event, w': World, i: nat)
    requires NoOrphans(w) && Step(w, e, w') && i < |w.groups| && !(e.Remove? && e.drops)
    ensures HasId(w'.groups, w.groups[i].id)
  {
    if e.Refresh? {
      StepKeepsNoOrphans(w, e, w');
    }
    assert w'.groups[i].id == w.groups[i].id;
  }
}
