/** The reconciliation steps that refresh the list of process groups and remove groups, on the operator's own state. */
module GroupReconciler {
  import opened Basics
  import opened ProcessGroups
  import opened ExclusionStatus
  import opened Removal
  import opened Lifecycle

  function NewGroup(id: GroupId, kind: Class, now: int): Group {
    Group(id, kind, [], "", false, None, false, Some(now), None, None)
  }

  ghost function IdsOf(gs: seq<Group>): set<GroupId> {
    set i | 0 <= i < |gs| :: gs[i].id
  }

  ghost function LiveIds(resources: map<GroupId, Resource>, skipEmpty: bool): set<GroupId> {
    set id | id in resources && Live(resources, id) && !(skipEmpty && id == "")
  }

  /** Groups were appended, one for each of the ids that had none. */
  ghost predicate Extends(gs: seq<Group>, gs': seq<Group>, ids: set<GroupId>) {
    gs <= gs' && (DistinctIds(gs) ==> DistinctIds(gs')) && IdsOf(gs') == IdsOf(gs) + ids
  }

  lemma AppendExtends(gs: seq<Group>, gs': seq<Group>, ids: set<GroupId>, g: Group)
    requires Extends(gs, gs', ids) && g.id !in IdsOf(gs')
    ensures Extends(gs, gs' + [g], ids + {g.id})
  {
    var longer := gs' + [g];
    assert forall i :: 0 <= i < |gs'| ==> longer[i] == gs'[i];
    forall i | 0 <= i < |gs'| ensures gs'[i].id != g.id {
      assert gs'[i].id in IdsOf(gs');
    }
    forall id ensures id in IdsOf(longer) <==> id in IdsOf(gs') || id == g.id {
      if id in IdsOf(gs') {
        var i :| 0 <= i < |gs'| && gs'[i].id == id;
        assert longer[i].id == id;
      }
      assert longer[|gs'|].id == g.id;
    }
  }

  lemma IdsOfHasId(gs: seq<Group>, id: GroupId)
    ensures id in IdsOf(gs) <==> HasId(gs, id)
  {
  }

  // ----- what a removal pass comes to -----

  /** How the Kubernetes API answers a deletion: it fails, marks the resource or makes it vanish at once. */
  datatype Deletion = Fails | Marks | Vanishes

  /** The API's answers for each group: how its deletions end, and which reads succeed. Finding several volume claims
      counts as a failed read of them. */
  datatype Api = Api(pod: GroupId -> Deletion, pvc: GroupId -> Deletion, service: GroupId -> Deletion,
                     podRead: GroupId -> bool, pvcRead: GroupId -> bool, serviceRead: GroupId -> bool,
                     confirmed: GroupId -> bool)

  /** What a removal pass is given: what the database reports and how it answers, the coordinators, the removal
      mode and the seconds to wait between removals, the groups held back by configuration, those with an isolated Pod,
      whether the cluster has its fault tolerance, and whether including processes is safe and the lock can be taken. */
  datatype Input = Input(report: Report, coordinators: set<GroupId>, now: int, mode: UpdateMode, wait: int,
                         blocked: set<GroupId>, isolated: set<GroupId>, faultTolerant: bool, safe: bool, api: Api)

  function DeletedFrom(resources: map<GroupId, Resource>, id: GroupId, d: Deletion): map<GroupId, Resource> {
    if !Live(resources, id) then resources
    else match d
      case Fails => resources
      case Marks => resources[id := resources[id].(terminating := true)]
      case Vanishes => resources - {id}
  }

  /** The resources of one group are deleted; a Pod that is isolated protects all of them, and a failed read protects
      what comes after it. */
  function RemoveOne(w: World, g: Group, isolated: set<GroupId>, api: Api): World {
    if !api.podRead(g.id) || (g.id in w.pods && g.id in isolated) then w
    else
      var pods := w.(pods := DeletedFrom(w.pods, g.id, api.pod(g.id)));
      if !api.pvcRead(g.id) then pods
      else
        var pvcs := pods.(pvcs := DeletedFrom(w.pvcs, g.id, api.pvc(g.id)));
        if !api.serviceRead(g.id) then pvcs
        else pvcs.(services := DeletedFrom(w.services, g.id, api.service(g.id)))
  }

  function RemoveAll(w: World, list: seq<Group>, isolated: set<GroupId>, api: Api): World {
    if list == [] then w
        else RemoveOne(RemoveAll(w, list[..|list| - 1], isolated, api), list[|list| - 1], isolated, api)
  }

  predicate Gone(w: World, id: GroupId) {
    id !in w.pods && id !in w.pvcs && id !in w.services
  }

  ghost function Confirmed(w: World, list: seq<Group>, api: Api): map<GroupId, bool> {
    map id | id in IdsOf(list) && api.confirmed(id) :: Gone(w, id)
  }

  /** Groups are dropped if that is all there is to do and some remain, or once including their addresses is safe. */
  predicate Drops(w: World, removed: map<GroupId, bool>, safe: bool) {
    if Included(w.groups, removed, w.exclusions) == [] then |Remaining(w.groups, removed)| != |w.groups|
        && Remaining(w.groups, removed) != []
    else safe
  }

  ghost function IncludeAndDrop(w: World, removed: map<GroupId, bool>): World {
    w.(groups := Remaining(w.groups, removed),
       exclusions := w.exclusions - (set a | a in Included(w.groups, removed, w.exclusions)))
  }

  /** The world once the checks are made and exclusions are recorded. */
  ghost function RecordedWorld(w: World, p: Input): World {
    w.(groups := RecordedAll(w.groups, RemainingOf(w.groups, p.report), p.coordinators, p.now),
       exclusions := CheckedExclusions(w, p.report))
  }

  /** The world once exclusions are recorded and the resources of the chosen groups deleted. */
  ghost function Deleted(w: World, list: seq<Group>, p: Input): World {
    RemoveAll(RecordedWorld(w, p), list, p.isolated, p.api)
  }

  ghost function RemovalResult(w: World, list: seq<Group>, p: Input): World {
    var deleted := Deleted(w, list, p);
    if CheckFails(w.groups, p.report) then w.(exclusions := CheckedExclusions(w, p.report))
    else if Drops(deleted, Confirmed(deleted, list, p.api), p.safe)
        then IncludeAndDrop(deleted, Confirmed(deleted, list, p.api))
    else deleted
  }

  /** The groups whose resources are deleted now: a selection from the zones, and what already terminates. */
  ghost predicate ChosenList(toRemove: seq<Group>, p: Input, list: seq<Group>) {
    var candidates := Filter(toRemove, (g: Group) => g.id !in p.blocked);
    if candidates == [] || !p.faultTolerant then list == []
    else if !p.mode.All? && LatestTermination(candidates) > p.now - p.wait then list == []
    else
      exists zones, chosen :: TracksZones(zones, candidates) && Selected(p.mode, zones, chosen)
                              && list == if chosen.None? then [] else chosen.value + ZoneAt(zones, TERMINATING_ZONE)
  }

  ghost predicate AllRemovable(gs: seq<Group>, remaining: RemainingMap, coordinators: set<GroupId>, now: int) {
    forall i :: 0 <= i < |gs| && gs[i].marked ==> Removable(gs[i], remaining, coordinators, now)
  }

  ghost predicate AnyRecorded(gs: seq<Group>, remaining: RemainingMap, coordinators: set<GroupId>, now: int) {
    exists i :: 0 <= i < |gs| && Recorded(gs[i], remaining, coordinators, now) != gs[i]
  }

  lemma RecordStep(gs: seq<Group>, i: nat, remaining: RemainingMap, coordinators: set<GroupId>, now: int)
    requires i < |gs|
    ensures var p, q, g, r := gs[..i], gs[..i + 1], gs[i], Recorded(gs[i], remaining, coordinators, now);
            && RecordedAll(q, remaining, coordinators, now) == RecordedAll(p, remaining, coordinators, now) + [r]
            && ToRemove(q, remaining, coordinators, now)
               == ToRemove(p, remaining, coordinators, now)
                   + (if Removable(g, remaining, coordinators, now) then [r] else [])
  {
    var p, q := gs[..i], gs[..i + 1];
    assert q[..i] == p && q[i] == gs[i] && forall h :: 0 <= h < i ==> q[h] == p[h];
  }

  lemma FlagStep(gs: seq<Group>, i: nat, remaining: RemainingMap, coordinators: set<GroupId>, now: int)
    requires i < |gs|
    ensures var p, q, g := gs[..i], gs[..i + 1], gs[i];
            && (AllRemovable(q, remaining, coordinators, now) <==>
                AllRemovable(p, remaining, coordinators, now)
                    && (g.marked ==> Removable(g, remaining, coordinators, now)))
            && (AnyRecorded(q, remaining, coordinators, now) <==>
                AnyRecorded(p, remaining, coordinators, now) || Recorded(g, remaining, coordinators, now) != g)
  {
    var p, q := gs[..i], gs[..i + 1];
    assert q[i] == gs[i] && forall h :: 0 <= h < i ==> q[h] == p[h];
  }

  lemma RecordedDiffers(gs: seq<Group>, remaining: RemainingMap, coordinators: set<GroupId>, now: int)
    ensures AnyRecorded(gs, remaining, coordinators, now) <==> RecordedAll(gs, remaining, coordinators, now) != gs
  {
  }

  class Operator {
    var groups: seq<Group>
    var exclusions: set<Address>
    var pods: map<GroupId, Resource>
    var pvcs: map<GroupId, Resource>
    var services: map<GroupId, Resource>

    ghost function View(): World
      reads this
    {
      World(groups, exclusions, pods, pvcs, services)
    }

    /** Adds a group for every live resource of an unknown group, visiting the resources in some order. */
    method AddUnknown(known: set<GroupId>, resources: map<GroupId, Resource>, skipEmpty: bool, now: int)
      returns (known': set<GroupId>)
      requires known == IdsOf(groups)
      modifies this`groups
      ensures Extends(old(groups), groups, LiveIds(resources, skipEmpty) - old(IdsOf(groups)))
              && known' == IdsOf(groups)
      ensures forall k :: |old(groups)| <= k < |groups| ==>
                groups[k].id in resources && groups[k] == NewGroup(groups[k].id, resources[groups[k].id].kind, now)
      ensures forall k :: |old(groups)| <= k < |groups| ==>
                && groups[k].kind == resources[groups[k].id].kind && groups[k].missingSince == Some(now)
                && !groups[k].marked && !IsExcluded(groups[k]) && groups[k].addresses == []
                && groups[k].pendingSince.None? && groups[k].terminatingSince.None?
    {
      known' := known;
      var todo := resources.Keys;
      ghost var added := {};
      while todo != {}
        invariant todo <= resources.Keys
        invariant known' == IdsOf(groups) == known + added && Extends(old(groups), groups, added)
        invariant added == set id | id in LiveIds(resources, skipEmpty) - known && id !in todo
        invariant forall k :: |old(groups)| <= k < |groups| ==>
                    groups[k].id in resources && groups[k] == NewGroup(groups[k].id, resources[groups[k].id].kind, now)
      {
        var id :| id in todo;
        todo := todo - {id};
        if (skipEmpty && id == "") || id in known' || resources[id].terminating {
          continue;
        }
        AppendExtends(old(groups), groups, added, NewGroup(id, resources[id].kind, now));
        known' := known' + {id};
        added := added + {id};
        groups := groups + [NewGroup(id, resources[id].kind, now)];
      }
      assert added == LiveIds(resources, skipEmpty) - known;
    }

    method RefreshProcessGroupStatus(now: int)
      modifies this`groups
      ensures Refreshed(old(View()), groups)
    {
      var known: set<GroupId> := {};
      for i := 0 to |groups|
        invariant groups == old(groups) && known == set h | 0 <= h < i :: groups[h].id
      {
        known := known + {groups[i].id};
      }
      ghost var g0 := groups;
      known := AddUnknown(known, pods, false, now);
      known := AddUnknown(known, pvcs, false, now);
      known := AddUnknown(known, services, true, now);
      assert IdsOf(groups) == IdsOf(g0) + LiveIds(pods, false) + LiveIds(pvcs, false) + LiveIds(services, true);
      forall id
        ensures HasId(groups, id)
                <==> HasId(g0, id) || Live(pods, id) || Live(pvcs, id) || (id != "" && Live(services, id))
      {
        IdsOfHasId(groups, id);
        IdsOfHasId(g0, id);
      }
    }

    method GetProcessGroupsToRemove(remaining: RemainingMap, coordinators: set<GroupId>, now: int)
      returns (allExcluded: bool, newExclusions: bool, toRemove: seq<Group>)
      modifies this`groups
      ensures groups == RecordedAll(old(groups), remaining, coordinators, now)
      ensures toRemove == ToRemove(old(groups), remaining, coordinators, now)
      ensures allExcluded <==> AllRemovable(old(groups), remaining, coordinators, now)
      ensures newExclusions <==> groups != old(groups)
    {
      var recorded;
      recorded, allExcluded, newExclusions, toRemove := InspectAll(groups, remaining, coordinators, now);
      RecordedDiffers(groups, remaining, coordinators, now);
      groups := recorded;
    }

    method RemoveProcessGroup(g: Group, isolated: set<GroupId>, api: Api)
      modifies this`pods, this`pvcs, this`services
      ensures View() == RemoveOne(old(View()), g, isolated, api)
    {
      if !api.podRead(g.id) {
        return;
      }
      if g.id in pods {
        if g.id in isolated {
          return;
        }
        if !pods[g.id].terminating {
          pods := DeletedFrom(pods, g.id, api.pod(g.id));
        }
      }
      if !api.pvcRead(g.id) {
        return;
      }
      if g.id in pvcs && !pvcs[g.id].terminating {
        pvcs := DeletedFrom(pvcs, g.id, api.pvc(g.id));
      }
      if !api.serviceRead(g.id) {
        return;
      }
      if g.id in services && !services[g.id].terminating {
        services := DeletedFrom(services, g.id, api.service(g.id));
      }
    }

    /** True if nothing is left of the group; what still terminates is left. */
    method ConfirmRemoval(g: Group) returns (canBeIncluded: bool)
      ensures canBeIncluded <==> Gone(View(), g.id)
    {
      canBeIncluded := true;
      if g.id in pods {
        if !pods[g.id].terminating {
          return false;
        }
        canBeIncluded := false;
      }
      if g.id in pvcs {
        if !pvcs[g.id].terminating {
          return false;
        }
        canBeIncluded := false;
      }
      if g.id in services {
        if !services[g.id].terminating {
          return false;
        }
        canBeIncluded := false;
      }
    }

    method RemoveProcessGroups(list: seq<Group>, isolated: set<GroupId>, api: Api) returns (removed: map<GroupId, bool>)
      modifies this`pods, this`pvcs, this`services
      ensures View() == RemoveAll(old(View()), list, isolated, api) && removed == Confirmed(View(), list, api)
    {
      for i := 0 to |list|
        invariant View() == RemoveAll(old(View()), list[..i], isolated, api)
      {
        RemoveProcessGroup(list[i], isolated, api);
        assert list[..i + 1][..i] == list[..i];
      }
      assert list[..|list|] == list;
      removed := ConfirmRemovals(list, api);
    }

    method ConfirmRemovals(list: seq<Group>, api: Api) returns (removed: map<GroupId, bool>)
      ensures removed == Confirmed(View(), list, api)
    {
      removed := map[];
      for i := 0 to |list|
        invariant forall id :: id in removed <==> id in IdsOf(list[..i]) && api.confirmed(id)
        invariant forall id :: id in removed ==> removed[id] == Gone(View(), id)
      {
        assert IdsOf(list[..i + 1]) == IdsOf(list[..i]) + {list[i].id} by {
          assert list[..i + 1] == list[..i] + [list[i]];
        }
        if !api.confirmed(list[i].id) {
          continue;
        }
        var canBeIncluded := ConfirmRemoval(list[i]);
        removed := removed[list[i].id := canBeIncluded];
      }
      assert list[..|list|] == list;
    }

    method IncludeProcessGroup(removed: map<GroupId, bool>, safe: bool)
      modifies this`groups, this`exclusions
      ensures View() == if Drops(old(View()), removed, safe) then IncludeAndDrop(old(View()), removed) else old(View())
    {
      var included, kept := GetProcessesToInclude(groups, removed, exclusions);
      NothingRemoved(groups, removed, exclusions);
      if |included| == 0 {
        if |groups| != |kept| && |kept| > 0 {
          groups := kept;
          assert exclusions == exclusions - (set a | a in included);
        }
        return;
      }
      if !safe {
        return;
      }
      exclusions := exclusions - (set a | a in included);
      groups := kept;
    }

    /** The whole removal pass. It is a step of the life cycle. */
    method Reconcile(p: Input) returns (ghost list: seq<Group>)
      modifies this
      ensures ChosenFor(old(View()), p, list)
      ensures View() == RemovalResult(old(View()), list, p)
      ensures Step(old(View()), RemoveEvent(old(View()), list, p), View())
    {
      ghost var w := View();
      list := [];
      var remaining, written := GetRemainingMap(groups, p.report);
      exclusions := exclusions + written;
      if remaining.None? {
        return;
      }
      var allExcluded, newExclusions, toRemove := GetProcessGroupsToRemove(remaining.value, p.coordinators, p.now);
      var chosen := ChooseGroups(toRemove, p);
      list := chosen;
      var removed := RemoveProcessGroups(chosen, p.isolated, p.api);
      IncludeProcessGroup(removed, p.safe);
      PassIsStep(w, list, p);
    }
  }

  /** The list is chosen from the groups that can be removed; nothing is chosen if the checks fail. */
  ghost predicate ChosenFor(w: World, p: Input, list: seq<Group>) {
    if CheckFails(w.groups, p.report) then list == []
    else ChosenList(ToRemove(w.groups, RemainingOf(w.groups, p.report), p.coordinators, p.now), p, list)
  }

  method InspectAll(gs: seq<Group>, remaining: RemainingMap, coordinators: set<GroupId>, now: int)
    returns (recorded: seq<Group>, allExcluded: bool, newExclusions: bool, toRemove: seq<Group>)
    ensures recorded == RecordedAll(gs, remaining, coordinators, now)
    ensures toRemove == ToRemove(gs, remaining, coordinators, now)
    ensures allExcluded <==> AllRemovable(gs, remaining, coordinators, now)
    ensures newExclusions <==> AnyRecorded(gs, remaining, coordinators, now)
  {
    recorded, allExcluded, newExclusions, toRemove := [], true, false, [];
    for i := 0 to |gs|
      invariant recorded == RecordedAll(gs[..i], remaining, coordinators, now)
      invariant toRemove == ToRemove(gs[..i], remaining, coordinators, now)
      invariant allExcluded <==> AllRemovable(gs[..i], remaining, coordinators, now)
      invariant newExclusions <==> AnyRecorded(gs[..i], remaining, coordinators, now)
    {
      RecordStep(gs, i, remaining, coordinators, now);
      FlagStep(gs, i, remaining, coordinators, now);
      var g, removable := Inspect(gs[i], remaining, coordinators, now);
      recorded := recorded + [g];
      if removable {
        toRemove := toRemove + [g];
        newExclusions := newExclusions || g != gs[i];
      } else if gs[i].marked {
        allExcluded := false;
      }
    }
    assert gs[..|gs|] == gs;
  }

  /** Whether a group can be removed, and the group with its exclusion recorded. */
  method Inspect(g: Group, remaining: RemainingMap, coordinators: set<GroupId>, now: int)
    returns (g': Group, removable: bool)
    ensures removable <==> Removable(g, remaining, coordinators, now)
    ensures g' == Recorded(g, remaining, coordinators, now)
  {
    if !g.marked {
      return g, false;
    }
    if g.id in coordinators {
      return g, false;
    }
    if IsExcluded(g) {
      var stillRemaining := ProcessGroupAddressesRemaining(g, remaining);
      return g, !stillRemaining;
    }
    if g.kind != TEST && !AllAddressesExcluded(g, remaining, now) {
      return g, false;
    }
    return SetExclude(g, now), true;
  }

  method ChooseGroups(toRemove: seq<Group>, p: Input) returns (list: seq<Group>)
    ensures ChosenList(toRemove, p, list)
  {
    var candidates := Unblocked(toRemove, p.blocked);
    if |candidates| == 0 {
      return [];
    }
    if !p.faultTolerant {
      return [];
    }
    var zones, latest := GetZonedRemovals(candidates);
    if !p.mode.All? {
      if latest > p.now - p.wait {
        return [];
      }
    }
    var chosen := Removal.GetProcessGroupsToRemove(p.mode, zones);
    if chosen.None? {
      return [];
    }
    list := chosen.value + ZoneAt(zones, TERMINATING_ZONE);
  }

  method Unblocked(gs: seq<Group>, blocked: set<GroupId>) returns (r: seq<Group>)
    ensures r == Filter(gs, (g: Group) => g.id !in blocked)
  {
    r := [];
    ghost var keep := (g: Group) => g.id !in blocked;
    for i := 0 to |gs|
      invariant r == Filter(gs[..i], keep)
    {
      FilterPrefix(gs, i, keep);
      if gs[i].id !in blocked {
        r := r + [gs[i]];
      }
    }
    assert gs[..|gs|] == gs;
  }

  lemma {:induction false} NothingRemoved(gs: seq<Group>, removed: map<GroupId, bool>, exclusions: set<Address>)
    ensures removed == map[] ==> Included(gs, removed, exclusions) == [] && Remaining(gs, removed) == gs
  {
    if removed == map[] && gs != [] {
      var front := gs[..|gs| - 1];
      NothingRemoved(front, removed, exclusions);
      FilterPrefix(gs, |gs| - 1, g => !Dropped(g, removed));
      assert gs[..|gs| - 1 + 1] == gs && gs == front + [gs[|gs| - 1]];
    }
  }

  // ----- the pass is a step of the life cycle -----

  ghost function RemoveEvent(w: World, list: seq<Group>, p: Input): Event {
    var deleted := Deleted(w, list, p);
    var removed := Confirmed(deleted, list, p.api);
    if CheckFails(w.groups, p.report) then Exclude(Written(w.groups, p.report))
    else Remove(p.report, p.coordinators, p.now, IdsOf(list), removed, Drops(deleted, removed, p.safe))
  }

  lemma DeletesMore(before: map<GroupId, Resource>, middle: map<GroupId, Resource>, ids: set<GroupId>, id: GroupId,
                    d: Deletion)
    requires Deletes(before, middle, ids)
    ensures Deletes(before, DeletedFrom(middle, id, d), ids + {id}) && Deletes(before, middle, ids + {id})
  {
  }

  /** Only resources of `ids` were deleted. */
  ghost predicate OnlyDeletes(w: World, w': World, ids: set<GroupId>) {
    && w'.groups == w.groups && w'.exclusions == w.exclusions
    && Deletes(w.pods, w'.pods, ids) && Deletes(w.pvcs, w'.pvcs, ids) && Deletes(w.services, w'.services, ids)
  }

  lemma RemoveOneFields(w: World, g: Group, isolated: set<GroupId>, api: Api)
    ensures var w' := RemoveOne(w, g, isolated, api);
            && w'.groups == w.groups && w'.exclusions == w.exclusions
            && (w'.pods == w.pods || w'.pods == DeletedFrom(w.pods, g.id, api.pod(g.id)))
            && (w'.pvcs == w.pvcs || w'.pvcs == DeletedFrom(w.pvcs, g.id, api.pvc(g.id)))
            && (w'.services == w.services || w'.services == DeletedFrom(w.services, g.id, api.service(g.id)))
  {
  }

  lemma DeletesEither(before: map<GroupId, Resource>, middle: map<GroupId, Resource>, after: map<GroupId, Resource>,
                      ids: set<GroupId>, id: GroupId, d: Deletion)
    requires Deletes(before, middle, ids) && (after == middle || after == DeletedFrom(middle, id, d))
    ensures Deletes(before, after, ids + {id})
  {
    DeletesMore(before, middle, ids, id, d);
  }

  lemma RemoveOneDeletes(w: World, middle: World, ids: set<GroupId>, g: Group, isolated: set<GroupId>, api: Api)
    requires OnlyDeletes(w, middle, ids)
    ensures OnlyDeletes(w, RemoveOne(middle, g, isolated, api), ids + {g.id})
  {
    var w' := RemoveOne(middle, g, isolated, api);
    RemoveOneFields(middle, g, isolated, api);
    DeletesEither(w.pods, middle.pods, w'.pods, ids, g.id, api.pod(g.id));
    DeletesEither(w.pvcs, middle.pvcs, w'.pvcs, ids, g.id, api.pvc(g.id));
    DeletesEither(w.services, middle.services, w'.services, ids, g.id, api.service(g.id));
  }

  lemma IdsOfAppend(list: seq<Group>)
    requires list != []
    ensures IdsOf(list) == IdsOf(list[..|list| - 1]) + {list[|list| - 1].id}
  {
    assert list == list[..|list| - 1] + [list[|list| - 1]];
  }

  lemma {:induction false} RemoveAllDeletes(w: World, list: seq<Group>, isolated: set<GroupId>, api: Api)
    ensures OnlyDeletes(w, RemoveAll(w, list, isolated, api), IdsOf(list))
  {
    if list != [] {
      var front, last := list[..|list| - 1], list[|list| - 1];
      RemoveAllDeletes(w, front, isolated, api);
      RemoveOneDeletes(w, RemoveAll(w, front, isolated, api), IdsOf(front), last, isolated, api);
      IdsOfAppend(list);
    }
  }

  lemma SelectedMember(mode: UpdateMode, zones: map<string, seq<Group>>, chosen: Option<seq<Group>>, gs: seq<Group>,
                       g: Group)
    requires TracksZones(zones, gs) && Selected(mode, zones, chosen) && chosen.Some? && g in chosen.value
    ensures g in gs
  {
    assert exists zone :: zone in zones && g in zones[zone];
    var zone :| zone in zones && g in zones[zone];
    ZoneMembersIn(gs, zone, g);
    assert ZoneAt(zones, zone) == ZoneMembers(gs, zone);
  }

  lemma ChosenMember(toRemove: seq<Group>, p: Input, list: seq<Group>, g: Group)
    requires ChosenList(toRemove, p, list) && g in list
    ensures g in toRemove
  {
    var keep := (g: Group) => g.id !in p.blocked;
    var candidates := Filter(toRemove, keep);
    var zones, chosen: Option<seq<Group>> :| TracksZones(zones, candidates) && Selected(p.mode, zones, chosen)
                              && list == if chosen.None? then [] else chosen.value + ZoneAt(zones, TERMINATING_ZONE);
    if g in chosen.value {
      SelectedMember(p.mode, zones, chosen, candidates, g);
    } else {
      ZoneMembersIn(candidates, TERMINATING_ZONE, g);
      assert ZoneAt(zones, TERMINATING_ZONE) == ZoneMembers(candidates, TERMINATING_ZONE);
    }
    FilterMember(toRemove, keep, g);
  }

  lemma {:induction false} ToRemoveMember(gs: seq<Group>, remaining: RemainingMap, coordinators: set<GroupId>,
                                          now: int, g: Group)
    requires g in ToRemove(gs, remaining, coordinators, now)
    ensures exists i :: 0 <= i < |gs| && Removable(gs[i], remaining, coordinators, now)
              && g == Recorded(gs[i], remaining, coordinators, now)
  {
    var n := |gs| - 1;
    if g in ToRemove(gs[..n], remaining, coordinators, now) {
      ToRemoveMember(gs[..n], remaining, coordinators, now, g);
      var i :| 0 <= i < n && Removable(gs[..n][i], remaining, coordinators, now)
          && g == Recorded(gs[..n][i], remaining, coordinators, now);
      assert Removable(gs[i], remaining, coordinators, now);
    }
  }

  /** Only groups that the checks allow to remove lose their resources. */
  lemma DoomedGroups(w: World, list: seq<Group>, p: Input)
    requires ChosenFor(w, p, list) && !CheckFails(w.groups, p.report)
    ensures forall id :: id in IdsOf(list) ==> MayBeDoomed(w, RemoveEvent(w, list, p), id)
  {
    var e := RemoveEvent(w, list, p);
    forall i | 0 <= i < |list| ensures MayBeDoomed(w, e, list[i].id) {
      ChosenMember(ToRemove(w.groups, Found(w, e), p.coordinators, p.now), p, list, list[i]);
      Doomed(w, e, list[i]);
    }
  }

  lemma Doomed(w: World, e: Event, g: Group)
    requires e.Remove? && g in ToRemove(w.groups, Found(w, e), e.coordinators, e.now)
    ensures MayBeDoomed(w, e, g.id)
  {
    ToRemoveMember(w.groups, Found(w, e), e.coordinators, e.now, g);
  }

  lemma PassIsStep(w: World, list: seq<Group>, p: Input)
    requires ChosenFor(w, p, list) && !CheckFails(w.groups, p.report)
    ensures Step(w, RemoveEvent(w, list, p), RemovalResult(w, list, p))
  {
    DoomedGroups(w, list, p);
    RemoveAllDeletes(RecordedWorld(w, p), list, p.isolated, p.api);
  }
}
