/** Which of the groups that can be removed a pass takes on, and what it leaves of them. */
module RemovalSelection {
  import opened Basics
  import opened Counting
  import opened ProcessGroups
  import opened Removal
  import opened RemovalRules
  import opened Lifecycle
  import opened GroupReconciler

  /** The group can be removed and is not held back. */
  predicate Candidate(toRemove: seq<Group>, p: Input, g: Group) {
    g in toRemove && g.id !in p.blocked
  }

  /** Its resources are being deleted already. */
  predicate Terminates(g: Group) {
    g.terminatingSince.Some? && g.terminatingSince.value > 0
  }

  /** Groups that terminate, and groups without a fault domain, are put in zones of their own. */
  predicate LiesIn(g: Group, zone: string) {
    if Terminates(g) then zone == "foundationdb.org/terminating"
    else if g.faultDomain == "" then zone == "foundationdb.org/unknown"
    else zone == g.faultDomain
  }

  predicate LiesInTerminating(g: Group) {
    LiesIn(g, "foundationdb.org/terminating")
  }

  function Candidates(toRemove: seq<Group>, p: Input): seq<Group> {
    Filter(toRemove, (g: Group) => g.id !in p.blocked)
  }

  function ZoneSize(gs: seq<Group>, zone: string): nat {
    Number(gs, g => LiesIn(g, zone))
  }

  /** Something can be removed, the cluster has its fault tolerance, and no termination is too recent, unless all groups
      may be removed at once. */
  ghost predicate MayRemove(toRemove: seq<Group>, p: Input) {
    && (exists g :: Candidate(toRemove, p, g)) && p.faultTolerant
    && (p.mode.All?
        || (0 <= p.now - p.wait && forall g :: Candidate(toRemove, p, g) ==> TerminatesBy(g, p.now - p.wait)))
  }

  predicate TerminatesBy(g: Group, t: int) {
    g.terminatingSince.Some? ==> g.terminatingSince.value <= t
  }

  /** What is chosen: everything, one group, one zone, or nothing, and always what terminates. */
  ghost predicate Takes(toRemove: seq<Group>, p: Input, list: seq<Group>) {
    match p.mode
    case All => forall g :: g in list <==> Candidate(toRemove, p, g)
    case ProcessGroup => exists one :: Candidate(toRemove, p, one) && TakesGroup(toRemove, p, list, one)
    case Zone => exists zone :: LargestOf(toRemove, p, zone) && TakesFrom(toRemove, p, list, zone)
    case Nothing => forall g :: g in list <==> Candidate(toRemove, p, g) && LiesInTerminating(g)
    case Unknown(_) => list == []
  }

  ghost predicate TakesGroup(toRemove: seq<Group>, p: Input, list: seq<Group>, one: Group) {
    forall g :: g in list <==> g == one || (Candidate(toRemove, p, g) && LiesInTerminating(g))
  }

  ghost predicate TakesFrom(toRemove: seq<Group>, p: Input, list: seq<Group>, zone: string) {
    forall g :: g in list <==> Candidate(toRemove, p, g) && (LiesIn(g, zone) || LiesInTerminating(g))
  }

  /** No zone but that of terminating groups has more candidates; if all candidates terminate, it is their zone. */
  ghost predicate LargestOf(toRemove: seq<Group>, p: Input, zone: string) {
    if forall g :: Candidate(toRemove, p, g) ==> LiesInTerminating(g) then zone == "foundationdb.org/terminating"
    else
      && zone != "foundationdb.org/terminating"
      && forall other :: other != "foundationdb.org/terminating" ==>
           ZoneSize(Candidates(toRemove, p), other) <= ZoneSize(Candidates(toRemove, p), zone)
  }

  lemma ZoneOfMeans(g: Group, zone: string)
    ensures ZoneOf(g) == zone <==> LiesIn(g, zone)
  {
  }

  lemma CandidateMember(toRemove: seq<Group>, p: Input, g: Group)
    ensures g in Candidates(toRemove, p) <==> Candidate(toRemove, p, g)
  {
    FilterMember(toRemove, (g: Group) => g.id !in p.blocked, g);
  }

  lemma {:induction false} ZoneMembersSize(gs: seq<Group>, zone: string)
    ensures |ZoneMembers(gs, zone)| == ZoneSize(gs, zone)
  {
    if gs == [] {
      NumberNone((g: Group) => LiesIn(g, zone));
    } else {
      ZoneMembersSize(gs[..|gs| - 1], zone);
      ZoneOfMeans(gs[|gs| - 1], zone);
      NumberStep(gs, g => LiesIn(g, zone));
    }
  }

  lemma ZoneIn(zones: map<string, seq<Group>>, gs: seq<Group>, zone: string, g: Group)
    requires TracksZones(zones, gs)
    ensures g in ZoneAt(zones, zone) <==> g in gs && LiesIn(g, zone)
  {
    assert ZoneAt(zones, zone) == ZoneMembers(gs, zone);
    ZoneMembersIn(gs, zone, g);
    ZoneOfMeans(g, zone);
  }

  lemma {:induction false} LatestIsMaximum(gs: seq<Group>, t: int)
    ensures LatestTermination(gs) <= t <==>
            0 <= t && forall g :: g in gs ==> TerminatesBy(g, t)
  {
    if gs != [] {
      LatestIsMaximum(gs[..|gs| - 1], t);
      assert gs == gs[..|gs| - 1] + [gs[|gs| - 1]];
      assert gs[|gs| - 1] in gs;
      assert forall g :: g in gs[..|gs| - 1] ==> g in gs;
    }
  }

  lemma MayRemoveIs(toRemove: seq<Group>, p: Input)
    ensures MayRemove(toRemove, p) <==>
            && Candidates(toRemove, p) != [] && p.faultTolerant
            && (p.mode.All? || LatestTermination(Candidates(toRemove, p)) <= p.now - p.wait)
  {
    var gs := Candidates(toRemove, p);
    forall g ensures g in gs <==> Candidate(toRemove, p, g) {
      CandidateMember(toRemove, p, g);
    }
    LatestIsMaximum(gs, p.now - p.wait);
    if gs != [] {
      assert Candidate(toRemove, p, gs[0]) by { assert gs[0] in gs; }
    }
  }

  lemma TakesOf(toRemove: seq<Group>, p: Input, zones: map<string, seq<Group>>, chosen: Option<seq<Group>>,
                list: seq<Group>)
    requires Candidates(toRemove, p) != [] && TracksZones(zones, Candidates(toRemove, p))
    requires Selected(p.mode, zones, chosen)
    requires list == if chosen.None? then [] else chosen.value + ZoneAt(zones, TERMINATING_ZONE)
    ensures Takes(toRemove, p, list)
  {
    ZonesAreZoned(toRemove, p, zones);
    match p.mode
    case All => TakesAll(toRemove, p, zones, chosen.value, list);
    case ProcessGroup => var one := TakesOne(toRemove, p, zones, chosen, list);
    case Zone => var zone := TakesZone(toRemove, p, zones, chosen.value, list);
    case Nothing =>
    case Unknown(_) =>
  }

  lemma ZonesAreZoned(toRemove: seq<Group>, p: Input, zones: map<string, seq<Group>>)
    requires Candidates(toRemove, p) != [] && TracksZones(zones, Candidates(toRemove, p))
    ensures Zoned(toRemove, p, zones) && exists g :: Candidate(toRemove, p, g)
  {
    var gs := Candidates(toRemove, p);
    forall zone, g ensures g in ZoneAt(zones, zone) <==> Candidate(toRemove, p, g) && LiesIn(g, zone) {
      ZoneIn(zones, gs, zone, g);
      CandidateMember(toRemove, p, g);
    }
    ZonesAreSized(gs, zones);
    CandidateMember(toRemove, p, gs[0]);
  }

  lemma ZonesAreSized(gs: seq<Group>, zones: map<string, seq<Group>>)
    requires TracksZones(zones, gs)
    ensures SizedZones(gs, zones)
  {
    forall zone ensures |ZoneAt(zones, zone)| == ZoneSize(gs, zone) {
      assert ZoneAt(zones, zone) == ZoneMembers(gs, zone);
      ZoneMembersSize(gs, zone);
    }
    forall zone | zone in zones ensures zone != "" && zones[zone] != [] {
      assert ZoneAt(zones, zone) == ZoneMembers(gs, zone);
    }
  }

  ghost predicate SizedZones(gs: seq<Group>, zones: map<string, seq<Group>>) {
    && (forall zone :: |ZoneAt(zones, zone)| == ZoneSize(gs, zone))
    && (forall zone :: zone in zones ==> zone != "" && zones[zone] != [])
  }

  /** The zones hold exactly the candidates. */
  ghost predicate Zoned(toRemove: seq<Group>, p: Input, zones: map<string, seq<Group>>) {
    && (forall zone, g :: g in ZoneAt(zones, zone) <==> Candidate(toRemove, p, g) && LiesIn(g, zone))
    && SizedZones(Candidates(toRemove, p), zones)
  }

  lemma TakesAll(toRemove: seq<Group>, p: Input, zones: map<string, seq<Group>>, chosen: seq<Group>, list: seq<Group>)
    requires Zoned(toRemove, p, zones) && p.mode.All? && Selected(p.mode, zones, Some(chosen))
    requires list == chosen + ZoneAt(zones, TERMINATING_ZONE)
    ensures Takes(toRemove, p, list)
  {
    forall g ensures g in list <==> Candidate(toRemove, p, g) {
      if Candidate(toRemove, p, g) {
        assert LiesIn(g, ZoneOf(g)) && g in ZoneAt(zones, ZoneOf(g));
      }
      if zone :| zone in zones && g in zones[zone] {
        assert g in ZoneAt(zones, zone);
      }
    }
  }

  lemma TakesOne(toRemove: seq<Group>, p: Input, zones: map<string, seq<Group>>, chosen: Option<seq<Group>>,
                 list: seq<Group>)
    returns (one: Group)
    requires Zoned(toRemove, p, zones) && Selected(ProcessGroup, zones, chosen)
    requires exists g :: Candidate(toRemove, p, g)
    requires list == if chosen.None? then [] else chosen.value + ZoneAt(zones, TERMINATING_ZONE)
    ensures Candidate(toRemove, p, one) && TakesGroup(toRemove, p, list, one)
  {
    var zone := SomeZone(toRemove, p, zones);
    zone :| zone in zones && zones[zone] != [] && chosen.value == [zones[zone][0]];
    one := zones[zone][0];
    assert one in ZoneAt(zones, zone);
  }

  /** A candidate is in some zone. */
  lemma SomeZone(toRemove: seq<Group>, p: Input, zones: map<string, seq<Group>>) returns (zone: string)
    requires Zoned(toRemove, p, zones) && exists g :: Candidate(toRemove, p, g)
    ensures zone in zones && zones[zone] != []
  {
    var some :| Candidate(toRemove, p, some);
    zone := ZoneOf(some);
    ZoneOfMeans(some, zone);
    assert some in ZoneAt(zones, zone);
  }

  lemma TakesZone(toRemove: seq<Group>, p: Input, zones: map<string, seq<Group>>, chosen: seq<Group>, list: seq<Group>)
    returns (zone: string)
    requires Zoned(toRemove, p, zones) && Selected(Zone, zones, Some(chosen))
    requires list == chosen + ZoneAt(zones, TERMINATING_ZONE)
    ensures LargestOf(toRemove, p, zone) && TakesFrom(toRemove, p, list, zone)
  {
    if largest :| LargestZone(zones, largest) && chosen == zones[largest] {
      zone := largest;
      LargestIs(toRemove, p, zones, zone);
      assert chosen == ZoneAt(zones, zone);
    } else {
      zone := TERMINATING_ZONE;
      OnlyTerminating(toRemove, p, zones);
    }
  }

  lemma OnlyTerminating(toRemove: seq<Group>, p: Input, zones: map<string, seq<Group>>)
    requires Zoned(toRemove, p, zones) && forall zone :: zone in zones ==> zone == TERMINATING_ZONE
    ensures LargestOf(toRemove, p, TERMINATING_ZONE)
  {
    forall g | Candidate(toRemove, p, g) ensures LiesInTerminating(g) {
      assert LiesIn(g, ZoneOf(g)) && g in ZoneAt(zones, ZoneOf(g));
    }
  }

  lemma LargestIs(toRemove: seq<Group>, p: Input, zones: map<string, seq<Group>>, zone: string)
    requires Zoned(toRemove, p, zones) && LargestZone(zones, zone)
    ensures LargestOf(toRemove, p, zone)
  {
    var g := zones[zone][0];
    assert g in ZoneAt(zones, zone);
    assert Candidate(toRemove, p, g) && LiesIn(g, zone) && !LiesInTerminating(g);
    forall other | other != TERMINATING_ZONE
      ensures ZoneSize(Candidates(toRemove, p), other) <= ZoneSize(Candidates(toRemove, p), zone)
    {
      assert |ZoneAt(zones, other)| <= |ZoneAt(zones, zone)|;
    }
  }

  /** A pass takes on nothing unless it may remove groups, and then what its mode says. */
  lemma SelectionTheorem(toRemove: seq<Group>, p: Input, list: seq<Group>)
    requires ChosenList(toRemove, p, list)
    ensures if MayRemove(toRemove, p) then Takes(toRemove, p, list) else list == []
  {
    MayRemoveIs(toRemove, p);
    if MayRemove(toRemove, p) {
      var zones, chosen: Option<seq<Group>> :| TracksZones(zones, Candidates(toRemove, p))
        && Selected(p.mode, zones, chosen)
        && list == if chosen.None? then [] else chosen.value + ZoneAt(zones, TERMINATING_ZONE);
      TakesOf(toRemove, p, zones, chosen, list);
    }
  }

  // ----- what is left of the groups -----

  /** The API reads all resources of the group and deletes what it is asked to. */
  predicate Willing(api: Api, id: GroupId) {
    && api.podRead(id) && api.pvcRead(id) && api.serviceRead(id)
    && !api.pod(id).Fails? && !api.pvc(id).Fails? && !api.service(id).Fails?
  }

  predicate AnythingLive(w: World, id: GroupId) {
    Live(w.pods, id) || Live(w.pvcs, id) || Live(w.services, id)
  }

  lemma RemoveOneKeepsDead(w: World, g: Group, isolated: set<GroupId>, api: Api, id: GroupId)
    ensures var w' := RemoveOne(w, g, isolated, api);
            && (Live(w'.pods, id) ==> Live(w.pods, id)) && (Live(w'.pvcs, id) ==> Live(w.pvcs, id))
            && (Live(w'.services, id) ==> Live(w.services, id)) && (id in w'.pods ==> id in w.pods)
  {
  }

  lemma RemoveOneRemoves(w: World, g: Group, isolated: set<GroupId>, api: Api)
    requires Willing(api, g.id) && !(g.id in isolated && g.id in w.pods)
    ensures !AnythingLive(RemoveOne(w, g, isolated, api), g.id)
  {
  }

  lemma {:induction false} RemoveAllKeepsDead(w: World, list: seq<Group>, isolated: set<GroupId>, api: Api, id: GroupId)
    ensures id in RemoveAll(w, list, isolated, api).pods ==> id in w.pods
  {
    if list != [] {
      var n := |list| - 1;
      RemoveAllKeepsDead(w, list[..n], isolated, api, id);
      RemoveOneKeepsDead(RemoveAll(w, list[..n], isolated, api), list[n], isolated, api, id);
    }
  }

  /** Once all reads and deletions succeed, no live resource of a chosen group is left, unless its Pod is isolated. */
  lemma {:induction false} NothingLiveLeft(w: World, list: seq<Group>, isolated: set<GroupId>, api: Api, i: nat)
    requires i < |list| && Willing(api, list[i].id) && !(list[i].id in isolated && list[i].id in w.pods)
    ensures !AnythingLive(RemoveAll(w, list, isolated, api), list[i].id)
    decreases |list|
  {
    var n := |list| - 1;
    var before := RemoveAll(w, list[..n], isolated, api);
    if i < n {
      NothingLiveLeft(w, list[..n], isolated, api, i);
      RemoveOneKeepsDead(before, list[n], isolated, api, list[i].id);
    } else {
      RemoveAllKeepsDead(w, list[..n], isolated, api, list[n].id);
      RemoveOneRemoves(before, list[n], isolated, api);
    }
  }

  /** The same for a whole pass whose checks do not fail. */
  lemma PassLeavesNothingLive(w: World, list: seq<Group>, p: Input, i: nat)
    requires !CheckFails(w.groups, p.report) && i < |list| && Willing(p.api, list[i].id)
    requires !(list[i].id in p.isolated && list[i].id in w.pods)
    ensures !AnythingLive(RemovalResult(w, list, p), list[i].id)
  {
    NothingLiveLeft(RecordedWorld(w, p), list, p.isolated, p.api, i);
  }

  /** The resources of a group whose Pod is isolated stay as they are. */
  lemma {:induction false} IsolatedStays(w: World, list: seq<Group>, isolated: set<GroupId>, api: Api, id: GroupId)
    requires id in isolated && id in w.pods
    ensures var w' := RemoveAll(w, list, isolated, api);
            SameAt(w.pods, w'.pods, id) && SameAt(w.pvcs, w'.pvcs, id) && SameAt(w.services, w'.services, id)
    decreases |list|
  {
    if list != [] {
      var front := list[..|list| - 1];
      IsolatedStays(w, front, isolated, api, id);
      RemoveOneSpares(RemoveAll(w, front, isolated, api), list[|list| - 1], isolated, api, id);
    }
  }

  predicate SameAt(before: map<GroupId, Resource>, after: map<GroupId, Resource>, id: GroupId) {
    (id in after <==> id in before) && (id in before ==> after[id] == before[id])
  }

  lemma RemoveOneSpares(w: World, g: Group, isolated: set<GroupId>, api: Api, id: GroupId)
    requires id in isolated && id in w.pods
    ensures var w' := RemoveOne(w, g, isolated, api);
            SameAt(w.pods, w'.pods, id) && SameAt(w.pvcs, w'.pvcs, id) && SameAt(w.services, w'.services, id)
  {
  }

  // ----- when groups are dropped -----

  /** An entry of a group that is dropped is excluded. */
  ghost predicate SomethingToInclude(w: World, removed: map<GroupId, bool>) {
    exists j, a :: 0 <= j < |w.groups| && w.groups[j].kind != "test" && IsDropped(w.groups[j], removed)
                   && EntryOf(w.groups[j], a) && a in w.exclusions
  }

  lemma IncludesSomething(w: World, removed: map<GroupId, bool>)
    ensures Included(w.groups, removed, w.exclusions) != [] <==> SomethingToInclude(w, removed)
  {
    if j, a :| 0 <= j < |w.groups| && w.groups[j].kind != "test" && IsDropped(w.groups[j], removed)
               && EntryOf(w.groups[j], a) && a in w.exclusions {
      IncludedTheorem(w.groups, removed, w.exclusions, a);
    }
    if Included(w.groups, removed, w.exclusions) != [] {
      FirstIncluded(w.groups, removed, w.exclusions);
    }
  }

  lemma {:induction false} FirstIncluded(gs: seq<Group>, removed: map<GroupId, bool>, exclusions: set<Address>)
    requires Included(gs, removed, exclusions) != []
    ensures exists j, a :: 0 <= j < |gs| && gs[j].kind != "test" && IsDropped(gs[j], removed)
                           && EntryOf(gs[j], a) && a in exclusions
  {
    var n := |gs| - 1;
    if Included(gs[..n], removed, exclusions) != [] {
      FirstIncluded(gs[..n], removed, exclusions);
      var j, a :| 0 <= j < n && gs[..n][j].kind != "test" && IsDropped(gs[..n][j], removed)
                  && EntryOf(gs[..n][j], a) && a in exclusions;
      assert gs[j] == gs[..n][j];
    } else {
      FirstExcluded(gs[n].addresses, exclusions, IsLogProcess(gs[n].kind));
      assert EntryOf(gs[n], Locality(gs[n].id));
    }
  }

  lemma {:induction false} FirstExcluded(addresses: seq<Address>, exclusions: set<Address>, isLog: bool)
    ensures IncludedAddresses(addresses, exclusions, isLog, false) != [] ==>
              exists a :: a in addresses && a in exclusions
  {
    if addresses != [] {
      FirstExcluded(addresses[1..], exclusions, isLog);
      assert addresses[0] in addresses;
      assert forall a :: a in addresses[1..] ==> a in addresses;
    }
  }

  /** Groups that are gone are dropped exactly if including their entries is safe or, where none of these is excluded,
      if another group stays. */
  lemma DropTheorem(w: World, removed: map<GroupId, bool>, safe: bool)
    requires exists j :: 0 <= j < |w.groups| && IsDropped(w.groups[j], removed)
    ensures Drops(w, removed, safe) <==>
            if SomethingToInclude(w, removed) then safe
            else exists j :: 0 <= j < |w.groups| && !IsDropped(w.groups[j], removed)
  {
    IncludesSomething(w, removed);
    RemainingShorter(w.groups, removed);
  }

  lemma {:induction false} RemainingShorter(gs: seq<Group>, removed: map<GroupId, bool>)
    ensures |Remaining(gs, removed)| < |gs| <==> exists j :: 0 <= j < |gs| && IsDropped(gs[j], removed)
    ensures |Remaining(gs, removed)| <= |gs|
    ensures Remaining(gs, removed) != [] <==> exists j :: 0 <= j < |gs| && !IsDropped(gs[j], removed)
  {
    if gs != [] {
      var n := |gs| - 1;
      RemainingShorter(gs[..n], removed);
      assert forall j :: 0 <= j < n ==> gs[..n][j] == gs[j];
      if j :| 0 <= j < n && IsDropped(gs[..n][j], removed) {
        assert IsDropped(gs[j], removed);
      }
      if j :| 0 <= j < n && !IsDropped(gs[..n][j], removed) {
        assert !IsDropped(gs[j], removed);
      }
    }
  }
}
