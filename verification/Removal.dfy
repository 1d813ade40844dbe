/** Choosing the process groups whose resources are deleted, and including and dropping those that are gone. */
module Removal {
  import opened Basics
  import opened ProcessGroups
  import opened ExclusionStatus

  /** For addresses and localities whose exclusion was checked: whether something still runs there. */
  type RemainingMap = map<Address, bool>

  predicate Reported(remaining: RemainingMap, a: Address) {
    a in remaining && remaining[a]
  }

  /** An address of the group, or its locality, is reported as still in use. */
  predicate SomethingRemains(g: Group, remaining: RemainingMap) {
    Reported(remaining, ExclusionString(g.id))
      || exists i :: 0 <= i < |g.addresses| && Reported(remaining, g.addresses[i])
  }

  const ONE_HOUR: int := 3600

  /** The check for a group whose exclusion is not yet recorded as complete. If the locality was checked, its
      result decides alone. */
  predicate AllAddressesExcluded(g: Group, remaining: RemainingMap, now: int) {
    if IsExcluded(g) then true
    else if ExclusionString(g.id) in remaining then !remaining[ExclusionString(g.id)]
    else if g.addresses == [] then g.pendingSince.Some? && now - g.pendingSince.value > ONE_HOUR
    else forall i :: 0 <= i < |g.addresses| ==> g.addresses[i] in remaining && !remaining[g.addresses[i]]
  }

  predicate Removable(g: Group, remaining: RemainingMap, coordinators: set<GroupId>, now: int) {
    && g.marked && g.id !in coordinators
    && if IsExcluded(g) then !SomethingRemains(g, remaining)
       else g.kind == TEST || AllAddressesExcluded(g, remaining, now)
  }

  /** A removable group, with its exclusion recorded as complete. */
  function Recorded(g: Group, remaining: RemainingMap, coordinators: set<GroupId>, now: int): Group {
    if Removable(g, remaining, coordinators, now) && !IsExcluded(g) then SetExclude(g, now) else g
  }

  function RecordedAll(gs: seq<Group>, remaining: RemainingMap, coordinators: set<GroupId>, now: int): (gs': seq<Group>)
    ensures |gs'| == |gs| && forall i :: 0 <= i < |gs| ==> gs'[i] == Recorded(gs[i], remaining, coordinators, now)
  {
    seq(|gs|, i requires 0 <= i < |gs| => Recorded(gs[i], remaining, coordinators, now))
  }

  function ToRemove(gs: seq<Group>, remaining: RemainingMap, coordinators: set<GroupId>, now: int): seq<Group> {
    if gs == [] then []
    else
      var g := gs[|gs| - 1];
      ToRemove(gs[..|gs| - 1], remaining, coordinators, now)
      + if Removable(g, remaining, coordinators, now) then [Recorded(g, remaining, coordinators, now)] else []
  }

  // ----- what is checked before a removal -----

  /** A process of the group reports, in the data center of this cluster. */
  predicate Present(report: Report, id: GroupId) {
    exists i :: 0 <= i < |report.processes| && report.processes[i].instance == Some(id) && report.processes[i].sharesDc
  }

  /** A completed exclusion is trusted only while a process of the group reports. */
  predicate NeedsCheck(g: Group, report: Report) {
    g.marked && !(IsExcluded(g) && Present(report, g.id))
  }

  /** Localities are checked for all groups where they are in use; addresses are then checked for log processes only. */
  function ChecksOf(g: Group, report: Report): seq<Address> {
    if !NeedsCheck(g, report) then []
    else (if report.useLocalities then [ExclusionString(g.id)] else [])
         + if report.useLocalities && !IsLogProcess(g.kind) then [] else g.addresses
  }

  function Checks(gs: seq<Group>, report: Report): seq<Address> {
    if gs == [] then [] else Checks(gs[..|gs| - 1], report) + ChecksOf(gs[|gs| - 1], report)
  }

  function RemainingOf(gs: seq<Group>, report: Report): RemainingMap {
    map a | a in Checks(gs, report) :: InUse(report, a)
  }

  /** There is something to check, and exclude commands must not be issued, or the last one fails. */
  predicate CheckFails(gs: seq<Group>, report: Report) {
    Checks(gs, report) != [] && (!report.checkable || VerificationFails(report, Checks(gs, report)))
  }

  /** What the exclude commands of the checks write to the exclusion list. */
  function Written(gs: seq<Group>, report: Report): set<Address> {
    if report.checkable then set a | a in Checks(gs, report) && Commanded(report, a) else {}
  }

  method GetAddressesToValidateBeforeRemoval(gs: seq<Group>, report: Report) returns (addresses: seq<Address>)
    ensures addresses == Checks(gs, report)
  {
    addresses := [];
    for i := 0 to |gs|
      invariant addresses == Checks(gs[..i], report)
    {
      assert gs[..i + 1][..i] == gs[..i];
      if !gs[i].marked {
        continue;
      }
      if IsExcluded(gs[i]) {
        var present := IsPresent(report, gs[i].id);
        if present {
          continue;
        }
      }
      if report.useLocalities {
        addresses := addresses + [ExclusionString(gs[i].id)];
        if !IsLogProcess(gs[i].kind) {
          continue;
        }
      }
      if |gs[i].addresses| == 0 {
        continue;
      }
      addresses := addresses + gs[i].addresses;
    }
    assert gs[..|gs|] == gs;
  }

  method IsPresent(report: Report, id: GroupId) returns (present: bool)
    ensures present <==> Present(report, id)
  {
    present := false;
    for i := 0 to |report.processes|
      invariant present <==> exists h :: 0 <= h < i && report.processes[h].instance == Some(id)
                                         && report.processes[h].sharesDc
    {
      if !report.processes[i].sharesDc {
        continue;
      }
      if report.processes[i].instance.None? {
        continue;
      }
      present := present || report.processes[i].instance.value == id;
    }
  }

  /** Whether something still runs at every checked entry, and what the checks write to the exclusion list. None is an
      error: the checks could not be made, or not be completed. */
  method GetRemainingMap(gs: seq<Group>, report: Report)
    returns (remaining: Option<RemainingMap>, written: set<Address>)
    ensures remaining.None? <==> CheckFails(gs, report)
    ensures remaining.Some? ==> remaining.value == RemainingOf(gs, report)
    ensures written == Written(gs, report)
  {
    var addresses := GetAddressesToValidateBeforeRemoval(gs, report);
    written := {};
    if |addresses| == 0 {
      assert Written(gs, report) == {};
      return Some(map[]), written;
    }
    if !report.checkable {
      return None, written;
    }
    var found;
    found, written := CanSafelyRemoveFromStatus(report, addresses);
    if found.None? {
      return None, written;
    }
    var m := MarkRemaining(addresses, found.value);
    remaining := Some(m);
  }

  /** All addresses, with those marked that remain. */
  method MarkRemaining(addresses: seq<Address>, found: seq<Address>) returns (m: RemainingMap)
    requires forall a :: a in found ==> a in addresses
    ensures m == map a | a in addresses :: a in found
  {
    m := map a | a in addresses :: false;
    for i := 0 to |found|
      invariant m == map a | a in addresses :: a in found[..i]
    {
      assert found[..i + 1] == found[..i] + [found[i]];
      m := m[found[i] := true];
    }
    assert found[..|found|] == found;
  }

  lemma {:induction false} ChecksMember(gs: seq<Group>, report: Report, a: Address)
    ensures a in Checks(gs, report) <==> exists i :: 0 <= i < |gs| && a in ChecksOf(gs[i], report)
  {
    if gs != [] {
      var front := gs[..|gs| - 1];
      ChecksMember(front, report, a);
      assert gs == front + [gs[|gs| - 1]];
      assert forall i :: 0 <= i < |front| ==> front[i] == gs[i];
    }
  }

  // ----- for exactly which groups a removal can overlook something -----

  /** Whatever the checks of `keys` find, the group is removed only if they find nothing of it. */
  ghost predicate NothingOverlooked(g: Group, keys: set<Address>) {
    forall remaining: RemainingMap, coordinators: set<GroupId>, now: int ::
      Removable(g, remaining, coordinators, now) && remaining.Keys == keys ==> !SomethingRemains(g, remaining)
  }

  /** A group whose exclusion is not yet recorded: for a tester any check is ignored, and otherwise, once the locality
      is checked, the checks of addresses are. */
  predicate ChecksIgnored(g: Group, keys: set<Address>) {
    && g.marked && !IsExcluded(g)
    && (g.kind == TEST || ExclusionString(g.id) in keys)
    && ((g.kind == TEST && ExclusionString(g.id) in keys)
        || exists i :: 0 <= i < |g.addresses| && g.addresses[i] in keys && g.addresses[i] != ExclusionString(g.id))
  }

  /** An ignored check can find something. */
  lemma OverlookedAddress(g: Group, keys: set<Address>, a: Address)
    requires g.marked && !IsExcluded(g) && a in keys && (a == ExclusionString(g.id) || a in g.addresses)
    requires g.kind == TEST || (ExclusionString(g.id) in keys && a != ExclusionString(g.id))
    ensures !NothingOverlooked(g, keys)
  {
    var remaining: RemainingMap := map k | k in keys :: k == a;
    assert remaining.Keys == keys;
    assert Reported(remaining, a);
    assert Removable(g, remaining, {}, 0) && SomethingRemains(g, remaining);
  }

  lemma OverlookedTheorem(g: Group, keys: set<Address>)
    ensures NothingOverlooked(g, keys) <==> !ChecksIgnored(g, keys)
  {
    if ChecksIgnored(g, keys) {
      if g.kind == TEST && ExclusionString(g.id) in keys {
        OverlookedAddress(g, keys, ExclusionString(g.id));
      } else {
        var i :| 0 <= i < |g.addresses| && g.addresses[i] in keys && g.addresses[i] != ExclusionString(g.id);
        OverlookedAddress(g, keys, g.addresses[i]);
      }
    } else {
      forall remaining: RemainingMap, coordinators: set<GroupId>, now: int
        | Removable(g, remaining, coordinators, now) && remaining.Keys == keys
        ensures !SomethingRemains(g, remaining)
      {
        NotOverlooked(g, remaining, coordinators, now);
      }
    }
  }

  lemma NotOverlooked(g: Group, remaining: RemainingMap, coordinators: set<GroupId>, now: int)
    requires Removable(g, remaining, coordinators, now) && !ChecksIgnored(g, remaining.Keys)
    ensures !SomethingRemains(g, remaining)
  {
    if !IsExcluded(g) && g.kind != TEST && ExclusionString(g.id) in remaining {
      forall i | 0 <= i < |g.addresses| ensures !Reported(remaining, g.addresses[i]) {}
    }
  }

  /** With the checks that the operator makes, these are log processes excluded by locality that have an address, and
      testers of which anything is checked. */
  predicate AtRisk(g: Group, useLocalities: bool) {
    && g.marked && !IsExcluded(g)
    && if g.kind == TEST then useLocalities || g.addresses != []
       else useLocalities && IsLogProcess(g.kind) && g.addresses != []
  }

  /** Among groups with their own addresses, a group's checks are its own. */
  lemma OwnChecks(gs: seq<Group>, report: Report, i: nat, a: Address)
    requires AllOwnAddresses(gs) && i < |gs| && (a == ExclusionString(gs[i].id) || a in gs[i].addresses)
    ensures a in Checks(gs, report) <==> a in ChecksOf(gs[i], report)
  {
    ChecksMember(gs, report, a);
    forall j | 0 <= j < |gs| && j != i ensures a !in ChecksOf(gs[j], report) {
      if a in ChecksOf(gs[j], report) {
        OwnEntry(gs, i, j, a);
      }
    }
  }

  /** A removal can overlook something of a group exactly if the group is at risk, which the configuration and the group
      itself tell before any check. */
  lemma RemovalSafetyTheorem(gs: seq<Group>, report: Report, i: nat)
    requires AllOwnAddresses(gs) && i < |gs|
    ensures NothingOverlooked(gs[i], RemainingOf(gs, report).Keys) <==> !AtRisk(gs[i], report.useLocalities)
  {
    var g, keys := gs[i], RemainingOf(gs, report).Keys;
    OverlookedTheorem(g, keys);
    OwnChecks(gs, report, i, ExclusionString(g.id));
    forall k | 0 <= k < |g.addresses| ensures g.addresses[k] in keys <==> g.addresses[k] in ChecksOf(g, report) {
      OwnChecks(gs, report, i, g.addresses[k]);
    }
    if AtRisk(g, report.useLocalities) && g.addresses != [] {
      assert g.addresses[0] != ExclusionString(g.id);
      assert !report.useLocalities || IsLogProcess(g.kind) ==> g.addresses[0] in keys;
    }
  }

  const OLD_LOG: Group := Group("log-1", LOG, ["10.0.0.1"], "", true, None, false, None, None, None)

  /** A process without an id still runs at the address of a log process whose locality is free. */
  const STRAY: Report :=
    Report(true, true, true, [Process(None, "10.0.0.1", true, false, true)], Done, Done)

  lemma OverlookedExample()
    ensures !CheckFails([OLD_LOG], STRAY)
    ensures var remaining := RemainingOf([OLD_LOG], STRAY);
            Removable(OLD_LOG, remaining, {}, 0) && SomethingRemains(OLD_LOG, remaining)
  {
    var g, locality := OLD_LOG, ExclusionString("log-1");
    assert locality[0] == 'l' && locality != "10.0.0.1";
    assert |locality| > |ExclusionString("")|;
    assert [g][..0] == [];
    assert Checks([g], STRAY) == [locality, "10.0.0.1"];
    assert RunsAt(STRAY.processes[0], "10.0.0.1");
    assert StandingIn(STRAY, "10.0.0.1") == NotExcluded && StandingIn(STRAY, locality) == Unseen;
    assert Reported(RemainingOf([g], STRAY), g.addresses[0]);
  }

  // ----- what a removal without findings means -----

  /** Everything that is checked of the group is vacated. */
  ghost predicate NothingRuns(g: Group, report: Report) {
    forall a :: a in ChecksOf(g, report) ==> Vacated(report, a)
  }

  /** If no check finds anything of a group, then everything that is checked of it is vacated, and the other way round
      where groups have their own addresses. */
  lemma NothingRunsTheorem(gs: seq<Group>, report: Report, i: nat)
    requires i < |gs|
    ensures !SomethingRemains(gs[i], RemainingOf(gs, report)) ==> NothingRuns(gs[i], report)
    ensures AllOwnAddresses(gs) && NothingRuns(gs[i], report) ==> !SomethingRemains(gs[i], RemainingOf(gs, report))
  {
    var g, remaining := gs[i], RemainingOf(gs, report);
    if !SomethingRemains(g, remaining) {
      forall a | a in ChecksOf(g, report) ensures Vacated(report, a) {
        ChecksMember(gs, report, a);
        VacatedTheorem(report, a);
        assert a == ExclusionString(g.id) || exists k :: 0 <= k < |g.addresses| && g.addresses[k] == a;
        assert !Reported(remaining, a);
      }
    }
    if AllOwnAddresses(gs) && NothingRuns(g, report) {
      forall a | a == ExclusionString(g.id) || a in g.addresses ensures !Reported(remaining, a) {
        OwnChecks(gs, report, i, a);
        VacatedTheorem(report, a);
      }
    }
  }

  method ProcessGroupAddressesRemaining(g: Group, remaining: RemainingMap) returns (r: bool)
    ensures r <==> SomethingRemains(g, remaining)
  {
    if Reported(remaining, ExclusionString(g.id)) {
      return true;
    }
    for i := 0 to |g.addresses|
      invariant forall h :: 0 <= h < i ==> !Reported(remaining, g.addresses[h])
    {
      if Reported(remaining, g.addresses[i]) {
        return true;
      }
    }
    return false;
  }

  // ----- zones and removal modes -----

  const UNKNOWN_ZONE: string := "foundationdb.org/unknown"
  const TERMINATING_ZONE: string := "foundationdb.org/terminating"

  function ZoneOf(g: Group): string {
    if g.terminatingSince.Some? && g.terminatingSince.value > 0 then TERMINATING_ZONE
    else if g.faultDomain == "" then UNKNOWN_ZONE
    else g.faultDomain
  }

  function ZoneAt(zones: map<string, seq<Group>>, zone: string): seq<Group> {
    if zone in zones then zones[zone] else []
  }

  function ZoneMembers(gs: seq<Group>, zone: string): seq<Group> {
    if gs == [] then []
    else ZoneMembers(gs[..|gs| - 1], zone) + if ZoneOf(gs[|gs| - 1]) == zone then [gs[|gs| - 1]] else []
  }

  ghost predicate TracksZones(zones: map<string, seq<Group>>, gs: seq<Group>) {
    forall zone :: ZoneAt(zones, zone) == ZoneMembers(gs, zone) && (zone in zones ==> zones[zone] != [] && zone != "")
  }

  lemma TracksZonesStep(zones: map<string, seq<Group>>, gs: seq<Group>, i: nat)
    requires i < |gs| && TracksZones(zones, gs[..i])
    ensures TracksZones(zones[ZoneOf(gs[i]) := ZoneAt(zones, ZoneOf(gs[i])) + [gs[i]]], gs[..i + 1])
  {
    var q, here := gs[..i + 1], ZoneOf(gs[i]);
    var zones' := zones[here := ZoneAt(zones, here) + [gs[i]]];
    assert here != "";
    forall zone
      ensures ZoneAt(zones', zone) == ZoneMembers(q, zone) && (zone in zones' ==> zones'[zone] != [] && zone != "")
    {
      ZoneMembersStep(gs, i, zone);
      assert ZoneAt(zones, zone) == ZoneMembers(gs[..i], zone);
    }
  }

  lemma ZoneMembersStep(gs: seq<Group>, i: nat, zone: string)
    requires i < |gs|
    ensures ZoneMembers(gs[..i + 1], zone)
            == ZoneMembers(gs[..i], zone) + if ZoneOf(gs[i]) == zone then [gs[i]] else []
  {
    assert gs[..i + 1][..i] == gs[..i];
  }

  lemma {:induction false} ZoneMembersIn(gs: seq<Group>, zone: string, g: Group)
    ensures g in ZoneMembers(gs, zone) <==> g in gs && ZoneOf(g) == zone
  {
    if gs != [] {
      ZoneMembersIn(gs[..|gs| - 1], zone, g);
      assert gs == gs[..|gs| - 1] + [gs[|gs| - 1]];
    }
  }

  /** The latest time at which a group's resources began to terminate, or 0. */
  function LatestTermination(gs: seq<Group>): int {
    if gs == [] then 0
    else
      var latest, since := LatestTermination(gs[..|gs| - 1]), gs[|gs| - 1].terminatingSince;
      if since.Some? && since.value > latest then since.value else latest
  }

  method GetZonedRemovals(gs: seq<Group>) returns (zones: map<string, seq<Group>>, latest: int)
    ensures TracksZones(zones, gs) && latest == LatestTermination(gs)
  {
    zones, latest := map[], 0;
    for i := 0 to |gs|
      invariant TracksZones(zones, gs[..i]) && latest == LatestTermination(gs[..i])
    {
      TracksZonesStep(zones, gs, i);
      assert gs[..i + 1][..i] == gs[..i];
      if gs[i].terminatingSince.Some? && gs[i].terminatingSince.value > latest {
        latest := gs[i].terminatingSince.value;
      }
      zones := zones[ZoneOf(gs[i]) := ZoneAt(zones, ZoneOf(gs[i])) + [gs[i]]];
    }
    assert gs[..|gs|] == gs;
  }

  datatype UpdateMode = All | Zone | ProcessGroup | Nothing | Unknown(name: string)

  /** A zone with the most groups, leaving out what already terminates. */
  ghost predicate LargestZone(zones: map<string, seq<Group>>, zone: string) {
    && zone in zones && zone != TERMINATING_ZONE
    && forall other :: other in zones && other != TERMINATING_ZONE ==> |zones[other]| <= |zones[zone]|
  }

  /** What may be removed now: everything, a first group, or a whole zone. None is an error. */
  ghost predicate Selected(mode: UpdateMode, zones: map<string, seq<Group>>, r: Option<seq<Group>>) {
    match mode
    case All => r.Some? && forall g :: g in r.value <==> exists zone :: zone in zones && g in zones[zone]
    case ProcessGroup =>
      if r.None? then forall zone :: zone in zones ==> zones[zone] == []
      else exists zone :: zone in zones && zones[zone] != [] && r.value == [zones[zone][0]]
    case Zone =>
      && r.Some?
      && ((r.value == [] && ("" in zones || forall zone :: zone in zones ==> zone == TERMINATING_ZONE))
          || (exists zone :: LargestZone(zones, zone) && r.value == zones[zone]))
    case Nothing => r == Some([])
    case Unknown(_) => r.None?
  }

  method GetProcessGroupsToRemove(mode: UpdateMode, zones: map<string, seq<Group>>) returns (r: Option<seq<Group>>)
    ensures Selected(mode, zones, r)
  {
    if mode.All? {
      var deletions := [];
      var todo := zones.Keys;
      while todo != {}
        invariant todo <= zones.Keys
        invariant forall g :: g in deletions ==> exists zone :: zone in zones && g in zones[zone]
        invariant forall zone, g :: zone in zones && zone !in todo && g in zones[zone] ==> g in deletions
      {
        var zone :| zone in todo;
        todo := todo - {zone};
        deletions := deletions + zones[zone];
      }
      return Some(deletions);
    }
    if mode.ProcessGroup? {
      var todo := zones.Keys;
      while todo != {}
        invariant todo <= zones.Keys
        invariant forall zone :: zone in zones && zone !in todo ==> zones[zone] == []
      {
        var zone :| zone in todo;
        todo := todo - {zone};
        if |zones[zone]| < 1 {
          continue;
        }
        return Some([zones[zone][0]]);
      }
    }
    if mode.Zone? {
      var pickedZone := "";
      var currentMaxZone := -1;
      var todo := zones.Keys;
      while todo != {}
        invariant todo <= zones.Keys
        invariant if currentMaxZone == -1 then pickedZone == ""
                  && forall zone :: zone in zones && zone !in todo ==> zone == TERMINATING_ZONE
                  else pickedZone in zones && pickedZone != TERMINATING_ZONE && currentMaxZone == |zones[pickedZone]|
        invariant forall zone :: zone in zones && zone !in todo && zone != TERMINATING_ZONE
                    ==> |zones[zone]| <= currentMaxZone
      {
        var zone :| zone in todo;
        todo := todo - {zone};
        if zone == TERMINATING_ZONE {
          continue;
        }
        if |zones[zone]| > currentMaxZone {
          currentMaxZone := |zones[zone]|;
          pickedZone := zone;
        }
      }
      if pickedZone == "" {
        return Some([]);
      }
      return Some(zones[pickedZone]);
    }
    if mode.Nothing? {
      return Some([]);
    }
    return None;
  }

  // ----- including and dropping -----

  /** The addresses of a dropped group that are included again. For a log process all of them are, once something of
      it was found in the exclusion list. */
  function IncludedAddresses(addresses: seq<Address>, exclusions: set<Address>, isLog: bool,
                             found: bool): seq<Address> {
    if addresses == [] then []
    else if (found && isLog) || addresses[0] in exclusions then
      [addresses[0]] + IncludedAddresses(addresses[1..], exclusions, isLog, true)
    else IncludedAddresses(addresses[1..], exclusions, isLog, found)
  }

  /** What is included for one dropped group. */
  function IncludedFor(g: Group, exclusions: set<Address>): seq<Address> {
    if g.kind == TEST then []
    else
      var found := ExclusionString(g.id) in exclusions;
      (if found then [ExclusionString(g.id)] else [])
          + IncludedAddresses(g.addresses, exclusions, IsLogProcess(g.kind), found)
  }

  predicate Dropped(g: Group, removed: map<GroupId, bool>) {
    g.marked && g.id in removed && removed[g.id]
  }

  function Included(gs: seq<Group>, removed: map<GroupId, bool>, exclusions: set<Address>): seq<Address> {
    if gs == [] then []
    else
      var g := gs[|gs| - 1];
      Included(gs[..|gs| - 1], removed, exclusions) + if Dropped(g, removed) then IncludedFor(g, exclusions) else []
  }

  function Remaining(gs: seq<Group>, removed: map<GroupId, bool>): seq<Group> {
    Filter(gs, g => !Dropped(g, removed))
  }

  /** Exactly what is in the exclusion list is found, and nothing foreign is included. */
  lemma {:induction false} IncludedAddressesCover(addresses: seq<Address>, exclusions: set<Address>, isLog: bool,
                                                  found: bool)
    ensures forall a :: a in addresses && a in exclusions
              ==> a in IncludedAddresses(addresses, exclusions, isLog, found)
    ensures forall a :: a in IncludedAddresses(addresses, exclusions, isLog, found) ==> a in addresses
  {
    if addresses != [] {
      IncludedAddressesCover(addresses[1..], exclusions, isLog, true);
      IncludedAddressesCover(addresses[1..], exclusions, isLog, found);
      assert addresses == [addresses[0]] + addresses[1..];
    }
  }

  lemma {:induction false} IncludedCovers(gs: seq<Group>, removed: map<GroupId, bool>, exclusions: set<Address>, i: nat)
    requires i < |gs| && Dropped(gs[i], removed) && gs[i].kind != TEST
    ensures ExclusionString(gs[i].id) in exclusions ==> ExclusionString(gs[i].id) in Included(gs, removed, exclusions)
    ensures forall a :: a in gs[i].addresses && a in exclusions ==> a in Included(gs, removed, exclusions)
  {
    if i < |gs| - 1 {
      IncludedCovers(gs[..|gs| - 1], removed, exclusions, i);
    } else {
      IncludedAddressesCover(gs[i].addresses, exclusions, IsLogProcess(gs[i].kind),
          ExclusionString(gs[i].id) in exclusions);
    }
  }

  method IncludeGroup(g: Group, exclusions: set<Address>) returns (included: seq<Address>)
    requires g.kind != TEST
    ensures included == IncludedFor(g, exclusions)
  {
    included := [];
    var found := false;
    if ExclusionString(g.id) in exclusions {
      included := [ExclusionString(g.id)];
      found := true;
    }
    ghost var before := included;
    ghost var all := IncludedAddresses(g.addresses, exclusions, IsLogProcess(g.kind), found);
    for i := 0 to |g.addresses|
      invariant included + IncludedAddresses(g.addresses[i..], exclusions, IsLogProcess(g.kind), found) == before + all
    {
      ghost var rest := g.addresses[i..];
      assert rest[0] == g.addresses[i] && rest[1..] == g.addresses[i + 1..];
      if found && IsLogProcess(g.kind) {
        included := included + [g.addresses[i]];
        continue;
      }
      if g.addresses[i] in exclusions {
        included := included + [g.addresses[i]];
        found := true;
      }
    }
  }

  lemma IncludedPrefix(gs: seq<Group>, removed: map<GroupId, bool>, exclusions: set<Address>, i: nat)
    requires i < |gs|
    ensures Included(gs[..i + 1], removed, exclusions)
            == Included(gs[..i], removed, exclusions)
               + if Dropped(gs[i], removed) then IncludedFor(gs[i], exclusions) else []
  {
    assert gs[..i + 1][..i] == gs[..i];
  }

  /** Walks over a copy of the list and moves the groups to keep to its front. The compaction in place loses and
      reorders nothing. */
  method GetProcessesToInclude(list: seq<Group>, removed: map<GroupId, bool>, exclusions: set<Address>)
    returns (included: seq<Address>, kept: seq<Group>)
    ensures if removed == map[] then included == [] && kept == list
            else included == Included(list, removed, exclusions) && kept == Remaining(list, removed)
  {
    included := [];
    if |removed| == 0 {
      return [], list;
    }
    var groups := new Group[|list|](i requires 0 <= i < |list| => list[i]);
    var idx := 0;
    ghost var keep := g => !Dropped(g, removed);
    for i := 0 to groups.Length
      invariant idx <= i && fresh(groups)
      invariant groups[..idx] == Filter(list[..i], keep)
      invariant groups[i..] == list[i..]
      invariant included == Included(list[..i], removed, exclusions)
    {
      var g := groups[i];
      assert g == groups[i..][0] == list[i];
      FilterPrefix(list, i, keep);
      IncludedPrefix(list, removed, exclusions, i);
      assert groups[i + 1..] == groups[i..][1..] && list[i + 1..] == list[i..][1..];
      if g.marked && g.id in removed && removed[g.id] {
        if g.kind == TEST {
          continue;
        }
        var more := IncludeGroup(g, exclusions);
        included := included + more;
        continue;
      }
      groups[idx] := g;
      idx := idx + 1;
      assert groups[..idx] == groups[..idx - 1] + [g];
    }
    assert list[..|list|] == list;
    kept := groups[..idx];
  }
}
