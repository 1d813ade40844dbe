/** Exactly when a process group can be removed, in terms of the group and of what the database reports. */
module RemovalRules {
  import opened Basics
  import opened ProcessGroups
  import opened ExclusionStatus
  import opened Removal

  function Locality(id: GroupId): Address {
    "locality_instance_id:" + id
  }

  /** The process is found under the entry, by its address or by the locality that it reports. */
  predicate FoundAt(p: Process, a: Address) {
    p.address == a || Locality(if p.instance.Some? then p.instance.value else "") == a
  }

  /** The status can be trusted and shows only processes at the entry that are excluded and have no role; if it shows
      none, an exclude command for the entry has completed. */
  ghost predicate FreeAt(report: Report, a: Address) {
    report.valid && OnlyRetired(report, a) && (AnyFound(report, a) || report.unseen == Done)
  }

  predicate OnlyRetired(report: Report, a: Address) {
    forall i :: 0 <= i < |report.processes| && FoundAt(report.processes[i], a) ==>
      report.processes[i].excluded && !report.processes[i].hasRoles
  }

  predicate AnyFound(report: Report, a: Address) {
    exists i :: 0 <= i < |report.processes| && FoundAt(report.processes[i], a)
  }

  lemma FoundIsSeen(report: Report, a: Address)
    ensures Seen(report.processes, a) <==> AnyFound(report, a)
    ensures AllRetired(report.processes, a) <==> OnlyRetired(report, a)
  {
    var ps := report.processes;
    forall i | 0 <= i < |ps| ensures RunsAt(ps[i], a) <==> FoundAt(ps[i], a) {}
    if i :| 0 <= i < |ps| && FoundAt(ps[i], a) {
      assert RunsAt(ps[i], a);
    }
    if i :| 0 <= i < |ps| && RunsAt(ps[i], a) {
      assert FoundAt(ps[i], a);
    }
  }

  ghost predicate AllFree(report: Report, addresses: seq<Address>) {
    forall a :: a in addresses ==> FreeAt(report, a)
  }

  /** The status shows a process of the group in this data center. */
  ghost predicate Shown(report: Report, id: GroupId) {
    exists i :: 0 <= i < |report.processes| && report.processes[i].sharesDc && report.processes[i].instance == Some(id)
  }

  lemma InUseIsNotFree(report: Report, a: Address)
    ensures InUse(report, a) <==> !FreeAt(report, a)
  {
    VacatedTheorem(report, a);
    FoundIsSeen(report, a);
  }

  /** What is known of an entry once the checks are made. */
  lemma CheckedEntry(gs: seq<Group>, report: Report, i: nat, a: Address)
    requires AllOwnAddresses(gs) && i < |gs| && (a == Locality(gs[i].id) || a in gs[i].addresses)
    ensures a in RemainingOf(gs, report) <==> a in ChecksOf(gs[i], report)
    ensures a in RemainingOf(gs, report) ==> (RemainingOf(gs, report)[a] <==> !FreeAt(report, a))
  {
    OwnChecks(gs, report, i, a);
    InUseIsNotFree(report, a);
  }

  /** The group can be removed, as far as processes are concerned. */
  ghost predicate NoProcessLeft(g: Group, report: Report, now: int) {
    if g.excludedAt.Some? || g.exclusionSkipped then
      // A recorded exclusion is trusted while the status shows the group, and checked again otherwise.
      || Shown(report, g.id)
      || ((report.useLocalities ==> FreeAt(report, Locality(g.id)))
          && (!report.useLocalities || g.kind == "log" || g.kind == "transaction" ==> AllFree(report, g.addresses)))
    else if g.kind == "test" then true
    else if report.useLocalities then FreeAt(report, Locality(g.id))
    else if g.addresses == [] then g.pendingSince.Some? && now - g.pendingSince.value > 3600
    else AllFree(report, g.addresses)
  }

  lemma RecordedRule(gs: seq<Group>, report: Report, i: nat)
    requires AllOwnAddresses(gs) && i < |gs| && gs[i].marked && IsExcluded(gs[i])
    ensures SomethingRemains(gs[i], RemainingOf(gs, report)) <==> !NoProcessLeft(gs[i], report, 0)
  {
    var g, remaining := gs[i], RemainingOf(gs, report);
    assert Present(report, g.id) <==> Shown(report, g.id);
    CheckedEntry(gs, report, i, Locality(g.id));
    forall k | 0 <= k < |g.addresses|
      ensures Reported(remaining, g.addresses[k]) <==>
              g.addresses[k] in ChecksOf(g, report) && !FreeAt(report, g.addresses[k])
    {
      CheckedEntry(gs, report, i, g.addresses[k]);
    }
    if !NoProcessLeft(g, report, 0) && !Reported(remaining, Locality(g.id)) {
      var a :| a in g.addresses && !FreeAt(report, a);
      var k :| 0 <= k < |g.addresses| && g.addresses[k] == a;
      assert Reported(remaining, g.addresses[k]);
    }
  }

  lemma UnrecordedRule(gs: seq<Group>, report: Report, i: nat, now: int)
    requires AllOwnAddresses(gs) && i < |gs| && gs[i].marked && !IsExcluded(gs[i]) && gs[i].kind != TEST
    ensures AllAddressesExcluded(gs[i], RemainingOf(gs, report), now) <==> NoProcessLeft(gs[i], report, now)
  {
    var g, remaining := gs[i], RemainingOf(gs, report);
    CheckedEntry(gs, report, i, Locality(g.id));
    forall k | 0 <= k < |g.addresses| && !report.useLocalities
      ensures g.addresses[k] in remaining && (remaining[g.addresses[k]] <==> !FreeAt(report, g.addresses[k]))
    {
      CheckedEntry(gs, report, i, g.addresses[k]);
    }
  }

  /** With the checks that the operator makes, a group whose addresses are its own is removed exactly if it is marked,
      no coordinator, and no process of it is left. */
  lemma RemovableTheorem(gs: seq<Group>, report: Report, i: nat, coordinators: set<GroupId>, now: int)
    requires AllOwnAddresses(gs) && i < |gs|
    ensures Removable(gs[i], RemainingOf(gs, report), coordinators, now) <==>
            gs[i].marked && gs[i].id !in coordinators && NoProcessLeft(gs[i], report, now)
  {
    if gs[i].marked && IsExcluded(gs[i]) {
      RecordedRule(gs, report, i);
    } else if gs[i].marked && gs[i].kind != TEST {
      UnrecordedRule(gs, report, i, now);
    }
  }

  /** What a removal pass records: for a group that can be removed, the time of its first exclusion, and none of the
      conditions of a missing process or a pending Pod. */
  lemma RecordedTheorem(g: Group, remaining: RemainingMap, coordinators: set<GroupId>, now: int)
    ensures var g' := Recorded(g, remaining, coordinators, now);
            if Removable(g, remaining, coordinators, now) && g.excludedAt.None? && !g.exclusionSkipped
            then g' == Group(g.id, g.kind, g.addresses, g.faultDomain, g.marked, Some(now), false, None, None,
                             g.terminatingSince)
            else g' == g
  {
  }

  /** Exactly these entries are written to the exclusion list by the checks: those of which the status, if it can be
      trusted, shows no process, or only processes that are excluded and have no role, if the command writes them. */
  lemma WrittenTheorem(gs: seq<Group>, report: Report, a: Address)
    ensures a in Written(gs, report) <==>
            && report.checkable && report.valid && (exists i :: 0 <= i < |gs| && a in ChecksOf(gs[i], report))
            && OnlyRetired(report, a)
            && var command := if AnyFound(report, a) then report.verified else report.unseen;
               command.Done? || command.written
  {
    ChecksMember(gs, report, a);
    CommandedIs(report, a);
  }

  lemma CommandedIs(report: Report, a: Address)
    ensures Commanded(report, a) <==>
            && report.valid && OnlyRetired(report, a)
            && Writes(if AnyFound(report, a) then report.verified else report.unseen)
  {
    FoundIsSeen(report, a);
    var ps := report.processes;
    if i :| 0 <= i < |ps| && RunsAt(ps[i], a) && !ps[i].excluded {
      assert !Retired(ps[i]);
    }
  }

  /** Which entries of a group are checked: none if a process of it is shown and its exclusion is recorded; otherwise
      its locality where localities are in use, and its addresses where they are not, or if it is a log process. */
  lemma ChecksTheorem(g: Group, report: Report, a: Address)
    ensures a in ChecksOf(g, report) <==>
            && g.marked && !((g.excludedAt.Some? || g.exclusionSkipped) && Shown(report, g.id))
            && ((report.useLocalities && a == Locality(g.id))
                || (a in g.addresses && (!report.useLocalities || g.kind == "log" || g.kind == "transaction")))
  {
    assert Present(report, g.id) <==> Shown(report, g.id);
  }

  // ----- what is included again -----

  /** The entry is the group's locality or one of its addresses. */
  predicate EntryOf(g: Group, a: Address) {
    a == Locality(g.id) || a in g.addresses
  }

  /** The group is dropped: marked, and confirmed to be gone. */
  predicate IsDropped(g: Group, removed: map<GroupId, bool>) {
    g.marked && g.id in removed && removed[g.id]
  }

  lemma {:induction false} IncludedIsDropped(gs: seq<Group>, removed: map<GroupId, bool>, exclusions: set<Address>,
                                             a: Address)
    returns (j: nat)
    requires a in Included(gs, removed, exclusions)
    ensures j < |gs| && gs[j].kind != TEST && IsDropped(gs[j], removed) && EntryOf(gs[j], a)
  {
    var n := |gs| - 1;
    if a in Included(gs[..n], removed, exclusions) {
      j := IncludedIsDropped(gs[..n], removed, exclusions, a);
    } else {
      j := n;
      IncludedAddressesCover(gs[n].addresses, exclusions, IsLogProcess(gs[n].kind),
                             ExclusionString(gs[n].id) in exclusions);
    }
  }

  /** Of the exclusion list, exactly the entries of dropped groups are included, testers aside. */
  lemma IncludedTheorem(gs: seq<Group>, removed: map<GroupId, bool>, exclusions: set<Address>, a: Address)
    requires a in exclusions
    ensures a in Included(gs, removed, exclusions) <==>
            exists j :: 0 <= j < |gs| && gs[j].kind != "test" && IsDropped(gs[j], removed) && EntryOf(gs[j], a)
  {
    if a in Included(gs, removed, exclusions) {
      var j := IncludedIsDropped(gs, removed, exclusions, a);
    }
    if j :| 0 <= j < |gs| && gs[j].kind != "test" && IsDropped(gs[j], removed) && EntryOf(gs[j], a) {
      IncludedCovers(gs, removed, exclusions, j);
    }
  }

  /** Whatever was checked: a group whose exclusion is neither recorded nor checked by locality stays while an address
      of it was not checked. */
  lemma UncheckedStays(g: Group, remaining: RemainingMap, coordinators: set<GroupId>, now: int, a: Address)
    requires g.excludedAt.None? && !g.exclusionSkipped && g.kind != "test"
    requires "locality_instance_id:" + g.id !in remaining && a in g.addresses && a !in remaining
    ensures !Removable(g, remaining, coordinators, now)
  {
    var i :| 0 <= i < |g.addresses| && g.addresses[i] == a;
    assert ExclusionString(g.id) !in remaining;
  }
}
