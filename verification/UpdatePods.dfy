/** Rolling Pod updates: which zone is taken down next, within a limit on unavailable zones and respecting a
    zone that is in maintenance. */
module UpdatePods {
  import opened Basics
  import opened Ordering

  type Zone = string

  /** A Pod with its class and process group labels. */
  datatype Pod = Pod(name: string, kind: Class, groupId: GroupId)

  /** The Pod as it is looked up: not found, not to be read, or there. */
  datatype PodState = Missing | Unreadable | Running | Terminating

  /** What the checks on a single process group and its Pod come to: nothing to do, an error that ends the
      pass, a missing Pod (recently, or for at least 90 seconds), or an update of the Pod in a zone. */
  datatype Verdict = Skip | Fail | PodMissing(recently: bool) | Update(zone: Zone)

  /** `failing` is one of the conditions PodPending, MissingProcesses and PodFailing. */
  datatype Group = Group(pod: Pod, faultDomain: Zone, failing: bool, state: PodState, verdict: Verdict)

  predicate Unavailable(g: Group) {
    IsStateful(g.pod.kind) && (g.failing || !g.state.Running?)
  }

  function UnavailableDomains(gs: seq<Group>): set<Zone> {
    set i | 0 <= i < |gs| && Unavailable(gs[i]) :: gs[i].faultDomain
  }

  method GetFaultDomainsWithUnavailablePods(gs: seq<Group>) returns (domains: set<Zone>)
    ensures domains == UnavailableDomains(gs)
  {
    domains := {};
    for i := 0 to |gs|
      invariant domains == set h | 0 <= h < i && Unavailable(gs[h]) :: gs[h].faultDomain
    {
      if !IsStateful(gs[i].pod.kind) {
        continue;
      }
      if gs[i].failing {
        domains := domains + {gs[i].faultDomain};
        continue;
      }
      if gs[i].state.Missing? || gs[i].state.Unreadable? {
        domains := domains + {gs[i].faultDomain};
        continue;
      }
      if gs[i].state.Terminating? {
        domains := domains + {gs[i].faultDomain};
        continue;
      }
    }
  }

  type Updates = map<Zone, seq<Pod>>

  function PodsAt(updates: Updates, zone: Zone): seq<Pod> {
    if zone in updates then updates[zone] else []
  }

  /** At the limit only groups in zones that are unavailable anyway are looked at, beyond it none. */
  predicate WithinLimit(g: Group, domains: set<Zone>, limit: int) {
    |domains| < limit || (|domains| == limit && g.faultDomain in domains)
  }

  /** The Pods of `zone` to update, in the order of their groups. */
  ghost function PodsIn(gs: seq<Group>, domains: set<Zone>, limit: int, zone: Zone): seq<Pod> {
    if gs == [] then []
    else
      var last := gs[|gs| - 1];
      PodsIn(gs[..|gs| - 1], domains, limit, zone)
      + if WithinLimit(last, domains, limit) && last.verdict == Update(zone) then [last.pod] else []
  }

  lemma {:induction false} PodsInMember(gs: seq<Group>, domains: set<Zone>, limit: int, zone: Zone, pod: Pod)
    ensures pod in PodsIn(gs, domains, limit, zone) <==>
            exists i :: 0 <= i < |gs| && gs[i].pod == pod && gs[i].verdict == Update(zone)
                && WithinLimit(gs[i], domains, limit)
  {
    if gs != [] {
      var front := gs[..|gs| - 1];
      assert gs == front + [gs[|gs| - 1]];
      PodsInMember(front, domains, limit, zone, pod);
      assert forall i :: 0 <= i < |front| ==> front[i] == gs[i];
    }
  }

  ghost predicate Listed(updates: Updates, gs: seq<Group>, domains: set<Zone>, limit: int) {
    forall zone :: PodsAt(updates, zone) == PodsIn(gs, domains, limit, zone)
        && (zone in updates ==> updates[zone] != [])
  }

  lemma ListedStep(updates: Updates, gs: seq<Group>, domains: set<Zone>, limit: int, i: nat, updates': Updates)
    requires i < |gs| && Listed(updates, gs[..i], domains, limit)
    requires updates' == if WithinLimit(gs[i], domains, limit) && gs[i].verdict.Update?
                         then updates[gs[i].verdict.zone := PodsAt(updates, gs[i].verdict.zone) + [gs[i].pod]]
                         else updates
    ensures Listed(updates', gs[..i + 1], domains, limit)
  {
    assert gs[..i + 1][..i] == gs[..i];
  }

  /** The groups that stop a pass. */
  predicate Blocks(g: Group, domains: set<Zone>, limit: int, someUpdate: bool) {
    WithinLimit(g, domains, limit) && (g.verdict.Fail? || (someUpdate && g.verdict == PodMissing(true)))
  }

  ghost predicate AnyUpdate(gs: seq<Group>, domains: set<Zone>, limit: int) {
    exists zone :: PodsIn(gs, domains, limit, zone) != []
  }

  /** What `GetPodsToUpdate` returns: all Pods to update by zone, unless a group within the limit stops the pass. */
  ghost predicate Wanted(gs: seq<Group>, limit: int, r: Option<Updates>) {
    var domains := UnavailableDomains(gs);
    && (r.None? <==> exists i :: 0 <= i < |gs| && Blocks(gs[i], domains, limit, AnyUpdate(gs, domains, limit)))
    && (r.Some? ==> Listed(r.value, gs, domains, limit))
  }

  lemma {:induction false} NothingBeyondLimit(gs: seq<Group>, domains: set<Zone>, limit: int, zone: Zone)
    requires |domains| > limit
    ensures PodsIn(gs, domains, limit, zone) == []
  {
    if gs != [] {
      NothingBeyondLimit(gs[..|gs| - 1], domains, limit, zone);
    }
  }

  lemma NothingWanted(gs: seq<Group>, limit: int)
    requires |UnavailableDomains(gs)| > limit
    ensures Wanted(gs, limit, Some(map[]))
  {
    forall zone ensures PodsIn(gs, UnavailableDomains(gs), limit, zone) == [] {
      NothingBeyondLimit(gs, UnavailableDomains(gs), limit, zone);
    }
  }

  /** A group within the limit with an update makes some zone's list non-empty; later groups only add to it. */
  lemma SomeUpdate(updates: Updates, gs: seq<Group>, domains: set<Zone>, limit: int)
    requires Listed(updates, gs, domains, limit)
    ensures updates != map[] <==> AnyUpdate(gs, domains, limit)
  {
    if updates != map[] {
      var zone :| zone in updates;
      assert PodsAt(updates, zone) == PodsIn(gs, domains, limit, zone);
    } else {
      forall zone ensures PodsIn(gs, domains, limit, zone) == [] {
        assert PodsAt(updates, zone) == [];
      }
    }
  }

  ghost predicate NoFailure(gs: seq<Group>, domains: set<Zone>, limit: int) {
    forall i :: 0 <= i < |gs| ==> !Blocks(gs[i], domains, limit, false)
  }

  ghost predicate RecentlyMissing(gs: seq<Group>, domains: set<Zone>, limit: int) {
    exists i :: 0 <= i < |gs| && Blocks(gs[i], domains, limit, true)
  }

  lemma Concluded(updates: Updates, gs: seq<Group>, limit: int)
    requires Listed(updates, gs, UnavailableDomains(gs), limit) && NoFailure(gs, UnavailableDomains(gs), limit)
    ensures Wanted(gs, limit, if updates != map[] && RecentlyMissing(gs, UnavailableDomains(gs), limit) then None
            else Some(updates))
  {
    SomeUpdate(updates, gs, UnavailableDomains(gs), limit);
  }

  lemma Failed(gs: seq<Group>, limit: int, i: nat)
    requires i < |gs| && WithinLimit(gs[i], UnavailableDomains(gs), limit) && gs[i].verdict.Fail?
    ensures Wanted(gs, limit, None)
  {
    assert Blocks(gs[i], UnavailableDomains(gs), limit, AnyUpdate(gs, UnavailableDomains(gs), limit));
  }

  /** The loop over the groups; an error ends it early. */
  method CollectUpdates(gs: seq<Group>, domains: set<Zone>, limit: int)
    returns (failed: bool, podMissing: bool, updates: Updates)
    requires |domains| <= limit
    ensures failed ==> exists i :: 0 <= i < |gs| && WithinLimit(gs[i], domains, limit) && gs[i].verdict.Fail?
    ensures !failed ==> Listed(updates, gs, domains, limit) && NoFailure(gs, domains, limit)
    ensures !failed ==> (podMissing <==> RecentlyMissing(gs, domains, limit))
  {
    failed, podMissing, updates := false, false, map[];
    for i := 0 to |gs|
      invariant !failed && Listed(updates, gs[..i], domains, limit)
      invariant NoFailure(gs[..i], domains, limit)
      invariant podMissing <==> RecentlyMissing(gs[..i], domains, limit)
    {
      ghost var before := updates;
      if |domains| == limit && gs[i].faultDomain !in domains {
        ListedStep(before, gs, domains, limit, i, updates);
        assert gs[..i + 1] == gs[..i] + [gs[i]];
        continue;
      }
      match gs[i].verdict {
        case Skip =>
        case Fail => return true, podMissing, updates;
        case PodMissing(recently) =>
          if recently {
            podMissing := true;
          }
        case Update(zone) =>
          updates := updates[zone := PodsAt(updates, zone) + [gs[i].pod]];
      }
      ListedStep(before, gs, domains, limit, i, updates);
      assert gs[..i + 1] == gs[..i] + [gs[i]];
      MissingStep(gs, domains, limit, i);
    }
    assert gs[..|gs|] == gs;
  }

  lemma MissingStep(gs: seq<Group>, domains: set<Zone>, limit: int, i: nat)
    requires i < |gs|
    ensures RecentlyMissing(gs[..i + 1], domains, limit) <==>
            RecentlyMissing(gs[..i], domains, limit) || Blocks(gs[i], domains, limit, true)
  {
    var more, less := gs[..i + 1], gs[..i];
    assert more[i] == gs[i];
    assert forall h :: 0 <= h < i ==> more[h] == less[h];
  }

  method GetPodsToUpdate(gs: seq<Group>, limit: int) returns (r: Option<Updates>)
    ensures Wanted(gs, limit, r)
  {
    var domains := GetFaultDomainsWithUnavailablePods(gs);
    if |domains| > limit {
      NothingWanted(gs, limit);
      return Some(map[]);
    }
    var failed, podMissing, updates := CollectUpdates(gs, domains, limit);
    if failed {
      ghost var i: nat :| i < |gs| && WithinLimit(gs[i], domains, limit) && gs[i].verdict.Fail?;
      Failed(gs, limit, i);
      return None;
    }
    Concluded(updates, gs, limit);
    if |updates| > 0 && podMissing {
      return None;
    }
    r := Some(updates);
  }

  // ----- the order of zones -----

  /** All zones once, in order, except that the maintenance zone comes first. */
  ghost predicate ZoneOrder(zones: seq<Zone>, keys: set<Zone>, maintenance: Zone) {
    && (forall z :: z in zones <==> z in keys)
    && (forall i, j :: 0 <= i < j < |zones| ==> zones[i] != zones[j])
    && (maintenance != "" && maintenance in keys ==> zones != [] && zones[0] == maintenance)
    && (forall i, j :: 0 <= i < j < |zones| && !(i == 0 && zones[0] == maintenance != "")
          ==> StringLess(zones[i], zones[j]))
  }

  method SortedZoneKeys(keys: set<Zone>, maintenance: Zone) returns (zones: seq<Zone>)
    ensures ZoneOrder(zones, keys, maintenance)
  {
    zones := SortedKeys(keys);
    if maintenance == "" {
      return;
    }
    for i := 0 to |zones|
      invariant maintenance !in zones[..i]
    {
      if zones[i] != maintenance {
        continue;
      }
      var reordered := [zones[i]] + zones[..i] + zones[i + 1..];
      forall z ensures z in reordered <==> z in zones {
        assert zones == zones[..i] + [zones[i]] + zones[i + 1..];
      }
      assert forall j :: 0 < j < |reordered| ==> reordered[j] == zones[if j <= i then j - 1 else j];
      return reordered;
    }
  }
}
