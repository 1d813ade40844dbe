/** Exactly which Pods a pass may update, and which of them it deletes. */
module UpdateRules {
  import opened Basics
  import opened Ordering
  import opened UpdatePods
  import opened PodChecks
  import opened PodDeletion
  import opened RollingUpdate

  /** Groups of these classes hold data or coordinate. */
  predicate HoldsState(kind: Class) {
    kind == "storage" || kind == "log" || kind == "transaction" || kind == "coordinator"
  }

  /** The fault domains in which a stateful group has a condition, no Pod or a Pod that terminates. */
  function DownDomains(gs: seq<Group>): set<Zone> {
    set i | 0 <= i < |gs| && HoldsState(gs[i].pod.kind) && (gs[i].failing || gs[i].state != Running)
      :: gs[i].faultDomain
  }

  /** The limit allows another fault domain to go down, or it is reached and the group lies in one that is down anyway.
      */
  predicate LimitAllows(gs: seq<Group>, limit: int, g: Group) {
    |DownDomains(gs)| < limit || (|DownDomains(gs)| == limit && g.faultDomain in DownDomains(gs))
  }

  predicate MayUpdate(gs: seq<Group>, limit: int, i: int) {
    0 <= i < |gs| && gs[i].verdict.Update? && LimitAllows(gs, limit, gs[i])
  }

  /** A group that the limit allows fails, or misses its Pod recently while another one is to be updated. */
  ghost predicate PassFails(gs: seq<Group>, limit: int) {
    exists i :: 0 <= i < |gs| && LimitAllows(gs, limit, gs[i])
                && (gs[i].verdict.Fail? || (gs[i].verdict == PodMissing(true) && exists j :: MayUpdate(gs, limit, j)))
  }

  lemma SameDomains(gs: seq<Group>)
    ensures UnavailableDomains(gs) == DownDomains(gs)
  {
    forall d ensures d in UnavailableDomains(gs) <==> d in DownDomains(gs) {
      if i :| 0 <= i < |gs| && Unavailable(gs[i]) && gs[i].faultDomain == d {
        assert HoldsState(gs[i].pod.kind);
      }
      if i :| 0 <= i < |gs| && HoldsState(gs[i].pod.kind) && (gs[i].failing || gs[i].state != Running)
              && gs[i].faultDomain == d {
        assert Unavailable(gs[i]);
      }
    }
  }

  lemma SameLimit(gs: seq<Group>, limit: int, g: Group)
    ensures WithinLimit(g, UnavailableDomains(gs), limit) <==> LimitAllows(gs, limit, g)
  {
    SameDomains(gs);
  }

  predicate Contains(updates: Updates, zone: Zone, pod: Pod) {
    zone in updates && pod in updates[zone]
  }

  /** The Pod is that of a group that may be updated in this zone. */
  ghost predicate IsUpdate(gs: seq<Group>, limit: int, zone: Zone, pod: Pod) {
    exists i :: MayUpdate(gs, limit, i) && gs[i].pod == pod && gs[i].verdict.zone == zone
  }

  lemma ListedMember(gs: seq<Group>, limit: int, updates: Updates, zone: Zone, pod: Pod)
    requires Listed(updates, gs, UnavailableDomains(gs), limit)
    ensures Contains(updates, zone, pod) <==> IsUpdate(gs, limit, zone, pod)
  {
    PodsInMember(gs, UnavailableDomains(gs), limit, zone, pod);
    assert PodsAt(updates, zone) == PodsIn(gs, UnavailableDomains(gs), limit, zone);
    if i :| 0 <= i < |gs| && gs[i].pod == pod && gs[i].verdict == Update(zone)
            && WithinLimit(gs[i], UnavailableDomains(gs), limit) {
      SameLimit(gs, limit, gs[i]);
      assert MayUpdate(gs, limit, i);
    }
    if i :| MayUpdate(gs, limit, i) && gs[i].pod == pod && gs[i].verdict.zone == zone {
      SameLimit(gs, limit, gs[i]);
    }
  }

  lemma SomeUpdateIs(gs: seq<Group>, limit: int)
    ensures AnyUpdate(gs, UnavailableDomains(gs), limit) <==> exists j :: MayUpdate(gs, limit, j)
  {
    var domains := UnavailableDomains(gs);
    if zone :| PodsIn(gs, domains, limit, zone) != [] {
      PodsInMember(gs, domains, limit, zone, PodsIn(gs, domains, limit, zone)[0]);
      var i :| 0 <= i < |gs| && gs[i].verdict == Update(zone) && WithinLimit(gs[i], domains, limit);
      SameLimit(gs, limit, gs[i]);
      assert MayUpdate(gs, limit, i);
    }
    if j :| MayUpdate(gs, limit, j) {
      SameLimit(gs, limit, gs[j]);
      PodsInMember(gs, domains, limit, gs[j].verdict.zone, gs[j].pod);
      assert PodsIn(gs, domains, limit, gs[j].verdict.zone) != [];
    }
  }

  /** The Pods to update are exactly those with such a verdict that the limit allows, each in the zone of its verdict;
      at the limit these are the ones in fault domains that are down anyway. There is an error exactly if the pass
      fails. */
  lemma UpdatesTheorem(gs: seq<Group>, limit: int, r: Option<Updates>)
    requires Wanted(gs, limit, r)
    ensures r.None? <==> PassFails(gs, limit)
    ensures r.Some? ==> forall zone, pod :: Contains(r.value, zone, pod) <==> IsUpdate(gs, limit, zone, pod)
  {
    FailsIs(gs, limit);
    if r.Some? {
      ListedMembers(gs, limit, r.value);
    }
  }

  lemma ListedMembers(gs: seq<Group>, limit: int, updates: Updates)
    requires Listed(updates, gs, UnavailableDomains(gs), limit)
    ensures forall zone, pod :: Contains(updates, zone, pod) <==> IsUpdate(gs, limit, zone, pod)
  {
    forall zone, pod ensures Contains(updates, zone, pod) <==> IsUpdate(gs, limit, zone, pod) {
      ListedMember(gs, limit, updates, zone, pod);
    }
  }

  lemma FailsIs(gs: seq<Group>, limit: int)
    ensures var domains := UnavailableDomains(gs);
            PassFails(gs, limit) <==>
            exists i :: 0 <= i < |gs| && Blocks(gs[i], domains, limit, AnyUpdate(gs, domains, limit))
  {
    SomeUpdateIs(gs, limit);
    forall i | 0 <= i < |gs|
      ensures WithinLimit(gs[i], UnavailableDomains(gs), limit) <==> LimitAllows(gs, limit, gs[i])
    {
      SameLimit(gs, limit, gs[i]);
    }
    var some := AnyUpdate(gs, UnavailableDomains(gs), limit);
    if PassFails(gs, limit) {
      var i :| 0 <= i < |gs| && LimitAllows(gs, limit, gs[i])
               && (gs[i].verdict.Fail? || (gs[i].verdict == PodMissing(true) && exists j :: MayUpdate(gs, limit, j)));
      assert Blocks(gs[i], UnavailableDomains(gs), limit, some);
    }
    if i :| 0 <= i < |gs| && Blocks(gs[i], UnavailableDomains(gs), limit, some) {
      assert LimitAllows(gs, limit, gs[i]);
    }
  }

  // ----- one zone at a time -----

  /** Updates wait in the zone, and it is not held back by another zone in maintenance: either none is known, or it is
      this one, or no storage Pod is to be updated here. */
  ghost predicate Open(gs: seq<Group>, limit: int, known: Zone, zone: Zone) {
    && (exists i :: MayUpdate(gs, limit, i) && gs[i].verdict.zone == zone)
    && (known == "" || zone == known
        || forall i :: MayUpdate(gs, limit, i) && gs[i].verdict.zone == zone ==> gs[i].pod.kind != "storage")
  }

  /** The zone to update: the one in maintenance if it is open, and otherwise the open zone with the least name. */
  ghost predicate NextZone(gs: seq<Group>, limit: int, known: Zone, zone: Zone) {
    && Open(gs, limit, known, zone)
    && (zone != known || known == "" ==>
          && (known != "" ==> !Open(gs, limit, known, known))
          && forall other :: Open(gs, limit, known, other) && other != zone ==> StringLess(zone, other))
  }

  /** All groups of the zone that may be updated, and no others, have their Pods deleted. */
  ghost predicate ZoneDeleted(gs: seq<Group>, limit: int, zone: Zone, gs': seq<Group>) {
    && |gs'| == |gs|
    && forall i :: 0 <= i < |gs| ==>
         gs'[i] == if MayUpdate(gs, limit, i) && gs[i].verdict.zone == zone then gs[i].(state := Terminating) else gs[i]
  }

  lemma AllowedIsOpen(gs: seq<Group>, limit: int, updates: Updates, known: Zone, zone: Zone)
    requires Wanted(gs, limit, Some(updates))
    ensures zone in Allowed(updates, known) <==> Open(gs, limit, known, zone)
  {
    UpdatesTheorem(gs, limit, Some(updates));
    if zone in updates {
      assert PodsAt(updates, zone) == PodsIn(gs, UnavailableDomains(gs), limit, zone);
      assert Contains(updates, zone, updates[zone][0]);
      assert IsUpdate(gs, limit, zone, updates[zone][0]);
    }
    forall i | MayUpdate(gs, limit, i) && gs[i].verdict.zone == zone ensures Contains(updates, zone, gs[i].pod) {
      assert IsUpdate(gs, limit, zone, gs[i].pod);
    }
    if zone in updates && HoldsStorage(updates[zone]) {
      var k :| 0 <= k < |updates[zone]| && updates[zone][k].kind == STORAGE;
      assert Contains(updates, zone, updates[zone][k]);
      assert IsUpdate(gs, limit, zone, updates[zone][k]);
    }
  }

  lemma ChosenIsNext(gs: seq<Group>, limit: int, updates: Updates, known: Zone, c: Choice)
    requires Wanted(gs, limit, Some(updates)) && Chosen(PerZone, updates, known, Some(c))
    ensures if exists zone :: Open(gs, limit, known, zone)
            then NextZone(gs, limit, known, c.zone) && c.zone in updates && c.pods == updates[c.zone]
            else c.pods == []
  {
    forall zone ensures zone in Allowed(updates, known) <==> Open(gs, limit, known, zone) {
      AllowedIsOpen(gs, limit, updates, known, zone);
    }
  }

  /** The outside lets the pass through: deleting is safe, and the lock, the records and all deletions succeed. */
  predicate AllSucceeds(gs: seq<Group>, a: Answers) {
    a.safe == Some(true) && a.locked && a.recorded && a.zoneSet && a.deleted >= |gs|
  }

  lemma {:induction false} FewPods(gs: seq<Group>, domains: set<Zone>, limit: int, zone: Zone)
    ensures |PodsIn(gs, domains, limit, zone)| <= |gs|
  {
    if gs != [] {
      FewPods(gs[..|gs| - 1], domains, limit, zone);
    }
  }

  lemma DeletedIsZone(gs: seq<Group>, limit: int, updates: Updates, zone: Zone)
    requires OnePodEach(gs) && Wanted(gs, limit, Some(updates)) && zone in updates
    ensures ZoneDeleted(gs, limit, zone, Terminate(gs, updates[zone]))
  {
    UpdatesTheorem(gs, limit, Some(updates));
    forall i | 0 <= i < |gs|
      ensures gs[i].pod in updates[zone] <==> MayUpdate(gs, limit, i) && gs[i].verdict.zone == zone
    {
      assert Contains(updates, zone, gs[i].pod) <==> IsUpdate(gs, limit, zone, gs[i].pod);
      if gs[i].pod in updates[zone] {
        var j :| MayUpdate(gs, limit, j) && gs[j].pod == gs[i].pod && gs[j].verdict.zone == zone;
        assert i == j;
      }
    }
  }

  /** A pass that deletes a zone at a time, and that the outside lets through, deletes exactly the Pods that may be
      updated in the next zone; it deletes nothing exactly if it is paused, replaces Pods, fails, or finds no open zone.
      */
  lemma ZonePassTheorem(w: World, s: Settings, a: Answers, w': World)
    requires Pass(w, s, a, w') && s.mode == PerZone && OnePodEach(w.groups) && AllSucceeds(w.groups, a)
    ensures if !s.paused && !s.replacing && !PassFails(w.groups, s.limit)
               && exists zone :: Open(w.groups, s.limit, Known(w, a), zone)
            then exists zone :: NextZone(w.groups, s.limit, Known(w, a), zone)
                                && ZoneDeleted(w.groups, s.limit, zone, w'.groups)
            else w' == w
  {
    if !s.paused {
      var updates: Option<Updates> :| Wanted(w.groups, s.limit, updates) && PassFor(w, s, a, updates, w');
      UpdatesTheorem(w.groups, s.limit, updates);
      if updates.Some? && !s.replacing {
        PassOverUpdates(w, s, a, w', updates.value);
      }
    }
  }

  lemma PassOverUpdates(w: World, s: Settings, a: Answers, w': World, updates: Updates)
    requires Wanted(w.groups, s.limit, Some(updates)) && PassFor(w, s, a, Some(updates), w')
    requires !s.replacing && s.mode == PerZone && OnePodEach(w.groups) && AllSucceeds(w.groups, a)
    ensures if exists zone :: Open(w.groups, s.limit, Known(w, a), zone)
            then exists zone :: NextZone(w.groups, s.limit, Known(w, a), zone)
                                && ZoneDeleted(w.groups, s.limit, zone, w'.groups)
            else w' == w
  {
    if zone :| Open(w.groups, s.limit, Known(w, a), zone) {
      AllowedIsOpen(w.groups, s.limit, updates, Known(w, a), zone);
    }
    if updates != map[] {
      var choice: Option<Choice> :| Chosen(s.mode, updates, Known(w, a), choice)
        && w' == if choice.None? then w else After(w, s, a, choice.value);
      var c := choice.value;
      ChosenIsNext(w.groups, s.limit, updates, Known(w, a), c);
      if exists zone :: Open(w.groups, s.limit, Known(w, a), zone) {
        NextZoneDeleted(w, s, a, updates, c);
      }
    }
  }

  lemma NextZoneDeleted(w: World, s: Settings, a: Answers, updates: Updates, c: Choice)
    requires Wanted(w.groups, s.limit, Some(updates)) && NextZone(w.groups, s.limit, Known(w, a), c.zone)
    requires c.zone in updates && c.pods == updates[c.zone]
    requires s.mode == PerZone && OnePodEach(w.groups) && AllSucceeds(w.groups, a)
    ensures ZoneDeleted(w.groups, s.limit, c.zone, After(w, s, a, c).groups)
  {
    var domains := UnavailableDomains(w.groups);
    FewPods(w.groups, domains, s.limit, c.zone);
    assert PodsAt(updates, c.zone) == PodsIn(w.groups, domains, s.limit, c.zone);
    assert Deleted(c, a) == c.pods;
    DeletedIsZone(w.groups, s.limit, updates, c.zone);
    UpdatesTheorem(w.groups, s.limit, Some(updates));
    if StorageIds(c.pods) != {} {
      var k :| 0 <= k < |c.pods| && c.pods[k].kind == STORAGE;
      assert Contains(updates, c.zone, c.pods[k]);
      assert IsUpdate(w.groups, s.limit, c.zone, c.pods[k]);
    }
  }

  // ----- all Pods at once, and one Pod at a time -----

  /** A pass that deletes all Pods at once goes through exactly those that may be updated, up to the first deletion that
      fails. */
  lemma AllPassTheorem(w: World, s: Settings, a: Answers, w': World) returns (pods: seq<Pod>)
    requires Pass(w, s, a, w') && s.mode == All && OnePodEach(w.groups) && a.safe == Some(true)
    requires !s.paused && !s.replacing && !PassFails(w.groups, s.limit)
    ensures forall i :: 0 <= i < |w.groups| ==> (w.groups[i].pod in pods <==> MayUpdate(w.groups, s.limit, i))
    ensures w'.maintenance == w.maintenance && w'.underMaintenance == w.underMaintenance
    ensures |w'.groups| == |w.groups|
    ensures forall i :: 0 <= i < |w.groups| ==>
              w'.groups[i] == if w.groups[i].pod in pods[..if a.deleted < |pods| then a.deleted else |pods|]
              then w.groups[i].(state := Terminating) else w.groups[i]
  {
    if exists i :: MayUpdate(w.groups, s.limit, i) {
      var updates, choice := ChoiceOf(w, s, a, w');
      pods := choice.value.pods;
      AllChosen(w.groups, s.limit, updates, pods);
      AfterAll(w, s, a, choice.value);
    } else {
      pods := [];
      NothingToUpdate(w, s, a, w');
    }
  }

  /** What a pass that has something to update decides. */
  lemma ChoiceOf(w: World, s: Settings, a: Answers, w': World) returns (updates: Updates, choice: Option<Choice>)
    requires Pass(w, s, a, w') && !s.paused && !s.replacing && !PassFails(w.groups, s.limit)
    requires exists i :: MayUpdate(w.groups, s.limit, i)
    ensures Wanted(w.groups, s.limit, Some(updates)) && Chosen(s.mode, updates, Known(w, a), choice)
    ensures w' == if choice.None? then w else After(w, s, a, choice.value)
  {
    FailsIs(w.groups, s.limit);
    SomeUpdateIs(w.groups, s.limit);
    var found: Option<Updates> :| Wanted(w.groups, s.limit, found) && PassFor(w, s, a, found, w');
    updates := found.value;
    SomeUpdate(updates, w.groups, UnavailableDomains(w.groups), s.limit);
    choice :| Chosen(s.mode, updates, Known(w, a), choice) && w' == if choice.None? then w
      else After(w, s, a, choice.value);
  }

  lemma NothingToUpdate(w: World, s: Settings, a: Answers, w': World)
    requires Pass(w, s, a, w') && forall i :: !MayUpdate(w.groups, s.limit, i)
    ensures w' == w
  {
    if !s.paused {
      SomeUpdateIs(w.groups, s.limit);
      var found: Option<Updates> :| Wanted(w.groups, s.limit, found) && PassFor(w, s, a, found, w');
      if found.Some? {
        SomeUpdate(found.value, w.groups, UnavailableDomains(w.groups), s.limit);
      }
    }
  }

  lemma AfterAll(w: World, s: Settings, a: Answers, c: Choice)
    requires s.mode == All && a.safe == Some(true)
    ensures var done := c.pods[..if a.deleted < |c.pods| then a.deleted else |c.pods|];
            After(w, s, a, c) == w.(groups := Terminate(w.groups, done))
  {
    assert c.pods[..|c.pods|] == c.pods;
    assert c.pods == [] ==> Terminate(w.groups, c.pods) == w.groups;
  }

  lemma AllChosen(gs: seq<Group>, limit: int, updates: Updates, pods: seq<Pod>)
    requires OnePodEach(gs) && Wanted(gs, limit, Some(updates))
    requires forall pod :: pod in pods <==> exists z :: z in updates && pod in updates[z]
    ensures forall i :: 0 <= i < |gs| ==> (gs[i].pod in pods <==> MayUpdate(gs, limit, i))
  {
    forall i | 0 <= i < |gs| ensures gs[i].pod in pods <==> MayUpdate(gs, limit, i) {
      AnyZone(gs, limit, updates, i);
    }
  }

  lemma AnyZone(gs: seq<Group>, limit: int, updates: Updates, i: int)
    requires OnePodEach(gs) && Wanted(gs, limit, Some(updates)) && 0 <= i < |gs|
    ensures (exists z :: z in updates && gs[i].pod in updates[z]) <==> MayUpdate(gs, limit, i)
  {
    UpdatesTheorem(gs, limit, Some(updates));
    if z :| z in updates && gs[i].pod in updates[z] {
      assert Contains(updates, z, gs[i].pod);
      var j :| MayUpdate(gs, limit, j) && gs[j].pod == gs[i].pod && gs[j].verdict.zone == z;
      assert i == j;
    }
    if MayUpdate(gs, limit, i) {
      assert IsUpdate(gs, limit, gs[i].verdict.zone, gs[i].pod);
      assert Contains(updates, gs[i].verdict.zone, gs[i].pod);
    }
  }

  /** The zone in maintenance if updates wait there, and otherwise the zone with the least name. */
  ghost predicate FirstZone(gs: seq<Group>, limit: int, known: Zone, zone: Zone) {
    && HasUpdates(gs, limit, zone)
    && (zone != known || known == "" ==>
          && (known != "" ==> !HasUpdates(gs, limit, known))
          && forall other :: HasUpdates(gs, limit, other) && other != zone ==> StringLess(zone, other))
  }

  ghost predicate HasUpdates(gs: seq<Group>, limit: int, zone: Zone) {
    exists i :: MayUpdate(gs, limit, i) && gs[i].verdict.zone == zone
  }

  /** The first group that may be updated in the zone. */
  ghost predicate FirstIn(gs: seq<Group>, limit: int, zone: Zone, i: int) {
    && MayUpdate(gs, limit, i) && gs[i].verdict.zone == zone
    && forall j :: 0 <= j < i ==> !(MayUpdate(gs, limit, j) && gs[j].verdict.zone == zone)
  }

  lemma {:induction false} FirstOfPods(gs: seq<Group>, n: nat, limit: int, zone: Zone) returns (i: int)
    requires n <= |gs| && PodsIn(gs[..n], UnavailableDomains(gs), limit, zone) != []
    ensures FirstIn(gs, limit, zone, i) && i < n
            && gs[i].pod == PodsIn(gs[..n], UnavailableDomains(gs), limit, zone)[0]
  {
    var front, last := gs[..n - 1], gs[n - 1];
    assert gs[..n][..n - 1] == front;
    SameLimit(gs, limit, last);
    if PodsIn(front, UnavailableDomains(gs), limit, zone) != [] {
      i := FirstOfPods(gs, n - 1, limit, zone);
    } else {
      i := n - 1;
      forall j | 0 <= j < i ensures !(MayUpdate(gs, limit, j) && gs[j].verdict.zone == zone) {
        SameLimit(gs, limit, gs[j]);
        PodsInMember(front, UnavailableDomains(gs), limit, zone, gs[j].pod);
        assert front[j] == gs[j];
      }
    }
  }

  /** A pass that deletes one Pod at a time, without maintenance and let through by the outside, deletes exactly that of
      the first group that may be updated in the first zone. */
  lemma PodPassTheorem(w: World, s: Settings, a: Answers, w': World) returns (zone: Zone, i: int)
    requires Pass(w, s, a, w') && s.mode == ProcessGroup && OnePodEach(w.groups) && AllSucceeds(w.groups, a)
    requires !s.paused && !s.replacing && !s.useMaintenance && !PassFails(w.groups, s.limit)
    requires exists j :: MayUpdate(w.groups, s.limit, j)
    ensures FirstZone(w.groups, s.limit, Known(w, a), zone) && FirstIn(w.groups, s.limit, zone, i)
    ensures w' == w.(groups := w.groups[i := w.groups[i].(state := Terminating)])
  {
    var updates, choice := ChoiceOf(w, s, a, w');
    SomePending(w.groups, s.limit, updates);
    zone := choice.value.zone;
    i := FirstChosen(w.groups, s.limit, updates, Known(w, a), choice.value);
    AfterOne(w, s, a, choice.value, i);
  }

  lemma AfterOne(w: World, s: Settings, a: Answers, c: Choice, i: int)
    requires !s.useMaintenance && OnePodEach(w.groups) && AllSucceeds(w.groups, a)
    requires 0 <= i < |w.groups| && c.pods == [w.groups[i].pod]
    ensures After(w, s, a, c) == w.(groups := w.groups[i := w.groups[i].(state := Terminating)])
  {
    assert Terminate(w.groups, c.pods) == w.groups[i := w.groups[i].(state := Terminating)];
  }

  lemma SomePending(gs: seq<Group>, limit: int, updates: Updates)
    requires Wanted(gs, limit, Some(updates)) && exists j :: MayUpdate(gs, limit, j)
    ensures Pending(updates) != {}
  {
    var j :| MayUpdate(gs, limit, j);
    PendingIs(gs, limit, updates, gs[j].verdict.zone);
    assert HasUpdates(gs, limit, gs[j].verdict.zone);
  }

  lemma FirstChosen(gs: seq<Group>, limit: int, updates: Updates, known: Zone, c: Choice) returns (i: int)
    requires Wanted(gs, limit, Some(updates)) && Preferred(c.zone, Pending(updates), known)
    requires c.pods == [updates[c.zone][0]]
    ensures FirstZone(gs, limit, known, c.zone) && FirstIn(gs, limit, c.zone, i) && c.pods == [gs[i].pod]
  {
    forall z ensures z in Pending(updates) <==> HasUpdates(gs, limit, z) {
      PendingIs(gs, limit, updates, z);
    }
    assert PodsAt(updates, c.zone) == PodsIn(gs, UnavailableDomains(gs), limit, c.zone);
    assert gs[..|gs|] == gs;
    i := FirstOfPods(gs, |gs|, limit, c.zone);
  }

  lemma PendingIs(gs: seq<Group>, limit: int, updates: Updates, zone: Zone)
    requires Wanted(gs, limit, Some(updates))
    ensures zone in Pending(updates) <==> HasUpdates(gs, limit, zone)
  {
    UpdatesTheorem(gs, limit, Some(updates));
    if zone in Pending(updates) {
      assert Contains(updates, zone, updates[zone][0]);
      assert IsUpdate(gs, limit, zone, updates[zone][0]);
    }
    if i :| MayUpdate(gs, limit, i) && gs[i].verdict.zone == zone {
      assert IsUpdate(gs, limit, zone, gs[i].pod);
      assert Contains(updates, zone, gs[i].pod);
    }
  }

  // ----- what the outside can refuse -----

  /** Nothing is deleted where deleting is not safe or, unless all Pods are deleted at once, where the lock is not
      taken. */
  lemma RefusedPass(w: World, s: Settings, a: Answers, w': World)
    requires Pass(w, s, a, w')
    requires a.safe != Some(true) || (s.mode != All && !a.locked) || s.mode == NoUpdates || s.mode == OtherMode
    ensures w' == w
  {
    if !s.paused {
      var updates: Option<Updates> :| Wanted(w.groups, s.limit, updates) && PassFor(w, s, a, updates, w');
      if !(updates.None? || updates.value == map[] || s.replacing) {
        var c: Option<Choice> :| Chosen(s.mode, updates.value, Known(w, a), c) && w' == if c.None? then w
          else After(w, s, a, c.value);
        if c.Some? {
          AfterRefused(w, s, a, updates.value, c.value);
        }
      }
    }
  }

  lemma AfterRefused(w: World, s: Settings, a: Answers, updates: Updates, c: Choice)
    requires Chosen(s.mode, updates, Known(w, a), Some(c))
    requires a.safe != Some(true) || (s.mode != All && !a.locked) || s.mode == NoUpdates || s.mode == OtherMode
    ensures After(w, s, a, c) == w
  {
    if s.mode == NoUpdates {
      assert c.pods == [];
    }
  }

  // ----- from what is found out to the update -----

  /** The Pod just started: it is younger than a minute, and none of its processes reports or, except in simulations,
      one claims to be older than the Pod. */
  predicate StartingUp(f: Facts) {
    f.age < 60.0 && (f.uptimes == [] || (!f.simulated && exists up :: up in f.uptimes && up > f.age))
  }

  /** A Pod is updated if the group is not excused, its Pod is there and is waited for neither to terminate nor to
      start, it differs from its specification, it is not to be replaced and its zone is known. */
  predicate IsDue(p: Process) {
    var f := p.facts;
    && !f.excused && (p.state == Running || (p.state == Terminating && !f.holdsUp)) && !StartingUp(f)
    && (f.specMatches == Some(false) || (f.specMatches == Some(true) && f.podMatches == Some(false)))
    && f.replaced == Some(false) && f.zone.Some?
  }

  /** What ends the pass with an error. */
  predicate HoldsUpPass(p: Process) {
    && !p.facts.excused
    && (p.state == Unreadable || (p.state == Terminating && p.facts.holdsUp)
        || ((p.state == Running || p.state == Terminating) && StartingUp(p.facts)))
  }

  lemma FactsTheorem(p: Process, v: Verdict)
    requires Judged(p, v)
    ensures v.Update? <==> IsDue(p)
    ensures IsDue(p) ==> v.zone == p.facts.zone.value
    ensures v.Fail? <==> HoldsUpPass(p)
    ensures v == PodMissing(true) <==> !p.facts.excused && p.state == Missing && p.facts.missingFor < 90.0
    ensures v == PodMissing(false) <==> !p.facts.excused && p.state == Missing && p.facts.missingFor >= 90.0
  {
    var f := p.facts;
    assert JustCreated(f) <==> StartingUp(f) by {
      if JustCreated(f) && f.uptimes != [] {
        var i :| 0 <= i < |f.uptimes| && f.uptimes[i] > f.age;
        assert f.uptimes[i] in f.uptimes;
      }
    }
  }

  /** The Pods to update are exactly those of groups that are due and that the limit allows. */
  lemma DueTheorem(ps: seq<Process>, gs: seq<Group>, limit: int, updates: Updates, zone: Zone, pod: Pod)
    requires JudgedAll(ps, gs) && Wanted(gs, limit, Some(updates))
    ensures Contains(updates, zone, pod) <==>
            exists i :: 0 <= i < |ps| && IsDue(ps[i]) && LimitAllows(gs, limit, gs[i])
                        && ps[i].pod == pod && ps[i].facts.zone == Some(zone)
  {
    UpdatesTheorem(gs, limit, Some(updates));
    forall i | 0 <= i < |ps| ensures gs[i].verdict.Update? <==> IsDue(ps[i]) {
      FactsTheorem(ps[i], gs[i].verdict);
    }
    if i :| 0 <= i < |ps| && IsDue(ps[i]) && LimitAllows(gs, limit, gs[i]) && ps[i].pod == pod
            && ps[i].facts.zone == Some(zone) {
      FactsTheorem(ps[i], gs[i].verdict);
      assert MayUpdate(gs, limit, i) && gs[i].verdict.zone == zone;
      assert IsUpdate(gs, limit, zone, pod);
    }
    if Contains(updates, zone, pod) {
      assert IsUpdate(gs, limit, zone, pod);
      var i :| MayUpdate(gs, limit, i) && gs[i].pod == pod && gs[i].verdict.zone == zone;
      FactsTheorem(ps[i], gs[i].verdict);
    }
  }
}
