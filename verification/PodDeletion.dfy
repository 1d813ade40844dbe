/** Which Pods a pass deletes, and what it tells the database before it does. */
module PodDeletion {
  import opened Basics
  import opened Ordering
  import opened UpdatePods

  datatype Mode = All | ProcessGroup | PerZone | NoUpdates | OtherMode

  datatype Choice = Choice(zone: Zone, pods: seq<Pod>)

  predicate HoldsStorage(pods: seq<Pod>) {
    exists i :: 0 <= i < |pods| && pods[i].kind == STORAGE
  }

  ghost function Pending(updates: Updates): set<Zone> {
    set z | z in updates && updates[z] != []
  }

  /** While a zone is in maintenance, other zones may be chosen only if they hold no storage Pod. */
  ghost function Allowed(updates: Updates, maintenance: Zone): set<Zone> {
    set z | z in updates && (maintenance == "" || z == maintenance || !HoldsStorage(updates[z]))
  }

  /** The maintenance zone if it is a candidate, and otherwise the candidate with the least name. */
  ghost predicate Preferred(zone: Zone, candidates: set<Zone>, maintenance: Zone) {
    && zone in candidates
    && (maintenance != "" && maintenance in candidates ==> zone == maintenance)
    && (zone == maintenance != "" || forall z :: z in candidates && z != zone ==> StringLess(zone, z))
  }

  lemma FirstIsPreferred(zones: seq<Zone>, keys: set<Zone>, maintenance: Zone, candidates: set<Zone>, i: nat)
    requires ZoneOrder(zones, keys, maintenance) && candidates <= keys && i < |zones|
    requires zones[i] in candidates && forall h :: 0 <= h < i ==> zones[h] !in candidates
    ensures Preferred(zones[i], candidates, maintenance)
  {
    forall z | z in candidates && z != zones[i] && !(zones[i] == maintenance != "") ensures StringLess(zones[i], z) {
      assert z in zones;
      var j :| 0 <= j < |zones| && zones[j] == z;
      assert i < j;
    }
  }

  ghost predicate Chosen(mode: Mode, updates: Updates, maintenance: Zone, r: Option<Choice>) {
    match mode
    case All =>
      && r.Some? && r.value.zone == "cluster"
      && (forall pod :: pod in r.value.pods <==> exists z :: z in updates && pod in updates[z])
    case ProcessGroup =>
      if Pending(updates) == {} then r.None?
      else
        && r.Some? && Preferred(r.value.zone, Pending(updates), maintenance)
        && r.value.pods == [updates[r.value.zone][0]]
    case PerZone =>
      && r.Some?
      && if Allowed(updates, maintenance) == {} then r.value == Choice("", [])
         else
           && Preferred(r.value.zone, Allowed(updates, maintenance), maintenance)
           && r.value.pods == updates[r.value.zone]
    case NoUpdates => r == Some(Choice("None", []))
    case OtherMode => r.None?
  }

  method AllPods(updates: Updates) returns (pods: seq<Pod>)
    ensures forall pod :: pod in pods <==> exists z :: z in updates && pod in updates[z]
  {
    pods := [];
    var todo := updates.Keys;
    while todo != {}
      invariant todo <= updates.Keys
      invariant forall pod :: pod in pods <==> exists z :: z in updates && z !in todo && pod in updates[z]
    {
      var z :| z in todo;
      todo := todo - {z};
      pods := pods + updates[z];
    }
  }

  method FirstPod(updates: Updates, maintenance: Zone) returns (r: Option<Choice>)
    ensures Chosen(ProcessGroup, updates, maintenance, r)
  {
    var zones := SortedZoneKeys(updates.Keys, maintenance);
    for i := 0 to |zones|
      invariant forall h :: 0 <= h < i ==> zones[h] !in Pending(updates)
    {
      var pods := updates[zones[i]];
      if |pods| < 1 {
        continue;
      }
      FirstIsPreferred(zones, updates.Keys, maintenance, Pending(updates), i);
      return Some(Choice(zones[i], [pods[0]]));
    }
    assert Pending(updates) == {};
    r := None;
  }

  method ContainsStorage(pods: seq<Pod>) returns (found: bool)
    ensures found <==> HoldsStorage(pods)
  {
    found := false;
    for i := 0 to |pods|
      invariant !found && forall h :: 0 <= h < i ==> pods[h].kind != STORAGE
    {
      if pods[i].kind == STORAGE {
        return true;
      }
    }
  }

  method FirstZone(updates: Updates, maintenance: Zone) returns (r: Option<Choice>)
    ensures Chosen(PerZone, updates, maintenance, r)
  {
    var zones := SortedZoneKeys(updates.Keys, maintenance);
    for i := 0 to |zones|
      invariant forall h :: 0 <= h < i ==> zones[h] !in Allowed(updates, maintenance)
    {
      var zone := zones[i];
      if maintenance != "" && zone != maintenance {
        var containsStorage := ContainsStorage(updates[zone]);
        if containsStorage {
          continue;
        }
      }
      FirstIsPreferred(zones, updates.Keys, maintenance, Allowed(updates, maintenance), i);
      return Some(Choice(zone, updates[zone]));
    }
    assert Allowed(updates, maintenance) == {};
    r := Some(Choice("", []));
  }

  method GetPodsToDelete(mode: Mode, updates: Updates, maintenance: Zone) returns (r: Option<Choice>)
    ensures Chosen(mode, updates, maintenance, r)
  {
    match mode {
      case All =>
        var pods := AllPods(updates);
        r := Some(Choice("cluster", pods));
      case ProcessGroup =>
        r := FirstPod(updates, maintenance);
      case PerZone =>
        r := FirstZone(updates, maintenance);
      case NoUpdates =>
        r := Some(Choice("None", []));
      case OtherMode =>
        r := None;
    }
  }

  // ----- one pass -----

  /** `paused`: an incompatible upgrade or a TLS conversion is under way. `replacing`: Pods are replaced instead of
      deleted. */
  datatype Settings = Settings(mode: Mode, useMaintenance: bool, limit: int, paused: bool, replacing: bool)

  /** What the outside answers in a pass: whether there is a status, whether deleting is safe, and which of the
      lock, the maintenance record, the maintenance zone and the first `deleted` deletions succeed. */
  datatype Answers = Answers(hasStatus: bool, safe: Option<bool>, locked: bool, recorded: bool, zoneSet: bool,
                             deleted: nat)

  datatype World = World(groups: seq<Group>, maintenance: Zone, underMaintenance: set<string>)

  /** The maintenance zone as far as the pass knows it. */
  function Known(w: World, a: Answers): Zone {
    if a.hasStatus then w.maintenance else "unknown"
  }

  function Terminated(g: Group, pods: seq<Pod>): Group {
    if g.pod in pods then g.(state := Terminating) else g
  }

  function Terminate(gs: seq<Group>, pods: seq<Pod>): (r: seq<Group>)
    ensures |r| == |gs| && forall i :: 0 <= i < |gs| ==> r[i] == Terminated(gs[i], pods)
  {
    if gs == [] then [] else [Terminated(gs[0], pods)] + Terminate(gs[1..], pods)
  }

  function Deleted(c: Choice, a: Answers): seq<Pod> {
    if a.deleted < |c.pods| then c.pods[..a.deleted] else c.pods
  }

  ghost function StorageIds(pods: seq<Pod>): set<string> {
    set i | 0 <= i < |pods| && pods[i].kind == STORAGE && pods[i].groupId != "" :: pods[i].groupId
  }

  ghost predicate NeedsMaintenance(s: Settings, c: Choice) {
    (s.mode == PerZone || s.mode == ProcessGroup) && s.useMaintenance && StorageIds(c.pods) != {}
  }

  /** The world after the chosen Pods were handed to `DeletePodsForUpdates`. */
  ghost function After(w: World, s: Settings, a: Answers, c: Choice): World {
    if c.pods == [] || a.safe != Some(true) || (s.mode != All && !a.locked) then w
    else if !NeedsMaintenance(s, c) then w.(groups := Terminate(w.groups, Deleted(c, a)))
    else if (Known(w, a) != "" && Known(w, a) != c.zone) || !a.recorded then w
    else
      var recorded := w.(underMaintenance := w.underMaintenance + StorageIds(c.pods));
      if !a.zoneSet then recorded
      else recorded.(maintenance := c.zone, groups := Terminate(w.groups, Deleted(c, a)))
  }

  ghost predicate Pass(w: World, s: Settings, a: Answers, w': World) {
    if s.paused then w' == w
    else exists updates: Option<Updates> :: Wanted(w.groups, s.limit, updates) && PassFor(w, s, a, updates, w')
  }

  ghost predicate PassFor(w: World, s: Settings, a: Answers, updates: Option<Updates>, w': World) {
    if updates.None? || updates.value == map[] || s.replacing then w' == w
    else exists c: Option<Choice> :: Chosen(s.mode, updates.value, Known(w, a), c) && w' == if c.None? then w
        else After(w, s, a, c.value)
  }

  class Reconciler {
    var groups: seq<Group>
    var maintenance: Zone
    var underMaintenance: set<string>

    function View(): World
      reads this
    {
      World(groups, maintenance, underMaintenance)
    }

    method DeletePod(pod: Pod)
      modifies this`groups
      ensures groups == Terminate(old(groups), [pod])
    {
      groups := Terminate(groups, [pod]);
    }

    /** Deletes Pods until a deletion fails. */
    method DeletePods(c: Choice, a: Answers)
      modifies this`groups
      ensures groups == Terminate(old(groups), Deleted(c, a))
    {
      ghost var before := groups;
      assert groups == Terminate(before, c.pods[..0]);
      for i := 0 to |c.pods|
        invariant i <= a.deleted && groups == Terminate(before, c.pods[..i])
      {
        if i == a.deleted {
          return;
        }
        DeletePod(c.pods[i]);
        assert c.pods[..i + 1] == c.pods[..i] + [c.pods[i]];
        assert groups == Terminate(before, c.pods[..i + 1]);
      }
      assert c.pods[..|c.pods|] == c.pods;
    }

    method DeletePodsForUpdates(updates: Updates, s: Settings, a: Answers)
      modifies this
      ensures exists c: Option<Choice> :: Chosen(s.mode, updates, Known(old(View()), a), c)
                                          && View() == if c.None? then old(View())
                                              else After(old(View()), s, a, c.value)
    {
      var known := if a.hasStatus then maintenance else "unknown";
      var choice := GetPodsToDelete(s.mode, updates, known);
      if choice.None? {
        return;
      }
      var c := choice.value;
      if |c.pods| == 0 {
        return;
      }
      if a.safe != Some(true) {
        return;
      }
      if s.mode != All && !a.locked {
        return;
      }
      if (s.mode == PerZone || s.mode == ProcessGroup) && s.useMaintenance {
        var ids := CollectStorageIds(c.pods);
        if |ids| > 0 {
          if known != "" && known != c.zone {
            return;
          }
          if !a.recorded {
            return;
          }
          underMaintenance := underMaintenance + ids;
          if !a.zoneSet {
            return;
          }
          maintenance := c.zone;
        }
      }
      DeletePods(c, a);
    }

    /** The pass: nothing happens on an error or without updates. */
    method Reconcile(s: Settings, a: Answers)
      modifies this
      ensures Pass(old(View()), s, a, View())
    {
      if s.paused {
        return;
      }
      var updates := GetPodsToUpdate(groups, s.limit);
      if updates.None? || |updates.value| == 0 || s.replacing || s.mode.NoUpdates? {
        NothingToDelete(View(), s, a, updates);
        return;
      }
      DeletePodsForUpdates(updates.value, s, a);
      IsPass(old(View()), s, a, updates, View());
    }
  }

  lemma IsPass(w: World, s: Settings, a: Answers, updates: Option<Updates>, w': World)
    requires !s.paused && Wanted(w.groups, s.limit, updates) && PassFor(w, s, a, updates, w')
    ensures Pass(w, s, a, w')
  {
  }

  lemma NothingToDelete(w: World, s: Settings, a: Answers, updates: Option<Updates>)
    requires !s.paused && Wanted(w.groups, s.limit, updates)
    requires updates.None? || updates.value == map[] || s.replacing || s.mode.NoUpdates?
    ensures Pass(w, s, a, w)
  {
    if updates.Some? && updates.value != map[] && !s.replacing {
      assert Chosen(s.mode, updates.value, Known(w, a), Some(Choice("None", [])));
      assert After(w, s, a, Choice("None", [])) == w;
    }
    IsPass(w, s, a, updates, w);
  }

  method CollectStorageIds(pods: seq<Pod>) returns (ids: set<string>)
    ensures ids == StorageIds(pods)
  {
    ids := {};
    for i := 0 to |pods|
      invariant ids == set h | 0 <= h < i && pods[h].kind == STORAGE && pods[h].groupId != "" :: pods[h].groupId
    {
      if pods[i].kind != STORAGE {
        continue;
      }
      if pods[i].groupId == "" {
        continue;
      }
      ids := ids + {pods[i].groupId};
    }
  }
}
