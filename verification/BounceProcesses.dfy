/** Which processes can be restarted, and whether all of them are ready for an upgrade. */
module BounceProcesses {
  import opened Basics
  import opened Sums

  type Address = string

  /** A process group as far as a restart is concerned. `ignored`: missing for too long, stuck in pending
      or terminating. `matches`: has the conditions that ask for a restart. `addresses`: what the machine-readable
      status reports for the group, if anything. */
  datatype Group = Group(id: GroupId, kind: Class, terminating: bool, marked: bool, excluded: bool,
                         ignored: bool, staleConfigMap: bool, matches: bool, addresses: Option<seq<Address>>)

  datatype Outcome =
    | MissingAddress(ids: seq<GroupId>)
    | WaitingForConfigMap
    | NotEnoughProcesses
    | Ready(addresses: seq<Address>)

  predicate Skipped(g: Group) {
    g.kind == TEST || g.terminating
  }

  predicate Restarted(g: Group, upgrading: bool) {
    !Skipped(g) && g.marked && g.excluded && upgrading
  }

  /** Neither skipped, nor restarted because it is excluded anyway, nor ignored. */
  predicate Considered(g: Group, upgrading: bool) {
    !Skipped(g) && !Restarted(g, upgrading) && !g.ignored
  }

  function AddressesOf(g: Group): seq<Address> {
    if g.addresses.Some? then g.addresses.value else []
  }

  function RestartAddresses(gs: seq<Group>, upgrading: bool): seq<Address> {
    if gs == [] then []
    else
      var g := gs[|gs| - 1];
      RestartAddresses(gs[..|gs| - 1], upgrading)
      + if Restarted(g, upgrading) || (Considered(g, upgrading) && g.matches) then AddressesOf(g) else []
  }

  function WithoutAddress(gs: seq<Group>, upgrading: bool): seq<GroupId> {
    if gs == [] then []
    else
      var g := gs[|gs| - 1];
      WithoutAddress(gs[..|gs| - 1], upgrading)
      + if Considered(g, upgrading) && g.matches && g.addresses.None? then [g.id] else []
  }

  function CountMissing(gs: seq<Group>, upgrading: bool, kind: Class): int {
    if gs == [] then 0
    else
      var g := gs[|gs| - 1];
      CountMissing(gs[..|gs| - 1], upgrading, kind)
      + if !Skipped(g) && !Restarted(g, upgrading) && g.ignored && g.kind == kind then 1 else 0
  }

  function CountMarked(gs: seq<Group>, kind: Class): int {
    if gs == [] then 0
    else
      var g := gs[|gs| - 1];
      CountMarked(gs[..|gs| - 1], kind) + if !Skipped(g) && g.marked && g.kind == kind then 1 else 0
  }

  function At(counts: map<Class, int>, kind: Class): int {
    if kind in counts then counts[kind] else 0
  }

  function Multiplier(kind: Class, logServersPerPod: int, storageServersPerPod: int): int {
    if IsLogProcess(kind) then logServersPerPod
    else if kind == STORAGE then storageServersPerPod
    else 1
  }

  /** How many processes should be running: for each class the desired number, without those missing for
      too long and with those about to be removed, times the processes per Pod. */
  ghost function ExpectedProcesses(gs: seq<Group>, upgrading: bool, desired: map<Class, int>, perLog: int,
                                   perStorage: int): int {
    SumOver(desired.Keys, kind =>
      (At(desired, kind) - CountMissing(gs, upgrading, kind) + CountMarked(gs, kind))
      * Multiplier(kind, perLog, perStorage))
  }

  method CheckIfEnoughProcessesAreRunning(desired: map<Class, int>, perLog: int, perStorage: int, addressCount: nat,
                                          missing: map<Class, int>, marked: map<Class, int>,
                                          ghost expected: Class -> int)
    returns (ok: bool)
    requires forall kind :: expected(kind) ==
               (At(desired, kind) - At(missing, kind) + At(marked, kind)) * Multiplier(kind, perLog, perStorage)
    ensures ok <==> SumOver(desired.Keys, expected) <= addressCount
  {
    var total := 0;
    var todo := desired.Keys;
    while todo != {}
      invariant todo <= desired.Keys
      invariant total + SumOver(todo, expected) == SumOver(desired.Keys, expected)
    {
      var kind :| kind in todo;
      SumOverRemove(todo, expected, kind);
      todo := todo - {kind};
      total := total + (desired[kind] - At(missing, kind) + At(marked, kind)) * Multiplier(kind, perLog, perStorage);
    }
    ok := total <= addressCount;
  }

  ghost predicate AnyStale(gs: seq<Group>, upgrading: bool) {
    exists i :: 0 <= i < |gs| && Considered(gs[i], upgrading) && gs[i].staleConfigMap
  }

  ghost function Readiness(gs: seq<Group>, upgrading: bool, desired: map<Class, int>, perLog: int,
                           perStorage: int): Outcome {
    if WithoutAddress(gs, upgrading) != [] then MissingAddress(WithoutAddress(gs, upgrading))
    else if AnyStale(gs, upgrading) then WaitingForConfigMap
    else if upgrading
        && ExpectedProcesses(gs, upgrading, desired, perLog, perStorage) > |RestartAddresses(gs, upgrading)|
            then NotEnoughProcesses
    else Ready(RestartAddresses(gs, upgrading))
  }

  /** What the groups contribute: addresses to restart, groups without address, whether all configurations are
      in sync, and per class how many groups are ignored and how many are marked for removal. */
  method CollectGroups(gs: seq<Group>, upgrading: bool)
    returns (addresses: seq<Address>, missingAddress: seq<GroupId>, allSynced: bool, missing: map<Class, int>,
        marked: map<Class, int>)
    ensures addresses == RestartAddresses(gs, upgrading)
    ensures missingAddress == WithoutAddress(gs, upgrading)
    ensures allSynced <==> !AnyStale(gs, upgrading)
    ensures forall kind :: At(missing, kind) == CountMissing(gs, upgrading, kind)
    ensures forall kind :: At(marked, kind) == CountMarked(gs, kind)
  {
    addresses, missingAddress, allSynced, missing, marked := [], [], true, map[], map[];
    for i := 0 to |gs|
      invariant addresses == RestartAddresses(gs[..i], upgrading)
      invariant missingAddress == WithoutAddress(gs[..i], upgrading)
      invariant allSynced <==> !AnyStale(gs[..i], upgrading)
      invariant forall kind :: At(missing, kind) == CountMissing(gs[..i], upgrading, kind)
      invariant forall kind :: At(marked, kind) == CountMarked(gs[..i], kind)
    {
      var g := gs[i];
      Prefix(gs, i, upgrading);
      PrefixStale(gs, i, upgrading);
      PrefixCounts(gs, i, upgrading);
      if g.kind == TEST {
        continue;
      }
      if g.terminating {
        continue;
      }
      if g.marked {
        marked := marked[g.kind := At(marked, g.kind) + 1];
        if upgrading && g.excluded {
          addresses := addresses + AddressesOf(g);
          continue;
        }
      }
      if g.ignored {
        missing := missing[g.kind := At(missing, g.kind) + 1];
        continue;
      }
      if g.staleConfigMap {
        allSynced := false;
      }
      if !g.matches {
        continue;
      }
      if g.addresses.None? {
        missingAddress := missingAddress + [g.id];
        continue;
      }
      addresses := addresses + g.addresses.value;
    }
    assert gs[..|gs|] == gs;
  }

  method GetProcessesReadyForRestart(gs: seq<Group>, upgrading: bool, desired: map<Class, int>, perLog: int,
                                     perStorage: int)
    returns (outcome: Outcome)
    ensures outcome == Readiness(gs, upgrading, desired, perLog, perStorage)
  {
    var addresses, missingAddress, allSynced, missing, marked := CollectGroups(gs, upgrading);
    if |missingAddress| > 0 {
      return MissingAddress(missingAddress);
    }
    if !allSynced {
      return WaitingForConfigMap;
    }
    if upgrading {
      ghost var expected := kind =>
        (At(desired, kind) - CountMissing(gs, upgrading, kind) + CountMarked(gs, kind))
        * Multiplier(kind, perLog, perStorage);
      var enough :=
          CheckIfEnoughProcessesAreRunning(desired, perLog, perStorage, |addresses|, missing, marked, expected);
      assert SumOver(desired.Keys, expected) == ExpectedProcesses(gs, upgrading, desired, perLog, perStorage);
      if !enough {
        return NotEnoughProcesses;
      }
    }
    outcome := Ready(addresses);
  }

  /** How the specification functions grow by one group. */
  lemma Prefix(gs: seq<Group>, i: nat, upgrading: bool)
    requires i < |gs|
    ensures var p, q, g := gs[..i], gs[..i + 1], gs[i];
            && RestartAddresses(q, upgrading) == RestartAddresses(p, upgrading)
                 + (if Restarted(g, upgrading) || (Considered(g, upgrading) && g.matches) then AddressesOf(g) else [])
            && WithoutAddress(q, upgrading) == WithoutAddress(p, upgrading)
                 + (if Considered(g, upgrading) && g.matches && g.addresses.None? then [g.id] else [])
  {
    var p, q := gs[..i], gs[..i + 1];
    assert q[..|q| - 1] == p && q[|q| - 1] == gs[i];
  }

  lemma PrefixStale(gs: seq<Group>, i: nat, upgrading: bool)
    requires i < |gs|
    ensures AnyStale(gs[..i + 1], upgrading) <==>
            AnyStale(gs[..i], upgrading) || (Considered(gs[i], upgrading) && gs[i].staleConfigMap)
  {
    var p, q := gs[..i], gs[..i + 1];
    assert q[i] == gs[i] && forall h :: 0 <= h < i ==> q[h] == p[h];
    if AnyStale(p, upgrading) {
      var h :| 0 <= h < |p| && Considered(p[h], upgrading) && p[h].staleConfigMap;
      assert Considered(q[h], upgrading) && q[h].staleConfigMap;
    }
    if AnyStale(q, upgrading) {
      var h :| 0 <= h < |q| && Considered(q[h], upgrading) && q[h].staleConfigMap;
      assert h == i || (Considered(p[h], upgrading) && p[h].staleConfigMap);
    }
  }

  lemma PrefixCounts(gs: seq<Group>, i: nat, upgrading: bool)
    requires i < |gs|
    ensures var p, q, g := gs[..i], gs[..i + 1], gs[i];
            forall kind ::
              && CountMissing(q, upgrading, kind) == CountMissing(p, upgrading, kind)
                   + (if !Skipped(g) && !Restarted(g, upgrading) && g.ignored && g.kind == kind then 1 else 0)
              && CountMarked(q, kind) == CountMarked(p, kind)
                  + (if !Skipped(g) && g.marked && g.kind == kind then 1 else 0)
  {
    var p, q := gs[..i], gs[..i + 1];
    assert q[..|q| - 1] == p && q[|q| - 1] == gs[i];
  }

  /** What an instance knows when its check for an upgrade passes: every group that is not a tester, terminating,
      excluded or ignored has its new configuration, and if it waits for a restart its addresses are in the list. */
  lemma {:induction false} ReadyMeansSynced(gs: seq<Group>, upgrading: bool, desired: map<Class, int>, perLog: int,
                                            perStorage: int, i: nat)
    requires Readiness(gs, upgrading, desired, perLog, perStorage).Ready? && i < |gs| && Considered(gs[i], upgrading)
    ensures !gs[i].staleConfigMap
    ensures gs[i].matches ==> gs[i].addresses.Some?
                              && forall a :: a in gs[i].addresses.value
                                  ==> a in Readiness(gs, upgrading, desired, perLog, perStorage).addresses
  {
    assert gs[i].staleConfigMap ==> AnyStale(gs, upgrading);
    if gs[i].matches {
      AddressesCollected(gs, upgrading, i);
    }
  }

  lemma {:induction false} AddressesCollected(gs: seq<Group>, upgrading: bool, i: nat)
    requires i < |gs| && Considered(gs[i], upgrading) && gs[i].matches
    ensures gs[i].addresses.None? ==> gs[i].id in WithoutAddress(gs, upgrading)
    ensures forall a :: a in AddressesOf(gs[i]) ==> a in RestartAddresses(gs, upgrading)
  {
    if i < |gs| - 1 {
      AddressesCollected(gs[..|gs| - 1], upgrading, i);
    }
  }

  // ----- the cluster-wide check before an upgrade -----

  /** A process in the machine-readable status; `instance` is its locality instance id. */
  datatype Process = Process(kind: Class, instance: Option<GroupId>, version: string, address: Address)

  predicate NeedsUpgrade(p: Process, version: string) {
    p.kind != TEST && p.instance.Some? && p.version != version
  }

  /** The process is registered, and restarted if everybody else is registered too. */
  predicate Restarts(p: Process, pending: set<GroupId>, version: string) {
    NeedsUpgrade(p, version) && p.instance.value in pending
  }

  function UpgradeAddresses(ps: seq<Process>, pending: set<GroupId>, version: string): seq<Address> {
    if ps == [] then []
    else
      var p := ps[|ps| - 1];
      UpgradeAddresses(ps[..|ps| - 1], pending, version)
      + if Restarts(p, pending, version) then [p.address] else []
  }

  function NotReady(ps: seq<Process>, pending: set<GroupId>, version: string): seq<GroupId> {
    if ps == [] then []
    else
      var p := ps[|ps| - 1];
      NotReady(ps[..|ps| - 1], pending, version)
      + if NeedsUpgrade(p, version) && p.instance.value !in pending then [p.instance.value] else []
  }

  method GetUpgradeAddressesFromStatus(ps: seq<Process>, pending: set<GroupId>, version: string)
    returns (addresses: seq<Address>, notReady: seq<GroupId>)
    ensures addresses == UpgradeAddresses(ps, pending, version) && notReady == NotReady(ps, pending, version)
  {
    addresses, notReady := [], [];
    for i := 0 to |ps|
      invariant addresses == UpgradeAddresses(ps[..i], pending, version)
      invariant notReady == NotReady(ps[..i], pending, version)
    {
      var p := ps[i];
      assert ps[..i + 1][..i] == ps[..i];
      if p.kind == TEST {
        continue;
      }
      if p.instance.None? {
        continue;
      }
      if p.version == version {
        continue;
      }
      if p.instance.value in pending {
        addresses := addresses + [p.address];
        continue;
      }
      notReady := notReady + [p.instance.value];
    }
    assert ps[..|ps|] == ps;
  }

  /** Nobody is left out exactly if every process that needs the upgrade is registered. */
  lemma {:induction false} NobodyLeftOut(ps: seq<Process>, pending: set<GroupId>, version: string)
    ensures NotReady(ps, pending, version) == [] <==>
            forall i :: 0 <= i < |ps| && ps[i].kind != "test" && ps[i].instance.Some? && ps[i].version != version
              ==> ps[i].instance.value in pending
  {
    if ps != [] {
      var n := |ps| - 1;
      NobodyLeftOut(ps[..n], pending, version);
      assert forall i :: 0 <= i < n ==> ps[..n][i] == ps[i];
    }
  }

  /** The restart reaches exactly the registered processes that need the upgrade. */
  lemma {:induction false} RestartReaches(ps: seq<Process>, pending: set<GroupId>, version: string, a: Address)
    ensures a in UpgradeAddresses(ps, pending, version) <==>
            exists i :: 0 <= i < |ps| && ps[i].kind != "test" && ps[i].instance.Some? && ps[i].version != version
                        && ps[i].instance.value in pending && ps[i].address == a
  {
    if ps != [] {
      var n := |ps| - 1;
      var front := ps[..n];
      RestartReaches(front, pending, version, a);
      assert forall i :: 0 <= i < n ==> front[i] == ps[i];
      if a in UpgradeAddresses(front, pending, version) {
        var i :| 0 <= i < n && Restarts(front[i], pending, version) && front[i].address == a;
        assert Restarts(ps[i], pending, version);
      }
      if i :| 0 <= i < |ps| && Restarts(ps[i], pending, version) && ps[i].address == a {
        assert i < n ==> Restarts(front[i], pending, version);
      }
    }
  }

  // ----- process groups that restarts leave alone -----

  /** A process of an ignored group runs on the machine. */
  predicate IgnoredMachine(ps: seq<Process>, ignored: set<GroupId>, machine: Address -> string, m: string) {
    exists i :: 0 <= i < |ps| && ps[i].instance.Some? && ps[i].instance.value in ignored && machine(ps[i].address) == m
  }

  /** The addresses whose machine runs no process of an ignored group, in order. */
  function Unignored(addresses: seq<Address>, ps: seq<Process>, ignored: set<GroupId>,
                     machine: Address -> string): seq<Address> {
    if addresses == [] then []
    else
      var last := addresses[|addresses| - 1];
      Unignored(addresses[..|addresses| - 1], ps, ignored, machine)
      + if IgnoredMachine(ps, ignored, machine, machine(last)) then [] else [last]
  }

  method FilterIgnoredProcessGroups(addresses: seq<Address>, ps: seq<Process>, ignored: set<GroupId>,
                                    machine: Address -> string)
    returns (filtered: seq<Address>)
    ensures filtered == Unignored(addresses, ps, ignored, machine)
  {
    var machines: set<string> := {};
    for i := 0 to |ps|
      invariant forall m :: m in machines <==> IgnoredMachine(ps[..i], ignored, machine, m)
    {
      IgnoredStep(ps, i, ignored, machine);
      if ps[i].instance.None? || ps[i].instance.value !in ignored {
        continue;
      }
      machines := machines + {machine(ps[i].address)};
    }
    assert ps[..|ps|] == ps;
    filtered := [];
    for i := 0 to |addresses|
      invariant filtered == Unignored(addresses[..i], ps, ignored, machine)
    {
      assert addresses[..i + 1][..i] == addresses[..i];
      if machine(addresses[i]) in machines {
        continue;
      }
      filtered := filtered + [addresses[i]];
    }
    assert addresses[..|addresses|] == addresses;
  }

  lemma IgnoredStep(ps: seq<Process>, i: nat, ignored: set<GroupId>, machine: Address -> string)
    requires i < |ps|
    ensures forall m :: IgnoredMachine(ps[..i + 1], ignored, machine, m) <==>
              IgnoredMachine(ps[..i], ignored, machine, m)
              || (ps[i].instance.Some? && ps[i].instance.value in ignored && machine(ps[i].address) == m)
  {
    var p, q := ps[..i], ps[..i + 1];
    assert q[i] == ps[i] && forall h :: 0 <= h < i ==> q[h] == p[h];
    forall m | IgnoredMachine(p, ignored, machine, m) ensures IgnoredMachine(q, ignored, machine, m) {
      var h :| 0 <= h < |p| && p[h].instance.Some? && p[h].instance.value in ignored && machine(p[h].address) == m;
      assert q[h] == p[h];
    }
    forall m | IgnoredMachine(q, ignored, machine, m)
      ensures IgnoredMachine(p, ignored, machine, m)
              || (ps[i].instance.Some? && ps[i].instance.value in ignored && machine(ps[i].address) == m)
    {
      var h :| 0 <= h < |q| && q[h].instance.Some? && q[h].instance.value in ignored && machine(q[h].address) == m;
      assert h < i ==> p[h] == q[h];
    }
  }

  /** No address on a machine of an ignored group is restarted, and every other one is. */
  lemma {:induction false} UnignoredMember(addresses: seq<Address>, ps: seq<Process>, ignored: set<GroupId>,
                                           machine: Address -> string, a: Address)
    ensures a in Unignored(addresses, ps, ignored, machine) <==>
            && a in addresses
            && forall i :: 0 <= i < |ps| && ps[i].instance.Some? && ps[i].instance.value in ignored
                 ==> machine(ps[i].address) != machine(a)
  {
    if addresses != [] {
      UnignoredMember(addresses[..|addresses| - 1], ps, ignored, machine, a);
      assert addresses == addresses[..|addresses| - 1] + [addresses[|addresses| - 1]];
    }
  }
}
