/** What it means that the process groups of an instance are ready for an upgrade: which groups count, and how many
    processes have to be there. */
module UpgradeReadiness {
  import opened Basics
  import opened Counting
  import opened Sums
  import opened BounceProcesses

  /** Neither a tester nor terminating. */
  predicate Active(g: Group) {
    g.kind != "test" && !g.terminating
  }

  /** Excluded and about to be removed; an upgrade restarts it all the same. */
  predicate Leaving(g: Group, upgrading: bool) {
    Active(g) && upgrading && g.marked && g.excluded
  }

  /** The group has to have the latest configuration, and addresses if it asks for a restart. */
  predicate Counts(g: Group, upgrading: bool) {
    Active(g) && !Leaving(g, upgrading) && !g.ignored
  }

  /** How many addresses the groups report that are restarted. */
  function AddressCount(gs: seq<Group>, upgrading: bool): nat {
    if gs == [] then 0
    else
      var g := gs[|gs| - 1];
      AddressCount(gs[..|gs| - 1], upgrading)
      + if g.addresses.Some? && (Leaving(g, upgrading) || (Counts(g, upgrading) && g.matches)) then |g.addresses.value|
        else 0
  }

  /** A group of the class that is not expected to run. */
  predicate Ignored(g: Group, upgrading: bool, kind: Class) {
    g.kind == kind && Active(g) && !Leaving(g, upgrading) && g.ignored
  }

  /** A group of the class that runs in addition to the desired ones. */
  predicate Marked(g: Group, kind: Class) {
    g.kind == kind && Active(g) && g.marked
  }

  function IgnoredNumber(gs: seq<Group>, upgrading: bool, kind: Class): nat {
    Number(gs, g => Ignored(g, upgrading, kind))
  }

  function MarkedNumber(gs: seq<Group>, kind: Class): nat {
    Number(gs, g => Marked(g, kind))
  }

  lemma {:induction false} IgnoredCounted(gs: seq<Group>, upgrading: bool, kind: Class)
    ensures CountMissing(gs, upgrading, kind) == IgnoredNumber(gs, upgrading, kind)
  {
    if gs == [] {
      NumberNone((g: Group) => Ignored(g, upgrading, kind));
    } else {
      IgnoredCounted(gs[..|gs| - 1], upgrading, kind);
      NumberStep(gs, g => Ignored(g, upgrading, kind));
    }
  }

  lemma {:induction false} MarkedCounted(gs: seq<Group>, kind: Class)
    ensures CountMarked(gs, kind) == MarkedNumber(gs, kind)
  {
    if gs == [] {
      NumberNone((g: Group) => Marked(g, kind));
    } else {
      MarkedCounted(gs[..|gs| - 1], kind);
      NumberStep(gs, g => Marked(g, kind));
    }
  }

  lemma {:induction false} AddressesCounted(gs: seq<Group>, upgrading: bool)
    ensures |RestartAddresses(gs, upgrading)| == AddressCount(gs, upgrading)
  {
    if gs != [] {
      AddressesCounted(gs[..|gs| - 1], upgrading);
    }
  }

  lemma {:induction false} NobodyWithout(gs: seq<Group>, upgrading: bool)
    ensures WithoutAddress(gs, upgrading) == [] <==>
            forall i :: 0 <= i < |gs| && Counts(gs[i], upgrading) && gs[i].matches ==> gs[i].addresses.Some?
  {
    if gs != [] {
      var n := |gs| - 1;
      NobodyWithout(gs[..n], upgrading);
      assert forall i :: 0 <= i < n ==> gs[..n][i] == gs[i];
    }
  }

  /** How many processes have to be running: for each desired class the desired number of groups, without ignored and
      with marked ones, times the number of processes that a Pod of this class runs. */
  ghost function Expected(gs: seq<Group>, upgrading: bool, desired: map<Class, int>, perLog: int,
                          perStorage: int): int {
    SumOver(desired.Keys, kind =>
      ((if kind in desired then desired[kind] else 0) - IgnoredNumber(gs, upgrading, kind) + MarkedNumber(gs, kind))
      * PerPod(kind, perLog, perStorage))
  }

  /** The number of processes that a Pod of the class runs. */
  function PerPod(kind: Class, perLog: int, perStorage: int): int {
    if kind == "log" || kind == "transaction" then perLog else if kind == "storage" then perStorage else 1
  }

  lemma ExpectedProcessesIs(gs: seq<Group>, upgrading: bool, desired: map<Class, int>, perLog: int, perStorage: int)
    ensures ExpectedProcesses(gs, upgrading, desired, perLog, perStorage)
            == Expected(gs, upgrading, desired, perLog, perStorage)
  {
    forall kind
      ensures CountMissing(gs, upgrading, kind) == IgnoredNumber(gs, upgrading, kind)
              && CountMarked(gs, kind) == MarkedNumber(gs, kind)
    {
      IgnoredCounted(gs, upgrading, kind);
      MarkedCounted(gs, kind);
    }
    SumOverSame(desired.Keys, kind =>
      (At(desired, kind) - CountMissing(gs, upgrading, kind) + CountMarked(gs, kind))
      * Multiplier(kind, perLog, perStorage), kind =>
      ((if kind in desired then desired[kind] else 0) - IgnoredNumber(gs, upgrading, kind) + MarkedNumber(gs, kind))
      * PerPod(kind, perLog, perStorage));
  }

  /** An instance is ready exactly if every group that counts has the latest configuration, and addresses if it asks for
      a restart, and if, for an upgrade, at least as many processes report as are expected. */
  lemma ReadyTheorem(gs: seq<Group>, upgrading: bool, desired: map<Class, int>, perLog: int, perStorage: int)
    ensures Readiness(gs, upgrading, desired, perLog, perStorage).Ready? <==>
            && (forall i :: 0 <= i < |gs| && Counts(gs[i], upgrading) ==>
                  !gs[i].staleConfigMap && (gs[i].matches ==> gs[i].addresses.Some?))
            && (upgrading ==> AddressCount(gs, upgrading) >= Expected(gs, upgrading, desired, perLog, perStorage))
    ensures Readiness(gs, upgrading, desired, perLog, perStorage).Ready? ==>
              |Readiness(gs, upgrading, desired, perLog, perStorage).addresses| == AddressCount(gs, upgrading)
  {
    NobodyWithout(gs, upgrading);
    AddressesCounted(gs, upgrading);
    ExpectedProcessesIs(gs, upgrading, desired, perLog, perStorage);
    if i :| 0 <= i < |gs| && Counts(gs[i], upgrading) && gs[i].staleConfigMap {
      assert Considered(gs[i], upgrading);
    }
  }

  /** What an upgrade can rely on: a ready instance has at least as many addresses as its Pods should run processes. */
  lemma ReadyMeansEnough(gs: seq<Group>, desired: map<Class, int>, perLog: int, perStorage: int)
    requires Readiness(gs, true, desired, perLog, perStorage).Ready?
    ensures |Readiness(gs, true, desired, perLog, perStorage).addresses| >=
            SumOver(desired.Keys, kind =>
              ((if kind in desired then desired[kind] else 0) - IgnoredNumber(gs, true, kind) + MarkedNumber(gs, kind))
              * (if kind == "log" || kind == "transaction" then perLog
                 else if kind == "storage" then perStorage else 1))
  {
    ReadyTheorem(gs, true, desired, perLog, perStorage);
    SumOverSame(desired.Keys, kind =>
      ((if kind in desired then desired[kind] else 0) - IgnoredNumber(gs, true, kind) + MarkedNumber(gs, kind))
      * PerPod(kind, perLog, perStorage), kind =>
      ((if kind in desired then desired[kind] else 0) - IgnoredNumber(gs, true, kind) + MarkedNumber(gs, kind))
      * (if kind == "log" || kind == "transaction" then perLog else if kind == "storage" then perStorage else 1));
  }

  /** Exactly the addresses of leaving groups, and of groups that count and ask for a restart. */
  lemma {:induction false} ReadyAddresses(gs: seq<Group>, upgrading: bool, a: Address)
    ensures a in RestartAddresses(gs, upgrading) <==>
            exists i :: 0 <= i < |gs| && (Leaving(gs[i], upgrading) || (Counts(gs[i], upgrading) && gs[i].matches))
                        && gs[i].addresses.Some? && a in gs[i].addresses.value
  {
    if gs != [] {
      var n := |gs| - 1;
      var front := gs[..n];
      ReadyAddresses(front, upgrading, a);
      assert forall i :: 0 <= i < n ==> front[i] == gs[i];
      if a in RestartAddresses(front, upgrading) {
        var i :| 0 <= i < |front| && (Leaving(front[i], upgrading) || (Counts(front[i], upgrading) && front[i].matches))
                 && front[i].addresses.Some? && a in front[i].addresses.value;
        assert a in gs[i].addresses.value;
      }
    }
  }

  // ----- a complete cluster is ready -----

  function GroupsOf(gs: seq<Group>, kind: Class): nat {
    Number(gs, (g: Group) => g.kind == kind)
  }

  /** All groups run as desired, have the latest configuration and report all their processes. */
  ghost predicate Complete(gs: seq<Group>, desired: map<Class, int>, perLog: int, perStorage: int) {
    && (forall i :: 0 <= i < |gs| ==>
          && Active(gs[i]) && !gs[i].marked && !gs[i].ignored && !gs[i].staleConfigMap && gs[i].matches
          && gs[i].kind in desired
          && gs[i].addresses.Some? && |gs[i].addresses.value| == PerPod(gs[i].kind, perLog, perStorage))
    && (forall kind :: kind in desired ==> desired[kind] == GroupsOf(gs, kind))
  }

  lemma {:induction false} ProcessesAddUp(gs: seq<Group>, kinds: set<Class>, perLog: int, perStorage: int)
    requires forall i :: 0 <= i < |gs| ==>
               && Active(gs[i]) && !gs[i].marked && !gs[i].ignored && gs[i].matches && gs[i].kind in kinds
               && gs[i].addresses.Some? && |gs[i].addresses.value| == PerPod(gs[i].kind, perLog, perStorage)
    ensures AddressCount(gs, true) == SumOver(kinds, kind => GroupsOf(gs, kind) * PerPod(kind, perLog, perStorage))
  {
    var count := (kind: Class) => GroupsOf(gs, kind) * PerPod(kind, perLog, perStorage);
    if gs == [] {
      forall kind ensures GroupsOf(gs, kind) == 0 {
        NumberNone((g: Group) => g.kind == kind);
      }
      SumOverZero(kinds, count);
    } else {
      var n := |gs| - 1;
      ProcessesAddUp(gs[..n], kinds, perLog, perStorage);
      OneMore(gs, kinds, perLog, perStorage);
    }
  }

  /** A further group adds the processes of its Pod. */
  lemma OneMore(gs: seq<Group>, kinds: set<Class>, perLog: int, perStorage: int)
    requires gs != [] && gs[|gs| - 1].kind in kinds
    ensures SumOver(kinds, kind => GroupsOf(gs, kind) * PerPod(kind, perLog, perStorage))
            == SumOver(kinds, kind => GroupsOf(gs[..|gs| - 1], kind) * PerPod(kind, perLog, perStorage))
               + PerPod(gs[|gs| - 1].kind, perLog, perStorage)
  {
    var front, last := gs[..|gs| - 1], gs[|gs| - 1].kind;
    forall kind ensures GroupsOf(gs, kind) == GroupsOf(front, kind) + if kind == last then 1 else 0 {
      NumberStep(gs, (g: Group) => g.kind == kind);
    }
    SumOverBump(kinds, kind => GroupsOf(front, kind) * PerPod(kind, perLog, perStorage),
                kind => GroupsOf(gs, kind) * PerPod(kind, perLog, perStorage), last, PerPod(last, perLog, perStorage));
  }

  lemma NobodyExtra(gs: seq<Group>, kind: Class)
    requires forall i :: 0 <= i < |gs| ==> !gs[i].marked && !gs[i].ignored
    ensures IgnoredNumber(gs, true, kind) == 0 && MarkedNumber(gs, kind) == 0
  {
    assert Positions(gs, g => Ignored(g, true, kind)) == {} && Positions(gs, g => Marked(g, kind)) == {};
  }

  lemma CompleteExpects(gs: seq<Group>, desired: map<Class, int>, perLog: int, perStorage: int)
    requires Complete(gs, desired, perLog, perStorage)
    ensures Expected(gs, true, desired, perLog, perStorage)
            == SumOver(desired.Keys, kind => GroupsOf(gs, kind) * PerPod(kind, perLog, perStorage))
  {
    forall kind ensures IgnoredNumber(gs, true, kind) == 0 && MarkedNumber(gs, kind) == 0 {
      NobodyExtra(gs, kind);
    }
    SumOverSame(desired.Keys, kind => GroupsOf(gs, kind) * PerPod(kind, perLog, perStorage), kind =>
      ((if kind in desired then desired[kind] else 0) - IgnoredNumber(gs, true, kind) + MarkedNumber(gs, kind))
      * PerPod(kind, perLog, perStorage));
  }

  lemma CompleteIsReady(gs: seq<Group>, desired: map<Class, int>, perLog: int, perStorage: int)
    requires Complete(gs, desired, perLog, perStorage)
    ensures Readiness(gs, true, desired, perLog, perStorage).Ready?
  {
    ReadyTheorem(gs, true, desired, perLog, perStorage);
    ProcessesAddUp(gs, desired.Keys, perLog, perStorage);
    CompleteExpects(gs, desired, perLog, perStorage);
  }
}
