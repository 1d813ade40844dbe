/** The upgrade part of a reconciliation pass as one operator instance runs it, on the shared database. Other
    instances act between its transactions, so each transaction is proved to be a step of the protocol from every
    state that they may have left. */
module UpgradePass {
  import opened Basics
  import L = LockClient
  import P = LockProtocol
  import opened B = BounceProcesses
  import opened UpgradeProtocol

  /** The own groups are ready, one of their processes or the cluster controller needs a restart, and restarting is
      safe. `controller` is the address of the controller if it is to be restarted. */
  ghost predicate Proceeds(r: Report, controller: Option<Address>, safe: bool) {
    && PassesOwnChecks(r) && safe
    && (Readiness(r.groups, true, r.desired, r.perLog, r.perStorage).addresses != [] || controller.Some?)
  }

  /** What is restarted once everybody is registered: the registered processes that need the upgrade, except on machines
      of ignored groups. */
  function ToRestart(r: Report, pending: set<GroupId>, ignored: set<GroupId>,
                     machine: Address -> string): seq<Address> {
    Unignored(UpgradeAddresses(r.processes, pending, r.version), r.processes, ignored, machine)
  }

  /** An instance that uses locks, with the phase of its pass. */
  class Instance {
    const client: L.Client
    var phase: Phase

    constructor (client: L.Client)
      ensures this.client == client && phase == Idle
    {
      this.client, phase := client, Idle;
    }

    /** The state of a run, at a time and with the phases of the other instances. */
    ghost function View(clock: int, others: map<Owner, Phase>): World
      reads this, client.database
    {
      World(P.State(client.database.lock, client.database.denied, clock), client.database.pending,
            others[client.owner := phase])
    }

    ghost predicate Ready(lease: Owner -> int) {
      !client.disabled && lease(client.owner) == client.duration
    }

    method CheckOwnGroups(r: Report, controller: Option<Address>, safe: bool, now: int,
                          ghost lease: Owner -> int, ghost clock: int, ghost others: map<Owner, Phase>)
      returns (ok: bool)
      requires Ready(lease) && clock <= now && phase.Idle?
      modifies this`phase
      ensures ok <==> Proceeds(r, controller, safe)
      ensures var outcome := Readiness(r.groups, true, r.desired, r.perLog, r.perStorage);
              ok <==> safe && outcome.Ready? && (outcome.addresses != [] || controller.Some?)
      ensures if ok then Step(lease, old(View(clock, others)), Check(client.owner, now, r), View(now, others))
              else phase == old(phase)
      ensures phase == if ok then Checked(r) else Idle
    {
      var outcome := GetProcessesReadyForRestart(r.groups, true, r.desired, r.perLog, r.perStorage);
      if !outcome.Ready? {
        return false;
      }
      var restarts := outcome.addresses;
      if controller.Some? {
        restarts := restarts + [controller.value];
      }
      if |restarts| == 0 {
        return false;
      }
      if !safe {
        return false;
      }
      phase := Checked(r);
      return true;
    }

    method RegisterGroups(now: int, ghost lease: Owner -> int, ghost clock: int, ghost others: map<Owner, Phase>)
      requires Ready(lease) && clock <= now && phase.Checked?
      modifies this`phase, client.database`pending
      ensures phase == Registered(old(phase).r)
      ensures client.database.pending
              == L.Registered(old(client.database.pending), old(phase).r.version, GroupIds(old(phase).r.groups))
      ensures Step(lease, old(View(clock, others)), Register(client.owner, now), View(now, others))
    {
      client.AddPendingUpgrades(phase.r.version, GroupIds(phase.r.groups));
      phase := Registered(phase.r);
    }

    method Lock(now: int, ghost lease: Owner -> int, ghost clock: int, ghost others: map<Owner, Phase>)
      returns (ok: bool)
      requires Ready(lease) && clock <= now && phase.Registered?
      modifies this`phase, client.database`lock
      ensures ok <==> L.CanTake(old(client.database.lock), client.database.denied, client.owner, now)
      ensures phase == if ok then Locked(old(phase).r) else Idle
      ensures client.database.lock
              == L.Taken(old(client.database.lock), client.database.denied, client.owner, client.duration, now)
      ensures Step(lease, old(View(clock, others)), TakeLock(client.owner, now, ok), View(now, others))
    {
      ok := client.TakeLock(now);
      phase := if ok then Locked(phase.r) else Idle;
    }

    /** Reads the registrations; on failure the pass ends. */
    method VerifyAll(now: int, ghost lease: Owner -> int, ghost clock: int, ghost others: map<Owner, Phase>)
      returns (ok: bool, addresses: seq<Address>)
      requires Ready(lease) && clock <= now && phase.Locked?
      modifies this`phase
      ensures var r, pending := old(phase).r, PendingFor(old(View(clock, others)), old(phase).r.version);
              && (ok <==> r.available && NotReady(r.processes, pending, r.version) == [])
              && (ok ==> addresses == UpgradeAddresses(r.processes, pending, r.version))
      ensures phase == if ok then Verified(old(phase).r) else Idle
      ensures Step(lease, old(View(clock, others)),
                   if ok then Verify(client.owner, now) else Abort(client.owner, now), View(now, others))
    {
      var r := phase.r;
      var pending := client.GetPendingUpgrades(r.version);
      var notReady := [];
      addresses := [];
      phase := Idle;
      if !r.available {
        return false, addresses;
      }
      addresses, notReady := GetUpgradeAddressesFromStatus(r.processes, pending, r.version);
      if |notReady| > 0 {
        return false, addresses;
      }
      phase := Verified(r);
      return true, addresses;
    }

    method ClearRegistrations(now: int, ghost lease: Owner -> int, ghost clock: int, ghost others: map<Owner, Phase>)
      requires Ready(lease) && clock <= now && phase.Verified?
      modifies this`phase, client.database`pending
      ensures phase == Cleared(old(phase).r) && client.database.pending == map[]
      ensures Step(lease, old(View(clock, others)), Clear(client.owner, now), View(now, others))
    {
      client.ClearPendingUpgrades();
      phase := Cleared(phase.r);
    }

    /** Restarts what is not ignored, if anything. */
    method Restart(addresses: seq<Address>, ignored: set<GroupId>, machine: Address -> string, now: int,
                   ghost lease: Owner -> int, ghost clock: int, ghost others: map<Owner, Phase>)
      returns (killed: Option<seq<Address>>)
      requires Ready(lease) && clock <= now && phase.Cleared?
      modifies this`phase
      ensures var left := Unignored(addresses, old(phase).r.processes, ignored, machine);
              killed == if left == [] then None else Some(left)
      ensures phase == Idle
      ensures Step(lease, old(View(clock, others)),
                   if killed.Some? then Kill(client.owner, now) else Abort(client.owner, now), View(now, others))
    {
      var filtered := FilterIgnoredProcessGroups(addresses, phase.r.processes, ignored, machine);
      phase := Idle;
      if |filtered| == 0 {
        return None;
      }
      killed := Some(filtered);
    }

    /** From the check of the own groups to the lock. */
    method Prepare(r: Report, controller: Option<Address>, safe: bool, now: int,
                   ghost lease: Owner -> int, ghost clock: int, ghost others: map<Owner, Phase>)
      returns (ok: bool, ghost ws: seq<World>, ghost es: seq<Event>)
      requires Ready(lease) && clock <= now && phase.Idle?
      modifies this`phase, client.database`lock, client.database`pending
      ensures Covers(lease, ws, es, old(View(clock, others)), View(if es == [] then clock else now, others), false)
      ensures phase == if ok then Locked(r) else Idle
      ensures !Proceeds(r, controller, safe) ==>
                !ok && client.database.lock == old(client.database.lock)
                && client.database.pending == old(client.database.pending)
      ensures Proceeds(r, controller, safe) ==>
                && es != [] && (ok <==> L.CanTake(old(client.database.lock), client.database.denied, client.owner, now))
                && client.database.lock
                   == L.Taken(old(client.database.lock), client.database.denied, client.owner, client.duration, now)
                && client.database.pending
                   == L.Registered(old(client.database.pending), r.version, GroupIds(r.groups))
    {
      ghost var start := View(clock, others);
      ws, es := [start], [];
      ok := CheckOwnGroups(r, controller, safe, now, lease, clock, others);
      if !ok {
        return;
      }
      ws, es := Extended(lease, ws, es, start, old(View(clock, others)), false, Check(client.owner, now, r),
                         View(now, others));
      ghost var w := View(now, others);
      RegisterGroups(now, lease, now, others);
      ws, es := Extended(lease, ws, es, start, w, false, Register(client.owner, now), View(now, others));
      w := View(now, others);
      ok := Lock(now, lease, now, others);
      ws, es := Extended(lease, ws, es, start, w, false, TakeLock(client.owner, now, ok), View(now, others));
    }

    /** From the lock to the restart. */
    method Finish(ignored: set<GroupId>, machine: Address -> string, now: int, ghost lease: Owner -> int,
                  ghost others: map<Owner, Phase>, ghost start: World, ghost ws: seq<World>, ghost es: seq<Event>)
      returns (killed: Option<seq<Address>>, ghost ws': seq<World>, ghost es': seq<Event>)
      requires Ready(lease) && phase.Locked? && Covers(lease, ws, es, start, View(now, others), false)
      modifies this`phase, client.database`pending
      ensures phase == Idle && es' != [] && Covers(lease, ws', es', start, View(now, others), killed.Some?)
      ensures var r, pending := old(phase).r, PendingFor(old(View(now, others)), old(phase).r.version);
              var upgrades := r.available && NotReady(r.processes, pending, r.version) == [];
              var restarts := ToRestart(r, pending, ignored, machine);
              && client.database.pending == (if upgrades then map[] else old(client.database.pending))
              && killed == if upgrades && restarts != [] then Some(restarts) else None
    {
      killed := None;
      ghost var w := View(now, others);
      var ok, addresses := VerifyAll(now, lease, now, others);
      ws', es' := Extended(lease, ws, es, start, w, false,
                           if ok then Verify(client.owner, now) else Abort(client.owner, now), View(now, others));
      if !ok {
        return;
      }
      w := View(now, others);
      ClearRegistrations(now, lease, now, others);
      ws', es' := Extended(lease, ws', es', start, w, false, Clear(client.owner, now), View(now, others));
      w := View(now, others);
      killed := Restart(addresses, ignored, machine, now, lease, now, others);
      ws', es' := Extended(lease, ws', es', start, w, false,
                           if killed.Some? then Kill(client.owner, now) else Abort(client.owner, now),
                           View(now, others));
    }

    /** A pass without others acting in between. It is a stretch of a run of the protocol from the state before to the
        state after, with a restart exactly if it restarts processes. */
    method Reconcile(r: Report, controller: Option<Address>, safe: bool, ignored: set<GroupId>,
                     machine: Address -> string, now: int,
                     ghost lease: Owner -> int, ghost clock: int, ghost others: map<Owner, Phase>)
      returns (killed: Option<seq<Address>>, ghost ws: seq<World>, ghost es: seq<Event>)
      requires Ready(lease) && clock <= now && phase.Idle?
      modifies this`phase, client.database`lock, client.database`pending
      ensures PassResult(client, r, Proceeds(r, controller, safe), ignored, machine, now, client.database.denied,
                         old(client.database.lock), old(client.database.pending),
                         client.database.lock, client.database.pending, killed)
      ensures phase == Idle
      ensures !safe ==> killed.None? && client.database.lock == old(client.database.lock)
                        && client.database.pending == old(client.database.pending)
      ensures Covers(lease, ws, es, old(View(clock, others)), View(if es == [] then clock else now, others),
                     killed.Some?)
    {
      killed := None;
      var ok;
      ok, ws, es := Prepare(r, controller, safe, now, lease, clock, others);
      if !ok {
        return;
      }
      killed, ws, es := Finish(ignored, machine, now, lease, others, old(View(clock, others)), ws, es);
    }
  }

  // ----- undisturbed passes -----

  ghost function PendingAfter(pending: map<string, set<GroupId>>, r: Report): set<GroupId> {
    var after := L.Registered(pending, r.version, GroupIds(r.groups));
    if r.version in after then after[r.version] else {}
  }

  /** Once the own groups are registered, so is everything that needs the upgrade. */
  ghost predicate EverybodyReady(pending: map<string, set<GroupId>>, r: Report) {
    r.available && NotReady(r.processes, PendingAfter(pending, r), r.version) == []
  }

  /** The state of the database after a pass, and what the pass restarts. */
  ghost predicate PassResult(client: L.Client, r: Report, proceeds: bool, ignored: set<GroupId>,
                             machine: Address -> string, now: int, denied: set<Owner>,
                             lock: L.LockValue, pending: map<string, set<GroupId>>,
                             lock': L.LockValue, pending': map<string, set<GroupId>>, killed: Option<seq<Address>>) {
    var upgrades := L.CanTake(lock, denied, client.owner, now) && EverybodyReady(pending, r);
    var restarts := ToRestart(r, PendingAfter(pending, r), ignored, machine);
    if !proceeds then lock' == lock && pending' == pending && killed == None
    else
      && lock' == L.Taken(lock, denied, client.owner, client.duration, now)
      && pending' == (if upgrades then map[] else L.Registered(pending, r.version, GroupIds(r.groups)))
      && killed == if upgrades && restarts != [] then Some(restarts) else None
  }

  /** A stretch of a run from one state to another, with or without a restart. */
  ghost predicate Covers(lease: Owner -> int, ws: seq<World>, es: seq<Event>, start: World, end: World, kills: bool) {
    && |ws| == |es| + 1 && ws[0] == start && ws[|es|] == end
    && (forall i :: 0 <= i < |es| ==> Step(lease, ws[i], es[i], ws[i + 1]))
    && (kills <==> exists i :: 0 <= i < |es| && es[i].Kill?)
  }

  /** A step more. */
  lemma Extended(lease: Owner -> int, ws: seq<World>, es: seq<Event>, start: World, end: World, kills: bool, e: Event,
                 w: World)
    returns (ws': seq<World>, es': seq<Event>)
    requires Covers(lease, ws, es, start, end, kills) && Step(lease, end, e, w)
    ensures Covers(lease, ws', es', start, w, kills || e.Kill?) && es' != []
  {
    ws', es' := ws + [w], es + [e];
    forall i | 0 <= i < |es'| ensures Step(lease, ws'[i], es'[i], ws'[i + 1]) {
      if i < |es| {
        assert ws'[i] == ws[i] && ws'[i + 1] == ws[i + 1] && es'[i] == es[i];
      }
    }
    if i :| 0 <= i < |es| && es[i].Kill? {
      assert es'[i].Kill?;
    }
    if i :| 0 <= i < |es'| && es'[i].Kill? {
      assert i < |es| ==> es[i].Kill?;
    }
    assert es'[|es|] == e;
  }

  /** The instance may restart, and nobody is missing. */
  predicate Upgradable(client: L.Client, r: Report, proceeds: bool, lock: L.LockValue, denied: set<Owner>, now: int,
                       pending: map<string, set<GroupId>>) {
    proceeds && L.CanTake(lock, denied, client.owner, now) && r.available && EverybodyKnown(pending, r)
  }

  /** Every process that needs the upgrade is registered. */
  predicate EverybodyKnown(pending: map<string, set<GroupId>>, r: Report) {
    forall i :: 0 <= i < |r.processes| && r.processes[i].kind != "test" && r.processes[i].instance.Some?
                && r.processes[i].version != r.version
      ==> KnownTo(pending, r, r.processes[i].instance.value)
  }

  /** Registered before the pass, or one of the instance's own groups. */
  predicate KnownTo(pending: map<string, set<GroupId>>, r: Report, id: GroupId) {
    (r.version in pending && id in pending[r.version]) || exists i :: 0 <= i < |r.groups| && r.groups[i].id == id
  }

  lemma KnownAfter(pending: map<string, set<GroupId>>, r: Report, id: GroupId)
    ensures id in PendingAfter(pending, r) <==> KnownTo(pending, r, id)
  {
    L.RegisteredMember(pending, r.version, GroupIds(r.groups), r.version, id);
    if i :| 0 <= i < |r.groups| && r.groups[i].id == id {
      assert GroupIds(r.groups)[i] == id;
    }
  }

  /** An undisturbed pass restarts exactly the processes that need the upgrade and run on no machine of an ignored
      group, provided that everybody who needs the upgrade is registered; otherwise it restarts nothing. */
  lemma PassTheorem(client: L.Client, r: Report, proceeds: bool, ignored: set<GroupId>, machine: Address -> string,
                    now: int, denied: set<Owner>, lock: L.LockValue, pending: map<string, set<GroupId>>,
                    lock': L.LockValue, pending': map<string, set<GroupId>>, killed: Option<seq<Address>>, a: Address)
    requires PassResult(client, r, proceeds, ignored, machine, now, denied, lock, pending, lock', pending', killed)
    ensures !Upgradable(client, r, proceeds, lock, denied, now, pending) ==> killed.None?
    ensures Upgradable(client, r, proceeds, lock, denied, now, pending) ==>
              && pending' == map[]
              && ((killed.Some? && a in killed.value) <==> exists i :: IsRestarted(r, ignored, machine, i, a))
  {
    ReadyIsKnown(pending, r);
    if Upgradable(client, r, proceeds, lock, denied, now, pending) {
      RestartedMember(pending, r, ignored, machine, a);
    }
  }

  /** The process needs the upgrade, and its machine, at the address, runs no process of an ignored group. */
  predicate IsRestarted(r: Report, ignored: set<GroupId>, machine: Address -> string, i: int, a: Address) {
    && 0 <= i < |r.processes| && r.processes[i].address == a
    && r.processes[i].kind != "test" && r.processes[i].instance.Some? && r.processes[i].version != r.version
    && forall j :: 0 <= j < |r.processes| && r.processes[j].instance.Some? && r.processes[j].instance.value in ignored
         ==> machine(r.processes[j].address) != machine(a)
  }

  lemma ReadyIsKnown(pending: map<string, set<GroupId>>, r: Report)
    ensures EverybodyReady(pending, r) <==> r.available && EverybodyKnown(pending, r)
  {
    NobodyLeftOut(r.processes, PendingAfter(pending, r), r.version);
    forall id ensures id in PendingAfter(pending, r) <==> KnownTo(pending, r, id) {
      KnownAfter(pending, r, id);
    }
  }

  lemma RestartedMember(pending: map<string, set<GroupId>>, r: Report, ignored: set<GroupId>,
                        machine: Address -> string, a: Address)
    requires EverybodyReady(pending, r)
    ensures a in ToRestart(r, PendingAfter(pending, r), ignored, machine) <==>
            exists i :: IsRestarted(r, ignored, machine, i, a)
  {
    var known := PendingAfter(pending, r);
    RestartReaches(r.processes, known, r.version, a);
    UnignoredMember(UpgradeAddresses(r.processes, known, r.version), r.processes, ignored, machine, a);
    NobodyLeftOut(r.processes, known, r.version);
    if i :| IsRestarted(r, ignored, machine, i, a) {
      assert r.processes[i].instance.value in known;
    }
    if a in ToRestart(r, known, ignored, machine) {
      var i :| 0 <= i < |r.processes| && r.processes[i].kind != "test" && r.processes[i].instance.Some?
        && r.processes[i].version != r.version && r.processes[i].instance.value in known && r.processes[i].address == a;
      assert IsRestarted(r, ignored, machine, i, a);
    }
  }
}
