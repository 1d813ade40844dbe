/** Several operator instances upgrading one cluster. Each instance runs a reconciliation pass: check its own
    groups, register them, take the lock, verify that everybody is registered, clear the registrations, restart.
    Passes of different instances interleave freely, one transaction at a time. */
module UpgradeProtocol {
  import opened Basics
  import L = LockClient
  import P = LockProtocol
  import opened B = BounceProcesses

  type Owner = L.Owner

  /** What an instance knows when its pass starts: the target version, its own groups and the machine-readable
      status. */
  datatype Report = Report(version: string, groups: seq<Group>, desired: map<Class, int>, perLog: int, perStorage: int,
                           processes: seq<Process>, available: bool)

  ghost predicate PassesOwnChecks(r: Report) {
    Readiness(r.groups, true, r.desired, r.perLog, r.perStorage).Ready?
  }

  function GroupIds(gs: seq<Group>): (ids: seq<GroupId>)
    ensures |ids| == |gs| && forall i :: 0 <= i < |gs| ==> ids[i] == gs[i].id
  {
    seq(|gs|, i requires 0 <= i < |gs| => gs[i].id)
  }

  datatype Phase =
    | Idle
    | Checked(r: Report)
    | Registered(r: Report)
    | Locked(r: Report)
    | Verified(r: Report)
    | Cleared(r: Report)

  datatype World = World(store: P.State, pending: map<string, set<GroupId>>, phases: map<Owner, Phase>)

  function PhaseOf(w: World, o: Owner): Phase {
    if o in w.phases then w.phases[o] else Idle
  }

  function PendingFor(w: World, version: string): set<GroupId> {
    if version in w.pending then w.pending[version] else {}
  }

  datatype Event =
    | Check(owner: Owner, now: int, r: Report)
    | Register(owner: Owner, now: int)
    | TakeLock(owner: Owner, now: int, ok: bool)
    | Verify(owner: Owner, now: int)
    | Clear(owner: Owner, now: int)
    | Kill(owner: Owner, now: int)
    | Abort(owner: Owner, now: int)
    | ReleaseLock(owner: Owner, now: int)
    | UpdateDenyList(now: int, entries: seq<L.DenyEntry>)

  function LockEvent(e: Event): P.Event {
    match e
    case TakeLock(o, now, ok) => P.Take(o, now, ok)
    case ReleaseLock(o, now) => P.Release(o, now)
    case UpdateDenyList(now, entries) => P.Deny(entries, now)
    case _ => P.Tick(e.now)
  }

  predicate Acts(e: Event, o: Owner) {
    !e.UpdateDenyList? && e.owner == o
  }

  /** The lock is also taken outside of upgrades, and released, by instances that are not in a pass. */
  ghost predicate Step(lease: Owner -> int, w: World, e: Event, w': World) {
    && P.Step(lease, w.store, LockEvent(e), w'.store)
    && match e
       case UpdateDenyList(_, _) => w'.pending == w.pending && w'.phases == w.phases
       case Check(o, _, r) =>
         && PhaseOf(w, o).Idle? && PassesOwnChecks(r)
         && w'.pending == w.pending && w'.phases == w.phases[o := Checked(r)]
       case Register(o, _) =>
         && PhaseOf(w, o).Checked?
         && var r := PhaseOf(w, o).r;
            w'.pending == L.Registered(w.pending, r.version, GroupIds(r.groups))
                && w'.phases == w.phases[o := Registered(r)]
       case TakeLock(o, _, ok) =>
         && w'.pending == w.pending
         && match PhaseOf(w, o) {
              case Idle => w'.phases == w.phases
              case Registered(r) => w'.phases == w.phases[o := if ok then Locked(r) else Idle]
              case _ => false
            }
       case Verify(o, _) =>
         && PhaseOf(w, o).Locked?
         && var r := PhaseOf(w, o).r;
            && r.available && NotReady(r.processes, PendingFor(w, r.version), r.version) == []
            && w'.pending == w.pending && w'.phases == w.phases[o := Verified(r)]
       case Clear(o, _) =>
         PhaseOf(w, o).Verified? && w'.pending == map[] && w'.phases == w.phases[o := Cleared(PhaseOf(w, o).r)]
       case Kill(o, _) =>
         PhaseOf(w, o).Cleared? && w'.pending == w.pending && w'.phases == w.phases[o := Idle]
       case Abort(o, _) => w'.pending == w.pending && w'.phases == w.phases[o := Idle]
       case ReleaseLock(o, _) => PhaseOf(w, o).Idle? && w'.pending == w.pending && w'.phases == w.phases
  }

  ghost predicate Run(lease: Owner -> int, ws: seq<World>, es: seq<Event>) {
    && |ws| == |es| + 1
    && ws[0].pending == map[] && ws[0].phases == map[]
    && forall i :: 0 <= i < |es| ==> Step(lease, ws[i], es[i], ws[i + 1])
  }

  /** Instance `o` does nothing between `a` and `b`. */
  ghost predicate Quiet(es: seq<Event>, a: nat, b: nat, o: Owner) {
    forall k :: a < k < b && k < |es| ==> !Acts(es[k], o)
  }

  ghost predicate CheckedBefore(es: seq<Event>, n: nat, o: Owner, r: Report, h: nat) {
    h < n <= |es| && es[h].Check? && es[h].owner == o && es[h].r == r && Quiet(es, h, n, o)
  }

  ghost predicate RegisteredBefore(es: seq<Event>, n: nat, o: Owner, r: Report, h: nat, g: nat) {
    CheckedBefore(es, g, o, r, h) && g < n <= |es| && es[g].Register? && es[g].owner == o && Quiet(es, g, n, o)
  }

  ghost predicate LockedBefore(es: seq<Event>, n: nat, o: Owner, r: Report, t: nat) {
    && t < n <= |es| && es[t].TakeLock? && es[t].ok && es[t].owner == o && Quiet(es, t, n, o)
    && exists h: nat, g: nat :: RegisteredBefore(es, t, o, r, h, g)
  }

  ghost predicate VerifiedBefore(es: seq<Event>, n: nat, o: Owner, r: Report, t: nat, q: nat) {
    LockedBefore(es, q, o, r, t) && q < n <= |es| && es[q].Verify? && es[q].owner == o && Quiet(es, q, n, o)
  }

  ghost predicate ClearedBefore(es: seq<Event>, n: nat, o: Owner, r: Report, t: nat, q: nat, c: nat) {
    VerifiedBefore(es, c, o, r, t, q) && c < n <= |es| && es[c].Clear? && es[c].owner == o && Quiet(es, c, n, o)
  }

  /** The phase of an instance tells which of its events led there. */
  ghost predicate PhaseExplained(es: seq<Event>, n: nat, o: Owner, p: Phase) {
    match p
    case Idle => true
    case Checked(r) => exists h: nat :: CheckedBefore(es, n, o, r, h)
    case Registered(r) => exists h: nat, g: nat :: RegisteredBefore(es, n, o, r, h, g)
    case Locked(r) => exists t: nat :: LockedBefore(es, n, o, r, t)
    case Verified(r) => exists t: nat, q: nat :: VerifiedBefore(es, n, o, r, t, q)
    case Cleared(r) => exists t: nat, q: nat, c: nat :: ClearedBefore(es, n, o, r, t, q, c)
  }

  lemma QuietExtends(es: seq<Event>, n: nat, o: Owner, p: Phase)
    requires n < |es| && PhaseExplained(es, n, o, p) && !Acts(es[n], o)
    ensures PhaseExplained(es, n + 1, o, p)
  {
    match p
    case Idle =>
    case Checked(r) =>
      var h: nat :| CheckedBefore(es, n, o, r, h);
      assert CheckedBefore(es, n + 1, o, r, h);
    case Registered(r) =>
      var h: nat, g: nat :| RegisteredBefore(es, n, o, r, h, g);
      assert RegisteredBefore(es, n + 1, o, r, h, g);
    case Locked(r) =>
      var t: nat :| LockedBefore(es, n, o, r, t);
      assert LockedBefore(es, n + 1, o, r, t);
    case Verified(r) =>
      var t: nat, q: nat :| VerifiedBefore(es, n, o, r, t, q);
      assert VerifiedBefore(es, n + 1, o, r, t, q);
    case Cleared(r) =>
      var t: nat, q: nat, c: nat :| ClearedBefore(es, n, o, r, t, q, c);
      assert ClearedBefore(es, n + 1, o, r, t, q, c);
  }

  /** The phases that allow an instance to act, and the phase it is in afterwards. */
  predicate MayAct(p: Phase, e: Event) {
    match e
    case Check(_, _, _) => p.Idle?
    case Register(_, _) => p.Checked?
    case TakeLock(_, _, _) => p.Idle? || p.Registered?
    case Verify(_, _) => p.Locked?
    case Clear(_, _) => p.Verified?
    case _ => true
  }

  function NextPhase(p: Phase, e: Event): Phase
    requires MayAct(p, e)
  {
    match e
    case Check(_, _, r) => Checked(r)
    case Register(_, _) => Registered(p.r)
    case TakeLock(_, _, ok) => if ok && p.Registered? then Locked(p.r) else Idle
    case Verify(_, _) => Verified(p.r)
    case Clear(_, _) => Cleared(p.r)
    case _ => Idle
  }

  lemma StepPhase(lease: Owner -> int, w: World, e: Event, w': World, o: Owner)
    requires Step(lease, w, e, w') && Acts(e, o)
    ensures MayAct(PhaseOf(w, o), e) && PhaseOf(w', o) == NextPhase(PhaseOf(w, o), e)
  {
  }

  lemma ActExtends(es: seq<Event>, n: nat, o: Owner, p: Phase)
    requires n < |es| && Acts(es[n], o) && MayAct(p, es[n]) && PhaseExplained(es, n, o, p)
    ensures PhaseExplained(es, n + 1, o, NextPhase(p, es[n]))
  {
    match es[n]
    case Check(_, _, r) =>
      assert CheckedBefore(es, n + 1, o, r, n);
    case Register(_, _) =>
      var h: nat :| CheckedBefore(es, n, o, p.r, h);
      assert RegisteredBefore(es, n + 1, o, p.r, h, n);
    case TakeLock(_, _, ok) =>
      if ok && p.Registered? {
        assert LockedBefore(es, n + 1, o, p.r, n);
      }
    case Verify(_, _) =>
      var t: nat :| LockedBefore(es, n, o, p.r, t);
      assert VerifiedBefore(es, n + 1, o, p.r, t, n);
    case Clear(_, _) =>
      var t: nat, q: nat :| VerifiedBefore(es, n, o, p.r, t, q);
      assert ClearedBefore(es, n + 1, o, p.r, t, q, n);
    case _ =>
  }

  lemma {:induction false} PhasesAreExplained(lease: Owner -> int, ws: seq<World>, es: seq<Event>, n: nat, o: Owner)
    requires Run(lease, ws, es) && n < |ws|
    ensures PhaseExplained(es, n, o, PhaseOf(ws[n], o))
  {
    if n > 0 {
      PhasesAreExplained(lease, ws, es, n - 1, o);
      assert Step(lease, ws[n - 1], es[n - 1], ws[n - 1 + 1]);
      if Acts(es[n - 1], o) {
        StepPhase(lease, ws[n - 1], es[n - 1], ws[n], o);
        ActExtends(es, n - 1, o, PhaseOf(ws[n - 1], o));
      } else {
        QuietExtends(es, n - 1, o, PhaseOf(ws[n - 1], o));
      }
    }
  }

  // ----- registrations -----

  /** Group `id` was registered for `version` at event `g`, by an instance that had passed its own checks
      at event `h`, and the registrations have not been cleared since. */
  ghost predicate RegisteredSince(es: seq<Event>, n: nat, version: string, id: GroupId, h: nat, g: nat) {
    && h < g < n <= |es|
    && es[h].Check? && es[g].Register?
    && RegisteredBefore(es, g + 1, es[g].owner, es[h].r, h, g)
    && Readiness(es[h].r.groups, true, es[h].r.desired, es[h].r.perLog, es[h].r.perStorage).Ready?
    && es[h].r.version == version && id in GroupIds(es[h].r.groups)
    && forall k :: g < k < n ==> !es[k].Clear?
  }

  ghost predicate RegisteredBySomeone(es: seq<Event>, n: nat, version: string, id: GroupId) {
    exists h: nat, g: nat :: RegisteredSince(es, n, version, id, h, g)
  }

  lemma {:induction false} PendingIsRegistered(lease: Owner -> int, ws: seq<World>, es: seq<Event>, n: nat,
                                               version: string, id: GroupId)
    requires Run(lease, ws, es) && n < |ws| && id in PendingFor(ws[n], version)
    ensures RegisteredBySomeone(es, n, version, id)
  {
    if n > 0 {
      var w, w', e := ws[n - 1], ws[n], es[n - 1];
      assert Step(lease, w, e, ws[n - 1 + 1]);
      if id in PendingFor(w, version) && !e.Clear? {
        PendingIsRegistered(lease, ws, es, n - 1, version, id);
        var h: nat, g: nat :| RegisteredSince(es, n - 1, version, id, h, g);
        assert RegisteredSince(es, n, version, id, h, g);
      } else {
        NewRegistration(lease, ws, es, n, version, id);
      }
    }
  }

  lemma NewRegistration(lease: Owner -> int, ws: seq<World>, es: seq<Event>, n: nat, version: string, id: GroupId)
    requires Run(lease, ws, es) && 0 < n < |ws| && id in PendingFor(ws[n], version)
    requires id !in PendingFor(ws[n - 1], version) || es[n - 1].Clear?
    ensures RegisteredBySomeone(es, n, version, id)
  {
    var w, e := ws[n - 1], es[n - 1];
    assert Step(lease, w, e, ws[n - 1 + 1]);
    assert e.Register?;
    var r := PhaseOf(w, e.owner).r;
    PhasesAreExplained(lease, ws, es, n - 1, e.owner);
    var h: nat :| CheckedBefore(es, n - 1, e.owner, r, h);
    assert Step(lease, ws[h], es[h], ws[h + 1]);
    assert RegisteredBefore(es, n, e.owner, r, h, n - 1);
    assert RegisteredSince(es, n, version, id, h, n - 1);
  }

  /** Upgrade safety. Every restart for an upgrade follows, in the same pass, a successful attempt to take the lock
      and a verification at which every reported process that still has to be upgraded was registered for the target
      version since the last clearing, by an instance that had passed its own checks before. */
  lemma KillIsJustified(lease: Owner -> int, ws: seq<World>, es: seq<Event>, k: nat)
    returns (r: Report, t: nat, q: nat, c: nat)
    requires Run(lease, ws, es) && k < |es| && es[k].Kill?
    ensures ClearedBefore(es, k, es[k].owner, r, t, q, c) && r.available
    ensures forall i :: 0 <= i < |r.processes| && NeedsUpgrade(r.processes[i], r.version) ==>
              RegisteredBySomeone(es, q, r.version, r.processes[i].instance.value)
  {
    var o := es[k].owner;
    assert Step(lease, ws[k], es[k], ws[k + 1]);
    PhasesAreExplained(lease, ws, es, k, o);
    r := PhaseOf(ws[k], o).r;
    t, q, c :| ClearedBefore(es, k, o, r, t, q, c);
    VerifyMeansRegistered(lease, ws, es, o, r, t, q);
  }

  lemma VerifyMeansRegistered(lease: Owner -> int, ws: seq<World>, es: seq<Event>, o: Owner, r: Report, t: nat, q: nat)
    requires Run(lease, ws, es) && q < |es| && es[q].Verify? && es[q].owner == o && LockedBefore(es, q, o, r, t)
    ensures r.available
    ensures forall i :: 0 <= i < |r.processes| && NeedsUpgrade(r.processes[i], r.version) ==>
              RegisteredBySomeone(es, q, r.version, r.processes[i].instance.value)
  {
    assert Step(lease, ws[q], es[q], ws[q + 1]);
    SameReport(lease, ws, es, o, r, t, q);
    var pending := PendingFor(ws[q], r.version);
    NobodyLeftOut(r.processes, pending, r.version);
    forall i | 0 <= i < |r.processes| && NeedsUpgrade(r.processes[i], r.version)
      ensures RegisteredBySomeone(es, q, r.version, r.processes[i].instance.value)
    {
      PendingIsRegistered(lease, ws, es, q, r.version, r.processes[i].instance.value);
    }
  }

  /** The events of a pass determine the report the instance works with. */
  lemma SameReport(lease: Owner -> int, ws: seq<World>, es: seq<Event>, o: Owner, r: Report, t: nat, q: nat)
    requires Run(lease, ws, es) && q < |ws| && LockedBefore(es, q, o, r, t)
    ensures PhaseOf(ws[q], o) == Locked(r)
  {
    var h: nat, g: nat :| RegisteredBefore(es, t, o, r, h, g);
    assert Step(lease, ws[h], es[h], ws[h + 1]);
    PhaseStays(lease, ws, es, h + 1, g, o);
    assert Step(lease, ws[g], es[g], ws[g + 1]);
    PhaseStays(lease, ws, es, g + 1, t, o);
    assert Step(lease, ws[t], es[t], ws[t + 1]);
    PhaseStays(lease, ws, es, t + 1, q, o);
  }

  lemma {:induction false} PhaseStays(lease: Owner -> int, ws: seq<World>, es: seq<Event>, a: nat, b: nat, o: Owner)
    requires Run(lease, ws, es) && a <= b < |ws| && forall k :: a <= k < b ==> !Acts(es[k], o)
    ensures PhaseOf(ws[b], o) == PhaseOf(ws[a], o)
    decreases b
  {
    if a < b {
      PhaseStays(lease, ws, es, a, b - 1, o);
      assert Step(lease, ws[b - 1], es[b - 1], ws[b - 1 + 1]);
    }
  }

  // ----- passes that finish in time exclude each other -----

  ghost function Stores(ws: seq<World>): (ss: seq<P.State>)
    ensures |ss| == |ws| && forall i :: 0 <= i < |ws| ==> ss[i] == ws[i].store
  {
    seq(|ws|, i requires 0 <= i < |ws| => ws[i].store)
  }

  ghost function LockEvents(es: seq<Event>): (ls: seq<P.Event>)
    ensures |ls| == |es| && forall i :: 0 <= i < |es| ==> ls[i] == LockEvent(es[i])
  {
    seq(|es|, i requires 0 <= i < |es| => LockEvent(es[i]))
  }

  /** Seen from the lock, a run of the upgrade protocol is a run of the lock protocol. */
  lemma LockView(lease: Owner -> int, ws: seq<World>, es: seq<Event>)
    requires Run(lease, ws, es)
    ensures P.Run(lease, Stores(ws), LockEvents(es))
  {
    forall i | 0 <= i < |es| ensures P.Step(lease, Stores(ws)[i], LockEvents(es)[i], Stores(ws)[i + 1]) {
      assert Step(lease, ws[i], es[i], ws[i + 1]);
    }
  }

  /** Instance `o` takes the lock at `t` and clears the registrations at `c`, in one pass, at most `late` after the end
      of its lease and without being put on the deny list. */
  ghost predicate Section(ws: seq<World>, es: seq<Event>, o: Owner, t: nat, q: nat, c: nat, late: int) {
    && |ws| == |es| + 1 && c < |es|
    && (exists r :: VerifiedBefore(es, c, o, r, t, q)) && es[c].Clear? && es[c].owner == o
    && ws[t + 1].store.lock.Lease? && es[c].now <= ws[t + 1].store.lock.end + late
    && forall k :: t < k <= c ==> o !in ws[k].store.denied
  }

  ghost predicate TimelySection(ws: seq<World>, es: seq<Event>, o: Owner, t: nat, q: nat, c: nat) {
    Section(ws, es, o, t, q, c, 0)
  }

  lemma NoTakeInside(lease: Owner -> int, ws: seq<World>, es: seq<Event>, a: Owner, t: nat, q: nat, c: nat, b: Owner,
                     j: nat)
    requires Run(lease, ws, es) && TimelySection(ws, es, a, t, q, c) && b != a
    requires t < j < c && es[j].TakeLock? && es[j].owner == b
    ensures !es[j].ok
  {
    LockView(lease, ws, es);
    var ss, ls := Stores(ws), LockEvents(es);
    assert P.Step(lease, ss[c], ls[c], ss[c + 1]);
    assert P.Step(lease, ss[j], ls[j], ss[j + 1]);
    P.ClockMonotone(lease, ss, ls, j + 1, c);
    forall k: nat | t < k <= j ensures !P.GivenUp(ss, ls, k, a) {
      InsideQuiet(es, a, t, q, c, k);
    }
    if es[j].ok {
      P.LeaseIsExclusive(lease, ss, ls, t, j);
    }
  }

  /** Between taking the lock and clearing, the only thing the instance does is to verify. */
  lemma InsideQuiet(es: seq<Event>, o: Owner, t: nat, q: nat, c: nat, k: nat)
    requires c < |es| && t < k < c && exists r :: VerifiedBefore(es, c, o, r, t, q)
    ensures Acts(es[k], o) ==> es[k].Verify?
  {
    var r :| VerifiedBefore(es, c, o, r, t, q);
  }

  /** The sections of two instances do not overlap. */
  lemma SectionsAreDisjoint(lease: Owner -> int, ws: seq<World>, es: seq<Event>,
                            a: Owner, t1: nat, q1: nat, c1: nat, b: Owner, t2: nat, q2: nat, c2: nat)
    requires Run(lease, ws, es) && a != b
    requires TimelySection(ws, es, a, t1, q1, c1) && TimelySection(ws, es, b, t2, q2, c2)
    ensures c1 < t2 || c2 < t1
  {
    SectionTake(es, a, t1, q1, c1);
    SectionTake(es, b, t2, q2, c2);
    if t1 < t2 < c1 {
      NoTakeInside(lease, ws, es, a, t1, q1, c1, b, t2);
    }
    if t2 < t1 < c2 {
      NoTakeInside(lease, ws, es, b, t2, q2, c2, a, t1);
    }
  }

  lemma SectionTake(es: seq<Event>, o: Owner, t: nat, q: nat, c: nat)
    requires c < |es| && exists r :: VerifiedBefore(es, c, o, r, t, q)
    ensures t < q < c && es[t].TakeLock? && es[t].ok && es[t].owner == o
  {
  }

  /** No registration serves two restarts: what the later instance relies on was registered after the
      earlier one cleared, and what the earlier one relied on was registered before. */
  lemma RegistrationsAreNotReused(lease: Owner -> int, ws: seq<World>, es: seq<Event>,
                                  a: Owner, t1: nat, q1: nat, c1: nat, b: Owner, t2: nat, q2: nat, c2: nat,
                                  version: string, id: GroupId, h1: nat, g1: nat, h2: nat, g2: nat)
    requires Run(lease, ws, es) && a != b
    requires TimelySection(ws, es, a, t1, q1, c1) && TimelySection(ws, es, b, t2, q2, c2)
    requires RegisteredSince(es, q1, version, id, h1, g1) && RegisteredSince(es, q2, version, id, h2, g2)
    ensures g1 < c1 < g2 || g2 < c2 < g1
  {
    SectionsAreDisjoint(lease, ws, es, a, t1, q1, c1, b, t2, q2, c2);
    SectionTake(es, a, t1, q1, c1);
    SectionTake(es, b, t2, q2, c2);
    if c1 < t2 {
      NotAcrossClear(es, c1, q2, version, id, h2, g2);
    } else {
      NotAcrossClear(es, c2, q1, version, id, h1, g1);
    }
  }

  /** What counts at `n` was registered after every earlier clearing. */
  lemma NotAcrossClear(es: seq<Event>, c: nat, n: nat, version: string, id: GroupId, h: nat, g: nat)
    requires RegisteredSince(es, n, version, id, h, g) && c < n && es[c].Clear?
    ensures c < g
  {
  }
}
