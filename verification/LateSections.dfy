/** How late a section of the upgrade protocol may end. The operator does not check its lease again after taking the
    lock, so sections can outlast it: they exclude each other exactly if none does. */
module LateSections {
  import opened Basics
  import L = LockClient
  import P = LockProtocol
  import opened B = BounceProcesses
  import opened UpgradeProtocol

  /** In every run, sections of two instances that end at most `late` after their leases do not overlap. */
  ghost predicate Exclusive(late: int) {
    forall lease: Owner -> int, ws: seq<World>, es: seq<Event>, a: Owner, t1: nat, q1: nat, c1: nat,
      b: Owner, t2: nat, q2: nat, c2: nat ::
      Run(lease, ws, es) && a != b && Section(ws, es, a, t1, q1, c1, late) && Section(ws, es, b, t2, q2, c2, late) ==>
        c1 < t2 || c2 < t1
  }

  /** In every run, no registration serves two such sections. */
  ghost predicate UsedOnce(late: int) {
    forall lease: Owner -> int, ws: seq<World>, es: seq<Event>, a: Owner, t1: nat, q1: nat, c1: nat,
      b: Owner, t2: nat, q2: nat, c2: nat, version: string, id: GroupId, h: nat, g: nat ::
      Run(lease, ws, es) && a != b && Section(ws, es, a, t1, q1, c1, late) && Section(ws, es, b, t2, q2, c2, late) ==>
        !(RegisteredSince(es, q1, version, id, h, g) && RegisteredSince(es, q2, version, id, h, g))
  }

  // ----- two instances, one of which is late -----

  const GROUP_A: Group :=
    Group("a-1", STORAGE, false, false, false, false, false, true, Some(["10.0.0.1"]))
  const GROUP_B: Group :=
    Group("b-1", STORAGE, false, false, false, false, false, true, Some(["10.0.0.2"]))

  const PROCESSES: seq<Process> :=
    [Process(STORAGE, Some("a-1"), "7.1", "10.0.0.1"), Process(STORAGE, Some("b-1"), "7.1", "10.0.0.2")]

  /** Each instance looks after one group; both see both processes. */
  const REPORT_A: Report := Report("7.3", [GROUP_A], map[], 1, 1, PROCESSES, true)
  const REPORT_B: Report := Report("7.3", [GROUP_B], map[], 1, 1, PROCESSES, true)

  const PENDING_A: map<string, set<GroupId>> := L.Registered(map[], "7.3", GroupIds([GROUP_A]))
  const PENDING_BOTH: map<string, set<GroupId>> := L.Registered(PENDING_A, "7.3", GroupIds([GROUP_B]))

  /** Instance "a" takes the lock at time 0 and clears the registrations one unit after its lease of length `d`; by then
      instance "b" has taken the lock and verified the same registrations. */
  function LateEvent(d: nat, k: nat): Event {
    if k == 0 then Check("a", 0, REPORT_A)
    else if k == 1 then Register("a", 0)
    else if k == 2 then Check("b", 0, REPORT_B)
    else if k == 3 then Register("b", 0)
    else if k == 4 then TakeLock("a", 0, true)
    else if k == 5 then Verify("a", 0)
    else if k == 6 then TakeLock("b", d + 1, true)
    else if k == 7 then Verify("b", d + 1)
    else if k == 8 then Clear("b", d + 1)
    else Clear("a", d + 1)
  }

  function LockAt(d: nat, k: nat): L.LockValue {
    if k <= 4 then L.Absent
    else if k <= 6 then L.Lease("a", 0, d)
    else L.Taken(L.Lease("a", 0, d), {}, "b", d, d + 1)
  }

  function PendingAt(k: nat): map<string, set<GroupId>> {
    if k <= 1 then map[] else if k <= 3 then PENDING_A else if k <= 8 then PENDING_BOTH else map[]
  }

  function PhaseA(k: nat): Phase {
    if k <= 1 then Checked(REPORT_A)
    else if k <= 4 then Registered(REPORT_A)
    else if k == 5 then Locked(REPORT_A)
    else if k <= 9 then Verified(REPORT_A)
    else Cleared(REPORT_A)
  }

  function PhaseB(k: nat): Phase {
    if k <= 3 then Checked(REPORT_B)
    else if k <= 6 then Registered(REPORT_B)
    else if k == 7 then Locked(REPORT_B)
    else if k == 8 then Verified(REPORT_B)
    else Cleared(REPORT_B)
  }

  function LateWorld(d: nat, k: nat): World {
    World(P.State(LockAt(d, k), {}, if k <= 6 then 0 else d + 1), PendingAt(k),
          if k == 0 then map[] else if k <= 2 then map["a" := PhaseA(k)] else map["a" := PhaseA(k), "b" := PhaseB(k)])
  }

  ghost function LateEvents(d: nat): (es: seq<Event>)
    ensures |es| == 10 && forall k :: 0 <= k < 10 ==> es[k] == LateEvent(d, k)
  {
    seq(10, k requires 0 <= k < 10 => LateEvent(d, k))
  }

  ghost function LateWorlds(d: nat): (ws: seq<World>)
    ensures |ws| == 11 && forall k :: 0 <= k < 11 ==> ws[k] == LateWorld(d, k)
  {
    seq(11, k requires 0 <= k < 11 => LateWorld(d, k))
  }

  lemma ReportsPass()
    ensures PassesOwnChecks(REPORT_A) && PassesOwnChecks(REPORT_B)
  {
    ReadyAlone(GROUP_A);
    ReadyAlone(GROUP_B);
  }

  lemma ReadyAlone(g: Group)
    requires g.addresses.Some? && !g.staleConfigMap
    ensures Readiness([g], true, map[], 1, 1).Ready?
  {
    var gs := [g];
    assert gs[..|gs| - 1] == [] && gs[|gs| - 1] == g;
    assert WithoutAddress(gs, true) == [];
    assert !AnyStale(gs, true);
    assert ExpectedProcesses(gs, true, map[], 1, 1) == 0;
  }

  lemma BothRegistered()
    ensures forall id :: id in PENDING_A["7.3"] <==> id == "a-1"
    ensures NotReady(PROCESSES, PENDING_BOTH["7.3"], "7.3") == []
  {
    assert GroupIds([GROUP_A])[0] == "a-1" && GroupIds([GROUP_B])[0] == "b-1";
    NobodyLeftOut(PROCESSES, PENDING_BOTH["7.3"], "7.3");
  }

  ghost predicate GoodStep(d: nat, k: nat) {
    Step(_ => d, LateWorld(d, k), LateEvent(d, k), LateWorld(d, k + 1))
  }

  lemma CheckingSteps(d: nat)
    ensures GoodStep(d, 0) && GoodStep(d, 2)
  {
    ReportsPass();
  }

  lemma RegisteringSteps(d: nat)
    ensures GoodStep(d, 1) && GoodStep(d, 3)
  {
  }

  lemma TakingSteps(d: nat)
    ensures GoodStep(d, 4) && GoodStep(d, 6)
  {
  }

  lemma VerifyingSteps(d: nat)
    ensures GoodStep(d, 5) && GoodStep(d, 7)
  {
    BothRegistered();
  }

  lemma ClearingSteps(d: nat)
    ensures GoodStep(d, 8) && GoodStep(d, 9)
  {
  }

  lemma AllSteps(d: nat, k: nat)
    requires k < 10
    ensures GoodStep(d, k)
  {
    CheckingSteps(d);
    RegisteringSteps(d);
    TakingSteps(d);
    VerifyingSteps(d);
    ClearingSteps(d);
    assert k in {0, 1, 2, 3, 4, 5, 6, 7, 8, 9};
  }

  lemma LateRun(d: nat)
    ensures Run(_ => d, LateWorlds(d), LateEvents(d))
  {
    var ws, es := LateWorlds(d), LateEvents(d);
    forall k | 0 <= k < |es| ensures Step(_ => d, ws[k], es[k], ws[k + 1]) {
      AllSteps(d, k);
    }
  }

  lemma LateSectionA(d: nat)
    ensures Section(LateWorlds(d), LateEvents(d), "a", 4, 5, 9, 1)
    ensures !Section(LateWorlds(d), LateEvents(d), "a", 4, 5, 9, 0)
  {
    var es := LateEvents(d);
    assert RegisteredBefore(es, 4, "a", REPORT_A, 0, 1);
    assert LockedBefore(es, 5, "a", REPORT_A, 4);
    assert VerifiedBefore(es, 9, "a", REPORT_A, 4, 5);
  }

  lemma TimelySectionB(d: nat)
    ensures Section(LateWorlds(d), LateEvents(d), "b", 6, 7, 8, 0)
  {
    var es := LateEvents(d);
    assert RegisteredBefore(es, 6, "b", REPORT_B, 2, 3);
    assert LockedBefore(es, 7, "b", REPORT_B, 6);
    assert VerifiedBefore(es, 8, "b", REPORT_B, 6, 7);
  }

  lemma SharedRegistration(d: nat, n: nat)
    requires 2 <= n <= 8
    ensures RegisteredSince(LateEvents(d), n, "7.3", "a-1", 0, 1)
  {
    var es := LateEvents(d);
    ReportsPass();
    assert RegisteredBefore(es, 2, "a", REPORT_A, 0, 1);
    assert GroupIds(REPORT_A.groups)[0] == "a-1";
  }

  lemma SectionIsLater(ws: seq<World>, es: seq<Event>, o: Owner, t: nat, q: nat, c: nat, late: int, later: int)
    requires Section(ws, es, o, t, q, c, late) && late <= later
    ensures Section(ws, es, o, t, q, c, later)
  {
  }

  /** One unit of time after the lease is enough for two sections to overlap, whatever the length of the lease. */
  lemma LateSectionsOverlap(d: nat)
    ensures Run(_ => d, LateWorlds(d), LateEvents(d))
    ensures Section(LateWorlds(d), LateEvents(d), "a", 4, 5, 9, 1)
    ensures TimelySection(LateWorlds(d), LateEvents(d), "b", 6, 7, 8)
    ensures RegisteredSince(LateEvents(d), 5, "7.3", "a-1", 0, 1)
    ensures RegisteredSince(LateEvents(d), 7, "7.3", "a-1", 0, 1)
  {
    LateRun(d);
    LateSectionA(d);
    TimelySectionB(d);
    SharedRegistration(d, 5);
    SharedRegistration(d, 7);
  }

  /** Sections exclude each other, and use registrations once, exactly if none ends after its lease. */
  lemma LatenessTheorem(late: int)
    ensures Exclusive(late) <==> late <= 0
    ensures UsedOnce(late) <==> late <= 0
  {
    if late <= 0 {
      TimelyIsExclusive(late);
      TimelyUsesOnce(late);
    } else {
      LateSectionsOverlap(0);
      OverlapRefutes(_ => 0, LateWorlds(0), LateEvents(0), "a", 4, 5, 9, "b", 6, 7, 8, "7.3", "a-1", 0, 1, late);
    }
  }

  lemma OverlapRefutes(lease: Owner -> int, ws: seq<World>, es: seq<Event>, a: Owner, t1: nat, q1: nat, c1: nat,
                       b: Owner, t2: nat, q2: nat, c2: nat, version: string, id: GroupId, h: nat, g: nat, late: int)
    requires Run(lease, ws, es) && a != b && t2 <= c1 && t1 <= c2 && late >= 1
    requires Section(ws, es, a, t1, q1, c1, 1) && Section(ws, es, b, t2, q2, c2, 0)
    requires RegisteredSince(es, q1, version, id, h, g) && RegisteredSince(es, q2, version, id, h, g)
    ensures !Exclusive(late) && !UsedOnce(late)
  {
    SectionIsLater(ws, es, a, t1, q1, c1, 1, late);
    SectionIsLater(ws, es, b, t2, q2, c2, 0, late);
  }

  lemma TimelyIsExclusive(late: int)
    requires late <= 0
    ensures Exclusive(late)
  {
    forall lease: Owner -> int, ws: seq<World>, es: seq<Event>, a: Owner, t1: nat, q1: nat, c1: nat,
      b: Owner, t2: nat, q2: nat, c2: nat
      | Run(lease, ws, es) && a != b && Section(ws, es, a, t1, q1, c1, late) && Section(ws, es, b, t2, q2, c2, late)
      ensures c1 < t2 || c2 < t1
    {
      SectionIsLater(ws, es, a, t1, q1, c1, late, 0);
      SectionIsLater(ws, es, b, t2, q2, c2, late, 0);
      SectionsAreDisjoint(lease, ws, es, a, t1, q1, c1, b, t2, q2, c2);
    }
  }

  lemma TimelyUsesOnce(late: int)
    requires late <= 0
    ensures UsedOnce(late)
  {
    forall lease: Owner -> int, ws: seq<World>, es: seq<Event>, a: Owner, t1: nat, q1: nat, c1: nat,
      b: Owner, t2: nat, q2: nat, c2: nat, version: string, id: GroupId, h: nat, g: nat
      | Run(lease, ws, es) && a != b && Section(ws, es, a, t1, q1, c1, late) && Section(ws, es, b, t2, q2, c2, late)
      ensures !(RegisteredSince(es, q1, version, id, h, g) && RegisteredSince(es, q2, version, id, h, g))
    {
      SectionIsLater(ws, es, a, t1, q1, c1, late, 0);
      SectionIsLater(ws, es, b, t2, q2, c2, late, 0);
      if RegisteredSince(es, q1, version, id, h, g) && RegisteredSince(es, q2, version, id, h, g) {
        RegistrationsAreNotReused(lease, ws, es, a, t1, q1, c1, b, t2, q2, c2, version, id, h, g, h, g);
      }
    }
  }
}
