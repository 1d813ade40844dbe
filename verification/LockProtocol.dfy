/** Operator instances using the lock, as a transition system. Every event is one transaction of the
    lock client at a time of a shared clock; `lease` gives each owner's fixed lock duration. */
module LockProtocol {
  import opened LockClient

  datatype State = State(lock: LockValue, denied: set<Owner>, clock: int)

  datatype Event =
    | Take(owner: Owner, now: int, ok: bool)
    | Release(owner: Owner, now: int)
    | Deny(entries: seq<DenyEntry>, now: int)
    | Tick(now: int)

  ghost predicate Step(lease: Owner -> int, s: State, e: Event, s': State) {
    && s.clock <= e.now == s'.clock
    && match e
       case Take(o, now, ok) =>
         && ok == CanTake(s.lock, s.denied, o, now)
         && s' == s.(lock := Taken(s.lock, s.denied, o, lease(o), now), clock := now)
       case Release(o, now) => s' == s.(lock := Released(s.lock, o, now), clock := now)
       case Deny(entries, now) => s' == s.(denied := DenyListAfter(s.denied, entries), clock := now)
       case Tick(now) => s' == s.(clock := now)
  }

  ghost predicate Run(lease: Owner -> int, ss: seq<State>, es: seq<Event>) {
    && |ss| == |es| + 1
    && forall i :: 0 <= i < |es| ==> Step(lease, ss[i], es[i], ss[i + 1])
  }

  /** No lease starts in the future. */
  ghost predicate Timely(s: State) {
    s.lock.Lease? ==> s.lock.start <= s.clock
  }

  lemma {:induction false} RunIsTimely(lease: Owner -> int, ss: seq<State>, es: seq<Event>, n: nat)
    requires Run(lease, ss, es) && n < |ss| && Timely(ss[0])
    ensures Timely(ss[n])
  {
    if n > 0 {
      RunIsTimely(lease, ss, es, n - 1);
      assert Step(lease, ss[n - 1], es[n - 1], ss[n - 1 + 1]);
    }
  }

  lemma {:induction false} ClockMonotone(lease: Owner -> int, ss: seq<State>, es: seq<Event>, m: nat, n: nat)
    requires Run(lease, ss, es) && m <= n < |ss|
    ensures ss[m].clock <= ss[n].clock
    decreases n
  {
    if m < n {
      ClockMonotone(lease, ss, es, m, n - 1);
      assert Step(lease, ss[n - 1], es[n - 1], ss[n - 1 + 1]);
    }
  }

  /** At event `k` owner `a` gives the lock back, or loses it to another owner while being denied. */
  ghost predicate GivenUp(ss: seq<State>, es: seq<Event>, k: nat, a: Owner)
    requires |ss| == |es| + 1 && k < |es|
  {
    || (es[k].Release? && es[k].owner == a && ss[k].lock.Lease? && ss[k].lock.owner == a && ss[k + 1].lock == Absent)
    || (es[k].Take? && es[k].ok && es[k].owner != a && a in ss[k].denied)
  }

  /** Until its lease ends, the owner holds the lock unless it was given up. */
  lemma {:induction false} HoldsUntilGivenUp(lease: Owner -> int, ss: seq<State>, es: seq<Event>, i: nat, n: nat)
    requires Run(lease, ss, es) && i < n < |ss|
    requires es[i].Take? && es[i].ok
    requires ss[n].clock <= es[i].now + lease(es[i].owner)
    requires forall k :: i < k < n ==> !GivenUp(ss, es, k, es[i].owner)
    ensures ss[n].lock.Lease? && ss[n].lock.owner == es[i].owner && ss[n].lock.end >= es[i].now + lease(es[i].owner)
    decreases n
  {
    var a := es[i].owner;
    assert Step(lease, ss[n - 1], es[n - 1], ss[n - 1 + 1]);
    if n > i + 1 {
      HoldsUntilGivenUp(lease, ss, es, i, n - 1);
      assert !GivenUp(ss, es, n - 1, a);
      ClockMonotone(lease, ss, es, i + 1, n - 1);
      assert Step(lease, ss[i], es[i], ss[i + 1]);
    }
  }

  /** Lease exclusivity. After `a` takes or extends the lock, nobody else takes it up to the end of
      the lease, unless `a` gave it up in between. */
  lemma LeaseIsExclusive(lease: Owner -> int, ss: seq<State>, es: seq<Event>, i: nat, j: nat)
    requires Run(lease, ss, es) && i < j < |es|
    requires es[i].Take? && es[i].ok && es[j].Take? && es[j].ok && es[j].owner != es[i].owner
    requires es[j].now <= ss[i + 1].lock.end
    ensures exists k :: i < k <= j && GivenUp(ss, es, k, es[i].owner)
  {
    assert Step(lease, ss[i], es[i], ss[i + 1]);
    assert Step(lease, ss[j], es[j], ss[j + 1]);
    if forall k :: i < k < j ==> !GivenUp(ss, es, k, es[i].owner) {
      HoldsUntilGivenUp(lease, ss, es, i, j);
      assert GivenUp(ss, es, j, es[i].owner);
    }
  }

  /** A release by the holder of a live lease always frees the lock; any other release changes nothing. */
  lemma ReleaseFreesExactlyOwnLiveLease(lease: Owner -> int, s: State, o: Owner, now: int, s': State)
    requires Timely(s) && Step(lease, s, Release(o, now), s')
    ensures s'.denied == s.denied
    ensures if s.lock.Lease? && s.lock.owner == o && now <= s.lock.end then s'.lock == Absent else s'.lock == s.lock
  {
  }

  /** An owner that is not denied fails after the end of a stored lease only if somebody took the lock meanwhile. */
  lemma {:induction false} ExpiredLeaseDoesNotBlock(lease: Owner -> int, ss: seq<State>, es: seq<Event>, i: nat, j: nat)
    requires Run(lease, ss, es) && i <= j < |es| && !ss[i].lock.Garbage?
    requires ss[i].lock.Lease? ==> ss[i].lock.end < es[j].now || ss[i].lock.owner in ss[j].denied
    requires es[j].Take? && !es[j].ok && es[j].owner !in ss[j].denied
    ensures exists k :: i <= k < j && es[k].Take? && es[k].ok
  {
    assert Step(lease, ss[j], es[j], ss[j + 1]);
    if forall k :: i <= k < j ==> !(es[k].Take? && es[k].ok) {
      UntakenLock(lease, ss, es, i, j);
    }
  }

  lemma {:induction false} UntakenLock(lease: Owner -> int, ss: seq<State>, es: seq<Event>, i: nat, n: nat)
    requires Run(lease, ss, es) && i <= n < |ss|
    requires forall k :: i <= k < n ==> !(es[k].Take? && es[k].ok)
    ensures ss[n].lock == ss[i].lock || ss[n].lock == Absent
    decreases n
  {
    if i < n {
      UntakenLock(lease, ss, es, i, n - 1);
      assert Step(lease, ss[n - 1], es[n - 1], ss[n - 1 + 1]);
    }
  }

  // ----- what the deny list prevents -----

  /** An owner on the deny list takes the lock only if nothing is stored. */
  lemma DeniedOwnersWait(lease: Owner -> int, ss: seq<State>, es: seq<Event>, j: nat)
    requires Run(lease, ss, es) && j < |es| && es[j].Take? && es[j].ok && es[j].owner in ss[j].denied
    ensures ss[j].lock == Absent
  {
    assert Step(lease, ss[j], es[j], ss[j + 1]);
  }

  /** While an owner is on the deny list and something is stored, it gets no lease and its own lease gets no later
      end. */
  lemma {:induction false} DeniedLeaseStays(lease: Owner -> int, ss: seq<State>, es: seq<Event>, i: nat, j: nat,
                                            a: Owner)
    requires Run(lease, ss, es) && i <= j < |ss|
    requires forall k :: i <= k < j ==> a in ss[k].denied && ss[k].lock != Absent
    ensures ss[j].lock.Lease? && ss[j].lock.owner == a ==> ss[j].lock == ss[i].lock
    decreases j
  {
    if i < j {
      DeniedLeaseStays(lease, ss, es, i, j - 1, a);
      assert Step(lease, ss[j - 1], es[j - 1], ss[j - 1 + 1]);
    }
  }

  // ----- what a lease says -----

  /** Taking the lock writes a lease of the new owner from now on, and failing changes nothing. */
  lemma TakeWritesLease(lease: Owner -> int, ss: seq<State>, es: seq<Event>, j: nat)
    requires Run(lease, ss, es) && j < |es| && es[j].Take?
    ensures es[j].ok ==> && ss[j + 1].lock.Lease? && ss[j + 1].lock.owner == es[j].owner
                         && ss[j + 1].lock.end == es[j].now + lease(es[j].owner)
    ensures !es[j].ok ==> ss[j + 1].lock == ss[j].lock
  {
    assert Step(lease, ss[j], es[j], ss[j + 1]);
  }

  /** An owner that is not on the deny list can always extend its own lease. */
  lemma HolderExtends(lease: Owner -> int, ss: seq<State>, es: seq<Event>, j: nat)
    requires Run(lease, ss, es) && j < |es| && es[j].Take? && es[j].owner !in ss[j].denied
    requires ss[j].lock.Lease? && ss[j].lock.owner == es[j].owner
    ensures es[j].ok
  {
    assert Step(lease, ss[j], es[j], ss[j + 1]);
  }

  /** As long as something is stored, leases keep the start of the first one, also when another owner takes over. */
  lemma {:induction false} StartIsKept(lease: Owner -> int, ss: seq<State>, es: seq<Event>, i: nat, j: nat)
    requires Run(lease, ss, es) && i <= j < |ss| && ss[i].lock.Lease? && ss[i].lock.start != 0
    requires forall k :: i <= k <= j ==> ss[k].lock != Absent
    ensures ss[j].lock.Lease? && ss[j].lock.start == ss[i].lock.start
    decreases j
  {
    if i < j {
      StartIsKept(lease, ss, es, i, j - 1);
      assert Step(lease, ss[j - 1], es[j - 1], ss[j - 1 + 1]);
    }
  }

  /** On a free lock everybody succeeds, and the lease starts at that time. */
  lemma FreeLockIsTaken(lease: Owner -> int, ss: seq<State>, es: seq<Event>, j: nat)
    requires Run(lease, ss, es) && j < |es| && es[j].Take? && ss[j].lock == Absent
    ensures es[j].ok && ss[j + 1].lock.Lease? && ss[j + 1].lock.start == es[j].now
  {
    assert Step(lease, ss[j], es[j], ss[j + 1]);
  }

  /** A value that is no lease blocks the lock for good. */
  lemma {:induction false} GarbageStays(lease: Owner -> int, ss: seq<State>, es: seq<Event>, i: nat, j: nat)
    requires Run(lease, ss, es) && i <= j < |ss| && ss[i].lock.Garbage?
    ensures ss[j].lock.Garbage?
    decreases j
  {
    if i < j {
      GarbageStays(lease, ss, es, i, j - 1);
      assert Step(lease, ss[j - 1], es[j - 1], ss[j - 1 + 1]);
    }
  }
}
