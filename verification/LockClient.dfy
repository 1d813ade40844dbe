/** The lock, deny list and pending upgrades that operator instances share through the database.
    Every method is one transaction and runs at one point in time. */
module LockClient {
  import opened Basics

  type Owner = string
  type Version = string

  /** The value under the lock key: nothing, a lease, or bytes that are not a lease. */
  datatype LockValue = Absent | Lease(owner: Owner, start: int, end: int) | Garbage

  datatype DenyEntry = DenyEntry(id: Owner, allow: bool)

  // ----- what the transactions do to the stored values -----

  /** `updateLock`: a start of zero means "now". */
  function NewLease(owner: Owner, start: int, duration: int, now: int): LockValue {
    Lease(owner, if start == 0 then now else start, now + duration)
  }

  predicate CanTake(lock: LockValue, denied: set<Owner>, owner: Owner, now: int) {
    match lock
    case Absent => true
    case Garbage => false
    case Lease(holder, _, end) => owner !in denied && (end < now || holder in denied || holder == owner)
  }

  function Taken(lock: LockValue, denied: set<Owner>, owner: Owner, duration: int, now: int): LockValue {
    if !CanTake(lock, denied, owner, now) then lock
    else NewLease(owner, if lock.Lease? then lock.start else 0, duration, now)
  }

  predicate CanRelease(lock: LockValue, owner: Owner, now: int) {
    lock.Lease? && lock.owner == owner && lock.start <= now <= lock.end
  }

  function Released(lock: LockValue, owner: Owner, now: int): LockValue {
    if CanRelease(lock, owner, now) then Absent else lock
  }

  ghost predicate Listed(entries: seq<DenyEntry>, id: Owner, allow: bool) {
    exists i :: 0 <= i < |entries| && entries[i] == DenyEntry(id, allow)
  }

  /** The deny list after an update. Entries are compared with the list as it was before, so an id
      that is listed both ways changes sides. */
  ghost function DenyListAfter(denied: set<Owner>, entries: seq<DenyEntry>): set<Owner> {
    (set id | id in denied && !Listed(entries, id, true))
    + (set i | 0 <= i < |entries| && !entries[i].allow && entries[i].id !in denied :: entries[i].id)
  }

  /** The deny list matches the entries, for every id it started with, exactly if no id is listed both ways. */
  lemma DenyListMatches(entries: seq<DenyEntry>)
    ensures (forall id :: !(Listed(entries, id, true) && Listed(entries, id, false))) <==>
            (forall denied, id ::
               && (Listed(entries, id, false) ==> id in DenyListAfter(denied, entries))
               && (Listed(entries, id, true) ==> id !in DenyListAfter(denied, entries)))
  {
    if id :| Listed(entries, id, true) && Listed(entries, id, false) {
      assert id !in DenyListAfter({id}, entries);
    } else {
      forall denied: set<Owner>, id
        ensures Listed(entries, id, false) ==> id in DenyListAfter(denied, entries)
        ensures Listed(entries, id, true) ==> id !in DenyListAfter(denied, entries)
      {
        if Listed(entries, id, false) {
          var i :| 0 <= i < |entries| && entries[i] == DenyEntry(id, false);
          assert id in DenyListAfter(denied, entries);
        }
      }
    }
  }

  /** An id that is listed both ways changes sides. */
  lemma DenyListBoth(denied: set<Owner>, entries: seq<DenyEntry>, id: Owner)
    requires Listed(entries, id, true) && Listed(entries, id, false)
    ensures id in DenyListAfter(denied, entries) <==> id !in denied
  {
    var i :| 0 <= i < |entries| && entries[i] == DenyEntry(id, false);
  }

  lemma DenyListUnlisted(denied: set<Owner>, entries: seq<DenyEntry>, id: Owner)
    requires !Listed(entries, id, true) && !Listed(entries, id, false)
    ensures id in DenyListAfter(denied, entries) <==> id in denied
  {
    assert forall i :: 0 <= i < |entries| && !entries[i].allow ==> entries[i] == DenyEntry(entries[i].id, false);
  }

  // ----- the shared database and its clients -----

  class Database {
    var lock: LockValue
    var denied: set<Owner>
    var pending: map<Version, set<GroupId>>

    constructor ()
      ensures lock == Absent && denied == {} && pending == map[]
    {
      lock, denied, pending := Absent, {}, map[];
    }
  }

  class Client {
    const database: Database
    const owner: Owner
    const duration: int
    const disabled: bool

    constructor (database: Database, owner: Owner, duration: int, disabled: bool)
      ensures this.database == database && this.owner == owner && this.duration == duration && this.disabled == disabled
    {
      this.database, this.owner, this.duration, this.disabled := database, owner, duration, disabled;
    }

    method UpdateLock(start: int, now: int)
      modifies database`lock
      ensures database.lock == NewLease(owner, start, duration, now)
    {
      var start' := start;
      if start' == 0 {
        start' := now;
      }
      database.lock := Lease(owner, start', now + duration);
    }

    method TakeLock(now: int) returns (ok: bool)
      modifies database`lock
      ensures ok <==> disabled || CanTake(old(database.lock), database.denied, owner, now)
      ensures database.lock == if disabled then old(database.lock)
              else Taken(old(database.lock), database.denied, owner, duration, now)
    {
      if disabled {
        return true;
      }
      if database.lock.Absent? {
        UpdateLock(0, now);
        return true;
      }
      if database.lock.Garbage? {
        return false;
      }
      if owner in database.denied {
        return false;
      }
      if database.lock.end < now || database.lock.owner in database.denied {
        UpdateLock(database.lock.start, now);
        return true;
      }
      if database.lock.owner == owner {
        UpdateLock(database.lock.start, now);
        return true;
      }
      return false;
    }

    /** False is an error: the stored value is not a lease. */
    method ReleaseLock(now: int) returns (ok: bool)
      modifies database`lock
      ensures ok <==> disabled || !old(database.lock).Garbage?
      ensures database.lock == if disabled then old(database.lock) else Released(old(database.lock), owner, now)
    {
      if disabled || database.lock.Absent? {
        return true;
      }
      if database.lock.Garbage? {
        return false;
      }
      if database.lock.owner != owner {
        return true;
      }
      if database.lock.start > now {
        return true;
      }
      if database.lock.end < now {
        return true;
      }
      database.lock := Absent;
      return true;
    }

    method UpdateDenyList(entries: seq<DenyEntry>)
      modifies database`denied
      ensures database.denied == DenyListAfter(old(database.denied), entries)
    {
      var before := database.denied;
      for i := 0 to |entries|
        invariant database.denied == DenyListAfter(before, entries[..i])
      {
        if entries[i].allow && entries[i].id in before {
          database.denied := database.denied - {entries[i].id};
        } else if !entries[i].allow && entries[i].id !in before {
          database.denied := database.denied + {entries[i].id};
        }
        DenyListStep(before, entries, i);
      }
      assert entries[..|entries|] == entries;
    }

    method AddPendingUpgrades(version: Version, ids: seq<GroupId>)
      modifies database`pending
      ensures database.pending == Registered(old(database.pending), version, ids)
    {
      if |ids| == 0 {
        return;
      }
      var known := if version in database.pending then database.pending[version] else {};
      for i := 0 to |ids|
        invariant database.pending == if i == 0 then old(database.pending)
                  else old(database.pending)[version := known + set h | 0 <= h < i :: ids[h]]
      {
        var now := if version in database.pending then database.pending[version] else {};
        database.pending := database.pending[version := now + {ids[i]}];
        assert now == known + set h | 0 <= h < i :: ids[h];
        assert now + {ids[i]} == known + set h | 0 <= h < i + 1 :: ids[h];
      }
    }

    method GetPendingUpgrades(version: Version) returns (ids: set<GroupId>)
      ensures ids == if version in database.pending then database.pending[version] else {}
    {
      ids := if version in database.pending then database.pending[version] else {};
    }

    method ClearPendingUpgrades()
      modifies database`pending
      ensures database.pending == map[]
    {
      database.pending := map[];
    }
  }

  /** The pending upgrades after registering `ids`; registering nothing writes no key. */
  function Registered(pending: map<Version, set<GroupId>>, version: Version,
                      ids: seq<GroupId>): map<Version, set<GroupId>> {
    if |ids| == 0 then pending
    else pending[version := (if version in pending then pending[version] else {}) + set h | 0 <= h < |ids| :: ids[h]]
  }

  /** Exactly the given ids are added, for this version only. */
  lemma RegisteredMember(pending: map<Version, set<GroupId>>, version: Version, ids: seq<GroupId>, v: Version,
                         id: GroupId)
    ensures var after := Registered(pending, version, ids);
            (v in after && id in after[v]) <==> (v in pending && id in pending[v]) || (v == version && id in ids)
  {
    if id in ids {
      var h :| 0 <= h < |ids| && ids[h] == id;
    }
  }

  lemma DenyListStep(before: set<Owner>, entries: seq<DenyEntry>, i: nat)
    requires i < |entries|
    ensures var e := entries[i];
            DenyListAfter(before, entries[..i + 1]) ==
              if e.allow && e.id in before then DenyListAfter(before, entries[..i]) - {e.id}
              else if !e.allow && e.id !in before then DenyListAfter(before, entries[..i]) + {e.id}
              else DenyListAfter(before, entries[..i])
  {
    var p, q := entries[..i], entries[..i + 1];
    assert q[i] == entries[i] && forall h :: 0 <= h < i ==> q[h] == p[h];
    forall id, allow ensures Listed(q, id, allow) <==> Listed(p, id, allow) || entries[i] == DenyEntry(id, allow) {
      if h :| 0 <= h < |p| && p[h] == DenyEntry(id, allow) {
        assert q[h] == DenyEntry(id, allow);
      }
      if h :| 0 <= h < |q| && q[h] == DenyEntry(id, allow) {
        assert h < i ==> p[h] == DenyEntry(id, allow);
      }
    }
  }
}
