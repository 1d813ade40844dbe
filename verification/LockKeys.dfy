/** How the lock, the deny list and the pending upgrades share the key space of the database: each has keys with its own
    prefix, and what a range read or clear of a prefix touches is what `LockClient` says. */
module LockKeys {
  import opened Basics
  import L = LockClient

  type Data = map<string, string>

  function LockKey(prefix: string): string {
    prefix + "/global"
  }

  function UpgradesPrefix(prefix: string): string {
    prefix + "/upgrades/"
  }

  function VersionPrefix(prefix: string, version: L.Version): string {
    UpgradesPrefix(prefix) + version + "/"
  }

  function UpgradeKey(prefix: string, version: L.Version, id: GroupId): string {
    VersionPrefix(prefix, version) + id
  }

  function DenyPrefix(prefix: string): string {
    prefix + "/denyList/"
  }

  function DenyKey(prefix: string, id: L.Owner): string {
    DenyPrefix(prefix) + id
  }

  // ----- when the keys of two versions collide -----

  /** A range read for version `v` returns nothing that was registered for version `v'`. */
  ghost predicate ReadsApart(prefix: string, v: L.Version, v': L.Version) {
    forall id: GroupId :: !(VersionPrefix(prefix, v) <= UpgradeKey(prefix, v', id))
  }

  lemma PrefixCancels(a: string, b: string, c: string)
    ensures a + b <= a + c <==> b <= c
  {
    if a + b <= a + c {
      assert (a + c)[|a|..] == c && (a + b)[|a|..] == b;
      assert b == c[..|b|] by {
        assert (a + c)[..|a + b|] == a + b;
        assert c[..|b|] == (a + c)[|a|..|a| + |b|];
      }
    }
  }

  lemma Reads(prefix: string, v: L.Version, v': L.Version, id: GroupId)
    ensures VersionPrefix(prefix, v) <= UpgradeKey(prefix, v', id) <==> v + "/" <= v' + "/" + id
  {
    assert VersionPrefix(prefix, v) == UpgradesPrefix(prefix) + (v + "/");
    assert UpgradeKey(prefix, v', id) == UpgradesPrefix(prefix) + (v' + "/" + id);
    PrefixCancels(UpgradesPrefix(prefix), v + "/", v' + "/" + id);
  }

  lemma SlashPrefix(v: string, v': string, id: string)
    requires v + "/" <= v' + "/" + id
    ensures v == v' || v + "/" <= v' || v' + "/" <= v
  {
    var s, t := v + "/", v' + "/" + id;
    assert s == t[..|s|];
    if |v| == |v'| {
      assert v == s[..|v|] == t[..|v|] == v';
    } else if |v| < |v'| {
      assert v' == t[..|v'|];
      assert v'[..|s|] == t[..|s|];
    } else {
      assert v == s[..|v|] == t[..|v|];
      assert v[..|v'| + 1] == t[..|v'| + 1] == v' + "/";
    }
  }

  /** Two versions are read apart exactly if they differ and neither continues the other after a slash. */
  lemma ReadsApartTheorem(prefix: string, v: L.Version, v': L.Version)
    ensures ReadsApart(prefix, v, v') <==> v != v' && !(v + "/" <= v') && !(v' + "/" <= v)
  {
    if v == v' {
      Reads(prefix, v, v', "");
    } else if v + "/" <= v' {
      Reads(prefix, v, v', "");
      assert v + "/" <= v' + "/" + "";
    } else if v' + "/" <= v {
      var id := v[|v'| + 1..] + "/";
      assert v == (v' + "/") + v[|v'| + 1..];
      assert v + "/" == v' + "/" + id;
      Reads(prefix, v, v', id);
    } else {
      forall id: GroupId ensures !(VersionPrefix(prefix, v) <= UpgradeKey(prefix, v', id)) {
        Reads(prefix, v, v', id);
        if v + "/" <= v' + "/" + id {
          SlashPrefix(v, v', id);
        }
      }
    }
  }

  predicate Plain(v: L.Version) {
    '/' !in v
  }

  /** Version numbers have no slash, so their keys never collide. */
  lemma PlainVersions(prefix: string, v: L.Version, v': L.Version, id: GroupId)
    requires Plain(v) && Plain(v')
    ensures VersionPrefix(prefix, v) <= UpgradeKey(prefix, v', id) <==> v == v'
  {
    Reads(prefix, v, v', id);
    assert (v + "/")[|v|] == '/' && (v' + "/")[|v'|] == '/';
    if v == v' {
      assert v + "/" <= v + "/" + id;
    } else if v + "/" <= v' + "/" + id {
      SlashPrefix(v, v', id);
    }
  }

  lemma UpgradeKeysDiffer(prefix: string, v: L.Version, id: GroupId, v': L.Version, id': GroupId)
    requires Plain(v) && Plain(v') && UpgradeKey(prefix, v, id) == UpgradeKey(prefix, v', id')
    ensures v == v' && id == id'
  {
    PlainVersions(prefix, v, v', id');
    var n := |VersionPrefix(prefix, v)|;
    assert UpgradeKey(prefix, v, id)[n..] == id && UpgradeKey(prefix, v, id')[n..] == id';
  }

  lemma DenyKeysDiffer(prefix: string, id: L.Owner, id': L.Owner)
    ensures DenyKey(prefix, id) == DenyKey(prefix, id') <==> id == id'
  {
    var n := |DenyPrefix(prefix)|;
    assert DenyKey(prefix, id)[n..] == id && DenyKey(prefix, id')[n..] == id';
  }

  /** The three parts of the key space do not overlap. */
  lemma PartsAreDisjoint(prefix: string, key: string)
    ensures !(UpgradesPrefix(prefix) <= key && DenyPrefix(prefix) <= key)
    ensures UpgradesPrefix(prefix) <= key || DenyPrefix(prefix) <= key ==> key != LockKey(prefix)
  {
    var n := |prefix| + 1;
    assert UpgradesPrefix(prefix)[n] == 'u' && DenyPrefix(prefix)[n] == 'd' && LockKey(prefix)[n] == 'g';
    if UpgradesPrefix(prefix) <= key {
      assert key[n] == 'u';
    }
    if DenyPrefix(prefix) <= key {
      assert key[n] == 'd';
    }
  }

  // ----- the stored keys and what they stand for -----

  ghost predicate StoresUpgrades(data: Data, prefix: string, pending: map<L.Version, set<GroupId>>) {
    && (forall v, id :: v in pending && id in pending[v] ==>
          Plain(v) && UpgradeKey(prefix, v, id) in data && data[UpgradeKey(prefix, v, id)] == id)
    && (forall key :: key in data && UpgradesPrefix(prefix) <= key ==> IsRegistration(data, prefix, pending, key))
  }

  ghost predicate IsRegistration(data: Data, prefix: string, pending: map<L.Version, set<GroupId>>, key: string) {
    exists v, id :: v in pending && id in pending[v] && key == UpgradeKey(prefix, v, id)
  }

  ghost predicate StoresDenyList(data: Data, prefix: string, denied: set<L.Owner>) {
    && (forall id :: id in denied ==> DenyKey(prefix, id) in data && data[DenyKey(prefix, id)] == id)
    && (forall key :: key in data && DenyPrefix(prefix) <= key
          ==> exists id :: id in denied && key == DenyKey(prefix, id))
  }

  /** The values under a prefix. */
  ghost function RangeValues(data: Data, prefix: string): set<string> {
    set key | key in data && prefix <= key :: data[key]
  }

  lemma UpgradesRead(data: Data, prefix: string, pending: map<L.Version, set<GroupId>>, version: L.Version)
    requires StoresUpgrades(data, prefix, pending) && Plain(version)
    ensures RangeValues(data, VersionPrefix(prefix, version)) == if version in pending then pending[version] else {}
  {
    var values := RangeValues(data, VersionPrefix(prefix, version));
    forall id ensures id in values <==> version in pending && id in pending[version] {
      if version in pending && id in pending[version] {
        var key := UpgradeKey(prefix, version, id);
        assert key in data && VersionPrefix(prefix, version) <= key && data[key] == id;
      }
      if key :| key in data && VersionPrefix(prefix, version) <= key && data[key] == id {
        UnderVersion(prefix, version, key);
        var v, i :| v in pending && i in pending[v] && key == UpgradeKey(prefix, v, i);
        PlainVersions(prefix, version, v, i);
      }
    }
  }

  lemma UnderVersion(prefix: string, version: L.Version, key: string)
    requires VersionPrefix(prefix, version) <= key
    ensures UpgradesPrefix(prefix) <= key
  {
    assert UpgradesPrefix(prefix) <= VersionPrefix(prefix, version);
  }

  lemma DenyListRead(data: Data, prefix: string, denied: set<L.Owner>)
    requires StoresDenyList(data, prefix, denied)
    ensures RangeValues(data, DenyPrefix(prefix)) == denied
  {
    var values := RangeValues(data, DenyPrefix(prefix));
    forall id ensures id in values <==> id in denied {
      if id in denied {
        assert DenyKey(prefix, id) in data && DenyPrefix(prefix) <= DenyKey(prefix, id);
      }
    }
  }

  /** Registering one id under its key. */
  lemma UpgradeSet(data: Data, prefix: string, pending: map<L.Version, set<GroupId>>, version: L.Version, id: GroupId)
    requires StoresUpgrades(data, prefix, pending) && Plain(version)
    ensures var known := if version in pending then pending[version] else {};
            StoresUpgrades(data[UpgradeKey(prefix, version, id) := id], prefix, pending[version := known + {id}])
  {
    var key := UpgradeKey(prefix, version, id);
    var data' := data[key := id];
    var pending' := pending[version := (if version in pending then pending[version] else {}) + {id}];
    forall v, i | v in pending' && i in pending'[v]
      ensures Plain(v) && UpgradeKey(prefix, v, i) in data' && data'[UpgradeKey(prefix, v, i)] == i
    {
      if UpgradeKey(prefix, v, i) == key {
        if v != version || i != id {
          assert v in pending && i in pending[v];
          UpgradeKeysDiffer(prefix, v, i, version, id);
        }
      } else {
        assert v in pending && i in pending[v];
      }
    }
    forall k | k in data' && UpgradesPrefix(prefix) <= k ensures IsRegistration(data', prefix, pending', k) {
      if k == key {
        assert version in pending' && id in pending'[version];
      } else {
        var v, i :| v in pending && i in pending[v] && k == UpgradeKey(prefix, v, i);
        assert v in pending' && i in pending'[v];
      }
    }
  }

  lemma DenySet(data: Data, prefix: string, denied: set<L.Owner>, id: L.Owner)
    requires StoresDenyList(data, prefix, denied)
    ensures StoresDenyList(data[DenyKey(prefix, id) := id], prefix, denied + {id})
  {
    forall i ensures DenyKey(prefix, i) == DenyKey(prefix, id) <==> i == id { DenyKeysDiffer(prefix, i, id); }
  }

  lemma DenyClear(data: Data, prefix: string, denied: set<L.Owner>, id: L.Owner)
    requires StoresDenyList(data, prefix, denied)
    ensures StoresDenyList(data - {DenyKey(prefix, id)}, prefix, denied - {id})
  {
    forall i ensures DenyKey(prefix, i) == DenyKey(prefix, id) <==> i == id { DenyKeysDiffer(prefix, i, id); }
  }

  /** Changes to keys outside of a part do not concern it. */
  lemma UpgradesUntouched(data: Data, data': Data, prefix: string, pending: map<L.Version, set<GroupId>>)
    requires StoresUpgrades(data, prefix, pending)
    requires forall key :: UpgradesPrefix(prefix) <= key
               ==> (key in data <==> key in data') && (key in data ==> data'[key] == data[key])
    ensures StoresUpgrades(data', prefix, pending)
  {
    forall v, id | v in pending && id in pending[v]
      ensures UpgradeKey(prefix, v, id) in data' && data'[UpgradeKey(prefix, v, id)] == id
    {
      UnderVersion(prefix, v, UpgradeKey(prefix, v, id));
    }
    forall key | key in data' && UpgradesPrefix(prefix) <= key ensures IsRegistration(data', prefix, pending, key) {
      assert IsRegistration(data, prefix, pending, key);
    }
  }

  lemma DenyListUntouched(data: Data, data': Data, prefix: string, denied: set<L.Owner>)
    requires StoresDenyList(data, prefix, denied)
    requires forall key :: DenyPrefix(prefix) <= key
               ==> (key in data <==> key in data') && (key in data ==> data'[key] == data[key])
    ensures StoresDenyList(data', prefix, denied)
  {
    forall id | id in denied ensures DenyKey(prefix, id) in data' && data'[DenyKey(prefix, id)] == id {
      assert DenyPrefix(prefix) <= DenyKey(prefix, id);
    }
  }

  /** The key space, and the transactions of the lock client on it. */
  class Store {
    const prefix: string
    var data: Data

    constructor (prefix: string)
      ensures this.prefix == prefix && data == map[]
    {
      this.prefix, data := prefix, map[];
    }

    ghost predicate Stores(pending: map<L.Version, set<GroupId>>, denied: set<L.Owner>)
      reads this
    {
      StoresUpgrades(data, prefix, pending) && StoresDenyList(data, prefix, denied)
    }

    /** The lock is as it was. */
    twostate predicate LockUntouched()
      reads this
    {
      && (LockKey(prefix) in data <==> LockKey(prefix) in old(data))
      && (LockKey(prefix) in data ==> data[LockKey(prefix)] == old(data)[LockKey(prefix)])
    }

    method GetRange(range: string) returns (values: set<string>)
      ensures values == RangeValues(data, range)
    {
      values := {};
      var todo := data.Keys;
      while todo != {}
        invariant todo <= data.Keys
        invariant values == set key | key in data && key !in todo && range <= key :: data[key]
      {
        var key :| key in todo;
        todo := todo - {key};
        if range <= key {
          values := values + {data[key]};
        }
      }
    }

    method SetUpgrade(version: L.Version, id: GroupId, ghost pending: map<L.Version, set<GroupId>>,
                      ghost denied: set<L.Owner>)
      requires Stores(pending, denied) && Plain(version)
      modifies this`data
      ensures Stores(pending[version := (if version in pending then pending[version] else {}) + {id}], denied)
              && LockUntouched()
    {
      var key := UpgradeKey(prefix, version, id);
      UpgradeSet(data, prefix, pending, version, id);
      UnderVersion(prefix, version, key);
      PartsAreDisjoint(prefix, key);
      DenyListUntouched(data, data[key := id], prefix, denied);
      data := data[key := id];
    }

    method AddPendingUpgrades(version: L.Version, ids: seq<GroupId>,
                              ghost pending: map<L.Version, set<GroupId>>, ghost denied: set<L.Owner>)
      requires Stores(pending, denied) && Plain(version)
      modifies this`data
      ensures Stores(L.Registered(pending, version, ids), denied) && LockUntouched()
    {
      ghost var registered := pending;
      for i := 0 to |ids|
        invariant Stores(registered, denied) && LockUntouched()
        invariant registered == L.Registered(pending, version, ids[..i])
      {
        SetUpgrade(version, ids[i], registered, denied);
        RegisteredStep(pending, version, ids, i);
        registered := registered[version := (if version in registered then registered[version] else {}) + {ids[i]}];
      }
      assert ids[..|ids|] == ids;
    }

    method GetPendingUpgrades(version: L.Version, ghost pending: map<L.Version, set<GroupId>>,
                              ghost denied: set<L.Owner>)
      returns (ids: set<GroupId>)
      requires Stores(pending, denied) && Plain(version)
      ensures ids == if version in pending then pending[version] else {}
    {
      ids := GetRange(VersionPrefix(prefix, version));
      UpgradesRead(data, prefix, pending, version);
    }

    method ClearPendingUpgrades(ghost pending: map<L.Version, set<GroupId>>, ghost denied: set<L.Owner>)
      requires Stores(pending, denied)
      modifies this`data
      ensures Stores(map[], denied) && LockUntouched()
    {
      var kept := map key | key in data && !(UpgradesPrefix(prefix) <= key) :: data[key];
      forall key | key in data && UpgradesPrefix(prefix) <= key
        ensures !(DenyPrefix(prefix) <= key) && key != LockKey(prefix)
      {
        PartsAreDisjoint(prefix, key);
      }
      DenyListUntouched(data, kept, prefix, denied);
      data := kept;
    }

    method UpdateDenyList(entries: seq<L.DenyEntry>, ghost pending: map<L.Version, set<GroupId>>,
                          ghost denied: set<L.Owner>)
      requires Stores(pending, denied)
      modifies this`data
      ensures Stores(pending, L.DenyListAfter(denied, entries)) && LockUntouched()
    {
      var listed := GetRange(DenyPrefix(prefix));
      DenyListRead(data, prefix, denied);
      for i := 0 to |entries|
        invariant Stores(pending, L.DenyListAfter(denied, entries[..i])) && LockUntouched()
      {
        L.DenyListStep(denied, entries, i);
        if entries[i].allow && entries[i].id in listed {
          ClearDenied(entries[i].id, pending, L.DenyListAfter(denied, entries[..i]));
        } else if !entries[i].allow && entries[i].id !in listed {
          SetDenied(entries[i].id, pending, L.DenyListAfter(denied, entries[..i]));
        }
      }
      assert entries[..|entries|] == entries;
    }

    method SetDenied(id: L.Owner, ghost pending: map<L.Version, set<GroupId>>, ghost denied: set<L.Owner>)
      requires Stores(pending, denied)
      modifies this`data
      ensures Stores(pending, denied + {id}) && LockUntouched()
    {
      DenySet(data, prefix, denied, id);
      PartsAreDisjoint(prefix, DenyKey(prefix, id));
      UpgradesUntouched(data, data[DenyKey(prefix, id) := id], prefix, pending);
      data := data[DenyKey(prefix, id) := id];
    }

    method ClearDenied(id: L.Owner, ghost pending: map<L.Version, set<GroupId>>, ghost denied: set<L.Owner>)
      requires Stores(pending, denied)
      modifies this`data
      ensures Stores(pending, denied - {id}) && LockUntouched()
    {
      DenyClear(data, prefix, denied, id);
      PartsAreDisjoint(prefix, DenyKey(prefix, id));
      UpgradesUntouched(data, data - {DenyKey(prefix, id)}, prefix, pending);
      data := data - {DenyKey(prefix, id)};
    }
  }

  lemma RegisteredStep(pending: map<L.Version, set<GroupId>>, version: L.Version, ids: seq<GroupId>, i: nat)
    requires i < |ids|
    ensures var before := L.Registered(pending, version, ids[..i]);
            L.Registered(pending, version, ids[..i + 1])
            == before[version := (if version in before then before[version] else {}) + {ids[i]}]
  {
    var p, q := ids[..i], ids[..i + 1];
    var before, known := L.Registered(pending, version, p), if version in pending then pending[version] else {};
    assert forall h :: 0 <= h < i ==> q[h] == p[h];
    assert q[i] == ids[i];
    var ps, qs := (set h | 0 <= h < |p| :: p[h]), (set h | 0 <= h < |q| :: q[h]);
    assert qs == ps + {ids[i]};
    assert (if version in before then before[version] else {}) == known + ps;
    assert known + qs == (known + ps) + {ids[i]};
  }
}
