/** Process groups as the operator records them in its status. */
module ProcessGroups {
  import opened Basics

  type Address = string

  /** `excludedAt` is the time at which the exclusion was found complete; the `Since` fields are the
      times of the conditions ProcessesMissing, PodPending and ResourcesTerminating. */
  datatype Group = Group(id: GroupId, kind: Class, addresses: seq<Address>, faultDomain: string,
                         marked: bool, excludedAt: Option<int>, exclusionSkipped: bool,
                         missingSince: Option<int>, pendingSince: Option<int>, terminatingSince: Option<int>)

  predicate IsExcluded(g: Group) {
    g.excludedAt.Some? || g.exclusionSkipped
  }

  /** The entry in the exclusion list that excludes a group by its locality. */
  function ExclusionString(id: GroupId): Address {
    "locality_instance_id:" + id
  }

  lemma ExclusionStringInjective(a: GroupId, b: GroupId)
    requires ExclusionString(a) == ExclusionString(b)
    ensures a == b
  {
    var n := |"locality_instance_id:"|;
    assert ExclusionString(a)[n..] == a && ExclusionString(b)[n..] == b;
  }

  /** Marks the exclusion as complete, unless it already is; of the conditions only ResourcesTerminating stays. */
  function SetExclude(g: Group, now: int): Group {
    if g.excludedAt.Some? then g
    else g.(excludedAt := Some(now), missingSince := None, pendingSince := None)
  }

  ghost predicate DistinctIds(gs: seq<Group>) {
    forall i, j :: 0 <= i < j < |gs| ==> gs[i].id != gs[j].id
  }

  ghost predicate HasId(gs: seq<Group>, id: GroupId) {
    exists i :: 0 <= i < |gs| && gs[i].id == id
  }

  /** No address of `g` is an address of group `h`, or its locality. */
  ghost predicate OwnAddresses(g: Group, h: Group) {
    forall a :: a in g.addresses ==> a !in h.addresses && a != ExclusionString(h.id)
  }

  /** Groups share neither ids nor addresses, and no address looks like a locality. */
  ghost predicate AllOwnAddresses(gs: seq<Group>) {
    && DistinctIds(gs)
    && (forall i, j :: 0 <= i < |gs| && 0 <= j < |gs| && i != j ==> OwnAddresses(gs[i], gs[j]))
    && (forall i :: 0 <= i < |gs| ==> ExclusionString(gs[i].id) !in gs[i].addresses)
  }

  /** An entry of the exclusion list belongs to one group at most. */
  lemma OwnEntry(gs: seq<Group>, i: nat, j: nat, a: Address)
    requires AllOwnAddresses(gs) && i < |gs| && j < |gs|
    requires a == ExclusionString(gs[i].id) || a in gs[i].addresses
    requires a == ExclusionString(gs[j].id) || a in gs[j].addresses
    ensures i == j
  {
    if i != j {
      assert OwnAddresses(gs[i], gs[j]) && OwnAddresses(gs[j], gs[i]);
      if a == ExclusionString(gs[i].id) == ExclusionString(gs[j].id) {
        ExclusionStringInjective(gs[i].id, gs[j].id);
      }
    }
  }

  /** The groups that satisfy a predicate, in order. */
  function Filter(gs: seq<Group>, keep: Group -> bool): seq<Group> {
    if gs == [] then []
    else Filter(gs[..|gs| - 1], keep) + if keep(gs[|gs| - 1]) then [gs[|gs| - 1]] else []
  }

  function Count(gs: seq<Group>, keep: Group -> bool): nat {
    |Filter(gs, keep)|
  }

  lemma FilterPrefix(gs: seq<Group>, i: nat, keep: Group -> bool)
    requires i < |gs|
    ensures Filter(gs[..i + 1], keep) == Filter(gs[..i], keep) + if keep(gs[i]) then [gs[i]] else []
  {
    assert gs[..i + 1][..i] == gs[..i];
  }

  lemma {:induction false} FilterMember(gs: seq<Group>, keep: Group -> bool, g: Group)
    ensures g in Filter(gs, keep) <==> g in gs && keep(g)
  {
    if gs != [] {
      FilterMember(gs[..|gs| - 1], keep, g);
      assert gs == gs[..|gs| - 1] + [gs[|gs| - 1]];
    }
  }

  lemma {:induction false} FilterDistinct(gs: seq<Group>, keep: Group -> bool)
    requires DistinctIds(gs)
    ensures DistinctIds(Filter(gs, keep))
  {
    if gs != [] {
      var front, last := gs[..|gs| - 1], gs[|gs| - 1];
      FilterDistinct(front, keep);
      forall i | 0 <= i < |Filter(front, keep)| ensures Filter(front, keep)[i].id != last.id {
        FilterMember(front, keep, Filter(front, keep)[i]);
      }
    }
  }

  /** A union bound: what satisfies `p` satisfies one of the three others. */
  lemma {:induction false} CountBound(gs: seq<Group>, p: Group -> bool, a: Group -> bool, b: Group -> bool,
                                      c: Group -> bool)
    requires forall g :: g in gs && p(g) ==> a(g) || b(g) || c(g)
    ensures Count(gs, p) <= Count(gs, a) + Count(gs, b) + Count(gs, c)
  {
    if gs != [] {
      var front := gs[..|gs| - 1];
      assert forall g :: g in front ==> g in gs;
      CountBound(front, p, a, b, c);
    }
  }

  lemma {:induction false} CountMonotone(gs: seq<Group>, p: Group -> bool, q: Group -> bool)
    requires forall g :: g in gs && p(g) ==> q(g)
    ensures Count(gs, p) <= Count(gs, q)
  {
    if gs != [] {
      var front := gs[..|gs| - 1];
      assert forall g :: g in front ==> g in gs;
      CountMonotone(front, p, q);
    }
  }

  // ----- addresses -----

  /** Without empty entries and repetitions, first occurrences in order. */
  function CleanAddressList(addresses: seq<Address>): seq<Address> {
    if addresses == [] then []
    else
      var front, last := CleanAddressList(addresses[..|addresses| - 1]), addresses[|addresses| - 1];
      if last != "" && last !in front then front + [last] else front
  }

  lemma {:induction false} CleanAddressListKeeps(addresses: seq<Address>)
    ensures forall a :: a in CleanAddressList(addresses) <==> a in addresses && a != ""
    ensures forall i, j :: 0 <= i < j < |CleanAddressList(addresses)|
              ==> CleanAddressList(addresses)[i] != CleanAddressList(addresses)[j]
  {
    if addresses != [] {
      var n := |addresses| - 1;
      CleanAddressListKeeps(addresses[..n]);
      assert addresses == addresses[..n] + [addresses[n]];
    }
  }

  function NonEmpty(addresses: seq<Address>): seq<Address> {
    if addresses == [] then []
    else NonEmpty(addresses[..|addresses| - 1])
         + if addresses[|addresses| - 1] != "" then [addresses[|addresses| - 1]] else []
  }

  /** The addresses of a group once those of its Pod are recorded. */
  function WithAddresses(g: Group, addresses: seq<Address>, includeOld: bool): Group {
    if includeOld then g.(addresses := CleanAddressList(g.addresses + NonEmpty(addresses)))
    else if NonEmpty(addresses) == [] then g
    else g.(addresses := NonEmpty(addresses))
  }

  /** Records the addresses of the Pod; the old ones are kept if `includeOld`. */
  method AddAddresses(g: Group, addresses: seq<Address>, includeOld: bool) returns (g': Group)
    ensures g' == WithAddresses(g, addresses, includeOld)
  {
    var newAddresses := [];
    for i := 0 to |addresses|
      invariant newAddresses == NonEmpty(addresses[..i])
    {
      assert addresses[..i + 1][..i] == addresses[..i];
      if addresses[i] == "" {
        continue;
      }
      newAddresses := newAddresses + [addresses[i]];
    }
    assert addresses[..|addresses|] == addresses;
    g' := g;
    if |newAddresses| > 0 && !includeOld {
      return g.(addresses := newAddresses);
    }
    if includeOld {
      var all := g.addresses + newAddresses;
      var cleaned := [];
      for i := 0 to |all|
        invariant cleaned == CleanAddressList(all[..i])
      {
        assert all[..i + 1][..i] == all[..i];
        if all[i] != "" && all[i] !in cleaned {
          cleaned := cleaned + [all[i]];
        }
      }
      assert all[..|all|] == all;
      return g.(addresses := cleaned);
    }
  }

  /** Old addresses are kept where they are included, and where there is no usable new one; otherwise exactly the usable
      new ones count. */
  lemma AddressesAfter(g: Group, addresses: seq<Address>, includeOld: bool, a: Address)
    ensures var usable := exists b :: b in addresses && b != "";
            a in WithAddresses(g, addresses, includeOld).addresses <==>
            if includeOld then a != "" && (a in g.addresses || a in addresses)
            else if usable then a != "" && a in addresses
            else a in g.addresses
  {
    NonEmptyMember(addresses);
    CleanAddressListKeeps(g.addresses + NonEmpty(addresses));
    if NonEmpty(addresses) != [] {
      assert NonEmpty(addresses)[0] in NonEmpty(addresses);
    }
  }

  lemma {:induction false} NonEmptyMember(addresses: seq<Address>)
    ensures forall a :: a in NonEmpty(addresses) <==> a in addresses && a != ""
  {
    if addresses != [] {
      NonEmptyMember(addresses[..|addresses| - 1]);
      assert addresses == addresses[..|addresses| - 1] + [addresses[|addresses| - 1]];
    }
  }

  /** What the validation of process groups records: old addresses are included if the group is marked for removal or
      the database is not available. */
  function Validated(g: Group, addresses: seq<Address>, available: bool): Group {
    WithAddresses(g, addresses, g.marked || !available)
  }

  /** Whatever addresses its Pod gets, the group forgets none. */
  ghost predicate ForgetsNothing(g: Group, available: bool) {
    forall addresses: seq<Address>, a :: a in g.addresses && a != ""
        ==> a in Validated(g, addresses, available).addresses
  }

  /** A group forgets no address exactly if it is marked for removal, the database is not available, or it has none. */
  lemma AddressesKeptTheorem(g: Group, available: bool)
    ensures ForgetsNothing(g, available) <==> g.marked || !available || forall a :: a in g.addresses ==> a == ""
  {
    if g.marked || !available {
      forall addresses: seq<Address>, a | a in g.addresses && a != ""
        ensures a in Validated(g, addresses, available).addresses
      {
        CleanAddressListKeeps(g.addresses + NonEmpty(addresses));
      }
    } else if a :| a in g.addresses && a != "" {
      NonEmptySingle(a + "x");
      assert a != a + "x" && a !in Validated(g, [a + "x"], available).addresses;
    }
  }

  lemma NonEmptySingle(a: Address)
    requires a != ""
    ensures NonEmpty([a]) == [a]
  {
    assert [a][..0] == [];
  }
}
