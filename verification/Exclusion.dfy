/** Choosing the processes to exclude: which groups wait for exclusion, how many of a class may be
    excluded at once, and when nothing is excluded at all. Local synchronization mode. */
module Exclusion {
  import opened Basics
  import opened ProcessGroups

  datatype Entry = Entry(id: GroupId, addresses: seq<Address>)

  /** Marked for removal, and the exclusion is not complete. Testers are never excluded. */
  predicate Candidate(g: Group) {
    g.kind != TEST && g.marked && !IsExcluded(g)
  }

  predicate AllIn(addresses: seq<Address>, exclusions: set<Address>) {
    forall i :: 0 <= i < |addresses| ==> addresses[i] in exclusions
  }

  /** The exclusion has been started: by locality or, where addresses are used, for every known address. */
  predicate Ongoing(g: Group, exclusions: set<Address>, useLocalities: bool) {
    Candidate(g) && (ExclusionString(g.id) in exclusions || (!useLocalities && AllIn(g.addresses, exclusions)))
  }

  predicate Waiting(g: Group, exclusions: set<Address>, useLocalities: bool) {
    Candidate(g) && !Ongoing(g, exclusions, useLocalities)
  }

  function NotExcludedYet(addresses: seq<Address>, exclusions: set<Address>): seq<Address> {
    if addresses == [] then []
    else NotExcludedYet(addresses[..|addresses| - 1], exclusions)
         + if addresses[|addresses| - 1] in exclusions then [] else [addresses[|addresses| - 1]]
  }

  function EntryFor(g: Group, exclusions: set<Address>, useLocalities: bool): Entry {
    Entry(g.id, if useLocalities then [ExclusionString(g.id)] else NotExcludedYet(g.addresses, exclusions))
  }

  lemma {:induction false} NotExcludedYetEmpty(addresses: seq<Address>, exclusions: set<Address>)
    ensures NotExcludedYet(addresses, exclusions) == [] <==> AllIn(addresses, exclusions)
    ensures forall a :: a in NotExcludedYet(addresses, exclusions) <==> a in addresses && a !in exclusions
  {
    if addresses != [] {
      var n := |addresses| - 1;
      NotExcludedYetEmpty(addresses[..n], exclusions);
      assert addresses == addresses[..n] + [addresses[n]];
      assert AllIn(addresses, exclusions) <==> AllIn(addresses[..n], exclusions) && addresses[n] in exclusions by {
        if AllIn(addresses, exclusions) {
          assert forall i :: 0 <= i < n ==> addresses[..n][i] == addresses[i];
        }
      }
    }
  }

  // ----- what has to be excluded, per class -----

  function EntriesOf(gs: seq<Group>, exclusions: set<Address>, useLocalities: bool, kind: Class): seq<Entry> {
    if gs == [] then []
    else
      var g := gs[|gs| - 1];
      EntriesOf(gs[..|gs| - 1], exclusions, useLocalities, kind)
      + if Waiting(g, exclusions, useLocalities) && g.kind == kind then [EntryFor(g, exclusions, useLocalities)] else []
  }

  function OngoingCount(gs: seq<Group>, exclusions: set<Address>, useLocalities: bool, kind: Class): nat {
    if gs == [] then 0
    else
      var g := gs[|gs| - 1];
      OngoingCount(gs[..|gs| - 1], exclusions, useLocalities, kind)
      + if Ongoing(g, exclusions, useLocalities) && g.kind == kind then 1 else 0
  }

  ghost predicate TracksEntries(byClass: map<Class, seq<Entry>>, gs: seq<Group>, exclusions: set<Address>,
                                useLocalities: bool) {
    forall kind :: EntriesAt(byClass, kind) == EntriesOf(gs, exclusions, useLocalities, kind)
                   && (kind in byClass <==> EntriesOf(gs, exclusions, useLocalities, kind) != [])
  }

  ghost predicate TracksOngoing(ongoing: map<Class, nat>, gs: seq<Group>, exclusions: set<Address>,
                                useLocalities: bool) {
    forall kind :: CountAt(ongoing, kind) == OngoingCount(gs, exclusions, useLocalities, kind)
  }

  function EntriesAt(m: map<Class, seq<Entry>>, kind: Class): seq<Entry> {
    if kind in m then m[kind] else []
  }

  function CountAt(m: map<Class, nat>, kind: Class): nat {
    if kind in m then m[kind] else 0
  }

  /** Every candidate either gets an entry or counts as ongoing, never both. */
  method Classify(g: Group, exclusions: set<Address>, useLocalities: bool) returns (entry: Option<Entry>, started: bool)
    ensures entry == if Waiting(g, exclusions, useLocalities) then Some(EntryFor(g, exclusions, useLocalities))
            else None
    ensures started <==> Ongoing(g, exclusions, useLocalities)
    ensures Candidate(g) ==> (entry.Some? <==> !started)
  {
    if g.kind == TEST {
      return None, false;
    }
    if !g.marked {
      return None, false;
    }
    if IsExcluded(g) {
      return None, false;
    }
    if ExclusionString(g.id) in exclusions {
      return None, true;
    }
    if useLocalities {
      return Some(Entry(g.id, [ExclusionString(g.id)])), false;
    }
    var addresses := RemainingAddresses(g.addresses, exclusions);
    NotExcludedYetEmpty(g.addresses, exclusions);
    if |addresses| > 0 {
      return Some(Entry(g.id, addresses)), false;
    }
    return None, true;
  }

  method GetProcessesToExclude(gs: seq<Group>, exclusions: set<Address>, useLocalities: bool)
    returns (byClass: map<Class, seq<Entry>>, ongoing: map<Class, nat>)
    ensures TracksEntries(byClass, gs, exclusions, useLocalities)
    ensures TracksOngoing(ongoing, gs, exclusions, useLocalities)
  {
    byClass, ongoing := map[], map[];
    for i := 0 to |gs|
      invariant TracksEntries(byClass, gs[..i], exclusions, useLocalities)
      invariant TracksOngoing(ongoing, gs[..i], exclusions, useLocalities)
    {
      var entry, started := Classify(gs[i], exclusions, useLocalities);
      EntriesStep(byClass, gs, i, exclusions, useLocalities);
      OngoingStep(ongoing, gs, i, exclusions, useLocalities);
      if entry.Some? {
        byClass := byClass[gs[i].kind := EntriesAt(byClass, gs[i].kind) + [entry.value]];
      }
      if started {
        ongoing := ongoing[gs[i].kind := CountAt(ongoing, gs[i].kind) + 1];
      }
    }
    assert gs[..|gs|] == gs;
  }

  lemma EntriesStep(byClass: map<Class, seq<Entry>>, gs: seq<Group>, i: nat, exclusions: set<Address>,
                    useLocalities: bool)
    requires i < |gs| && TracksEntries(byClass, gs[..i], exclusions, useLocalities)
    ensures var g := gs[i];
            TracksEntries(if Waiting(g, exclusions, useLocalities)
                            then byClass[g.kind := EntriesAt(byClass, g.kind)
                                + [EntryFor(g, exclusions, useLocalities)]]
                            else byClass,
                          gs[..i + 1], exclusions, useLocalities)
  {
    assert gs[..i + 1][..i] == gs[..i];
  }

  lemma OngoingStep(ongoing: map<Class, nat>, gs: seq<Group>, i: nat, exclusions: set<Address>, useLocalities: bool)
    requires i < |gs| && TracksOngoing(ongoing, gs[..i], exclusions, useLocalities)
    ensures var g := gs[i];
            TracksOngoing(if Ongoing(g, exclusions, useLocalities) then ongoing[g.kind := CountAt(ongoing, g.kind) + 1]
                else ongoing,
                          gs[..i + 1], exclusions, useLocalities)
  {
    var g := gs[i];
    var q := gs[..i + 1];
    assert q[..|q| - 1] == gs[..i] && q[|q| - 1] == g;
    forall kind
      ensures OngoingCount(q, exclusions, useLocalities, kind) == CountAt(ongoing, kind)
                + if Ongoing(g, exclusions, useLocalities) && g.kind == kind then 1 else 0
    {
    }
  }

  method RemainingAddresses(addresses: seq<Address>, exclusions: set<Address>) returns (r: seq<Address>)
    ensures r == NotExcludedYet(addresses, exclusions)
  {
    r := [];
    for i := 0 to |addresses|
      invariant r == NotExcludedYet(addresses[..i], exclusions)
    {
      assert addresses[..i + 1][..i] == addresses[..i];
      if addresses[i] in exclusions {
        continue;
      }
      r := r + [addresses[i]];
    }
    assert addresses[..|addresses|] == addresses;
  }

  // ----- how many may be excluded -----

  /** Five minutes. */
  const IGNORE_MISSING_SECONDS: int := 300

  predicate Counted(g: Group, kind: Class) {
    g.kind == kind && !(g.marked && IsExcluded(g))
  }

  predicate Missing(g: Group, simulation: bool) {
    g.missingSince.Some? && !simulation
  }

  predicate IsValid(g: Group, kind: Class, simulation: bool) {
    Counted(g, kind) && !Missing(g, simulation)
  }

  /** Missing, but not for long enough to be given up. */
  ghost predicate RecentlyMissing(gs: seq<Group>, kind: Class, now: int, simulation: bool) {
    exists i :: 0 <= i < |gs| && Counted(gs[i], kind) && Missing(gs[i], simulation)
                && now - gs[i].missingSince.value < IGNORE_MISSING_SECONDS
  }

  function AllowedExclusions(valid: int, desired: int, ongoing: int, faultTolerance: int): nat {
    var allowed := valid + faultTolerance - desired - ongoing;
    if allowed < 0 then 0 else allowed
  }

  ghost function Allowed(gs: seq<Group>, kind: Class, desired: int, ongoing: int, faultTolerance: int, now: int,
                         simulation: bool): nat {
    if RecentlyMissing(gs, kind, now, simulation) then 0
    else AllowedExclusions(Count(gs, g => IsValid(g, kind, simulation)), desired, ongoing, faultTolerance)
  }

  method GetAllowedExclusions(gs: seq<Group>, kind: Class, desired: int, ongoing: int, faultTolerance: int, now: int,
                              simulation: bool)
    returns (allowed: nat)
    ensures allowed == Allowed(gs, kind, desired, ongoing, faultTolerance, now, simulation)
  {
    var valid := 0;
    var exclusionsAllowed := true;
    ghost var isValid := g => IsValid(g, kind, simulation);
    for i := 0 to |gs|
      invariant valid == Count(gs[..i], isValid)
      invariant exclusionsAllowed <==> !RecentlyMissing(gs[..i], kind, now, simulation)
    {
      var g := gs[i];
      FilterPrefix(gs, i, isValid);
      RecentlyMissingPrefix(gs, i, kind, now, simulation);
      if g.kind != kind {
        continue;
      }
      if g.marked && IsExcluded(g) {
        continue;
      }
      if g.missingSince.Some? && !simulation {
        if now - g.missingSince.value < IGNORE_MISSING_SECONDS {
          exclusionsAllowed := false;
        }
        continue;
      }
      valid := valid + 1;
    }
    assert gs[..|gs|] == gs;
    if !exclusionsAllowed {
      return 0;
    }
    allowed := AllowedExclusions(valid, desired, ongoing, faultTolerance);
  }

  lemma RecentlyMissingPrefix(gs: seq<Group>, i: nat, kind: Class, now: int, simulation: bool)
    requires i < |gs|
    ensures RecentlyMissing(gs[..i + 1], kind, now, simulation) <==>
              RecentlyMissing(gs[..i], kind, now, simulation)
              || (Counted(gs[i], kind) && Missing(gs[i], simulation)
                  && now - gs[i].missingSince.value < IGNORE_MISSING_SECONDS)
  {
    var p, q := gs[..i], gs[..i + 1];
    assert q[i] == gs[i] && forall h :: 0 <= h < i ==> q[h] == p[h];
    if RecentlyMissing(p, kind, now, simulation) {
      var h :| 0 <= h < |p| && Counted(p[h], kind) && Missing(p[h], simulation)
          && now - p[h].missingSince.value < IGNORE_MISSING_SECONDS;
      assert Counted(q[h], kind);
    }
  }

  // ----- one pass over all classes -----

  datatype Cluster = Cluster(groups: seq<Group>, exclusions: set<Address>, useLocalities: bool,
                             desired: map<Class, int>,
                             faultTolerance: int, simulation: bool)

  function DesiredAt(c: Cluster, kind: Class): int {
    if kind in c.desired then c.desired[kind] else 0
  }

  ghost function WaitingEntries(c: Cluster, kind: Class): seq<Entry> {
    EntriesOf(c.groups, c.exclusions, c.useLocalities, kind)
  }

  ghost function Budget(c: Cluster, kind: Class, now: int): nat {
    Allowed(c.groups, kind, DesiredAt(c, kind), OngoingCount(c.groups, c.exclusions, c.useLocalities, kind),
            c.faultTolerance, now, c.simulation)
  }

  /** The entries a pass picks from a class: as many as the budget allows, in order. */
  ghost function Chosen(c: Cluster, now: int, kind: Class): (es: seq<Entry>)
    ensures |es| <= Budget(c, kind, now) && es <= WaitingEntries(c, kind)
  {
    var waiting := WaitingEntries(c, kind);
    waiting[..if |waiting| < Budget(c, kind, now) then |waiting| else Budget(c, kind, now)]
  }

  function AddressesOf(es: seq<Entry>): multiset<Address> {
    if es == [] then multiset{} else AddressesOf(es[..|es| - 1]) + multiset(es[|es| - 1].addresses)
  }

  ghost function ChosenAddresses(c: Cluster, now: int, kinds: set<Class>): multiset<Address> {
    if kinds == {} then multiset{}
    else
      var kind :| kind in kinds;
      AddressesOf(Chosen(c, now, kind)) + ChosenAddresses(c, now, kinds - {kind})
  }

  lemma {:induction false} ChosenAddressesRemove(c: Cluster, now: int, kinds: set<Class>, kind: Class)
    requires kind in kinds
    ensures ChosenAddresses(c, now, kinds)
            == AddressesOf(Chosen(c, now, kind)) + ChosenAddresses(c, now, kinds - {kind})
    decreases |kinds|
  {
    var k :| k in kinds
        && ChosenAddresses(c, now, kinds) == AddressesOf(Chosen(c, now, k)) + ChosenAddresses(c, now, kinds - {k});
    if k != kind {
      ChosenAddressesRemove(c, now, kinds - {k}, kind);
      ChosenAddressesRemove(c, now, kinds - {kind}, k);
      assert kinds - {k} - {kind} == kinds - {kind} - {k};
    }
  }

  ghost predicate Blocked(c: Cluster, now: int, kind: Class) {
    IsTransaction(kind) && WaitingEntries(c, kind) != [] && Budget(c, kind, now) == 0
  }

  /** A class of the transaction system has groups waiting but no budget. */
  ghost predicate Gated(c: Cluster, now: int, kinds: set<Class>) {
    exists kind :: kind in kinds && Blocked(c, now, kind)
  }

  ghost function WaitingClasses(c: Cluster): set<Class> {
    set i | 0 <= i < |c.groups| && Waiting(c.groups[i], c.exclusions, c.useLocalities) :: c.groups[i].kind
  }

  method ExcludeClass(c: Cluster, kind: Class, entries: seq<Entry>, ongoing: nat, now: int)
    returns (picked: seq<Address>, blocked: bool)
    requires entries == WaitingEntries(c, kind)
             && ongoing == OngoingCount(c.groups, c.exclusions, c.useLocalities, kind)
    ensures multiset(picked) == AddressesOf(Chosen(c, now, kind))
    ensures blocked <==> Budget(c, kind, now) == 0
  {
    var allowed :=
        GetAllowedExclusions(c.groups, kind, DesiredAt(c, kind), ongoing, c.faultTolerance, now, c.simulation);
    if allowed <= 0 {
      assert Chosen(c, now, kind) == [];
      return [], true;
    }
    if |entries| < allowed {
      allowed := |entries|;
    }
    picked := TakeEntries(entries, allowed);
    blocked := false;
  }

  method VisitClass(c: Cluster, byClass: map<Class, seq<Entry>>, ongoing: map<Class, nat>, kind: Class, now: int)
    returns (picked: seq<Address>, blocked: bool)
    requires TracksEntries(byClass, c.groups, c.exclusions, c.useLocalities) && kind in byClass
    requires TracksOngoing(ongoing, c.groups, c.exclusions, c.useLocalities)
    ensures multiset(picked) == AddressesOf(Chosen(c, now, kind))
    ensures blocked <==> Blocked(c, now, kind)
  {
    assert EntriesAt(byClass, kind) == WaitingEntries(c, kind);
    assert CountAt(ongoing, kind) == OngoingCount(c.groups, c.exclusions, c.useLocalities, kind);
    picked, blocked := ExcludeClass(c, kind, byClass[kind], CountAt(ongoing, kind), now);
    blocked := blocked && IsTransaction(kind);
  }

  method VisitClasses(c: Cluster, byClass: map<Class, seq<Entry>>, ongoing: map<Class, nat>, now: int)
    returns (addresses: seq<Address>, transactionSystemExclusionAllowed: bool)
    requires TracksEntries(byClass, c.groups, c.exclusions, c.useLocalities)
    requires TracksOngoing(ongoing, c.groups, c.exclusions, c.useLocalities)
    ensures multiset(addresses) == ChosenAddresses(c, now, byClass.Keys)
    ensures transactionSystemExclusionAllowed <==> !Gated(c, now, byClass.Keys)
  {
    addresses, transactionSystemExclusionAllowed := [], true;
    var todo := byClass.Keys;
    ghost var done: set<Class> := {};
    while todo != {}
      invariant todo + done == byClass.Keys
      invariant multiset(addresses) + ChosenAddresses(c, now, todo) == ChosenAddresses(c, now, byClass.Keys)
      invariant transactionSystemExclusionAllowed <==> !Gated(c, now, done)
    {
      var kind :| kind in todo;
      var picked, blocked := VisitClass(c, byClass, ongoing, kind, now);
      PickedStep(c, now, byClass.Keys, todo, kind, addresses, picked);
      GatedStep(c, now, done, kind);
      todo, done := todo - {kind}, done + {kind};
      if blocked {
        transactionSystemExclusionAllowed := false;
      }
      addresses := addresses + picked;
    }
  }

  lemma PickedStep(c: Cluster, now: int, kinds: set<Class>, todo: set<Class>, kind: Class, addresses: seq<Address>,
                   picked: seq<Address>)
    requires kind in todo && multiset(picked) == AddressesOf(Chosen(c, now, kind))
    requires multiset(addresses) + ChosenAddresses(c, now, todo) == ChosenAddresses(c, now, kinds)
    ensures multiset(addresses + picked) + ChosenAddresses(c, now, todo - {kind}) == ChosenAddresses(c, now, kinds)
  {
    ChosenAddressesRemove(c, now, todo, kind);
  }

  /** The pass over the classes. Whatever order the classes are visited in, the same addresses are chosen; and
      if a class of the transaction system has to wait then no class is excluded at all. */
  method ChooseExclusions(c: Cluster, now: int) returns (send: Option<seq<Address>>)
    ensures send.None? <==> Gated(c, now, WaitingClasses(c)) || ChosenAddresses(c, now, WaitingClasses(c)) == multiset{}
    ensures send.Some? ==> multiset(send.value) == ChosenAddresses(c, now, WaitingClasses(c))
  {
    var byClass, ongoing := GetProcessesToExclude(c.groups, c.exclusions, c.useLocalities);
    KeysAreWaiting(c, byClass);
    var addresses, transactionSystemExclusionAllowed := VisitClasses(c, byClass, ongoing, now);
    if |addresses| == 0 {
      return None;
    }
    assert multiset(addresses)[addresses[0]] > 0;
    if !transactionSystemExclusionAllowed {
      return None;
    }
    send := Some(addresses);
  }

  method TakeEntries(entries: seq<Entry>, n: nat) returns (addresses: seq<Address>)
    requires n <= |entries|
    ensures multiset(addresses) == AddressesOf(entries[..n])
  {
    addresses := [];
    for i := 0 to n
      invariant multiset(addresses) == AddressesOf(entries[..i])
    {
      assert entries[..i + 1][..i] == entries[..i];
      addresses := addresses + entries[i].addresses;
    }
  }

  lemma GatedStep(c: Cluster, now: int, kinds: set<Class>, kind: Class)
    ensures Gated(c, now, kinds + {kind}) <==> Gated(c, now, kinds) || Blocked(c, now, kind)
  {
    if Gated(c, now, kinds) {
      var k :| k in kinds && Blocked(c, now, k);
      assert k in kinds + {kind};
    }
    assert kind in kinds + {kind};
  }

  lemma {:induction false} EntriesNonEmpty(gs: seq<Group>, exclusions: set<Address>, useLocalities: bool, kind: Class)
    ensures EntriesOf(gs, exclusions, useLocalities, kind) != [] <==>
            exists i :: 0 <= i < |gs| && Waiting(gs[i], exclusions, useLocalities) && gs[i].kind == kind
  {
    if gs != [] {
      var n := |gs| - 1;
      EntriesNonEmpty(gs[..n], exclusions, useLocalities, kind);
      assert forall i :: 0 <= i < n ==> gs[..n][i] == gs[i];
      if i :| 0 <= i < n && Waiting(gs[..n][i], exclusions, useLocalities) && gs[..n][i].kind == kind {
        assert Waiting(gs[i], exclusions, useLocalities) && gs[i].kind == kind;
      }
    }
  }

  lemma KeysAreWaiting(c: Cluster, byClass: map<Class, seq<Entry>>)
    requires TracksEntries(byClass, c.groups, c.exclusions, c.useLocalities)
    ensures byClass.Keys == WaitingClasses(c)
  {
    forall kind ensures kind in byClass <==> kind in WaitingClasses(c) {
      EntriesNonEmpty(c.groups, c.exclusions, c.useLocalities, kind);
    }
  }
}
