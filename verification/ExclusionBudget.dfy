/** The exclusion budget: enough processes of a class stay in service, through any number of passes. */
module ExclusionBudget {
  import opened Basics
  import opened ProcessGroups
  import opened Exclusion
  import opened ExclusionStatus
  import opened Removal

  /** A process that counts for its class and is not being excluded. */
  predicate InService(c: Cluster, kind: Class, g: Group) {
    IsValid(g, kind, c.simulation) && !Ongoing(g, c.exclusions, c.useLocalities)
  }

  ghost function ChosenIds(c: Cluster, now: int, kind: Class): set<GroupId> {
    set i | 0 <= i < |Chosen(c, now, kind)| :: Chosen(c, now, kind)[i].id
  }

  ghost function ServiceCount(c: Cluster, kind: Class): nat {
    Count(c.groups, g => InService(c, kind, g))
  }

  /** Desired processes, less the ones the cluster can do without. */
  ghost predicate Budgeted(c: Cluster, kind: Class) {
    ServiceCount(c, kind) >= DesiredAt(c, kind) - c.faultTolerance
  }

  lemma {:induction false} OngoingIsCounted(gs: seq<Group>, exclusions: set<Address>, useLocalities: bool, kind: Class)
    ensures OngoingCount(gs, exclusions, useLocalities, kind)
            == Count(gs, g => Ongoing(g, exclusions, useLocalities) && g.kind == kind)
  {
    if gs != [] {
      OngoingIsCounted(gs[..|gs| - 1], exclusions, useLocalities, kind);
    }
  }

  lemma SetOfIds(es: seq<Entry>) returns (ids: set<GroupId>)
    ensures ids == (set i | 0 <= i < |es| :: es[i].id) && |ids| <= |es|
  {
    if es == [] {
      ids := {};
    } else {
      var front := es[..|es| - 1];
      var rest := SetOfIds(front);
      ids := rest + {es[|es| - 1].id};
      assert forall i :: 0 <= i < |front| ==> front[i] == es[i];
      forall id ensures id in ids <==> id in set i | 0 <= i < |es| :: es[i].id {
        if id in rest {
          var i :| 0 <= i < |front| && front[i].id == id;
          assert es[i].id == id;
        }
      }
      assert ids == set i | 0 <= i < |es| :: es[i].id;
    }
  }

  /** Different groups have different ids, so no more groups than ids. */
  lemma {:induction false} CountIds(gs: seq<Group>, ids: set<GroupId>)
    requires DistinctIds(gs)
    ensures Count(gs, (g: Group) => g.id in ids) <= |ids|
    decreases |gs|
  {
    if gs != [] {
      var n := |gs| - 1;
      var front, last := gs[..n], gs[n];
      var keep := (g: Group) => g.id in ids;
      if last.id in ids {
        var fewer := ids - {last.id};
        CountIds(front, fewer);
        CountMonotone(front, keep, (g: Group) => g.id in fewer);
      } else {
        CountIds(front, ids);
      }
    }
  }

  /** Whenever a pass picks groups of a class, the valid groups of that class that are neither being excluded nor
      picked number at least the desired count less the fault tolerance. */
  lemma PassRespectsBudget(c: Cluster, now: int, kind: Class)
    requires DistinctIds(c.groups) && Chosen(c, now, kind) != []
    ensures Count(c.groups, g => InService(c, kind, g) && g.id !in ChosenIds(c, now, kind))
            >= DesiredAt(c, kind) - c.faultTolerance
  {
    var ids := ChosenIds(c, now, kind);
    var gs := c.groups;
    var ids' := SetOfIds(Chosen(c, now, kind));
    assert ids' == ids;
    CountIds(gs, ids);
    OngoingIsCounted(gs, c.exclusions, c.useLocalities, kind);
    CountBound(gs, g => IsValid(g, kind, c.simulation),
               g => InService(c, kind, g) && g.id !in ids,
               g => Ongoing(g, c.exclusions, c.useLocalities) && g.kind == kind,
               (g: Group) => g.id in ids);
  }

  // ----- runs -----

  ghost predicate Picked(c: Cluster, now: int, kind: Class, a: Address) {
    exists i :: 0 <= i < |Chosen(c, now, kind)| && a in Chosen(c, now, kind)[i].addresses
  }

  lemma {:induction false} AddressesOfMember(es: seq<Entry>, a: Address)
    ensures a in AddressesOf(es) <==> exists i :: 0 <= i < |es| && a in es[i].addresses
  {
    if es != [] {
      var front := es[..|es| - 1];
      AddressesOfMember(front, a);
      if i :| 0 <= i < |front| && a in front[i].addresses {
        assert a in es[i].addresses;
      }
      if i :| 0 <= i < |es| && a in es[i].addresses {
        assert i < |front| ==> a in front[i].addresses;
      }
    }
  }

  /** What the pass sends is what it picked from some class. */
  lemma {:induction false} ChosenAddressesMember(c: Cluster, now: int, kinds: set<Class>, a: Address)
    ensures a in ChosenAddresses(c, now, kinds) <==> exists kind :: kind in kinds && Picked(c, now, kind, a)
    decreases |kinds|
  {
    if kinds != {} {
      var k :| k in kinds
          && ChosenAddresses(c, now, kinds) == AddressesOf(Chosen(c, now, k)) + ChosenAddresses(c, now, kinds - {k});
      ChosenAddressesMember(c, now, kinds - {k}, a);
      AddressesOfMember(Chosen(c, now, k), a);
      if kind :| kind in kinds && Picked(c, now, kind, a) {
        assert kind != k ==> kind in kinds - {k};
      }
    }
  }

  datatype Move =
    | ExcludePass(now: int)
    | RemovalPass(report: Report, coordinators: set<GroupId>, now: int)
    | Mark(i: nat)
    | Recover(i: nat)
    | ResetExclusion(i: nat)
    | Add(g: Group)
    | Drop(i: nat)
    | Include(kept: set<Address>)
    | Readdress(i: nat, addresses: seq<Address>)

  /** An exclusion of `a` concerns group `g`. */
  predicate Concerns(c: Cluster, a: Address, g: Group) {
    a == ExclusionString(g.id) || (!c.useLocalities && a in g.addresses)
  }

  ghost predicate Touched(c: Cluster, g: Group) {
    exists a :: a in c.exclusions && Concerns(c, a, g)
  }

  /** The group at `i` gets new addresses, none of which is excluded or belongs to another group; while it is marked for
      removal it keeps the old ones. */
  ghost predicate Readdressed(c: Cluster, i: nat, g: Group) {
    && i < |c.groups| && g == c.groups[i].(addresses := g.addresses)
    && (forall a :: a in g.addresses && a !in c.groups[i].addresses ==> a !in c.exclusions)
    && (c.groups[i].marked ==> forall a :: a in c.groups[i].addresses ==> a in g.addresses)
    && (forall a :: a in g.addresses ==> a != ExclusionString(g.id))
    && (forall j :: 0 <= j < |c.groups| && j != i ==> OwnAddresses(g, c.groups[j]) && OwnAddresses(c.groups[j], g))
  }

  function Marked(c: Cluster, i: nat): Cluster
    requires i < |c.groups|
  {
    c.(groups := c.groups[i := c.groups[i].(marked := true)])
  }

  /** The cluster after the checks of a removal pass. */
  function Checked(c: Cluster, report: Report): Cluster {
    c.(exclusions := c.exclusions + Written(c.groups, report))
  }

  /** The cluster after a removal pass, up to the point where groups are dropped. */
  function AfterRemoval(c: Cluster, report: Report, coordinators: set<GroupId>, now: int): Cluster {
    if CheckFails(c.groups, report) then Checked(c, report)
    else Checked(c, report).(groups := RecordedAll(c.groups, RemainingOf(c.groups, report), coordinators, now))
  }

  /** Marking this group does not count as the start of its exclusion: it is excluded by locality, has an address, or
      does not count anyway. */
  predicate MayMark(c: Cluster, g: Group) {
    g.marked || c.useLocalities || g.addresses != [] || g.kind == TEST || Missing(g, c.simulation)
  }

  /** The exclude commands of a removal pass do not write all entries that this group waits for: the status shows a
      process at one of them that is not excluded or has a role, or cannot be trusted, or no command is issued. */
  ghost predicate Spared(c: Cluster, report: Report, g: Group) {
    !report.checkable
      || exists a :: a in EntryFor(g, c.exclusions, c.useLocalities).addresses && !Commanded(report, a)
  }

  /** A removal pass spares every group that counts and waits for its exclusion. */
  ghost predicate ChecksSpare(c: Cluster, report: Report) {
    forall i :: 0 <= i < |c.groups| && CountsAndWaits(c, c.groups[i]) ==> Spared(c, report, c.groups[i])
  }

  predicate CountsAndWaits(c: Cluster, g: Group) {
    Waiting(g, c.exclusions, c.useLocalities) && !Missing(g, c.simulation)
  }

  /** What can happen while no process fails and nobody else excludes processes. `MarkTheorem` and `RemovalTheorem` show
      that groups can be marked, and removal passes happen, in no other case without taking a process out of service. */
  ghost predicate Step(c: Cluster, m: Move, c': Cluster) {
    var gs := c.groups;
    match m
    case ExcludePass(now) =>
      if Gated(c, now, WaitingClasses(c)) then c' == c
      else
        && c' == c.(exclusions := c'.exclusions)
        && forall a :: a in c'.exclusions <==> a in c.exclusions || a in ChosenAddresses(c, now, WaitingClasses(c))
    case RemovalPass(report, coordinators, now) =>
      && report.useLocalities == c.useLocalities && ChecksSpare(c, report)
      && c' == AfterRemoval(c, report, coordinators, now)
    case Mark(i) => i < |gs| && MayMark(c, gs[i]) && c' == Marked(c, i)
    case Recover(i) => i < |gs| && c' == c.(groups := gs[i := gs[i].(missingSince := None)])
    case ResetExclusion(i) => i < |gs| && c' == c.(groups := gs[i := gs[i].(excludedAt := None)])
    case Add(g) =>
      && !HasId(gs, g.id) && ExclusionString(g.id) !in c.exclusions && !g.marked && !IsExcluded(g) && g.addresses == []
      && (forall j :: 0 <= j < |gs| ==> OwnAddresses(gs[j], g))
      && c' == c.(groups := gs + [g])
    case Drop(i) => i < |gs| && gs[i].marked && IsExcluded(gs[i]) && c' == c.(groups := gs[..i] + gs[i + 1..])
    case Include(kept) => c' == c.(exclusions := c.exclusions * kept)
    case Readdress(i, addresses) =>
      i < |gs| && Readdressed(c, i, gs[i].(addresses := addresses))
          && c' == c.(groups := gs[i := gs[i].(addresses := addresses)])
  }

  /** Groups have their own ids and addresses, and only groups marked for removal are excluded. */
  ghost predicate Sound(c: Cluster) {
    && AllOwnAddresses(c.groups)
    && (forall i :: 0 <= i < |c.groups| && Touched(c, c.groups[i]) ==> c.groups[i].marked)
    && (forall i :: 0 <= i < |c.groups| && IsExcluded(c.groups[i]) ==> c.groups[i].marked)
  }

  lemma {:induction false} CountPointwise(gs: seq<Group>, gs': seq<Group>, p: Group -> bool, q: Group -> bool)
    requires |gs| == |gs'| && forall i :: 0 <= i < |gs| && p(gs[i]) ==> q(gs'[i])
    ensures Count(gs, p) <= Count(gs', q)
  {
    if gs != [] {
      CountPointwise(gs[..|gs| - 1], gs'[..|gs'| - 1], p, q);
    }
  }

  lemma {:induction false} CountWithout(gs: seq<Group>, i: nat, p: Group -> bool)
    requires i < |gs| && !p(gs[i])
    ensures Count(gs[..i] + gs[i + 1..], p) == Count(gs, p)
  {
    var n := |gs| - 1;
    if i < n {
      CountWithout(gs[..n], i, p);
      var rest := gs[..i] + gs[i + 1..];
      assert rest[..|rest| - 1] == gs[..n][..i] + gs[..n][i + 1..];
      assert rest[|rest| - 1] == gs[n];
    } else {
      assert gs[..i] + gs[i + 1..] == gs[..n];
    }
  }

  lemma {:induction false} EntriesAreGroups(gs: seq<Group>, exclusions: set<Address>, useLocalities: bool, kind: Class,
                                            k: nat)
    returns (i: nat)
    requires k < |EntriesOf(gs, exclusions, useLocalities, kind)|
    ensures i < |gs| && gs[i].kind == kind && Waiting(gs[i], exclusions, useLocalities)
    ensures EntriesOf(gs, exclusions, useLocalities, kind)[k] == EntryFor(gs[i], exclusions, useLocalities)
  {
    var n := |gs| - 1;
    if k < |EntriesOf(gs[..n], exclusions, useLocalities, kind)| {
      i := EntriesAreGroups(gs[..n], exclusions, useLocalities, kind, k);
    } else {
      i := n;
    }
  }

  lemma ConcernsOneGroup(c: Cluster, a: Address, i: nat, j: nat)
    requires Sound(c) && i < |c.groups| && j < |c.groups| && Concerns(c, a, c.groups[i])
    requires a in EntryFor(c.groups[j], c.exclusions, c.useLocalities).addresses
    ensures i == j
  {
    NotExcludedYetEmpty(c.groups[j].addresses, c.exclusions);
    if i != j {
      assert OwnAddresses(c.groups[j], c.groups[i]);
      if c.useLocalities {
        ExclusionStringInjective(c.groups[j].id, c.groups[i].id);
      }
    }
  }

  /** Only groups that were picked are concerned by what is sent. */
  lemma SentIsChosen(c: Cluster, now: int, i: nat, a: Address)
    requires Sound(c) && i < |c.groups| && Concerns(c, a, c.groups[i])
             && a in ChosenAddresses(c, now, WaitingClasses(c))
    ensures c.groups[i].marked && c.groups[i].id in ChosenIds(c, now, c.groups[i].kind)
  {
    ChosenAddressesMember(c, now, WaitingClasses(c), a);
    var kind :| kind in WaitingClasses(c) && Picked(c, now, kind, a);
    var k :| 0 <= k < |Chosen(c, now, kind)| && a in Chosen(c, now, kind)[k].addresses;
    var j := EntriesAreGroups(c.groups, c.exclusions, c.useLocalities, kind, k);
    assert Chosen(c, now, kind)[k] == WaitingEntries(c, kind)[k];
    ConcernsOneGroup(c, a, i, j);
  }

  lemma NewlyTouched(c: Cluster, now: int, c': Cluster, i: nat)
    requires Sound(c) && Step(c, ExcludePass(now), c') && !Gated(c, now, WaitingClasses(c)) && i < |c.groups|
    requires Touched(c', c.groups[i]) && !Touched(c, c.groups[i])
    ensures c.groups[i].marked && c.groups[i].id in ChosenIds(c, now, c.groups[i].kind)
  {
    var a :| a in c'.exclusions && Concerns(c', a, c.groups[i]);
    assert a !in c.exclusions;
    SentIsChosen(c, now, i, a);
  }

  /** A group whose exclusion starts with this pass was picked. */
  lemma StartedIsChosen(c: Cluster, now: int, c': Cluster, i: nat)
    requires Sound(c) && Step(c, ExcludePass(now), c') && !Gated(c, now, WaitingClasses(c)) && i < |c.groups|
    requires Ongoing(c.groups[i], c'.exclusions, c.useLocalities)
             && !Ongoing(c.groups[i], c.exclusions, c.useLocalities)
    ensures c.groups[i].id in ChosenIds(c, now, c.groups[i].kind)
  {
    var g := c.groups[i];
    var a := ExclusionString(g.id);
    if a !in c'.exclusions {
      var k :| 0 <= k < |g.addresses| && g.addresses[k] !in c.exclusions;
      a := g.addresses[k];
    }
    SentIsChosen(c, now, i, a);
  }

  lemma PassKeepsSound(c: Cluster, now: int, c': Cluster)
    requires Sound(c) && Step(c, ExcludePass(now), c')
    ensures Sound(c')
  {
    if !Gated(c, now, WaitingClasses(c)) {
      forall i | 0 <= i < |c.groups| && Touched(c', c.groups[i]) ensures c.groups[i].marked {
        if !Touched(c, c.groups[i]) {
          NewlyTouched(c, now, c', i);
        }
      }
    }
  }

  lemma ExcludePassKeeps(c: Cluster, now: int, c': Cluster, kind: Class)
    requires Sound(c) && Step(c, ExcludePass(now), c') && !Gated(c, now, WaitingClasses(c))
    requires Budgeted(c, kind) || Chosen(c, now, kind) != []
    ensures Budgeted(c', kind)
  {
    var before := (g: Group) => InService(c, kind, g) && g.id !in ChosenIds(c, now, kind);
    forall i | 0 <= i < |c.groups| && before(c.groups[i]) ensures InService(c', kind, c'.groups[i]) {
      if Ongoing(c.groups[i], c'.exclusions, c.useLocalities) {
        StartedIsChosen(c, now, c', i);
      }
    }
    CountPointwise(c.groups, c'.groups, before, g => InService(c', kind, g));
    if Chosen(c, now, kind) != [] {
      PassRespectsBudget(c, now, kind);
    } else {
      CountPointwise(c.groups, c.groups, g => InService(c, kind, g), before);
    }
  }

  lemma UpdateKeeps(c: Cluster, i: nat, g: Group, kind: Class)
    requires i < |c.groups| && (InService(c, kind, c.groups[i]) ==> InService(c, kind, g))
    ensures ServiceCount(c.(groups := c.groups[i := g]), kind) >= ServiceCount(c, kind)
  {
    var c' := c.(groups := c.groups[i := g]);
    CountPointwise(c.groups, c'.groups, g => InService(c, kind, g), g => InService(c', kind, g));
  }

  lemma AddKeeps(c: Cluster, g: Group, kind: Class)
    ensures ServiceCount(c.(groups := c.groups + [g]), kind) >= ServiceCount(c, kind)
  {
    var c' := c.(groups := c.groups + [g]);
    var p, q := (g: Group) => InService(c, kind, g), (g: Group) => InService(c', kind, g);
    assert c'.groups[..|c.groups|] == c.groups && c'.groups[..|c.groups| + 1] == c'.groups;
    CountPointwise(c.groups, c.groups, p, q);
    FilterPrefix(c'.groups, |c.groups|, q);
  }

  lemma DropKeeps(c: Cluster, i: nat, kind: Class)
    requires i < |c.groups| && c.groups[i].marked && IsExcluded(c.groups[i])
    ensures ServiceCount(c.(groups := c.groups[..i] + c.groups[i + 1..]), kind) >= ServiceCount(c, kind)
  {
    var c' := c.(groups := c.groups[..i] + c.groups[i + 1..]);
    var p, q := (g: Group) => InService(c, kind, g), (g: Group) => InService(c', kind, g);
    CountWithout(c.groups, i, p);
    CountPointwise(c'.groups, c'.groups, p, q);
  }

  lemma IncludeKeeps(c: Cluster, kept: set<Address>, kind: Class)
    ensures ServiceCount(c.(exclusions := c.exclusions * kept), kind) >= ServiceCount(c, kind)
  {
    var c' := c.(exclusions := c.exclusions * kept);
    CountPointwise(c.groups, c'.groups, g => InService(c, kind, g), g => InService(c', kind, g));
  }

  /** Marking a group does not start its exclusion. */
  lemma MarkKeepsService(c: Cluster, i: nat, kind: Class)
    requires Sound(c) && i < |c.groups| && MayMark(c, c.groups[i]) && InService(c, kind, c.groups[i])
    ensures InService(c, kind, c.groups[i].(marked := true))
  {
    var g := c.groups[i];
    if !g.marked {
      assert forall a :: Concerns(c, a, g) ==> a !in c.exclusions;
      assert !c.useLocalities && g.addresses != [] ==> Concerns(c, g.addresses[0], g);
      assert Concerns(c, ExclusionString(g.id), g);
    }
  }

  lemma ReaddressKeepsService(c: Cluster, i: nat, g: Group, kind: Class)
    requires Sound(c) && Readdressed(c, i, g) && InService(c, kind, c.groups[i])
    ensures InService(c, kind, g)
  {
    if Candidate(g) && !c.useLocalities {
      var k :| 0 <= k < |c.groups[i].addresses| && c.groups[i].addresses[k] !in c.exclusions;
      assert c.groups[i].addresses[k] in g.addresses;
    }
  }

  lemma MarkKeeps(c: Cluster, i: nat, kind: Class)
    requires Sound(c) && i < |c.groups| && MayMark(c, c.groups[i])
    ensures ServiceCount(Marked(c, i), kind) >= ServiceCount(c, kind)
  {
    if InService(c, kind, c.groups[i]) {
      MarkKeepsService(c, i, kind);
    }
    UpdateKeeps(c, i, c.groups[i].(marked := true), kind);
  }

  lemma ReaddressKeeps(c: Cluster, i: nat, g: Group, kind: Class)
    requires Sound(c) && Readdressed(c, i, g)
    ensures ServiceCount(c.(groups := c.groups[i := g]), kind) >= ServiceCount(c, kind)
  {
    if InService(c, kind, c.groups[i]) {
      ReaddressKeepsService(c, i, g, kind);
    }
    UpdateKeeps(c, i, g, kind);
  }

  /** Moves that change a single group. */
  predicate OneGroup(m: Move) {
    m.Mark? || m.Recover? || m.ResetExclusion? || m.Readdress?
  }

  lemma GroupMovesKeep(c: Cluster, m: Move, c': Cluster, kind: Class)
    requires Sound(c) && Step(c, m, c') && OneGroup(m)
    ensures ServiceCount(c', kind) >= ServiceCount(c, kind)
  {
    match m
    case Mark(i) => MarkKeeps(c, i, kind);
    case Recover(i) => UpdateKeeps(c, i, c.groups[i].(missingSince := None), kind);
    case ResetExclusion(i) => UpdateKeeps(c, i, c.groups[i].(excludedAt := None), kind);
    case Readdress(i, addresses) => ReaddressKeeps(c, i, c.groups[i].(addresses := addresses), kind);
  }

  lemma OtherMovesKeep(c: Cluster, m: Move, c': Cluster, kind: Class)
    requires Sound(c) && Step(c, m, c') && !m.ExcludePass? && Budgeted(c, kind) && kind != TEST
    ensures Budgeted(c', kind)
  {
    if OneGroup(m) {
      GroupMovesKeep(c, m, c', kind);
    } else {
      ListMovesKeep(c, m, c', kind);
    }
  }

  lemma ListMovesKeep(c: Cluster, m: Move, c': Cluster, kind: Class)
    requires Sound(c) && Step(c, m, c') && !m.ExcludePass? && !OneGroup(m) && kind != TEST
    ensures ServiceCount(c', kind) >= ServiceCount(c, kind)
  {
    match m
    case Add(g) => AddKeeps(c, g, kind);
    case Drop(i) => DropKeeps(c, i, kind);
    case Include(kept) => IncludeKeeps(c, kept, kind);
    case RemovalPass(report, coordinators, now) => RemovalKeeps(c, report, coordinators, now, kind);
  }

  // ----- for exactly which groups marking and completing keep all processes in service -----

  lemma {:induction false} CountDrops(gs: seq<Group>, gs': seq<Group>, p: Group -> bool, q: Group -> bool, i: nat)
    requires |gs| == |gs'| && i < |gs| && p(gs[i]) && !q(gs'[i])
    requires forall j :: 0 <= j < |gs| && j != i ==> (p(gs[j]) <==> q(gs'[j]))
    ensures Count(gs', q) == Count(gs, p) - 1
  {
    var n := |gs| - 1;
    if i < n {
      CountDrops(gs[..n], gs'[..n], p, q, i);
    } else {
      CountPointwise(gs[..n], gs'[..n], p, q);
      CountPointwise(gs'[..n], gs[..n], q, p);
    }
  }

  /** Replacing a group that is in service by one that is not costs its class one process. */
  lemma UpdateDrops(c: Cluster, i: nat, g: Group, kind: Class)
    requires i < |c.groups| && InService(c, kind, c.groups[i]) && !InService(c, kind, g)
    ensures ServiceCount(c.(groups := c.groups[i := g]), kind) == ServiceCount(c, kind) - 1
  {
    var c' := c.(groups := c.groups[i := g]);
    CountDrops(c.groups, c'.groups, g => InService(c, kind, g), g => InService(c', kind, g), i);
  }

  ghost predicate KeepsService(c: Cluster, c': Cluster) {
    forall kind :: ServiceCount(c', kind) >= ServiceCount(c, kind)
  }

  lemma MarkTheorem(c: Cluster, i: nat)
    requires Sound(c) && i < |c.groups|
    ensures KeepsService(c, Marked(c, i)) <==> MayMark(c, c.groups[i])
    ensures !MayMark(c, c.groups[i]) ==>
              ServiceCount(Marked(c, i), c.groups[i].kind) == ServiceCount(c, c.groups[i].kind) - 1
  {
    var g, g' := c.groups[i], c.groups[i].(marked := true);
    if MayMark(c, g) {
      forall kind ensures ServiceCount(Marked(c, i), kind) >= ServiceCount(c, kind) {
        MarkKeeps(c, i, kind);
      }
    } else {
      UpdateDrops(c, i, g', g.kind);
    }
  }

  // ----- removal passes -----

  /** Exactly the waiting groups that are not spared count as being excluded after the checks. */
  lemma StartedByChecks(c: Cluster, report: Report, i: nat)
    requires Sound(c) && report.useLocalities == c.useLocalities && i < |c.groups|
    requires Waiting(c.groups[i], c.exclusions, c.useLocalities)
    ensures Ongoing(c.groups[i], Checked(c, report).exclusions, c.useLocalities) <==> !Spared(c, report, c.groups[i])
  {
    var g := c.groups[i];
    OwnChecks(c.groups, report, i, ExclusionString(g.id));
    if !c.useLocalities {
      NotExcludedYetEmpty(g.addresses, c.exclusions);
      forall a | a in g.addresses && a !in c.exclusions
        ensures a in Checked(c, report).exclusions <==> report.checkable && Commanded(report, a)
      {
        OwnChecks(c.groups, report, i, a);
      }
      AddressesStarted(c, report, g);
    }
  }

  lemma AddressesStarted(c: Cluster, report: Report, g: Group)
    requires !c.useLocalities && Waiting(g, c.exclusions, false)
    requires forall a :: a in g.addresses && a !in c.exclusions ==>
               (a in Checked(c, report).exclusions <==> report.checkable && Commanded(report, a))
    ensures AllIn(g.addresses, Checked(c, report).exclusions) <==> !Spared(c, report, g)
  {
    NotExcludedYetEmpty(g.addresses, c.exclusions);
    var k :| 0 <= k < |g.addresses| && g.addresses[k] !in c.exclusions;
    assert g.addresses[k] in EntryFor(g, c.exclusions, false).addresses;
    if !Spared(c, report, g) {
      forall h | 0 <= h < |g.addresses| ensures g.addresses[h] in Checked(c, report).exclusions {
        assert g.addresses[h] !in c.exclusions ==> g.addresses[h] in EntryFor(g, c.exclusions, false).addresses;
      }
    } else if report.checkable {
      var a :| a in EntryFor(g, c.exclusions, false).addresses && !Commanded(report, a);
      var h :| 0 <= h < |g.addresses| && g.addresses[h] == a;
    }
  }

  /** What a removal pass records as excluded, its checks have written to the exclusion list. */
  lemma RemovableIsStarted(c: Cluster, report: Report, i: nat, coordinators: set<GroupId>, now: int)
    requires Sound(c) && report.useLocalities == c.useLocalities && i < |c.groups| && !CheckFails(c.groups, report)
    requires Removable(c.groups[i], RemainingOf(c.groups, report), coordinators, now)
    requires !IsExcluded(c.groups[i]) && c.groups[i].kind != TEST
    ensures Ongoing(c.groups[i], Checked(c, report).exclusions, c.useLocalities)
  {
    var g, remaining := c.groups[i], RemainingOf(c.groups, report);
    OwnChecks(c.groups, report, i, ExclusionString(g.id));
    if c.useLocalities {
      CheckedIsExcluded(report, Checks(c.groups, report), ExclusionString(g.id));
    } else {
      forall k | 0 <= k < |g.addresses| ensures g.addresses[k] in Checked(c, report).exclusions {
        OwnChecks(c.groups, report, i, g.addresses[k]);
        CheckedIsExcluded(report, Checks(c.groups, report), g.addresses[k]);
      }
    }
  }

  /** A group in service that the checks spare is in service after the pass. */
  lemma SparedStays(c: Cluster, report: Report, coordinators: set<GroupId>, now: int, i: nat, kind: Class)
    requires Sound(c) && report.useLocalities == c.useLocalities && i < |c.groups| && kind != TEST
    requires InService(c, kind, c.groups[i])
    requires Waiting(c.groups[i], c.exclusions, c.useLocalities) ==> Spared(c, report, c.groups[i])
    ensures var c' := AfterRemoval(c, report, coordinators, now); InService(c', kind, c'.groups[i])
  {
    var g := c.groups[i];
    if Waiting(g, c.exclusions, c.useLocalities) {
      StartedByChecks(c, report, i);
      if !CheckFails(c.groups, report) && Removable(g, RemainingOf(c.groups, report), coordinators, now) {
        RemovableIsStarted(c, report, i, coordinators, now);
      }
    }
  }

  lemma RemovalKeeps(c: Cluster, report: Report, coordinators: set<GroupId>, now: int, kind: Class)
    requires Sound(c) && report.useLocalities == c.useLocalities && ChecksSpare(c, report) && kind != TEST
    ensures ServiceCount(AfterRemoval(c, report, coordinators, now), kind) >= ServiceCount(c, kind)
  {
    var c' := AfterRemoval(c, report, coordinators, now);
    forall i: nat | i < |c.groups| && InService(c, kind, c.groups[i]) ensures InService(c', kind, c'.groups[i]) {
      SparedStays(c, report, coordinators, now, i, kind);
    }
    CountPointwise(c.groups, c'.groups, g => InService(c, kind, g), g => InService(c', kind, g));
  }

  /** A removal pass puts nothing back into service. */
  lemma RemovalAddsNothing(c: Cluster, report: Report, coordinators: set<GroupId>, now: int, i: nat, kind: Class)
    requires i < |c.groups|
    ensures var c' := AfterRemoval(c, report, coordinators, now);
            InService(c', kind, c'.groups[i]) ==> InService(c, kind, c.groups[i])
  {
    var c' := AfterRemoval(c, report, coordinators, now);
    assert c'.groups[i] != c.groups[i] ==> c'.groups[i].marked && IsExcluded(c'.groups[i]);
    assert Ongoing(c.groups[i], c.exclusions, c.useLocalities) ==> Ongoing(c.groups[i], c'.exclusions, c.useLocalities);
  }

  lemma {:induction false} CountFewer(gs: seq<Group>, gs': seq<Group>, p: Group -> bool, q: Group -> bool, i: nat)
    requires |gs| == |gs'| && i < |gs| && p(gs[i]) && !q(gs'[i])
    requires forall j :: 0 <= j < |gs| && q(gs'[j]) ==> p(gs[j])
    ensures Count(gs', q) < Count(gs, p)
  {
    var n := |gs| - 1;
    if i < n {
      CountFewer(gs[..n], gs'[..n], p, q, i);
    } else {
      CountPointwise(gs'[..n], gs[..n], q, p);
    }
  }

  lemma NotSpared(c: Cluster, report: Report, coordinators: set<GroupId>, now: int, i: nat)
    requires Sound(c) && report.useLocalities == c.useLocalities && i < |c.groups|
    requires CountsAndWaits(c, c.groups[i]) && !Spared(c, report, c.groups[i])
    ensures ServiceCount(AfterRemoval(c, report, coordinators, now), c.groups[i].kind)
            < ServiceCount(c, c.groups[i].kind)
  {
    var c', kind := AfterRemoval(c, report, coordinators, now), c.groups[i].kind;
    StartedByChecks(c, report, i);
    forall j: nat | j < |c.groups| && InService(c', kind, c'.groups[j]) ensures InService(c, kind, c.groups[j]) {
      RemovalAddsNothing(c, report, coordinators, now, j, kind);
    }
    CountFewer(c.groups, c'.groups, g => InService(c, kind, g), g => InService(c', kind, g), i);
  }

  /** A removal pass takes no process out of service, testers aside, exactly if its checks spare every group that counts
      and waits for its exclusion. Recording exclusions as complete costs nothing. */
  lemma RemovalTheorem(c: Cluster, report: Report, coordinators: set<GroupId>, now: int)
    requires Sound(c) && report.useLocalities == c.useLocalities
    ensures var c' := AfterRemoval(c, report, coordinators, now);
            ChecksSpare(c, report) <==> forall kind :: kind != TEST ==> ServiceCount(c', kind) >= ServiceCount(c, kind)
  {
    if ChecksSpare(c, report) {
      forall kind | kind != TEST
        ensures ServiceCount(AfterRemoval(c, report, coordinators, now), kind) >= ServiceCount(c, kind)
      {
        RemovalKeeps(c, report, coordinators, now, kind);
      }
    } else {
      var i: nat :| i < |c.groups| && CountsAndWaits(c, c.groups[i]) && !Spared(c, report, c.groups[i]);
      NotSpared(c, report, coordinators, now, i);
    }
  }

  // ----- the bound over whole runs -----

  ghost predicate Run(cs: seq<Cluster>, ms: seq<Move>) {
    |cs| == |ms| + 1 && forall i :: 0 <= i < |ms| ==> Step(cs[i], ms[i], cs[i + 1])
  }

  /** A pass that excludes groups of this class. */
  ghost predicate ExcludesClass(c: Cluster, m: Move, kind: Class) {
    m.ExcludePass? && !Gated(c, m.now, WaitingClasses(c)) && Chosen(c, m.now, kind) != []
  }

  /** Every step keeps the bound, and a pass that excludes groups of the class establishes it. */
  lemma StepKeepsBudget(c: Cluster, m: Move, c': Cluster, kind: Class)
    requires Sound(c) && Step(c, m, c') && (Budgeted(c, kind) || ExcludesClass(c, m, kind)) && kind != TEST
    ensures Budgeted(c', kind)
  {
    if m.ExcludePass? {
      if !Gated(c, m.now, WaitingClasses(c)) {
        ExcludePassKeeps(c, m.now, c', kind);
      }
    } else {
      OtherMovesKeep(c, m, c', kind);
    }
  }

  /** From the first pass that excludes groups of a class on, enough of its processes stay in service. */
  lemma BudgetSurvives(cs: seq<Cluster>, ms: seq<Move>, k: nat, n: nat, kind: Class)
    requires Run(cs, ms) && Sound(cs[0]) && k < n <= |ms| && ExcludesClass(cs[k], ms[k], kind)
    ensures WithinBudget(cs[n], kind)
  {
    RunIsSound(cs, ms, k);
    NeverTesters(cs[k], ms[k].now, kind);
    BudgetStep(cs, ms, k, kind);
    BudgetPreserved(cs, ms, k, n, kind);
    Preserved(cs, BudgetOf(kind), k + 1, n);
  }

  ghost function BudgetOf(kind: Class): Cluster -> bool {
    c => WithinBudget(c, kind)
  }

  lemma BudgetPreserved(cs: seq<Cluster>, ms: seq<Move>, k: nat, n: nat, kind: Class)
    requires Run(cs, ms) && k < n <= |ms| && kind != TEST
    ensures forall i, j :: k < i && j == i + 1 && j <= n && BudgetOf(kind)(cs[i]) ==> BudgetOf(kind)(cs[j])
  {
    forall i: nat, j | k < i && j == i + 1 && j <= n && BudgetOf(kind)(cs[i]) ensures BudgetOf(kind)(cs[j]) {
      BudgetStep(cs, ms, i, kind);
    }
  }

  lemma NeverTesters(c: Cluster, now: int, kind: Class)
    requires Chosen(c, now, kind) != []
    ensures kind != TEST
  {
    var i := EntriesAreGroups(c.groups, c.exclusions, c.useLocalities, kind, 0);
  }

  ghost predicate WithinBudget(c: Cluster, kind: Class) {
    Sound(c) && Budgeted(c, kind)
  }

  lemma BudgetStep(cs: seq<Cluster>, ms: seq<Move>, i: nat, kind: Class)
    requires Run(cs, ms) && i < |ms| && Sound(cs[i]) && kind != TEST
    requires Budgeted(cs[i], kind) || ExcludesClass(cs[i], ms[i], kind)
    ensures WithinBudget(cs[i + 1], kind)
  {
    RunStep(cs, ms, i);
    StepKeepsBudget(cs[i], ms[i], cs[i + 1], kind);
    StepKeepsSound(cs[i], ms[i], cs[i + 1]);
  }

  lemma {:induction false} Preserved<T>(cs: seq<T>, ok: T -> bool, k: nat, n: nat)
    requires k <= n < |cs| && ok(cs[k])
    requires forall i, j :: k <= i && j == i + 1 && j <= n && ok(cs[i]) ==> ok(cs[j])
    ensures ok(cs[n])
    decreases n
  {
    if k < n {
      Preserved(cs, ok, k, n - 1);
    }
  }

  lemma RunStep(cs: seq<Cluster>, ms: seq<Move>, i: nat)
    requires Run(cs, ms) && i < |ms|
    ensures Step(cs[i], ms[i], cs[i + 1])
  {
  }

  lemma {:induction false} RunIsSound(cs: seq<Cluster>, ms: seq<Move>, n: nat)
    requires Run(cs, ms) && Sound(cs[0]) && n < |cs|
    ensures Sound(cs[n])
  {
    if n > 0 {
      RunIsSound(cs, ms, n - 1);
      assert Step(cs[n - 1], ms[n - 1], cs[n - 1 + 1]);
      StepKeepsSound(cs[n - 1], ms[n - 1], cs[n]);
    }
  }

  /** A group changes without becoming concerned by further exclusions. */
  lemma ChangeKeepsSound(c: Cluster, i: nat, g: Group)
    requires Sound(c) && i < |c.groups| && g.id == c.groups[i].id && g.addresses == c.groups[i].addresses
    requires (c.groups[i].marked ==> g.marked) && (IsExcluded(g) ==> g.marked)
    ensures Sound(c.(groups := c.groups[i := g]))
  {
    SameEntriesSound(c, c.groups[i := g]);
  }

  lemma ReaddressKeepsSound(c: Cluster, i: nat, g: Group)
    requires Sound(c) && Readdressed(c, i, g)
    ensures Sound(c.(groups := c.groups[i := g]))
  {
    var c' := c.(groups := c.groups[i := g]);
    forall j | 0 <= j < |c.groups| && Touched(c', c'.groups[j]) ensures Touched(c, c.groups[j]) {
      var a :| a in c'.exclusions && Concerns(c', a, c'.groups[j]);
      assert Concerns(c, a, c.groups[j]);
    }
    forall j, k | 0 <= j < |c.groups| && 0 <= k < |c.groups| && j != k
      ensures OwnAddresses(c'.groups[j], c'.groups[k])
    {
      assert OwnAddresses(c.groups[j], c.groups[k]);
    }
  }

  lemma AddKeepsSound(c: Cluster, g: Group, c': Cluster)
    requires Sound(c) && Step(c, Add(g), c')
    ensures Sound(c')
  {
    forall j | 0 <= j < |c'.groups| && Touched(c', c'.groups[j]) ensures c'.groups[j].marked {
      var a :| a in c'.exclusions && Concerns(c', a, c'.groups[j]);
      if j < |c.groups| {
        assert Concerns(c, a, c.groups[j]);
      }
    }
    forall j, k | 0 <= j < |c'.groups| && 0 <= k < |c'.groups| && j != k
      ensures OwnAddresses(c'.groups[j], c'.groups[k])
    {
      if j < |c.groups| && k < |c.groups| {
        assert OwnAddresses(c.groups[j], c.groups[k]);
      }
    }
  }

  lemma DropKeepsSound(c: Cluster, i: nat, c': Cluster)
    requires Sound(c) && Step(c, Drop(i), c')
    ensures Sound(c')
  {
    assert forall j :: 0 <= j < |c'.groups| ==> c'.groups[j] == c.groups[if j < i then j else j + 1];
    forall j | 0 <= j < |c'.groups| && Touched(c', c'.groups[j]) ensures c'.groups[j].marked {
      var a :| a in c'.exclusions && Concerns(c', a, c'.groups[j]);
      assert Concerns(c, a, c.groups[if j < i then j else j + 1]);
      assert Touched(c, c.groups[if j < i then j else j + 1]);
    }
    forall j, k | 0 <= j < |c'.groups| && 0 <= k < |c'.groups| && j != k
      ensures OwnAddresses(c'.groups[j], c'.groups[k])
    {
      assert OwnAddresses(c.groups[if j < i then j else j + 1], c.groups[if k < i then k else k + 1]);
    }
  }

  lemma IncludeKeepsSound(c: Cluster, kept: set<Address>)
    requires Sound(c)
    ensures Sound(c.(exclusions := c.exclusions * kept))
  {
    var c' := c.(exclusions := c.exclusions * kept);
    forall j | 0 <= j < |c.groups| && Touched(c', c.groups[j]) ensures Touched(c, c.groups[j]) {
      var a :| a in c'.exclusions && Concerns(c', a, c.groups[j]);
      assert a in c.exclusions && Concerns(c, a, c.groups[j]);
    }
  }

  lemma WrittenIsMarked(c: Cluster, report: Report, i: nat, a: Address)
    requires Sound(c) && i < |c.groups| && Concerns(c, a, c.groups[i]) && a in Written(c.groups, report)
    ensures c.groups[i].marked
  {
    ChecksMember(c.groups, report, a);
    var j: nat :| j < |c.groups| && a in ChecksOf(c.groups[j], report);
    OwnEntry(c.groups, i, j, a);
  }

  lemma RemovalKeepsSound(c: Cluster, report: Report, coordinators: set<GroupId>, now: int)
    requires Sound(c)
    ensures Sound(AfterRemoval(c, report, coordinators, now))
  {
    ChecksKeepSound(c, report);
    if !CheckFails(c.groups, report) {
      SameEntriesSound(Checked(c, report), AfterRemoval(c, report, coordinators, now).groups);
    }
  }

  lemma ChecksKeepSound(c: Cluster, report: Report)
    requires Sound(c)
    ensures Sound(Checked(c, report))
  {
    var c' := Checked(c, report);
    forall i | 0 <= i < |c.groups| && Touched(c', c.groups[i]) ensures c.groups[i].marked {
      var a :| a in c'.exclusions && Concerns(c', a, c.groups[i]);
      assert Concerns(c, a, c.groups[i]);
      if a in Written(c.groups, report) {
        WrittenIsMarked(c, report, i, a);
      } else {
        assert Touched(c, c.groups[i]);
      }
    }
  }

  /** Groups change without changing what the exclusion list says about them. */
  lemma SameEntriesSound(c: Cluster, gs: seq<Group>)
    requires Sound(c) && |gs| == |c.groups|
    requires forall i :: 0 <= i < |gs| ==> gs[i].id == c.groups[i].id && gs[i].addresses == c.groups[i].addresses
    requires forall i :: 0 <= i < |gs| ==> (c.groups[i].marked || IsExcluded(gs[i]) ==> gs[i].marked)
    ensures Sound(c.(groups := gs))
  {
    var c' := c.(groups := gs);
    forall j | 0 <= j < |gs| && Touched(c', gs[j]) ensures Touched(c, c.groups[j]) {
      var a :| a in c'.exclusions && Concerns(c', a, gs[j]);
      assert Concerns(c, a, c.groups[j]);
    }
    forall j, k | 0 <= j < |gs| && 0 <= k < |gs| && j != k ensures OwnAddresses(gs[j], gs[k]) {
      assert OwnAddresses(c.groups[j], c.groups[k]);
    }
  }

  lemma StepKeepsSound(c: Cluster, m: Move, c': Cluster)
    requires Sound(c) && Step(c, m, c')
    ensures Sound(c')
  {
    match m
    case ExcludePass(now) => PassKeepsSound(c, now, c');
    case Add(g) => AddKeepsSound(c, g, c');
    case Drop(i) => DropKeepsSound(c, i, c');
    case Include(kept) => IncludeKeepsSound(c, kept);
    case Readdress(i, addresses) => ReaddressKeepsSound(c, i, c'.groups[i]);
    case RemovalPass(report, coordinators, now) => RemovalKeepsSound(c, report, coordinators, now);
    case Mark(i) => ChangeKeepsSound(c, i, c'.groups[i]);
    case Recover(i) => ChangeKeepsSound(c, i, c'.groups[i]);
    case ResetExclusion(i) => ChangeKeepsSound(c, i, c'.groups[i]);
  }
}
