/** Exactly how many groups of a class an exclusion pass picks, which ones, and when it picks none at all. */
module ExclusionChoice {
  import opened Basics
  import opened Counting
  import opened ProcessGroups
  import opened Exclusion

  predicate Complete(g: Group) {
    g.excludedAt.Some? || g.exclusionSkipped
  }

  /** The group still counts for its class. */
  predicate Belongs(g: Group, kind: Class) {
    g.kind == kind && !(g.marked && Complete(g))
  }

  /** The group counts and its process is not missing. */
  predicate Runs(c: Cluster, g: Group, kind: Class) {
    Belongs(g, kind) && (g.missingSince.None? || c.simulation)
  }

  predicate ToExclude(g: Group) {
    g.kind != "test" && g.marked && !Complete(g)
  }

  /** Everything that would be excluded for this group is in the exclusion list. */
  predicate Started(c: Cluster, g: Group) {
    && ToExclude(g)
    && ("locality_instance_id:" + g.id in c.exclusions
        || (!c.useLocalities && forall a :: a in g.addresses ==> a in c.exclusions))
  }

  predicate Waits(c: Cluster, g: Group, kind: Class) {
    g.kind == kind && ToExclude(g) && !Started(c, g)
  }

  function RunningNumber(c: Cluster, kind: Class): nat {
    Number(c.groups, g => Runs(c, g, kind))
  }

  function StartedNumber(c: Cluster, kind: Class): nat {
    Number(c.groups, g => Started(c, g) && g.kind == kind)
  }

  function WaitingNumber(c: Cluster, gs: seq<Group>, kind: Class): nat {
    Number(gs, g => Waits(c, g, kind))
  }

  /** A process of the class is missing for less than five minutes. */
  ghost predicate JustMissing(c: Cluster, kind: Class, now: int) {
    !c.simulation && exists i :: 0 <= i < |c.groups| && Belongs(c.groups[i], kind)
                                 && c.groups[i].missingSince.Some? && now - c.groups[i].missingSince.value < 300
  }

  /** How many exclusions the class can stand in addition to those that have started. */
  function Slack(c: Cluster, kind: Class): int {
    var desired := if kind in c.desired then c.desired[kind] else 0;
    RunningNumber(c, kind) - StartedNumber(c, kind) - (desired - c.faultTolerance)
  }

  lemma OngoingIsStarted(c: Cluster, g: Group)
    ensures Ongoing(g, c.exclusions, c.useLocalities) <==> Started(c, g)
  {
  }

  lemma WaitingIsWaits(c: Cluster, g: Group, kind: Class)
    ensures Waiting(g, c.exclusions, c.useLocalities) && g.kind == kind <==> Waits(c, g, kind)
  {
    OngoingIsStarted(c, g);
  }

  lemma {:induction false} CountIsNumber(gs: seq<Group>, p: Group -> bool, q: Group -> bool)
    requires forall g :: p(g) <==> q(g)
    ensures Count(gs, p) == Number(gs, q)
  {
    if gs == [] {
      NumberNone(q);
    } else {
      CountIsNumber(gs[..|gs| - 1], p, q);
      NumberStep(gs, q);
    }
  }

  lemma {:induction false} OngoingNumber(c: Cluster, gs: seq<Group>, kind: Class)
    ensures OngoingCount(gs, c.exclusions, c.useLocalities, kind) == Number(gs, g => Started(c, g) && g.kind == kind)
  {
    if gs == [] {
      NumberNone((g: Group) => Started(c, g) && g.kind == kind);
    } else {
      OngoingNumber(c, gs[..|gs| - 1], kind);
      OngoingIsStarted(c, gs[|gs| - 1]);
      NumberStep(gs, g => Started(c, g) && g.kind == kind);
    }
  }

  lemma BudgetIs(c: Cluster, kind: Class, now: int)
    ensures Budget(c, kind, now) == if JustMissing(c, kind, now) || Slack(c, kind) < 0 then 0 else Slack(c, kind)
  {
    CountIsNumber(c.groups, g => IsValid(g, kind, c.simulation), g => Runs(c, g, kind));
    OngoingNumber(c, c.groups, kind);
    assert RecentlyMissing(c.groups, kind, now, c.simulation) <==> JustMissing(c, kind, now) by {
      if JustMissing(c, kind, now) {
        var i :| 0 <= i < |c.groups| && Belongs(c.groups[i], kind) && c.groups[i].missingSince.Some?
                 && now - c.groups[i].missingSince.value < 300;
        assert Counted(c.groups[i], kind);
      }
    }
  }

  /** The entry that excludes a group: its locality, or its addresses that are not in the exclusion list yet. */
  ghost predicate EntryOf(c: Cluster, g: Group, e: Entry) {
    && e.id == g.id
    && if c.useLocalities then e.addresses == ["locality_instance_id:" + g.id]
       else forall a :: a in e.addresses <==> a in g.addresses && a !in c.exclusions
  }

  /** Entry `k` is that of the waiting group before which `k` groups of the class wait. */
  ghost predicate KthWaiting(c: Cluster, kind: Class, k: nat, e: Entry, i: nat) {
    && i < |c.groups| && Waits(c, c.groups[i], kind)
    && WaitingNumber(c, c.groups[..i], kind) == k && EntryOf(c, c.groups[i], e)
  }

  ghost predicate IsKth(c: Cluster, kind: Class, n: nat, k: nat, e: Entry) {
    exists i: nat :: i < n && KthWaiting(c, kind, k, e, i)
  }

  lemma {:induction false} EntriesInOrder(c: Cluster, n: nat, kind: Class)
    requires n <= |c.groups|
    ensures var es := EntriesOf(c.groups[..n], c.exclusions, c.useLocalities, kind);
            && |es| == WaitingNumber(c, c.groups[..n], kind)
            && forall k: nat :: k < |es| ==> IsKth(c, kind, n, k, es[k])
  {
    if n == 0 {
      NumberNone((g: Group) => Waits(c, g, kind));
    } else {
      var g, gs := c.groups[n - 1], c.groups[..n];
      assert gs[..n - 1] == c.groups[..n - 1];
      EntriesInOrder(c, n - 1, kind);
      NumberStep(gs, g => Waits(c, g, kind));
      WaitingIsWaits(c, g, kind);
      var before := EntriesOf(gs[..n - 1], c.exclusions, c.useLocalities, kind);
      var es := EntriesOf(gs, c.exclusions, c.useLocalities, kind);
      forall k: nat | k < |es| ensures IsKth(c, kind, n, k, es[k]) {
        if k < |before| {
          assert es[k] == before[k] && IsKth(c, kind, n - 1, k, before[k]);
        } else {
          LastEntry(c, n, kind, k);
          assert KthWaiting(c, kind, k, es[k], n - 1);
        }
      }
    }
  }

  lemma LastEntry(c: Cluster, n: nat, kind: Class, k: nat)
    requires 0 < n <= |c.groups| && Waits(c, c.groups[n - 1], kind) && WaitingNumber(c, c.groups[..n - 1], kind) == k
    ensures KthWaiting(c, kind, k, EntryFor(c.groups[n - 1], c.exclusions, c.useLocalities), n - 1)
  {
    NotExcludedYetEmpty(c.groups[n - 1].addresses, c.exclusions);
  }

  /** A pass picks as many waiting groups of a class as the class can stand, or all of them, in order, and none while a
      process of the class is missing for less than five minutes. */
  lemma ChoiceTheorem(c: Cluster, now: int, kind: Class)
    ensures |Chosen(c, now, kind)| ==
            if JustMissing(c, kind, now) || Slack(c, kind) < 0 then 0
            else if Slack(c, kind) < WaitingNumber(c, c.groups, kind) then Slack(c, kind)
            else WaitingNumber(c, c.groups, kind)
    ensures forall k: nat :: k < |Chosen(c, now, kind)| ==> IsKth(c, kind, |c.groups|, k, Chosen(c, now, kind)[k])
  {
    BudgetIs(c, kind, now);
    EntriesInOrder(c, |c.groups|, kind);
    assert c.groups[..|c.groups|] == c.groups;
    forall k: nat | k < |Chosen(c, now, kind)| ensures IsKth(c, kind, |c.groups|, k, Chosen(c, now, kind)[k]) {
      assert Chosen(c, now, kind)[k] == WaitingEntries(c, kind)[k];
    }
  }

  /** The budget is used up: while a group waits that is not picked, no further exclusion would leave enough
      processes. */
  lemma BudgetIsUsedUp(c: Cluster, now: int, kind: Class)
    requires !JustMissing(c, kind, now) && |Chosen(c, now, kind)| < WaitingNumber(c, c.groups, kind)
    ensures RunningNumber(c, kind) - StartedNumber(c, kind) - |Chosen(c, now, kind)|
            <= (if kind in c.desired then c.desired[kind] else 0) - c.faultTolerance
  {
    ChoiceTheorem(c, now, kind);
  }

  /** Nothing at all is sent exactly if a group waits whose class is part of the transaction system and can stand no
      exclusion. */
  lemma GateTheorem(c: Cluster, now: int)
    ensures Gated(c, now, WaitingClasses(c)) <==>
            exists i :: 0 <= i < |c.groups| && Waits(c, c.groups[i], c.groups[i].kind)
                        && c.groups[i].kind != "storage" && c.groups[i].kind != "general"
                        && (JustMissing(c, c.groups[i].kind, now) || Slack(c, c.groups[i].kind) <= 0)
  {
    if Gated(c, now, WaitingClasses(c)) {
      var kind :| kind in WaitingClasses(c) && Blocked(c, now, kind);
      var i :| 0 <= i < |c.groups| && Waiting(c.groups[i], c.exclusions, c.useLocalities) && c.groups[i].kind == kind;
      WaitingIsWaits(c, c.groups[i], kind);
      BudgetIs(c, kind, now);
    }
    if i :| 0 <= i < |c.groups| && Waits(c, c.groups[i], c.groups[i].kind)
            && c.groups[i].kind != "storage" && c.groups[i].kind != "general"
            && (JustMissing(c, c.groups[i].kind, now) || Slack(c, c.groups[i].kind) <= 0) {
      var kind := c.groups[i].kind;
      WaitingIsWaits(c, c.groups[i], kind);
      BudgetIs(c, kind, now);
      SomebodyWaits(c, i);
      assert kind in WaitingClasses(c) && Blocked(c, now, kind);
    }
  }

  lemma SomebodyWaits(c: Cluster, i: nat)
    requires i < |c.groups| && Waits(c, c.groups[i], c.groups[i].kind)
    ensures WaitingEntries(c, c.groups[i].kind) != []
  {
    var kind := c.groups[i].kind;
    EntriesInOrder(c, |c.groups|, kind);
    assert c.groups[..|c.groups|] == c.groups;
    assert i in Positions(c.groups, g => Waits(c, g, kind));
  }
}
