/** The checks that decide whether the Pod of a process group is to be updated. */
module PodChecks {
  import opened Basics
  import opened UpdatePods

  /** What the operator finds out about a process group. `excused`: marked for removal, ignored or to be replaced.
      `missingFor`: for how long its Pod has been missing. `holdsUp`: a terminating Pod that is still waited for. `age`
      and `uptimes`: of the Pod and its reporting processes. `specMatches`, `podMatches`, `replaced`: whether the
      specification hash and the Pod are up to date, and whether the group has to be replaced; none if that cannot be
      told. `zone`: what the Pod reports, if anything. */
  datatype Facts = Facts(excused: bool, missingFor: real, holdsUp: bool, age: real, uptimes: seq<real>, simulated: bool,
                         specMatches: Option<bool>, podMatches: Option<bool>, replaced: Option<bool>,
                             zone: Option<Zone>)

  datatype Process = Process(pod: Pod, faultDomain: Zone, failing: bool, state: PodState, facts: Facts)

  /** A Pod that was just created, of which no process reports, or one that cannot be that young. */
  predicate JustCreated(f: Facts) {
    f.age < 60.0 && (f.uptimes == [] || (!f.simulated && exists i :: 0 <= i < |f.uptimes| && f.uptimes[i] > f.age))
  }

  /** A Pod that is known to differ from what it should be. */
  predicate Outdated(f: Facts) {
    f.specMatches == Some(false) || (f.specMatches == Some(true) && f.podMatches == Some(false))
  }

  predicate Found(p: Process) {
    p.state.Running? || p.state.Terminating?
  }

  /** The verdict on a process group, by what it takes to get it. */
  ghost predicate Judged(p: Process, v: Verdict) {
    var f := p.facts;
    && (v.PodMissing? <==> !f.excused && p.state.Missing?)
    && (v.PodMissing? ==> (v.recently <==> f.missingFor < 90.0))
    && (v.Fail? <==> && !f.excused
                     && (p.state.Unreadable? || (Found(p) && ((p.state.Terminating? && f.holdsUp) || JustCreated(f)))))
    && (v.Update? <==> && !f.excused && Found(p) && !(p.state.Terminating? && f.holdsUp) && !JustCreated(f)
                       && Outdated(f) && f.replaced == Some(false) && f.zone.Some?)
    && (v.Update? ==> v.zone == f.zone.value)
  }

  method IsJustCreated(f: Facts) returns (young: bool)
    ensures young <==> JustCreated(f)
  {
    if f.age >= 60.0 {
      return false;
    }
    if |f.uptimes| == 0 {
      return true;
    }
    for i := 0 to |f.uptimes|
      invariant f.simulated || forall h :: 0 <= h < i ==> f.uptimes[h] <= f.age
    {
      if f.uptimes[i] > f.age && !f.simulated {
        return true;
      }
    }
    return false;
  }

  method CheckProcessGroup(p: Process) returns (v: Verdict)
    ensures Judged(p, v)
  {
    var f := p.facts;
    if f.excused {
      return Skip;
    }
    if p.state.Missing? {
      return PodMissing(f.missingFor < 90.0);
    }
    if p.state.Unreadable? {
      return Fail;
    }
    if p.state.Terminating? && f.holdsUp {
      return Fail;
    }
    var young := IsJustCreated(f);
    if young {
      return Fail;
    }
    if f.specMatches.None? {
      return Skip;
    }
    if f.specMatches.value {
      if f.podMatches.None? {
        return Skip;
      }
      if f.podMatches.value {
        return Skip;
      }
    }
    if f.replaced.None? || f.replaced.value {
      return Skip;
    }
    if f.zone.None? {
      return Skip;
    }
    return Update(f.zone.value);
  }

  /** The groups with their verdicts. */
  ghost predicate JudgedAll(ps: seq<Process>, gs: seq<Group>) {
    && |gs| == |ps|
    && forall i :: 0 <= i < |ps| ==>
         && gs[i] == Group(ps[i].pod, ps[i].faultDomain, ps[i].failing, ps[i].state, gs[i].verdict)
         && Judged(ps[i], gs[i].verdict)
  }

  /** The facts leave no choice of verdict. */
  lemma OneVerdict(p: Process, v: Verdict, v': Verdict)
    requires Judged(p, v) && Judged(p, v')
    ensures v == v'
  {
    assert v.Skip? <==> v'.Skip?;
  }

  method CheckProcessGroups(ps: seq<Process>) returns (gs: seq<Group>)
    ensures JudgedAll(ps, gs)
  {
    gs := [];
    for i := 0 to |ps|
      invariant |gs| == i
      invariant forall h :: 0 <= h < i ==>
                  && gs[h] == Group(ps[h].pod, ps[h].faultDomain, ps[h].failing, ps[h].state, gs[h].verdict)
                  && Judged(ps[h], gs[h].verdict)
    {
      var v := CheckProcessGroup(ps[i]);
      gs := gs + [Group(ps[i].pod, ps[i].faultDomain, ps[i].failing, ps[i].state, v)];
    }
  }

  /** The Pods to update, from what is found out about all process groups. */
  method FindPodsToUpdate(ps: seq<Process>, limit: int) returns (r: Option<Updates>)
    ensures exists gs :: JudgedAll(ps, gs) && Wanted(gs, limit, r)
  {
    var gs := CheckProcessGroups(ps);
    r := GetPodsToUpdate(gs, limit);
  }
}
