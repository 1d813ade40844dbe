/** What the machine-readable status says about entries of the exclusion list, and the exclude commands by which the
    operator makes sure of it before it removes processes. */
module ExclusionStatus {
  import opened Basics
  import opened ProcessGroups

  /** A process in the status, with its locality instance id if it reports one. */
  datatype Process = Process(instance: Option<GroupId>, address: Address, sharesDc: bool, excluded: bool,
                             hasRoles: bool)

  /** How an exclude command ends. A command that fails, because it takes too long, may have written its entries. */
  datatype Command = Done | Failed(written: bool)

  /** What a removal pass gets from the database: whether exclude commands may be issued at all, whether the status
      can be trusted, its processes, and how the commands end for entries without a process and for those that seem to
      be excluded completely. */
  datatype Report = Report(useLocalities: bool, checkable: bool, valid: bool, processes: seq<Process>,
                           unseen: Command, verified: Command)

  function LocalityOf(p: Process): Address {
    ExclusionString(if p.instance.Some? then p.instance.value else "")
  }

  /** The entry concerns this process. */
  predicate RunsAt(p: Process, a: Address) {
    a == LocalityOf(p) || a == p.address
  }

  predicate Retired(p: Process) {
    p.excluded && !p.hasRoles
  }

  predicate Seen(ps: seq<Process>, a: Address) {
    exists i :: 0 <= i < |ps| && RunsAt(ps[i], a)
  }

  predicate SeenIncluded(ps: seq<Process>, a: Address) {
    exists i :: 0 <= i < |ps| && RunsAt(ps[i], a) && !ps[i].excluded
  }

  predicate AllRetired(ps: seq<Process>, a: Address) {
    forall i :: 0 <= i < |ps| && RunsAt(ps[i], a) ==> Retired(ps[i])
  }

  datatype Standing = Unseen | NotExcluded | FullyExcluded | InProgress

  function StandingOf(ps: seq<Process>, a: Address): Standing {
    if !Seen(ps, a) then Unseen
    else if SeenIncluded(ps, a) then NotExcluded
    else if AllRetired(ps, a) then FullyExcluded
    else InProgress
  }

  /** Without a status that can be trusted everything counts as not excluded. */
  function StandingIn(report: Report, a: Address): Standing {
    if report.valid then StandingOf(report.processes, a) else NotExcluded
  }

  function Those(addresses: seq<Address>, report: Report, standing: Standing): seq<Address> {
    if addresses == [] then []
    else
      var last := addresses[|addresses| - 1];
      Those(addresses[..|addresses| - 1], report, standing)
      + if StandingIn(report, last) == standing then [last] else []
  }

  predicate IsThere(addresses: seq<Address>, report: Report, standing: Standing, a: Address) {
    a in addresses && StandingIn(report, a) == standing
  }

  lemma {:induction false} ThoseMember(addresses: seq<Address>, report: Report, standing: Standing, a: Address)
    ensures a in Those(addresses, report, standing) <==> IsThere(addresses, report, standing, a)
  {
    if addresses != [] {
      ThoseMember(addresses[..|addresses| - 1], report, standing, a);
      assert addresses == addresses[..|addresses| - 1] + [addresses[|addresses| - 1]];
    }
  }

  // ----- counting processes per entry -----

  /** How often the process is found under the entry: by its locality and by its address. */
  function VisitsOf(p: Process, a: Address): nat {
    (if a == LocalityOf(p) then 1 else 0) + (if a == p.address then 1 else 0)
  }

  function Visits(ps: seq<Process>, a: Address): nat {
    if ps == [] then 0 else Visits(ps[..|ps| - 1], a) + VisitsOf(ps[|ps| - 1], a)
  }

  function RetiredVisits(ps: seq<Process>, a: Address): nat {
    if ps == [] then 0
    else RetiredVisits(ps[..|ps| - 1], a) + if Retired(ps[|ps| - 1]) then VisitsOf(ps[|ps| - 1], a) else 0
  }

  /** Comparing two counts tells whether all processes under an entry are retired. */
  lemma {:induction false} CountsTell(ps: seq<Process>, a: Address)
    ensures RetiredVisits(ps, a) <= Visits(ps, a)
    ensures Visits(ps, a) > 0 <==> Seen(ps, a)
    ensures RetiredVisits(ps, a) == Visits(ps, a) <==> AllRetired(ps, a)
  {
    if ps != [] {
      var n := |ps| - 1;
      var front := ps[..n];
      CountsTell(front, a);
      assert forall i :: 0 <= i < n ==> front[i] == ps[i];
      assert Seen(ps, a) <==> Seen(front, a) || RunsAt(ps[n], a) by {
        if i :| 0 <= i < n && RunsAt(front[i], a) {
          assert RunsAt(ps[i], a);
        }
      }
      assert AllRetired(ps, a) <==> AllRetired(front, a) && (RunsAt(ps[n], a) ==> Retired(ps[n]));
    }
  }

  lemma SeenIncludedStep(ps: seq<Process>, i: nat, a: Address)
    requires i < |ps|
    ensures SeenIncluded(ps[..i + 1], a) <==> SeenIncluded(ps[..i], a) || (RunsAt(ps[i], a) && !ps[i].excluded)
  {
    var p, q := ps[..i], ps[..i + 1];
    assert q[i] == ps[i] && forall h :: 0 <= h < i ==> q[h] == p[h];
    if h :| 0 <= h < i && RunsAt(p[h], a) && !p[h].excluded {
      assert RunsAt(q[h], a) && !q[h].excluded;
    }
  }

  /** The counts and marks for the entries in `verify`. */
  datatype Tally = Tally(visited: map<Address, nat>, retired: map<Address, nat>, included: set<Address>)

  function CountAt(counts: map<Address, nat>, a: Address): nat {
    if a in counts then counts[a] else 0
  }

  predicate Positive(counts: map<Address, nat>) {
    forall a :: a in counts ==> counts[a] > 0
  }

  ghost predicate Tallies(t: Tally, ps: seq<Process>, verify: set<Address>) {
    && Positive(t.visited) && Positive(t.retired)
    && forall a :: a in verify ==>
         && CountAt(t.visited, a) == Visits(ps, a) && CountAt(t.retired, a) == RetiredVisits(ps, a)
         && (a in t.included <==> SeenIncluded(ps, a))
  }

  /** One process is noted under one of its entries. */
  function Noted(t: Tally, p: Process, a: Address, verify: set<Address>): Tally {
    if a !in verify then t
    else
      var visited := t.visited[a := CountAt(t.visited, a) + 1];
      if !p.excluded then Tally(visited, t.retired, t.included + {a})
      else if !p.hasRoles then Tally(visited, t.retired[a := CountAt(t.retired, a) + 1], t.included)
      else t.(visited := visited)
  }

  lemma NotedTwice(t: Tally, ps: seq<Process>, i: nat, verify: set<Address>)
    requires i < |ps| && Tallies(t, ps[..i], verify)
    ensures Tallies(Noted(Noted(t, ps[i], LocalityOf(ps[i]), verify), ps[i], ps[i].address, verify),
                    ps[..i + 1], verify)
  {
    var p, q := ps[..i], ps[..i + 1];
    assert q[..|q| - 1] == p && q[|q| - 1] == ps[i];
    var once := Noted(t, ps[i], LocalityOf(ps[i]), verify);
    var twice := Noted(once, ps[i], ps[i].address, verify);
    NotedPositive(t, ps[i], LocalityOf(ps[i]), verify);
    NotedPositive(once, ps[i], ps[i].address, verify);
    forall a | a in verify
      ensures CountAt(twice.visited, a) == Visits(q, a) && CountAt(twice.retired, a) == RetiredVisits(q, a)
              && (a in twice.included <==> SeenIncluded(q, a))
    {
      NotedCounts(t, ps[i], LocalityOf(ps[i]), verify, a);
      NotedCounts(once, ps[i], ps[i].address, verify, a);
      SeenIncludedStep(ps, i, a);
    }
  }

  lemma NotedPositive(t: Tally, p: Process, a: Address, verify: set<Address>)
    requires Positive(t.visited) && Positive(t.retired)
    ensures Positive(Noted(t, p, a, verify).visited) && Positive(Noted(t, p, a, verify).retired)
  {
  }

  lemma NotedCounts(t: Tally, p: Process, a: Address, verify: set<Address>, b: Address)
    requires b in verify
    ensures var t' := Noted(t, p, a, verify);
            && CountAt(t'.visited, b) == CountAt(t.visited, b) + (if a == b then 1 else 0)
            && CountAt(t'.retired, b) == CountAt(t.retired, b) + (if a == b && Retired(p) then 1 else 0)
            && (b in t'.included <==> b in t.included || (a == b && !p.excluded))
  {
  }

  method TallyProcesses(ps: seq<Process>, verify: set<Address>) returns (t: Tally)
    ensures Tallies(t, ps, verify)
  {
    t := Tally(map[], map[], {});
    for i := 0 to |ps|
      invariant Tallies(t, ps[..i], verify)
    {
      var entries := [LocalityOf(ps[i]), ps[i].address];
      ghost var before := t;
      for k := 0 to |entries|
        invariant k == 0 ==> t == before
        invariant k == 1 ==> t == Noted(before, ps[i], LocalityOf(ps[i]), verify)
        invariant k == 2 ==> t == Noted(Noted(before, ps[i], LocalityOf(ps[i]), verify), ps[i], ps[i].address, verify)
      {
        t := Noted(t, ps[i], entries[k], verify);
      }
      NotedTwice(before, ps, i, verify);
    }
    assert ps[..|ps|] == ps;
  }

  /** The entries by their standing, in order. */
  method GetRemainingAndExcluded(report: Report, addresses: seq<Address>)
    returns (inProgress: seq<Address>, fullyExcluded: seq<Address>, notExcluded: seq<Address>, unseen: seq<Address>)
    ensures inProgress == Those(addresses, report, InProgress)
    ensures fullyExcluded == Those(addresses, report, FullyExcluded)
    ensures notExcluded == Those(addresses, report, NotExcluded)
    ensures unseen == Those(addresses, report, Unseen)
  {
    inProgress, fullyExcluded, notExcluded, unseen := [], [], [], [];
    if !report.valid {
      Untrusted(addresses, report);
      return [], [], addresses, [];
    }
    var t := TallyProcesses(report.processes, set a | a in addresses);
    for i := 0 to |addresses|
      invariant inProgress == Those(addresses[..i], report, InProgress)
      invariant fullyExcluded == Those(addresses[..i], report, FullyExcluded)
      invariant notExcluded == Those(addresses[..i], report, NotExcluded)
      invariant unseen == Those(addresses[..i], report, Unseen)
    {
      var a := addresses[i];
      assert addresses[..i + 1][..i] == addresses[..i];
      CountsTell(report.processes, a);
      if a !in t.visited {
        unseen := unseen + [a];
        continue;
      }
      if a in t.included {
        notExcluded := notExcluded + [a];
        continue;
      }
      if a in t.retired {
        if t.visited[a] == t.retired[a] {
          fullyExcluded := fullyExcluded + [a];
          continue;
        }
      }
      inProgress := inProgress + [a];
    }
    assert addresses[..|addresses|] == addresses;
  }

  lemma {:induction false} Untrusted(addresses: seq<Address>, report: Report)
    requires !report.valid
    ensures Those(addresses, report, NotExcluded) == addresses
    ensures forall standing :: standing != NotExcluded ==> Those(addresses, report, standing) == []
  {
    if addresses != [] {
      Untrusted(addresses[..|addresses| - 1], report);
    }
  }

  // ----- the commands -----

  /** Something may still run at the entry: a process that is not excluded or has roles, or one that the status does not
      show and whose exclusion does not complete. */
  predicate InUse(report: Report, a: Address) {
    match StandingIn(report, a)
    case Unseen => report.unseen.Failed?
    case FullyExcluded => false
    case NotExcluded => true
    case InProgress => true
  }

  predicate Writes(c: Command) {
    c.Done? || c.written
  }

  /** A command writes this entry to the exclusion list. */
  predicate Commanded(report: Report, a: Address) {
    match StandingIn(report, a)
    case Unseen => Writes(report.unseen)
    case FullyExcluded => Writes(report.verified)
    case NotExcluded => false
    case InProgress => false
  }

  /** The command for completely excluded entries fails. */
  predicate VerificationFails(report: Report, addresses: seq<Address>) {
    report.verified.Failed? && exists i :: 0 <= i < |addresses| && StandingIn(report, addresses[i]) == FullyExcluded
  }

  /** The lists that the commands and the result are made of. */
  lemma FoundInUse(report: Report, addresses: seq<Address>)
    ensures VerificationFails(report, addresses)
            <==> report.verified.Failed? && Those(addresses, report, FullyExcluded) != []
    ensures forall a :: a in addresses && InUse(report, a) <==>
              || a in Those(addresses, report, NotExcluded) || a in Those(addresses, report, InProgress)
              || (report.unseen.Failed? && a in Those(addresses, report, Unseen))
    ensures forall a :: a in addresses && Commanded(report, a) <==>
              || (Writes(report.unseen) && a in Those(addresses, report, Unseen))
              || (Writes(report.verified) && a in Those(addresses, report, FullyExcluded))
  {
    forall a, standing ensures a in Those(addresses, report, standing) <==> IsThere(addresses, report, standing, a) {
      ThoseMember(addresses, report, standing, a);
    }
    if Those(addresses, report, FullyExcluded) != [] {
      ThoseMember(addresses, report, FullyExcluded, Those(addresses, report, FullyExcluded)[0]);
    } else if i :| 0 <= i < |addresses| && StandingIn(report, addresses[i]) == FullyExcluded {
      ThoseMember(addresses, report, FullyExcluded, addresses[i]);
    }
  }

  /** The entries where something may still run, or an error, and what the commands write to the exclusion list. */
  method CanSafelyRemoveFromStatus(report: Report, addresses: seq<Address>)
    returns (remaining: Option<seq<Address>>, written: set<Address>)
    ensures remaining.None? <==> VerificationFails(report, addresses)
    ensures remaining.Some? ==> forall a :: a in remaining.value <==> a in addresses && InUse(report, a)
    ensures written == set a | a in addresses && Commanded(report, a)
  {
    var inProgress, fullyExcluded, notExcluded, unseen := GetRemainingAndExcluded(report, addresses);
    FoundInUse(report, addresses);
    var notSafe := notExcluded + inProgress;
    written := {};
    if |unseen| > 0 {
      if Writes(report.unseen) {
        written := set a | a in unseen;
      }
      if report.unseen.Failed? {
        notSafe := notSafe + unseen;
      }
    }
    if |fullyExcluded| > 0 {
      if Writes(report.verified) {
        written := written + set a | a in fullyExcluded;
      }
      if report.verified.Failed? {
        return None, written;
      }
    }
    remaining := Some(notSafe);
  }

  // ----- what a check that finds nothing means -----

  /** The status can be trusted, every process it shows at the entry is excluded and has no role, and if it shows none
      the exclude command has completed. */
  predicate Vacated(report: Report, a: Address) {
    report.valid && AllRetired(report.processes, a) && (Seen(report.processes, a) || report.unseen.Done?)
  }

  lemma VacatedTheorem(report: Report, a: Address)
    ensures InUse(report, a) <==> !Vacated(report, a)
  {
    var ps := report.processes;
    if i :| 0 <= i < |ps| && RunsAt(ps[i], a) && !ps[i].excluded {
      assert !Retired(ps[i]);
    }
  }

  /** What was checked without a failure and is not in use has been written to the exclusion list. */
  lemma CheckedIsExcluded(report: Report, addresses: seq<Address>, a: Address)
    requires a in addresses && !InUse(report, a) && !VerificationFails(report, addresses)
    ensures Commanded(report, a)
  {
    var i :| 0 <= i < |addresses| && addresses[i] == a;
  }
}
