/** Choosing the running version from how many processes report each version, in any order of the map. */
module RunningVersion {
  import opened Basics

  /** Versions are known only by how they are parsed, printed and compared; `zero` is the version 0.0.0. */
  datatype Versions<!V> = Versions(parse: string -> Option<V>, text: V -> string, atLeast: (V, V) -> bool, zero: V)

  /** `atLeast` is a total order with `zero` as its least element. */
  ghost predicate Ordered<V(!new)>(vs: Versions<V>) {
    && (forall a, b :: vs.atLeast(a, b) || vs.atLeast(b, a))
    && (forall a, b :: vs.atLeast(a, b) && vs.atLeast(b, a) ==> a == b)
    && (forall a, b, c :: vs.atLeast(a, b) && vs.atLeast(b, c) ==> vs.atLeast(a, c))
    && (forall a :: vs.atLeast(a, vs.zero))
  }

  type Counts = map<string, nat>

  datatype Candidate<V> = Candidate(version: V, count: nat)

  /** The candidate after the versions in `order` were visited; none if one of them was looked at and did not parse. */
  function Scan<V>(vs: Versions<V>, counts: Counts, order: seq<string>): Option<Candidate<V>>
    requires forall v :: v in order ==> v in counts
  {
    if order == [] then Some(Candidate(vs.zero, 0))
    else
      match Scan(vs, counts, order[..|order| - 1])
      case None => None
      case Some(c) => Visit(vs, c, order[|order| - 1], counts[order[|order| - 1]])
  }

  function Visit<V>(vs: Versions<V>, c: Candidate<V>, version: string, count: nat): Option<Candidate<V>> {
    if count < c.count then Some(c)
    else match vs.parse(version)
      case None => None
      case Some(p) => if count == c.count && vs.atLeast(c.version, p) then Some(c) else Some(Candidate(p, count))
  }

  /** Every reported version once. */
  ghost predicate IsOrder(order: seq<string>, counts: Counts) {
    (forall v :: v in order <==> v in counts) && forall i, j :: 0 <= i < j < |order| ==> order[i] != order[j]
  }

  method GetRunningVersion<V>(vs: Versions<V>, counts: Counts, current: string) returns (r: Option<string>)
    ensures counts == map[] ==> r == Some(current)
    ensures counts != map[] ==>
              exists order :: IsOrder(order, counts)
                              && r == match Scan(vs, counts, order)
                                      case None => None
                                      case Some(c) => Some(vs.text(c.version))
  {
    if |counts| == 0 {
      return Some(current);
    }
    var candidate, maxCount: nat := vs.zero, 0;
    ghost var order: seq<string> := [];
    var todo := counts.Keys;
    while todo != {}
      invariant todo <= counts.Keys
      invariant forall v :: v in order <==> v in counts && v !in todo
      invariant forall i, j :: 0 <= i < j < |order| ==> order[i] != order[j]
      invariant Scan(vs, counts, order) == Some(Candidate(candidate, maxCount))
    {
      var version :| version in todo;
      var count := counts[version];
      todo := todo - {version};
      ghost var before := order;
      order := order + [version];
      assert order[..|order| - 1] == before;
      if count < maxCount {
        continue;
      }
      var parsed := vs.parse(version);
      if parsed.None? {
        ghost var whole := Completed(counts, order);
        FailureStays(vs, counts, whole, |order|);
        return None;
      }
      if count == maxCount {
        if vs.atLeast(candidate, parsed.value) {
          continue;
        }
      }
      candidate, maxCount := parsed.value, count;
    }
    r := Some(vs.text(candidate));
  }

  /** An order that starts with the versions already visited. */
  lemma Completed(counts: Counts, start: seq<string>) returns (order: seq<string>)
    requires forall v :: v in start ==> v in counts
    requires forall i, j :: 0 <= i < j < |start| ==> start[i] != start[j]
    ensures IsOrder(order, counts) && |start| <= |order| && order[..|start|] == start
  {
    order := start;
    var todo := set v | v in counts && v !in start;
    while todo != {}
      invariant forall v :: v in order <==> v in counts && v !in todo
      invariant forall i, j :: 0 <= i < j < |order| ==> order[i] != order[j]
      invariant |start| <= |order| && order[..|start|] == start
      invariant todo <= counts.Keys
    {
      var v :| v in todo;
      todo := todo - {v};
      order := order + [v];
    }
  }

  lemma {:induction false} FailureStays<V>(vs: Versions<V>, counts: Counts, order: seq<string>, n: nat)
    requires (forall v :: v in order ==> v in counts) && n <= |order| && Scan(vs, counts, order[..n]).None?
    ensures Scan(vs, counts, order).None?
  {
    if n == |order| {
      assert order[..n] == order;
    } else {
      var front := order[..|order| - 1];
      assert front[..n] == order[..n];
      FailureStays(vs, counts, front, n);
    }
  }

  /** (count, version) of `c` is at least that of a reported version, counts first. */
  predicate Beats<V>(vs: Versions<V>, c: Candidate<V>, p: V, count: nat) {
    count < c.count || (count == c.count && vs.atLeast(c.version, p))
  }

  /** `c` is reported, and no reported version beats it. */
  ghost predicate IsBest<V>(vs: Versions<V>, counts: Counts, versions: seq<string>, c: Candidate<V>)
    requires forall v :: v in versions ==> v in counts
  {
    && (exists v :: v in versions && vs.parse(v) == Some(c.version) && counts[v] == c.count)
    && (forall v :: v in versions && vs.parse(v).Some? ==> Beats(vs, c, vs.parse(v).value, counts[v]))
  }

  lemma VisitKeepsBest<V(!new)>(vs: Versions<V>, counts: Counts, front: seq<string>, c: Candidate<V>, v: string)
    requires Ordered(vs) && v in counts && vs.parse(v).Some? && (forall u :: u in front ==> u in counts)
    requires if front == [] then c == Candidate(vs.zero, 0) else IsBest(vs, counts, front, c)
    ensures Visit(vs, c, v, counts[v]).Some? && IsBest(vs, counts, front + [v], Visit(vs, c, v, counts[v]).value)
  {
    var c' := Visit(vs, c, v, counts[v]).value;
    assert v in front + [v];
    if front != [] {
      var u :| u in front && vs.parse(u) == Some(c.version) && counts[u] == c.count;
      assert u in front + [v];
    }
    forall u | u in front && vs.parse(u).Some? ensures Beats(vs, c', vs.parse(u).value, counts[u]) {
      assert Beats(vs, c, vs.parse(u).value, counts[u]);
    }
  }

  lemma {:induction false} ScanFindsBest<V(!new)>(vs: Versions<V>, counts: Counts, order: seq<string>)
    requires Ordered(vs) && (forall v :: v in order ==> v in counts && vs.parse(v).Some?) && order != []
    ensures Scan(vs, counts, order).Some? && IsBest(vs, counts, order, Scan(vs, counts, order).value)
  {
    var front, last := order[..|order| - 1], order[|order| - 1];
    assert order == front + [last];
    if front != [] {
      ScanFindsBest(vs, counts, front);
    }
    VisitKeepsBest(vs, counts, front, Scan(vs, counts, front).value, last);
  }

  /** There is one best candidate. */
  lemma BestIsUnique<V(!new)>(vs: Versions<V>, counts: Counts, o: seq<string>, o': seq<string>, c: Candidate<V>,
                       c': Candidate<V>)
    requires Ordered(vs) && IsOrder(o, counts) && IsOrder(o', counts)
    requires IsBest(vs, counts, o, c) && IsBest(vs, counts, o', c')
    ensures c == c'
  {
    var v :| v in o && vs.parse(v) == Some(c.version) && counts[v] == c.count;
    var v' :| v' in o' && vs.parse(v') == Some(c'.version) && counts[v'] == c'.count;
    assert v in o' && v' in o;
    assert Beats(vs, c, c'.version, c'.count) && Beats(vs, c', c.version, c.count);
  }

  ghost predicate AllParse<V>(vs: Versions<V>, counts: Counts) {
    forall v :: v in counts ==> vs.parse(v).Some?
  }

  /** A version that does not parse is reported at least as often as any other. */
  ghost predicate UnparsableLeads<V>(vs: Versions<V>, counts: Counts) {
    exists u :: u in counts && vs.parse(u).None? && forall v :: v in counts ==> counts[v] <= counts[u]
  }

  /** The order of the map does not matter. */
  ghost predicate Stable<V>(vs: Versions<V>, counts: Counts) {
    forall o, o' :: IsOrder(o, counts) && IsOrder(o', counts) ==> Scan(vs, counts, o) == Scan(vs, counts, o')
  }

  /** If every reported version parses, every order finds the maximum of (count, version). */
  lemma RunningVersionIsBest<V(!new)>(vs: Versions<V>, counts: Counts, order: seq<string>)
    requires Ordered(vs) && AllParse(vs, counts) && counts != map[] && IsOrder(order, counts)
    ensures Scan(vs, counts, order).Some? && IsBest(vs, counts, order, Scan(vs, counts, order).value)
  {
    var v :| v in counts;
    assert v in order;
    ScanFindsBest(vs, counts, order);
  }

  lemma {:induction false} CountsBounded<V>(vs: Versions<V>, counts: Counts, order: seq<string>, n: nat)
    requires forall v :: v in order ==> v in counts && counts[v] <= n
    ensures var r := Scan(vs, counts, order); r.Some? ==> r.value.count <= n
  {
    if order != [] {
      CountsBounded(vs, counts, order[..|order| - 1], n);
    }
  }

  /** A leading version that does not parse is an error in every order. */
  lemma LeadingUnparsableFails<V>(vs: Versions<V>, counts: Counts, order: seq<string>)
    requires UnparsableLeads(vs, counts) && IsOrder(order, counts)
    ensures Scan(vs, counts, order).None?
  {
    var u :| u in counts && vs.parse(u).None? && forall v :: v in counts ==> counts[v] <= counts[u];
    var i: nat :| i < |order| && order[i] == u;
    VisitFails(vs, counts, order, i);
    FailureStays(vs, counts, order, i + 1);
  }

  lemma VisitFails<V>(vs: Versions<V>, counts: Counts, order: seq<string>, i: nat)
    requires i < |order| && vs.parse(order[i]).None? && order[i] in counts
    requires forall v :: v in order ==> v in counts && counts[v] <= counts[order[i]]
    ensures Scan(vs, counts, order[..i + 1]).None?
  {
    CountsBounded(vs, counts, order[..i], counts[order[i]]);
    assert order[..i + 1][..i] == order[..i];
  }

  /** Visited first, a version that does not parse is an error. */
  lemma UnparsableFirstFails<V>(vs: Versions<V>, counts: Counts, u: string) returns (order: seq<string>)
    requires u in counts && vs.parse(u).None?
    ensures IsOrder(order, counts) && Scan(vs, counts, order).None?
  {
    order := Completed(counts, [u]);
    assert [u][..0] == [];
    FailureStays(vs, counts, order, 1);
  }

  /** Once a count above that of every unparsable version was seen, there is no error any more. */
  lemma {:induction false} NoLaterFailure<V>(vs: Versions<V>, counts: Counts, order: seq<string>, n: nat)
    requires order != [] && (forall v :: v in order ==> v in counts)
    requires vs.parse(order[0]).Some? && counts[order[0]] == n
    requires forall v :: v in order && vs.parse(v).None? ==> counts[v] < n
    ensures Scan(vs, counts, order).Some? && Scan(vs, counts, order).value.count >= n
  {
    if |order| == 1 {
      assert order[..0] == [];
    } else {
      NoLaterFailure(vs, counts, order[..|order| - 1], n);
    }
  }

  lemma MostReported(counts: Counts) returns (top: string)
    requires counts != map[]
    ensures top in counts && forall v :: v in counts ==> counts[v] <= counts[top]
  {
    top :| top in counts;
    var todo := counts.Keys - {top};
    while todo != {}
      invariant todo <= counts.Keys && top in counts
      invariant forall v :: v in counts && v !in todo ==> counts[v] <= counts[top]
    {
      var v :| v in todo;
      todo := todo - {v};
      if counts[v] > counts[top] {
        top := v;
      }
    }
  }

  lemma TrailingUnparsablePasses<V>(vs: Versions<V>, counts: Counts) returns (order: seq<string>)
    requires counts != map[] && !UnparsableLeads(vs, counts)
    ensures IsOrder(order, counts) && Scan(vs, counts, order).Some?
  {
    var top := MostReported(counts);
    order := Completed(counts, [top]);
    assert order[0] == order[..1][0] == top;
    forall v | v in order && vs.parse(v).None? ensures counts[v] < counts[top] {
      assert counts[v] <= counts[top];
    }
    NoLaterFailure(vs, counts, order, counts[top]);
  }

  lemma NothingMissing(o: seq<string>, o': seq<string>, counts: Counts)
    requires IsOrder(o, counts) && IsOrder(o', counts)
    ensures o != [] ==> o' != [] && counts != map[]
  {
    if o != [] {
      assert o[0] in o && o[0] in counts && o[0] in o';
    }
  }

  lemma StableIfAllParse<V(!new)>(vs: Versions<V>, counts: Counts)
    requires Ordered(vs) && AllParse(vs, counts)
    ensures Stable(vs, counts)
  {
    forall o, o' | IsOrder(o, counts) && IsOrder(o', counts) ensures Scan(vs, counts, o) == Scan(vs, counts, o') {
      NothingMissing(o, o', counts);
      NothingMissing(o', o, counts);
      if o != [] {
        RunningVersionIsBest(vs, counts, o);
        RunningVersionIsBest(vs, counts, o');
        BestIsUnique(vs, counts, o, o', Scan(vs, counts, o).value, Scan(vs, counts, o').value);
      }
    }
  }

  /** The running version does not depend on the order of the map exactly when every version parses, or one that
      does not is reported most. */
  lemma StabilityTheorem<V(!new)>(vs: Versions<V>, counts: Counts)
    requires Ordered(vs)
    ensures Stable(vs, counts) <==> AllParse(vs, counts) || UnparsableLeads(vs, counts)
  {
    if AllParse(vs, counts) {
      StableIfAllParse(vs, counts);
    } else if UnparsableLeads(vs, counts) {
      forall o | IsOrder(o, counts) ensures Scan(vs, counts, o).None? {
        LeadingUnparsableFails(vs, counts, o);
      }
    } else {
      var u :| u in counts && vs.parse(u).None?;
      var o := UnparsableFirstFails(vs, counts, u);
      var o' := TrailingUnparsablePasses(vs, counts);
      assert Scan(vs, counts, o) != Scan(vs, counts, o');
    }
  }
}
