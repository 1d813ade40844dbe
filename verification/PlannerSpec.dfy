/** What one call of the region migration planner may return, as a relation.

    The Go code picks regions by iterating over maps, so ties are broken arbitrarily; the
    relation allows every choice. It is stated on `Shape`s: the number of usable regions and
    the main data centers. `Planner` proves that the loops implement it, `Convergence` and
    `MigrationSafety` prove what follows for every run.
 */
module PlannerSpec {
  import opened Regions

  datatype Shape = Shape(usable: int, mains: seq<Main>)

  /** Either a new shape, or "take over the region list of the final configuration". */
  datatype Decision = Reshape(shape: Shape) | AdoptFinal

  ghost predicate Missing(ms: seq<Main>, fin: seq<Main>, i: int) {
    0 <= i < |fin| && !Has(ms, fin[i].id)
  }

  ghost predicate AnyMissing(ms: seq<Main>, fin: seq<Main>) {
    exists i :: Missing(ms, fin, i)
  }

  /** `m` is a missing region with the highest final priority among those missing. It joins at
      priority -1, unless it is the first region of all. */
  ghost predicate Joins(ms: seq<Main>, fin: seq<Main>, m: Main) {
    exists i :: Missing(ms, fin, i)
             && (forall j :: Missing(ms, fin, j) ==> fin[j].priority <= fin[i].priority)
             && m == Main(fin[i].id, if ms == [] then 1 else -1)
  }

  /** Regions join one after the other until there are two or none is missing. */
  ghost predicate Grow(ms: seq<Main>, fin: seq<Main>, ms': seq<Main>) {
    && ms <= ms' && |ms'| <= 2
    && (forall k :: |ms| <= k < |ms'| ==> Joins(ms'[..k], fin, ms'[k]))
    && (|ms'| >= 2 || !AnyMissing(ms', fin))
  }

  /** A current region that the final configuration does not have. */
  ghost predicate Stale(ms: seq<Main>, fin: seq<Main>, i: int) {
    0 <= i < |ms| && !Has(fin, ms[i].id)
  }

  ghost predicate Removable(cur: Shape, fin: Shape, i: int) {
    Stale(cur.mains, fin.mains, i) && cur.mains[i].priority < 0
  }

  ghost predicate Demotable(cur: Shape, fin: Shape, i: int) {
    && Stale(cur.mains, fin.mains, i)
    && cur.mains[i].priority >= 0
    && (cur.mains[i].priority == 0 || cur.usable >= 2)
  }

  ghost predicate FirstRemovable(cur: Shape, fin: Shape, i: int) {
    Removable(cur, fin, i) && forall j :: 0 <= j < i ==> !Removable(cur, fin, j)
  }

  ghost predicate FirstDemotable(cur: Shape, fin: Shape, i: int) {
    Demotable(cur, fin, i) && forall j :: 0 <= j < i ==> !Demotable(cur, fin, j)
  }

  /** The stale region gets priority -1; if no other region is a candidate for primary, all others become one. */
  ghost function Demote(ms: seq<Main>, k: int): (ms': seq<Main>)
    requires 0 <= k < |ms|
    ensures |ms'| == |ms|
  {
    var alternative := exists j :: 0 <= j < |ms| && j != k && ms[j].priority > 0;
    seq(|ms|, j requires 0 <= j < |ms| =>
      if j == k then Main(ms[j].id, -1)
      else if alternative then ms[j]
      else Main(ms[j].id, 1))
  }

  ghost predicate AllNegative(fin: seq<Main>) {
    forall i :: 0 <= i < |fin| ==> fin[i].priority < 0
  }

  /** `top` is a region with the highest current priority, or "" if there is no region. */
  ghost predicate IsTop(ms: seq<Main>, top: string) {
    if ms == [] then top == ""
    else exists i :: 0 <= i < |ms| && ms[i].id == top && forall j :: 0 <= j < |ms| ==> ms[j].priority <= ms[i].priority
  }

  /** The priority a region should get next: the final one, -1 for a stale region, and if nothing
      would be left with a non-negative priority then `top` keeps its current priority. */
  ghost function Goal(ms: seq<Main>, fin: seq<Main>, top: string, id: string): int {
    if AllNegative(fin) && id == top then Prio(ms, id) else Prio(fin, id)
  }

  ghost predicate Settled(ms: seq<Main>, fin: seq<Main>, top: string) {
    && ms != []
    && (forall i :: 0 <= i < |ms| ==> ms[i].priority == Goal(ms, fin, top, ms[i].id))
    && (forall i :: Missing(ms, fin, i) ==> fin[i].priority == -1)
  }

  ghost function Reprioritized(ms: seq<Main>, fin: seq<Main>, top: string): (ms': seq<Main>)
    ensures |ms'| == |ms|
  {
    seq(|ms|, i requires 0 <= i < |ms| => Main(ms[i].id, Goal(ms, fin, top, ms[i].id)))
  }

  /** The decision for two region lists that differ, steps 2 to 6. */
  ghost predicate Decides(cur: Shape, fin: Shape, d: Decision) {
    var ms, fs, n := cur.mains, fin.mains, |cur.mains|;
    if n < 2 && AnyMissing(ms, fs) then
      d.Reshape? && d.shape.usable == cur.usable && Grow(ms, fs, d.shape.mains)
    else if n > 1 && fs != [] && exists i :: Removable(cur, fin, i) then
      if cur.usable != n - 1 then d == Reshape(cur.(usable := n - 1))
      else exists i :: FirstRemovable(cur, fin, i) && d == Reshape(cur.(mains := ms[..i] + ms[i + 1..]))
    else if n > 1 && fs != [] && exists i :: Demotable(cur, fin, i) then
      exists i :: FirstDemotable(cur, fin, i) && d == Reshape(cur.(mains := Demote(ms, i)))
    else
      exists top :: IsTop(ms, top) && DecidesPriorities(cur, fin, top, d)
  }

  ghost predicate DecidesPriorities(cur: Shape, fin: Shape, top: string, d: Decision) {
    if !Settled(cur.mains, fin.mains, top) then
      if cur.usable != |cur.mains| then d == Reshape(cur.(usable := |cur.mains|))
      else d == Reshape(cur.(mains := Reprioritized(cur.mains, fin.mains, top)))
    else if cur.usable != fin.usable then d == Reshape(cur.(usable := fin.usable))
    else d == AdoptFinal
  }

  ghost predicate SameRegions(c: Config, f: Config) {
    c.regions == f.regions && c.regionsAreNil == f.regionsAreNil
  }

  ghost function ShapeOf(c: Config): Shape
    requires AllOneMain(c.regions)
  {
    Shape(c.usableRegions, Mains(c.regions))
  }

  ghost function Apply(c: Config, f: Config, d: Decision): Config
    requires AllOneMain(f.regions)
  {
    match d
    case AdoptFinal => c.(regions := f.regions, regionsAreNil := f.regionsAreNil)
    case Reshape(s) => c.(usableRegions := s.usable,
                          regions := Build(f.regions, s.mains),
                          regionsAreNil := c.regionsAreNil && s.mains == [])
  }

  /** One call of the planner: `r` is a possible result for current configuration `c` and final configuration `f`. */
  ghost predicate Next(c: Config, f: Config, r: Config)
    requires WellFormed(c) && WellFormed(f)
  {
    if SameRegions(c, f) then r == f
    else exists d :: Decides(ShapeOf(c), ShapeOf(f), d) && r == Apply(c, f, d)
  }

  lemma NextBy(c: Config, f: Config, d: Decision)
    requires WellFormed(c) && WellFormed(f) && !SameRegions(c, f)
    requires Decides(ShapeOf(c), ShapeOf(f), d)
    ensures Next(c, f, Apply(c, f, d))
  {
  }
}
