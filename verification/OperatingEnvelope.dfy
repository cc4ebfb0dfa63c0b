/**
 The planner's operating envelope: which measured points are feasible, which one
 is recommended, and which form the Pareto front of goodput against resources.
 */
module OperatingEnvelope {
  import opened Common

  datatype Evidence = Good | Missing | Stale | Invalid

  /** The aggregates of a measured point; every number may be missing. */
  datatype Point = Point(
    concurrency: int, goodputMean: Option<real>, goodputLcb: Option<real>, e2eP95: Option<real>,
    successRate: Option<real>, gpuSeconds: Option<real>, resourceGpuSeconds: Option<real>, evidence: Evidence)

  datatype Limits = Limits(e2eP95Slo: real, minSuccessRate: real, resourceBudget: Option<real>)

  datatype Reason = GoodputMissing | E2eP95Slo | SuccessRate | EvidenceQuality | ResourceMissing | ResourceBudget

  /** Where no lower bound was measured the mean stands in. */
  function Lcb(p: Point): Option<real> {
    if p.goodputLcb.None? then p.goodputMean else p.goodputLcb
  }

  /** A zero counts as missing in the first place looked at. */
  function Resource(p: Point): Option<real> {
    if p.gpuSeconds.Some? && p.gpuSeconds.value != 0.0 then p.gpuSeconds else p.resourceGpuSeconds
  }

  function Reasons(limits: Limits, p: Point): seq<Reason> {
    (if p.goodputMean.None? then [GoodputMissing] else [])
    + (if p.e2eP95.None? || p.e2eP95.value > limits.e2eP95Slo then [E2eP95Slo] else [])
    + (if p.successRate.Some? && p.successRate.value < limits.minSuccessRate then [SuccessRate] else [])
    + (if p.evidence.Good? then [] else [EvidenceQuality])
    + (if limits.resourceBudget.None? then []
       else if Resource(p).None? then [ResourceMissing]
       else if Resource(p).value > limits.resourceBudget.value then [ResourceBudget] else [])
  }

  /** A point that may be recommended, with what it is judged by. */
  datatype Rated = Rated(lcb: real, mean: real, concurrency: int, resource: Option<real>)

  function Rating(p: Point): Rated
    requires p.goodputMean.Some?
  {
    Rated(Lcb(p).value, p.goodputMean.value, p.concurrency, Resource(p))
  }

  /** No reason speaks against the point. */
  predicate IsFeasible(limits: Limits, p: Point) {
    p.goodputMean.Some? && Reasons(limits, p) == []
  }

  function Feasible(limits: Limits, points: seq<Point>): seq<Rated> {
    if points == [] then []
    else
      var init := Feasible(limits, points[..|points| - 1]);
      var p := points[|points| - 1];
      if IsFeasible(limits, p) then init + [Rating(p)] else init
  }

  // ---- best first ----

  predicate Better(a: Rated, b: Rated) {
    a.lcb > b.lcb || (a.lcb == b.lcb && (a.mean > b.mean || (a.mean == b.mean && a.concurrency < b.concurrency)))
  }

  /** Behind every point that is at least as good. */
  function Placed(x: Rated, sorted: seq<Rated>): seq<Rated> {
    if sorted == [] || Better(x, sorted[0]) then [x] + sorted else [sorted[0]] + Placed(x, sorted[1..])
  }

  function BestFirst(points: seq<Rated>): seq<Rated> {
    if points == [] then [] else Placed(points[|points| - 1], BestFirst(points[..|points| - 1]))
  }

  ghost predicate Descending(points: seq<Rated>) {
    forall i, j :: 0 <= i < j < |points| ==> !Better(points[j], points[i])
  }

  lemma {:induction false} PlacedKeeps(x: Rated, sorted: seq<Rated>)
    ensures multiset(Placed(x, sorted)) == multiset(sorted) + multiset{x}
    ensures forall y :: y in Placed(x, sorted) ==> y == x || y in sorted
  {
    if sorted != [] && !Better(x, sorted[0]) {
      PlacedKeeps(x, sorted[1..]);
      assert sorted == [sorted[0]] + sorted[1..];
      assert Placed(x, sorted) == [sorted[0]] + Placed(x, sorted[1..]);
    }
  }

  lemma {:induction false} PlacedDescends(x: Rated, sorted: seq<Rated>)
    requires Descending(sorted)
    ensures Descending(Placed(x, sorted))
  {
    if sorted == [] {
    } else if Better(x, sorted[0]) {
      forall j | 0 <= j < |sorted| ensures !Better(sorted[j], x) {
        assert j > 0 ==> !Better(sorted[j], sorted[0]);
      }
    } else {
      PlacedDescends(x, sorted[1..]);
      PlacedKeeps(x, sorted[1..]);
      var rest := Placed(x, sorted[1..]);
      forall j | 0 <= j < |rest| ensures !Better(rest[j], sorted[0]) {
        if rest[j] != x {
          assert rest[j] in rest;
          var k :| 0 <= k < |sorted[1..]| && sorted[1..][k] == rest[j];
          assert !Better(sorted[k + 1], sorted[0]);
        }
      }
    }
  }

  lemma {:induction false} BestFirstIs(points: seq<Rated>)
    ensures Descending(BestFirst(points)) && multiset(BestFirst(points)) == multiset(points)
  {
    hide Better;
    if points != [] {
      var n := |points| - 1;
      BestFirstIs(points[..n]);
      PlacedDescends(points[n], BestFirst(points[..n]));
      PlacedKeeps(points[n], BestFirst(points[..n]));
      assert points == points[..n] + [points[n]];
    }
  }

  // ---- the Pareto front ----

  predicate NoCostlier(a: Rated, b: Rated) {
    a.resource.None? || b.resource.None? || a.resource.value <= b.resource.value
  }

  predicate Cheaper(a: Rated, b: Rated) {
    a.resource.Some? && b.resource.Some? && a.resource.value < b.resource.value
  }

  predicate Dominates(a: Rated, b: Rated) {
    a.lcb >= b.lcb && NoCostlier(a, b) && (a.lcb > b.lcb || Cheaper(a, b))
  }

  predicate Dominated(points: seq<Rated>, i: nat)
    requires i < |points|
  {
    exists j :: 0 <= j < |points| && j != i && Dominates(points[j], points[i])
  }

  function FrontUpTo(points: seq<Rated>, n: nat): seq<Rated>
    requires n <= |points|
  {
    if n == 0 then []
    else FrontUpTo(points, n - 1) + if Dominated(points, n - 1) then [] else [points[n - 1]]
  }

  function Front(points: seq<Rated>): seq<Rated> {
    FrontUpTo(points, |points|)
  }

  method Recommend(limits: Limits, points: seq<Point>, safetyFactor: real)
    returns (recommended: Option<(Rated, real)>, pareto: seq<Rated>)
    ensures var feasible := BestFirst(Feasible(limits, points));
            && pareto == Front(feasible)
            && match recommended
               case None => feasible == []
               case Some((point, goodput)) => feasible != [] && point == feasible[0] && goodput == point.lcb * safetyFactor
  {
    hide Placed;
    hide Dominates;
    var feasible: seq<Rated> := [];
    for k := 0 to |points|
      invariant feasible == Feasible(limits, points[..k])
    {
      assert points[..k + 1][..k] == points[..k];
      var p := points[k];
      var reasons := Reasons(limits, p);
      if reasons == [] && p.goodputMean.Some? {
        feasible := feasible + [Rating(p)];
      }
    }
    assert points[..|points|] == points;
    var sorted := SortBestFirst(feasible);
    pareto := [];
    for i := 0 to |sorted|
      invariant pareto == FrontUpTo(sorted, i)
    {
      var dominated := false;
      var j := 0;
      while j < |sorted| && !dominated
        invariant j <= |sorted|
        invariant dominated ==> Dominated(sorted, i)
        invariant !dominated ==> forall k :: 0 <= k < j && k != i ==> !Dominates(sorted[k], sorted[i])
        decreases |sorted| - j, if dominated then 0 else 1
      {
        dominated := j != i && Dominates(sorted[j], sorted[i]);
        j := j + 1;
      }
      if !dominated {
        pareto := pareto + [sorted[i]];
      }
    }
    if sorted == [] {
      recommended := None;
    } else {
      recommended := Some((sorted[0], sorted[0].lcb * safetyFactor));
    }
  }

  /** Stands for the library's stable sort. */
  method SortBestFirst(points: seq<Rated>) returns (sorted: seq<Rated>)
    ensures sorted == BestFirst(points)
  {
    sorted := [];
    for k := 0 to |points|
      invariant sorted == BestFirst(points[..k])
    {
      assert points[..k + 1][..k] == points[..k];
      sorted := Placed(points[k], sorted);
    }
    assert points[..|points|] == points;
  }

  // ---- what the front is worth ----

  lemma {:induction false} FrontIs(points: seq<Rated>, n: nat)
    requires n <= |points|
    ensures forall x :: x in FrontUpTo(points, n) <==> exists i :: 0 <= i < n && points[i] == x && !Dominated(points, i)
  {
    hide Dominated;
    if n > 0 {
      FrontIs(points, n - 1);
      forall x ensures x in FrontUpTo(points, n) <==> exists i :: 0 <= i < n && points[i] == x && !Dominated(points, i) {
        if x in FrontUpTo(points, n - 1) {
          var i :| 0 <= i < n - 1 && points[i] == x && !Dominated(points, i);
          assert i < n;
        }
      }
    }
  }

  /** A total preorder in which whoever dominates comes out strictly ahead, if all resources are measured. */
  predicate Surpasses(a: Rated, b: Rated) {
    a.lcb > b.lcb || (a.lcb == b.lcb && Cheaper(a, b))
  }

  /** Some point among `these` that none of them surpasses; where a resource is missing goodput alone decides. */
  lemma {:induction false} TopExists(these: set<Rated>) returns (top: Rated)
    requires these != {}
    ensures top in these && forall x :: x in these ==> !Surpasses(x, top)
    decreases |these|
  {
    var x :| x in these;
    var rest := these - {x};
    if rest == {} {
      top := x;
    } else {
      var best := TopExists(rest);
      top := if Surpasses(x, best) then x else best;
    }
    forall y | y in these ensures !Surpasses(y, top) {
      assert y == x || y in rest;
    }
  }

  lemma DominatesSurpasses(a: Rated, b: Rated)
    requires Dominates(a, b)
    ensures Surpasses(a, b)
  {
  }

  /** The front is empty only if nothing is feasible, whatever measurements are missing. */
  lemma FrontNotEmpty(points: seq<Rated>)
    requires points != []
    ensures Front(points) != []
  {
    hide Dominates;
    hide Surpasses;
    var all := set x | x in points;
    assert points[0] in all;
    var top := TopExists(all);
    var i :| 0 <= i < |points| && points[i] == top;
    if Dominated(points, i) {
      var j :| 0 <= j < |points| && j != i && Dominates(points[j], points[i]);
      assert points[j] in all;
      DominatesSurpasses(points[j], top);
    }
    FrontIs(points, |points|);
    assert top in Front(points);
  }

  ghost predicate AllMeasured(points: seq<Rated>) {
    forall x :: x in points ==> x.resource.Some?
  }

  lemma DominationChains(a: Rated, b: Rated, c: Rated)
    requires Dominates(a, b) && Dominates(b, c) && a.resource.Some? && b.resource.Some? && c.resource.Some?
    ensures Dominates(a, c)
  {
  }

  /** With all resources measured, every point left out is dominated by one on the front. */
  lemma LeftOutIsDominated(points: seq<Rated>, i: nat) returns (y: Rated)
    requires i < |points| && AllMeasured(points) && Dominated(points, i)
    ensures y in Front(points) && Dominates(y, points[i])
  {
    hide Dominates;
    hide Surpasses;
    var over := set x | x in points && Dominates(x, points[i]);
    var first :| 0 <= first < |points| && first != i && Dominates(points[first], points[i]);
    assert points[first] in over;
    y := TopExists(over);
    var j :| 0 <= j < |points| && points[j] == y;
    if Dominated(points, j) {
      var k :| 0 <= k < |points| && k != j && Dominates(points[k], points[j]);
      assert points[k] in points && points[i] in points;
      DominationChains(points[k], points[j], points[i]);
      assert points[k] in over;
      DominatesSurpasses(points[k], points[j]);
    }
    FrontIs(points, |points|);
  }

  // ---- when every point left out is dominated by one on the front ----

  ghost predicate Undominated(points: seq<Rated>, y: Rated) {
    forall z :: z in points ==> !Dominates(z, y)
  }

  lemma FrontMember(points: seq<Rated>, y: Rated)
    ensures y in Front(points) <==> y in points && Undominated(points, y)
  {
    FrontIs(points, |points|);
    if y in points && Undominated(points, y) {
      var i :| 0 <= i < |points| && points[i] == y;
      assert !Dominated(points, i);
    }
    if y in Front(points) {
      var i :| 0 <= i < |points| && points[i] == y && !Dominated(points, i);
      forall z | z in points ensures !Dominates(z, y) {
        var j :| 0 <= j < |points| && points[j] == z;
      }
    }
  }

  ghost predicate CoveredAt(points: seq<Rated>, x: Rated) {
    exists y :: y in Front(points) && Dominates(y, x)
  }

  /** Every point left out is dominated by one on the front. */
  ghost predicate Covered(points: seq<Rated>) {
    forall i :: 0 <= i < |points| && Dominated(points, i) ==> CoveredAt(points, points[i])
  }

  ghost predicate Highest(points: seq<Rated>, y: Rated) {
    forall z :: z in points ==> z.lcb <= y.lcb
  }

  /** Some point stands in for the unmeasured `m` against `x`: no costlier than `x`, or unmeasured itself but on top. */
  ghost predicate BridgedAt(points: seq<Rated>, x: Rated, m: Rated)
    requires x.resource.Some?
  {
    exists y :: y in points && y.lcb >= m.lcb &&
      if y.resource.Some? then y.resource.value <= x.resource.value else Highest(points, y)
  }

  /** An unmeasured point with more goodput than a measured one never stands alone. */
  ghost predicate Bridged(points: seq<Rated>) {
    forall x, m :: x in points && m in points && x.resource.Some? && m.resource.None? && m.lcb > x.lcb ==>
      BridgedAt(points, x, m)
  }

  /** An unmeasured point is on the front exactly if no bound is higher. */
  lemma UnmeasuredOnFrontIff(points: seq<Rated>, y: Rated)
    requires y in points && y.resource.None?
    ensures y in Front(points) <==> Highest(points, y)
  {
    FrontMember(points, y);
    if Undominated(points, y) {
      forall z | z in points ensures z.lcb <= y.lcb {
        assert !Dominates(z, y);
      }
    }
  }

  /** Whoever is unmeasured and left out is dominated by a point of the front with the highest bound. */
  lemma UnmeasuredIsCovered(points: seq<Rated>, x: Rated)
    requires x in points && x.resource.None? && !Highest(points, x)
    ensures CoveredAt(points, x)
  {
    hide Surpasses;
    var all := set z | z in points;
    assert x in all;
    var top := TopExists(all);
    FrontMember(points, top);
    forall z | z in points ensures !Dominates(z, top) && z.lcb <= top.lcb {
      assert z in all;
      SurpassedBy(z, top);
    }
    assert top in Front(points);
    var z :| z in points && z.lcb > x.lcb;
    assert Dominates(top, x);
  }

  lemma SurpassedBy(z: Rated, top: Rated)
    requires !Surpasses(z, top)
    ensures !Dominates(z, top) && z.lcb <= top.lcb
  {
  }

  /**
   Among the measured points with a bound of at least `floor` that cost no more
   than `x` one is on the front, if no unmeasured point lies above the floor.
   */
  lemma MeasuredIsCovered(points: seq<Rated>, x: Rated, floor: real, first: Rated)
    requires x.resource.Some? && first in points && first.resource.Some? && Dominates(first, x) && first.lcb >= floor
    requires forall m :: m in points && m.resource.None? ==> m.lcb <= floor
    ensures CoveredAt(points, x)
  {
    hide Surpasses;
    var over := set y | y in points && y.resource.Some? && y.lcb >= floor && Dominates(y, x);
    assert first in over;
    var top := TopExists(over);
    forall z | z in points ensures !Dominates(z, top) {
      if z.resource.Some? && Dominates(z, top) {
        DominationChains(z, top, x);
        assert z in over;
        SurpassedBy(z, top);
      }
    }
    FrontMember(points, top);
  }

  /** The largest bound among the unmeasured points, or `low` if that is larger. */
  lemma UnmeasuredTop(points: seq<Rated>, low: real) returns (floor: real)
    ensures floor >= low && forall m :: m in points && m.resource.None? ==> m.lcb <= floor
    ensures floor == low || exists m :: m in points && m.resource.None? && m.lcb == floor
  {
    floor := low;
    for k := 0 to |points|
      invariant floor >= low && forall i :: 0 <= i < k && points[i].resource.None? ==> points[i].lcb <= floor
      invariant floor == low || exists m :: m in points && m.resource.None? && m.lcb == floor
    {
      if points[k].resource.None? && points[k].lcb > floor {
        floor := points[k].lcb;
        assert points[k] in points;
      }
    }
  }

  lemma BridgedIsCovered(points: seq<Rated>, i: nat)
    requires Bridged(points) && i < |points| && Dominated(points, i)
    ensures CoveredAt(points, points[i])
  {
    hide Front;
    hide CoveredAt;
    var x := points[i];
    var j :| 0 <= j < |points| && j != i && Dominates(points[j], x);
    assert x in points && points[j] in points;
    if x.resource.None? {
      UnmeasuredIsCovered(points, x);
    } else {
      var floor := UnmeasuredTop(points, x.lcb);
      if floor == x.lcb {
        MeasuredIsCovered(points, x, floor, points[j]);
      } else {
        var m :| m in points && m.resource.None? && m.lcb == floor;
        assert BridgedAt(points, x, m);
        var y :| y in points && y.lcb >= m.lcb &&
                 if y.resource.Some? then y.resource.value <= x.resource.value else Highest(points, y);
        if y.resource.Some? {
          MeasuredIsCovered(points, x, floor, y);
        } else {
          UnmeasuredOnFrontIff(points, y);
          CoveredBy(points, x, y);
        }
      }
    }
  }

  lemma CoveredBy(points: seq<Rated>, x: Rated, y: Rated)
    requires y in Front(points) && Dominates(y, x)
    ensures CoveredAt(points, x)
  {
  }

  /**
   With resources missing, every point left out is still dominated by one on the
   front exactly if the unmeasured points are bridged by others.
   */
  lemma LeftOutIsDominatedIff(points: seq<Rated>)
    ensures Covered(points) <==> Bridged(points)
  {
    hide Front;
    if Bridged(points) {
      forall i | 0 <= i < |points| && Dominated(points, i) ensures CoveredAt(points, points[i]) {
        BridgedIsCovered(points, i);
      }
    }
    if Covered(points) {
      forall x, m | x in points && m in points && x.resource.Some? && m.resource.None? && m.lcb > x.lcb
        ensures BridgedAt(points, x, m)
      {
        CoveredIsBridged(points, x, m);
      }
    }
  }

  lemma CoveredIsBridged(points: seq<Rated>, x: Rated, m: Rated)
    requires Covered(points) && x in points && m in points
    requires x.resource.Some? && m.resource.None? && m.lcb > x.lcb
    ensures BridgedAt(points, x, m)
  {
    hide Front;
    var i :| 0 <= i < |points| && points[i] == x;
    var k :| 0 <= k < |points| && points[k] == m;
    HasDominator(points, i, k);
    assert CoveredAt(points, points[i]);
    var y :| y in Front(points) && Dominates(y, x);
    FrontMember(points, y);
    if y.resource.None? {
      UnmeasuredOnFrontIff(points, y);
    } else {
      assert !Dominates(m, y);
    }
  }

  lemma HasDominator(points: seq<Rated>, i: nat, j: nat)
    requires i < |points| && j < |points| && j != i && Dominates(points[j], points[i])
    ensures Dominated(points, i)
  {
  }

  const FIRST := Rated(1.0, 1.0, 1, Some(1.0))
  const SECOND := Rated(2.0, 2.0, 1, None)
  const THIRD := Rated(3.0, 3.0, 1, Some(9.0))

  lemma ThreeSorted()
    ensures BestFirst([THIRD, SECOND, FIRST]) == [THIRD, SECOND, FIRST]
  {
    var points := [THIRD, SECOND, FIRST];
    assert points[..2] == [THIRD, SECOND] && [THIRD, SECOND][..1] == [THIRD] && [THIRD][..0] == [];
    assert [THIRD, SECOND][1..] == [SECOND] && [SECOND][1..] == [] && [THIRD][1..] == [];
    assert BestFirst([THIRD]) == [THIRD];
    assert Placed(SECOND, [THIRD]) == [THIRD, SECOND];
    assert BestFirst([THIRD, SECOND]) == [THIRD, SECOND];
    assert Placed(FIRST, [SECOND]) == [SECOND, FIRST];
    assert Placed(FIRST, [THIRD, SECOND]) == [THIRD] + [SECOND, FIRST];
  }

  lemma ThreeFront()
    ensures Front([THIRD, SECOND, FIRST]) == [THIRD]
  {
    var points := [THIRD, SECOND, FIRST];
    assert !Dominated(points, 0);
    HasDominator(points, 1, 0);
    HasDominator(points, 2, 1);
    hide Dominated;
    assert FrontUpTo(points, 0) == [];
    assert FrontUpTo(points, 1) == FrontUpTo(points, 0) + [points[0]] == [THIRD];
    assert FrontUpTo(points, 2) == FrontUpTo(points, 1) + [];
    assert FrontUpTo(points, 3) == FrontUpTo(points, 2) + [];
  }

  /**
   With a resource missing this fails: the second point is dominated by the third
   and dominates the first only because its own resource is unknown.
   */
  lemma LeftOutByMissingResource()
    ensures var points := [THIRD, SECOND, FIRST];
            && BestFirst(points) == points && Front(points) == [THIRD] && !Bridged(points)
            && Dominates(SECOND, FIRST) && forall x :: x in Front(points) ==> !Dominates(x, FIRST)
  {
    hide BestFirst;
    hide FrontUpTo;
    hide Bridged;
    var points := [THIRD, SECOND, FIRST];
    ThreeSorted();
    ThreeFront();
    HasDominator(points, 2, 1);
    LeftOutIsDominatedIff(points);
    assert !CoveredAt(points, points[2]);
  }

  /** The recommended point has the highest goodput bound, and is on the front unless an equal one is known to be cheaper. */
  lemma RecommendedOnFrontIff(points: seq<Rated>)
    requires points != [] && Descending(points)
    ensures forall x :: x in points ==> x.lcb <= points[0].lcb
    ensures !Dominated(points, 0) <==> forall x :: x in points && x.lcb == points[0].lcb ==> !Cheaper(x, points[0])
  {
    forall x | x in points ensures x.lcb <= points[0].lcb {
      var i :| 0 <= i < |points| && points[i] == x;
      assert i > 0 ==> !Better(points[i], points[0]);
    }
    if x :| x in points && x.lcb == points[0].lcb && Cheaper(x, points[0]) {
      var j :| 0 <= j < |points| && points[j] == x;
      assert j != 0 && Dominates(points[j], points[0]);
    }
    if Dominated(points, 0) {
      var j :| 0 <= j < |points| && j != 0 && Dominates(points[j], points[0]);
      assert points[j] in points && points[j].lcb == points[0].lcb && Cheaper(points[j], points[0]);
    }
  }

  // ---- the recommendation, told from the measurements ----

  /** The resource measured for the point: the first place that has it, a zero there not counting. */
  ghost predicate Measures(p: Point, resource: real) {
    (p.gpuSeconds == Some(resource) && resource != 0.0) ||
    (p.gpuSeconds in {None, Some(0.0)} && p.resourceGpuSeconds == Some(resource))
  }

  /** All that is asked for was measured, on good evidence, and is within the limits. */
  ghost predicate WithinLimits(limits: Limits, p: Point) {
    && p.goodputMean.Some? && p.evidence == Good
    && p.e2eP95.Some? && p.e2eP95.value <= limits.e2eP95Slo
    && (p.successRate.Some? ==> p.successRate.value >= limits.minSuccessRate)
    && (limits.resourceBudget.Some? ==> exists r :: Measures(p, r) && r <= limits.resourceBudget.value)
  }

  /** What the point is judged by. */
  ghost predicate Rates(p: Point, x: Rated) {
    && p.goodputMean == Some(x.mean) && x.concurrency == p.concurrency
    && (if p.goodputLcb.Some? then p.goodputLcb == Some(x.lcb) else x.lcb == x.mean)
    && (match x.resource
        case Some(r) => Measures(p, r)
        case None => forall r :: !Measures(p, r))
  }

  lemma MeasuresIff(p: Point, r: real)
    ensures Measures(p, r) <==> Resource(p) == Some(r)
  {
  }

  lemma NothingAgainst(a: seq<Reason>, b: seq<Reason>, c: seq<Reason>, d: seq<Reason>, e: seq<Reason>)
    ensures a + b + c + d + e == [] <==> a == [] && b == [] && c == [] && d == [] && e == []
  {
    assert |a + b + c + d + e| == |a| + |b| + |c| + |d| + |e|;
  }

  /** Nothing speaks against a point exactly if it is within all limits. */
  lemma FeasibleIff(limits: Limits, p: Point)
    ensures IsFeasible(limits, p) <==> WithinLimits(limits, p)
  {
    hide Resource;
    hide Measures;
    forall r ensures Measures(p, r) <==> Resource(p) == Some(r) {
      MeasuresIff(p, r);
    }
    NothingAgainst(if p.goodputMean.None? then [GoodputMissing] else [],
                   if p.e2eP95.None? || p.e2eP95.value > limits.e2eP95Slo then [E2eP95Slo] else [],
                   if p.successRate.Some? && p.successRate.value < limits.minSuccessRate then [SuccessRate] else [],
                   if p.evidence.Good? then [] else [EvidenceQuality],
                   if limits.resourceBudget.None? then []
                   else if Resource(p).None? then [ResourceMissing]
                   else if Resource(p).value > limits.resourceBudget.value then [ResourceBudget] else []);
    if Resource(p).Some? {
      assert Measures(p, Resource(p).value);
    }
  }

  lemma RatesIff(p: Point, x: Rated)
    requires p.goodputMean.Some?
    ensures Rates(p, x) <==> x == Rating(p)
  {
    hide Resource;
    hide Measures;
    forall r ensures Measures(p, r) <==> Resource(p) == Some(r) {
      MeasuresIff(p, r);
    }
    if Resource(p).Some? {
      assert Measures(p, Resource(p).value);
    }
    assert x == Rated(x.lcb, x.mean, x.concurrency, x.resource);
  }

  /** The rating of a point within the limits. */
  ghost predicate Admitted(limits: Limits, points: seq<Point>, x: Rated) {
    exists p :: p in points && WithinLimits(limits, p) && Rates(p, x)
  }

  lemma AdmittedSnoc(limits: Limits, init: seq<Point>, p: Point, x: Rated)
    ensures Admitted(limits, init + [p], x) <==> Admitted(limits, init, x) || (WithinLimits(limits, p) && Rates(p, x))
  {
    hide WithinLimits;
    hide Rates;
    var all := init + [p];
    assert forall q :: q in all <==> q in init || q == p;
  }

  /** The feasible ratings are those of the points within the limits. */
  lemma {:induction false} FeasibleAre(limits: Limits, points: seq<Point>, x: Rated)
    ensures x in Feasible(limits, points) <==> Admitted(limits, points, x)
  {
    hide IsFeasible;
    hide Rates;
    hide Rating;
    hide WithinLimits;
    if points != [] {
      hide Admitted;
      var init, p := points[..|points| - 1], points[|points| - 1];
      assert points == init + [p];
      FeasibleAre(limits, init, x);
      AdmittedSnoc(limits, init, p, x);
      FeasibleIff(limits, p);
      if IsFeasible(limits, p) {
        FeasibleHasMean(limits, p);
        RatesIff(p, x);
      }
    }
  }

  lemma FeasibleHasMean(limits: Limits, p: Point)
    requires IsFeasible(limits, p)
    ensures p.goodputMean.Some?
  {
  }

  /** More assured goodput, or as much and a higher mean, or that too and less concurrency. */
  ghost predicate Preferred(a: Rated, b: Rated) {
    if a.lcb != b.lcb then a.lcb > b.lcb
    else if a.mean != b.mean then a.mean > b.mean
    else a.concurrency < b.concurrency
  }

  lemma InBestFirst(points: seq<Rated>, x: Rated)
    ensures x in BestFirst(points) <==> x in points
  {
    BestFirstIs(points);
    assert x in multiset(BestFirst(points)) <==> x in multiset(points);
  }

  /**
   Something is recommended exactly if a point is within the limits, and it is
   one to which none of those is preferred.
   */
  lemma RecommendedIs(limits: Limits, points: seq<Point>)
    ensures var sorted := BestFirst(Feasible(limits, points));
            if sorted == [] then forall p :: p in points ==> !WithinLimits(limits, p)
            else Admitted(limits, points, sorted[0]) &&
                 forall y :: Admitted(limits, points, y) ==> !Preferred(y, sorted[0])
  {
    hide WithinLimits;
    hide Rates;
    hide Feasible;
    hide BestFirst;
    var feasible := Feasible(limits, points);
    var sorted := BestFirst(feasible);
    BestFirstIs(feasible);
    forall y ensures Admitted(limits, points, y) <==> y in sorted {
      FeasibleAre(limits, points, y);
      InBestFirst(feasible, y);
    }
    forall p | p in points && WithinLimits(limits, p) ensures exists x :: x in sorted {
      var x := RatingExists(limits, p);
      assert Admitted(limits, points, x);
    }
    if sorted != [] {
      assert sorted[0] in sorted;
      forall y | y in sorted ensures !Preferred(y, sorted[0]) {
        var j :| 0 <= j < |sorted| && sorted[j] == y;
        assert j > 0 ==> !Better(sorted[j], sorted[0]);
      }
    }
  }

  lemma RatingExists(limits: Limits, p: Point) returns (x: Rated)
    requires WithinLimits(limits, p)
    ensures Rates(p, x)
  {
    x := Rating(p);
    RatesIff(p, x);
  }

  /** At least the goodput for no more resources, and better in one of them; an unknown resource does not count. */
  ghost predicate Outclasses(a: Rated, b: Rated) {
    a.lcb >= b.lcb &&
    if a.resource.Some? && b.resource.Some?
    then a.resource.value <= b.resource.value && (a.lcb != b.lcb || a.resource.value != b.resource.value)
    else a.lcb != b.lcb
  }

  /** On the front are the points within the limits that none of those outclasses. */
  lemma OnFrontIff(limits: Limits, points: seq<Point>, x: Rated)
    ensures x in Front(BestFirst(Feasible(limits, points))) <==>
            Admitted(limits, points, x) && forall y :: Admitted(limits, points, y) ==> !Outclasses(y, x)
  {
    hide Admitted;
    hide Feasible;
    hide BestFirst;
    hide Front;
    var feasible := Feasible(limits, points);
    var sorted := BestFirst(feasible);
    forall y ensures Admitted(limits, points, y) <==> y in sorted {
      FeasibleAre(limits, points, y);
      InBestFirst(feasible, y);
    }
    forall y ensures Outclasses(y, x) <==> Dominates(y, x) {
    }
    FrontMember(sorted, x);
  }
}
