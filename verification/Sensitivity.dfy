/** The weight sweep: fixed candidates and reference, one objective weight varied (exact scores). */
module Sensitivity {
  import opened Collections
  import opened Scoring

  /** A sampled weight and the winner there; no winner when the job budget was spent before the point. */
  datatype Point = Point(value: real, winner: Option<Candidate>)
  datatype Interval = Interval(lower: real, upper: real, from: Strategy, to: Strategy)
  datatype Result = Rejected | Swept(points: seq<Point>, intervals: seq<Interval>)

  function At(w: Weights, o: Objective, value: real): Weights {
    match o
    case Production => w.(production := value)
    case Reliability => w.(reliability := value)
    case Maintenance => w.(maintenance := value)
    case Workforce => w.(workforce := value)
    case Stability => w.(stability := value)
  }

  predicate Ascending(a: real, b: real) { a <= b }

  function Winner(scale: Scale, candidates: seq<Candidate>, w: Weights): Candidate
    requires Full(scale) && ValidWeights(w) && candidates != []
  {
    RankIsSortedPermutation(scale, candidates, w);
    RankBy(scale, candidates, w)[0].plan
  }

  function PinnedScale(candidates: seq<Candidate>): (scale: Scale)
    requires candidates != []
    ensures Full(scale)
  {
    ReferenceScale(NormalizationReference(candidates))
  }

  function PointAt(scale: Scale, candidates: seq<Candidate>, w: Weights, value: real, spent: bool): Point
    requires Full(scale) && ValidWeights(w) && candidates != []
  {
    Point(value, if spent then None else Some(Winner(scale, candidates, w)))
  }

  /** Point `i` shows the winner at weight `value`; `spent` says the budget was used up before it. */
  predicate Shows(
    scale: Scale, candidates: seq<Candidate>, w: Weights, o: Objective, value: real, spent: bool, point: Point)
    requires Full(scale) && candidates != []
  {
    ValidWeights(At(w, o, value)) && point == PointAt(scale, candidates, At(w, o, value), value, spent)
  }

  /** One point per value, in order. */
  ghost predicate Traces(
    scale: Scale, candidates: seq<Candidate>, w: Weights, o: Objective, values: seq<real>, spent: nat -> bool,
    points: seq<Point>)
    requires Full(scale) && candidates != []
  {
    && |points| <= |values|
    && forall i :: 0 <= i < |points| ==> Shows(scale, candidates, w, o, values[i], spent(i), points[i])
  }

  predicate Changes(left: Point, right: Point) {
    left.winner.Some? && right.winner.Some? && left.winner.value.strategy != right.winner.value.strategy
  }

  /** Rank changes between neighbouring feasible samples among the first `n` points. */
  function IntervalsOf(points: seq<Point>, n: nat): seq<Interval>
    requires n <= |points|
  {
    if n < 2 then []
    else
      var left, right := points[n - 2], points[n - 1];
      IntervalsOf(points, n - 1)
      + if Changes(left, right)
        then [Interval(left.value, right.value, left.winner.value.strategy, right.winner.value.strategy)] else []
  }

  method Sweep(candidates: seq<Candidate>, w: Weights, o: Objective, values: seq<real>, spent: nat -> bool)
    returns (result: Result)
    requires candidates != []
    ensures var sorted := Sorted(values, Ascending);
            match result
            case Rejected => exists v :: v in sorted && !ValidWeights(At(w, o, v))
            case Swept(points, intervals) =>
              && |points| == |sorted|
              && Traces(PinnedScale(candidates), candidates, w, o, sorted, spent, points)
              && intervals == IntervalsOf(points, |points|)
              && (UniqueCandidates(candidates) && Distinct(values) ==> |intervals| <= |candidates| - 1)
  {
    hide RankBy, ValidWeights, At, Sorted, UniqueCandidates;
    var sorted := Sorted(values, Ascending);
    var points: seq<Point> := [];
    var i := 0;
    while i < |sorted|
      invariant 0 <= i == |points| <= |sorted|
      invariant Traces(PinnedScale(candidates), candidates, w, o, sorted, spent, points)
    {
      var weights := At(w, o, sorted[i]);
      if !ValidWeights(weights) { return Rejected; }
      var point := Sample(candidates, weights, sorted[i], spent(i));
      points := points + [point];
      i := i + 1;
    }
    var intervals := RankChanges(points);
    if UniqueCandidates(candidates) && Distinct(values) {
      SweepIsSwept(PinnedScale(candidates), candidates, w, o, values, spent, points);
      SweepHasFewIntervals(PinnedScale(candidates), candidates, w, o, points);
    }
    result := Swept(points, intervals);
  }

  /** One point of the sweep. */
  method Sample(candidates: seq<Candidate>, w: Weights, value: real, spent: bool) returns (point: Point)
    requires candidates != [] && ValidWeights(w)
    ensures point == PointAt(PinnedScale(candidates), candidates, w, value, spent)
  {
    hide RankBy, ValidWeights, Covers, NormalizationReference, ReferenceScale;
    if spent { return Point(value, None); }
    OwnReferenceCovers(candidates);
    var ranking := RankCandidates(candidates, w, Some(NormalizationReference(candidates)));
    RankIsSortedPermutation(PinnedScale(candidates), candidates, w);
    point := Point(value, Some(ranking.rows[0].plan));
  }

  method RankChanges(points: seq<Point>) returns (intervals: seq<Interval>)
    ensures intervals == IntervalsOf(points, |points|)
  {
    intervals := [];
    var k := 1;
    while k < |points|
      invariant 1 <= k
      invariant if points == [] then intervals == [] else k <= |points| && intervals == IntervalsOf(points, k)
    {
      var left, right := points[k - 1], points[k];
      if Changes(left, right) {
        var from, to := left.winner.value.strategy, right.winner.value.strategy;
        intervals := intervals + [Interval(left.value, right.value, from, to)];
      }
      k := k + 1;
    }
  }

  // Laws ----------------------------------------------------------------------------------------

  ghost predicate UniqueCandidates(candidates: seq<Candidate>) {
    forall c, d :: c in candidates && d in candidates && c.id == d.id ==> c == d
  }

  /** A candidate's benefit in the swept objective. */
  function Swayed(scale: Scale, c: Candidate, o: Objective): real
    requires Full(scale)
  {
    Weight(Objectives(MetricBenefits(scale, c.kpis)), o)
  }

  /** The score's numerator is affine in the swept weight, with the benefit as its slope. */
  lemma NumeratorIsAffine(b: Weights, w: Weights, o: Objective, value: real)
    ensures Weighted(b, At(w, o, value)) == Weighted(b, At(w, o, 0.0)) + Times(value, Weight(b, o))
  {
  }

  /** If `a` leads at `u` and `b` at a larger `v`, then `b` has the larger slope, and equal slopes mean equal lines. */
  lemma Exchange(ra: real, rb: real, ba: real, bb: real, u: real, v: real)
    requires u < v
    requires ra + Times(u, ba) >= rb + Times(u, bb)
    requires rb + Times(v, bb) >= ra + Times(v, ba)
    ensures ba <= bb
    ensures ba == bb ==> ra == rb
  {
    assert (v - u) * (bb - ba) == v * bb - v * ba - u * bb + u * ba;
    NonNegativeQuotient((v - u) * (bb - ba), v - u);
    assert (v - u) * (bb - ba) / (v - u) == bb - ba;
  }

  lemma QuotientOrder(x: real, y: real, d: real)
    requires d > 0.0 && x / d >= y / d
    ensures x >= y
  {
    assert x == (x / d) * d && y == (y / d) * d;
  }

  lemma WinnerLeads(scale: Scale, candidates: seq<Candidate>, w: Weights, c: Candidate)
    requires Full(scale) && ValidWeights(w) && c in candidates
    ensures var a := Winner(scale, candidates, w);
            && a in candidates
            && Before(ScoreOf(scale, a, w), ScoreOf(scale, c, w))
            && Weighted(Objectives(MetricBenefits(scale, a.kpis)), w)
               >= Weighted(Objectives(MetricBenefits(scale, c.kpis)), w)
  {
    WinnerIsBest(scale, candidates, w);
    var a := Winner(scale, candidates, w);
    assert Before(ScoreOf(scale, a, w), ScoreOf(scale, c, w));
    var x := Weighted(Objectives(MetricBenefits(scale, a.kpis)), w);
    var y := Weighted(Objectives(MetricBenefits(scale, c.kpis)), w);
    QuotientOrder(x, y, TotalWeight(w));
  }

  /**
   As the weight grows the winner's benefit in the swept objective never falls, and stays equal only
   if the winner stays.
   */
  lemma WinnerFollowsWeight(scale: Scale, candidates: seq<Candidate>, w: Weights, o: Objective, u: real, v: real)
    requires Full(scale) && candidates != [] && UniqueCandidates(candidates)
    requires u < v && ValidWeights(At(w, o, u)) && ValidWeights(At(w, o, v))
    ensures var a, b := Winner(scale, candidates, At(w, o, u)), Winner(scale, candidates, At(w, o, v));
            Swayed(scale, a, o) <= Swayed(scale, b, o) && (Swayed(scale, a, o) == Swayed(scale, b, o) ==> a == b)
  {
    WinnerIsBest(scale, candidates, At(w, o, u));
    WinnerIsBest(scale, candidates, At(w, o, v));
    var a, b := Winner(scale, candidates, At(w, o, u)), Winner(scale, candidates, At(w, o, v));
    WinnerLeads(scale, candidates, At(w, o, u), b);
    WinnerLeads(scale, candidates, At(w, o, v), a);
    var x, y := Objectives(MetricBenefits(scale, a.kpis)), Objectives(MetricBenefits(scale, b.kpis));
    NumeratorIsAffine(x, w, o, u);
    NumeratorIsAffine(x, w, o, v);
    NumeratorIsAffine(y, w, o, u);
    NumeratorIsAffine(y, w, o, v);
    Exchange(Weighted(x, At(w, o, 0.0)), Weighted(y, At(w, o, 0.0)), Weight(x, o), Weight(y, o), u, v);
    if Weight(x, o) == Weight(y, o) {
      assert Weighted(x, At(w, o, u)) == Weighted(y, At(w, o, u))
             && Weighted(x, At(w, o, v)) == Weighted(y, At(w, o, v));
    }
  }

  /** What a sweep over increasing weights hands to the laws below. */
  ghost predicate SweptPoints(scale: Scale, candidates: seq<Candidate>, w: Weights, o: Objective, points: seq<Point>) {
    && Full(scale) && candidates != [] && UniqueCandidates(candidates)
    && (forall i, j :: 0 <= i < j < |points| ==> points[i].value < points[j].value)
    && forall i :: 0 <= i < |points| && points[i].winner.Some? ==>
         ValidWeights(At(w, o, points[i].value))
         && points[i].winner.value == Winner(scale, candidates, At(w, o, points[i].value))
  }

  lemma WinnersFollowWeight(
    scale: Scale, candidates: seq<Candidate>, w: Weights, o: Objective, points: seq<Point>, i: nat, j: nat)
    requires SweptPoints(scale, candidates, w, o, points)
    requires i <= j < |points| && points[i].winner.Some? && points[j].winner.Some?
    ensures var a, b := points[i].winner.value, points[j].winner.value;
            Swayed(scale, a, o) <= Swayed(scale, b, o) && (Swayed(scale, a, o) == Swayed(scale, b, o) ==> a == b)
  {
    hide RankBy, ValidWeights, At, MetricBenefits;
    if i < j {
      WinnerFollowsWeight(scale, candidates, w, o, points[i].value, points[j].value);
    }
  }

  /** A displaced winner never returns. */
  lemma DisplacedWinnerNeverReturns(
    scale: Scale, candidates: seq<Candidate>, w: Weights, o: Objective, points: seq<Point>, i: nat, j: nat, k: nat)
    requires SweptPoints(scale, candidates, w, o, points)
    requires i <= j <= k < |points|
    requires points[i].winner.Some? && points[j].winner.Some? && points[i].winner == points[k].winner
    ensures points[j].winner == points[i].winner
  {
    WinnersFollowWeight(scale, candidates, w, o, points, i, j);
    WinnersFollowWeight(scale, candidates, w, o, points, j, k);
  }

  /** The winners among the first `n` points. */
  function Winners(points: seq<Point>, n: nat): (r: set<Candidate>)
    requires n <= |points|
    ensures forall c :: c in r <==> exists i :: 0 <= i < n && points[i].winner == Some(c)
  {
    if n == 0 then {}
    else Winners(points, n - 1) + (if points[n - 1].winner.Some? then {points[n - 1].winner.value} else {})
  }

  /** Each interval brings a winner not seen before. */
  lemma {:induction false} IntervalsCountNewWinners(
    scale: Scale, candidates: seq<Candidate>, w: Weights, o: Objective, points: seq<Point>, n: nat)
    requires SweptPoints(scale, candidates, w, o, points) && n <= |points|
    ensures |IntervalsOf(points, n)| <= (if Winners(points, n) == {} then 0 else |Winners(points, n)| - 1)
  {
    hide SweptPoints;
    if n > 0 {
      IntervalsCountNewWinners(scale, candidates, w, o, points, n - 1);
      if n >= 2 && Changes(points[n - 2], points[n - 1]) {
        var c := points[n - 1].winner.value;
        if c in Winners(points, n - 1) {
          var i :| 0 <= i < n - 1 && points[i].winner == Some(c);
          DisplacedWinnerNeverReturns(scale, candidates, w, o, points, i, n - 2, n - 1);
        }
        assert points[n - 2].winner.value in Winners(points, n - 1);
        assert |Winners(points, n)| == |Winners(points, n - 1)| + 1;
      } else {
        assert Winners(points, n - 1) <= Winners(points, n);
        SubsetIsNoLarger(Winners(points, n - 1), Winners(points, n));
      }
    }
  }

  lemma SubsetIsNoLarger<T>(a: set<T>, b: set<T>)
    requires a <= b
    ensures |a| <= |b|
  {
    assert b == a + (b - a);
  }

  lemma {:induction false} WinnersAreCandidates(
    scale: Scale, candidates: seq<Candidate>, w: Weights, o: Objective, points: seq<Point>, n: nat)
    requires SweptPoints(scale, candidates, w, o, points) && n <= |points|
    ensures Winners(points, n) <= Elements(candidates)
  {
    forall c | c in Winners(points, n) ensures c in candidates {
      var i :| 0 <= i < n && points[i].winner == Some(c);
      WinnerIsBest(scale, candidates, At(w, o, points[i].value));
    }
  }

  lemma {:induction false} ElementsAreFew<T>(xs: seq<T>)
    ensures |Elements(xs)| <= |xs|
  {
    if xs == [] {
      assert Elements(xs) == {};
    } else {
      var n := |xs| - 1;
      assert xs == xs[..n] + [xs[n]];
      assert Elements(xs) == Elements(xs[..n]) + {xs[n]};
      ElementsAreFew(xs[..n]);
    }
  }

  /** A sweep over n candidates has at most n - 1 rank-change intervals. */
  lemma SweepHasFewIntervals(scale: Scale, candidates: seq<Candidate>, w: Weights, o: Objective, points: seq<Point>)
    requires SweptPoints(scale, candidates, w, o, points)
    ensures |IntervalsOf(points, |points|)| <= |candidates| - 1
  {
    IntervalsCountNewWinners(scale, candidates, w, o, points, |points|);
    WinnersAreCandidates(scale, candidates, w, o, points, |points|);
    SubsetIsNoLarger(Winners(points, |points|), Elements(candidates));
    ElementsAreFew(candidates);
  }

  lemma SortedWeightsAscend(values: seq<real>)
    ensures SortedBy(Sorted(values, Ascending), Ascending)
  {
    hide Sorted;
    SortedIsSorted(values, Ascending);
  }

  lemma SortedWeightsRise(values: seq<real>, i: nat, j: nat)
    requires Distinct(values) && i < j < |Sorted(values, Ascending)|
    ensures Sorted(values, Ascending)[i] < Sorted(values, Ascending)[j]
  {
    hide Sorted;
    SortedWeightsAscend(values);
    PermutationKeepsDistinct(values, Sorted(values, Ascending));
    assert Ascending(Sorted(values, Ascending)[i], Sorted(values, Ascending)[j]);
  }

  lemma ShownWinner(
    scale: Scale, candidates: seq<Candidate>, w: Weights, o: Objective, value: real, spent: bool, point: Point)
    requires Full(scale) && candidates != [] && Shows(scale, candidates, w, o, value, spent, point)
    ensures point.value == value
    ensures point.winner.Some? ==>
              ValidWeights(At(w, o, value)) && point.winner.value == Winner(scale, candidates, At(w, o, value))
  {
    hide RankBy, ValidWeights, At;
  }

  /** The points a sweep over distinct weights returns meet the laws' hypothesis. */
  lemma SweepIsSwept(
    scale: Scale, candidates: seq<Candidate>, w: Weights, o: Objective, values: seq<real>, spent: nat -> bool,
    points: seq<Point>)
    requires Full(scale) && candidates != [] && UniqueCandidates(candidates) && Distinct(values)
    requires Traces(scale, candidates, w, o, Sorted(values, Ascending), spent, points)
    ensures SweptPoints(scale, candidates, w, o, points)
  {
    hide RankBy, ValidWeights, At, Sorted, Shows, Winner;
    var sorted := Sorted(values, Ascending);
    forall i | 0 <= i < |points|
      ensures points[i].value == sorted[i]
      ensures points[i].winner.Some? ==>
                ValidWeights(At(w, o, sorted[i]))
                  && points[i].winner.value == Winner(scale, candidates, At(w, o, sorted[i]))
    {
      ShownWinner(scale, candidates, w, o, sorted[i], spent(i), points[i]);
    }
    forall i, j | 0 <= i < j < |points| ensures points[i].value < points[j].value {
      SortedWeightsRise(values, i, j);
    }
  }
}
