/** What a score measures: where it is anchored, how far each KPI moves it, and who wins. */
module ScoringLaws {
  import opened Collections
  import opened Scoring
  import opened Sensitivity

  // Anchors -------------------------------------------------------------------------------------

  /** The best value of a metric inside a scale: the most punctual, otherwise the least. */
  function Ideal(scale: Scale, m: Metric): real
    requires Full(scale)
  {
    if m == OnTimeRate then Highest(scale[m]) else Lowest(scale[m])
  }

  function Nadir(scale: Scale, m: Metric): real
    requires Full(scale)
  {
    if m == OnTimeRate then Lowest(scale[m]) else Highest(scale[m])
  }

  /** Each metric tells candidates apart. */
  ghost predicate Spread(scale: Scale)
    requires Full(scale)
  {
    forall m: Metric :: Lowest(scale[m]) < Highest(scale[m])
  }

  lemma SelfQuotient(d: real)
    requires d != 0.0
    ensures d / d == 1.0 && 0.0 / d == 0.0
  {
  }

  lemma IdealBenefit(scale: Scale, k: Kpis, m: Metric)
    requires Full(scale)
    ensures Value(k, m) == Ideal(scale, m) ==> MetricBenefit(scale, k, m) == 1.0
    ensures Value(k, m) == Nadir(scale, m) && Lowest(scale[m]) < Highest(scale[m]) ==>
              MetricBenefit(scale, k, m) == 0.0
  {
    var lo, hi := Lowest(scale[m]), Highest(scale[m]);
    if lo != hi { SelfQuotient(hi - lo); }
  }

  lemma TimesOne(x: real)
    ensures Times(x, 1.0) == x && Times(x, 0.0) == 0.0
  {
  }

  lemma FlatObjectives(w: Weights, x: real)
    requires x == 0.0 || x == 1.0
    ensures Weighted(Weights(x, x, x, x, x), w) == (if x == 0.0 then 0.0 else TotalWeight(w))
  {
    TimesOne(w.production);
    TimesOne(w.reliability);
    TimesOne(w.maintenance);
    TimesOne(w.workforce);
    TimesOne(w.stability);
  }

  lemma FlatBenefits(scale: Scale, k: Kpis, x: real)
    requires Full(scale) && forall m: Metric :: MetricBenefit(scale, k, m) == x
    ensures MetricBenefits(scale, k) == Kpis(x, x, x, x, x, x, x, x)
  {
    hide MetricBenefit, Full;
  }

  lemma FlatScore(scale: Scale, c: Candidate, w: Weights, x: real)
    requires Full(scale) && ValidWeights(w) && (x == 0.0 || x == 1.0)
    requires MetricBenefits(scale, c.kpis) == Kpis(x, x, x, x, x, x, x, x)
    ensures ScoreOf(scale, c, w).score == x
  {
    hide MetricBenefits, Weighted, Contributions, Objectives, TotalWeight;
    assert TotalWeight(w) > 0.0;
    FlatAverages(x);
    FlatObjectives(w, x);
    SelfQuotient(TotalWeight(w));
  }

  lemma FlatAverages(x: real)
    requires x == 0.0 || x == 1.0
    ensures Objectives(Kpis(x, x, x, x, x, x, x, x)) == Weights(x, x, x, x, x)
  {
    if x == 0.0 {
      assert 0.0 / 3.0 == 0.0 && 0.0 / 2.0 == 0.0;
    } else {
      assert 3.0 / 3.0 == 1.0 && 2.0 / 2.0 == 1.0;
    }
  }

  /** A candidate with the best value of every metric scores one. */
  lemma BestScoresOne(scale: Scale, c: Candidate, w: Weights)
    requires Full(scale) && ValidWeights(w)
    requires forall m: Metric :: Value(c.kpis, m) == Ideal(scale, m)
    ensures ScoreOf(scale, c, w).score == 1.0
  {
    hide MetricBenefit, Value, Ideal, ScoreOf, MetricBenefits;
    forall m: Metric ensures MetricBenefit(scale, c.kpis, m) == 1.0 { IdealBenefit(scale, c.kpis, m); }
    FlatBenefits(scale, c.kpis, 1.0);
    FlatScore(scale, c, w, 1.0);
  }

  /** On a scale that tells candidates apart, one with the worst value of every metric scores zero. */
  lemma WorstScoresZero(scale: Scale, c: Candidate, w: Weights)
    requires Full(scale) && ValidWeights(w) && Spread(scale)
    requires forall m: Metric :: Value(c.kpis, m) == Nadir(scale, m)
    ensures ScoreOf(scale, c, w).score == 0.0
  {
    hide MetricBenefit, Value, Nadir, ScoreOf, MetricBenefits;
    forall m: Metric ensures MetricBenefit(scale, c.kpis, m) == 0.0 { IdealBenefit(scale, c.kpis, m); }
    FlatBenefits(scale, c.kpis, 0.0);
    FlatScore(scale, c, w, 0.0);
  }

  // Slopes --------------------------------------------------------------------------------------

  /** The weight a metric has in the score: that of its objective, shared among the metrics of the objective. */
  function Share(w: Weights, m: Metric): real {
    match m
    case Makespan | Tardiness | OnTimeRate => w.production / 3.0
    case FailureCount | EmergencyDowntime => w.reliability / 2.0
    case MaintenanceCost => w.maintenance
    case Utilization => w.workforce
    case ScheduleChanges => w.stability
  }

  /** The two candidates agree on every metric but `m`. */
  ghost predicate DifferOnlyIn(a: Kpis, b: Kpis, m: Metric) {
    forall n: Metric :: n != m ==> Value(a, n) == Value(b, n)
  }

  lemma BenefitGap(scale: Scale, a: Kpis, b: Kpis, m: Metric)
    requires Full(scale) && Lowest(scale[m]) < Highest(scale[m])
    ensures var span := Highest(scale[m]) - Lowest(scale[m]);
            MetricBenefit(scale, a, m) - MetricBenefit(scale, b, m) ==
              if m == OnTimeRate then (Value(a, m) - Value(b, m)) / span else (Value(b, m) - Value(a, m)) / span
  {
    var lo, span := Lowest(scale[m]), Highest(scale[m]) - Lowest(scale[m]);
    DifferenceOfQuotients(Value(a, m) - lo, Value(b, m) - lo, span);
    DifferenceOfQuotients(Value(b, m) - lo, Value(a, m) - lo, span);
  }

  lemma DifferenceOfQuotients(x: real, y: real, d: real)
    requires d != 0.0
    ensures x / d - y / d == (x - y) / d
  {
  }

  lemma TimesDifference(w: real, x: real, y: real)
    ensures Times(w, x) - Times(w, y) == Times(w, x - y)
  {
  }

  lemma ThirdOfGap(w: real, g: real)
    ensures Times(w, g / 3.0) == Times(w / 3.0, g) && Times(w, g / 2.0) == Times(w / 2.0, g)
  {
  }

  /** The weighted sum moves by the share of the one benefit that differs. */
  lemma WeightedGap(x: Kpis, y: Kpis, w: Weights, m: Metric)
    requires DifferOnlyIn(x, y, m)
    ensures Weighted(Objectives(x), w) - Weighted(Objectives(y), w) == Times(Share(w, m), Value(x, m) - Value(y, m))
  {
    hide Times;
    var p, q := Objectives(x), Objectives(y);
    var gap := Value(x, m) - Value(y, m);
    assert forall n: Metric :: n != m ==> Value(x, n) == Value(y, n);
    assert Value(x, Makespan) == x.makespan && Value(x, Tardiness) == x.tardiness && Value(x, OnTimeRate) == x.onTime
           && Value(x, FailureCount) == x.failures && Value(x, EmergencyDowntime) == x.downtime
           && Value(x, MaintenanceCost) == x.cost && Value(x, Utilization) == x.utilization
           && Value(x, ScheduleChanges) == x.changes;
    TimesDifference(w.production, p.production, q.production);
    TimesDifference(w.reliability, p.reliability, q.reliability);
    TimesDifference(w.maintenance, p.maintenance, q.maintenance);
    TimesDifference(w.workforce, p.workforce, q.workforce);
    TimesDifference(w.stability, p.stability, q.stability);
    ThirdOfGap(w.production, gap);
    ThirdOfGap(w.reliability, gap);
    match m
    case Makespan | Tardiness | OnTimeRate => assert p.production - q.production == gap / 3.0;
    case FailureCount | EmergencyDowntime => assert p.reliability - q.reliability == gap / 2.0;
    case MaintenanceCost => assert p.maintenance - q.maintenance == gap;
    case Utilization => assert p.workforce - q.workforce == gap;
    case ScheduleChanges => assert p.stability - q.stability == gap;
  }

  /** Candidates that agree on a metric have the same benefit in it. */
  lemma SameBenefits(scale: Scale, a: Kpis, b: Kpis, m: Metric)
    requires Full(scale) && DifferOnlyIn(a, b, m)
    ensures DifferOnlyIn(MetricBenefits(scale, a), MetricBenefits(scale, b), m)
    ensures Value(MetricBenefits(scale, a), m) == MetricBenefit(scale, a, m)
    ensures Value(MetricBenefits(scale, b), m) == MetricBenefit(scale, b, m)
  {
    hide Benefit, Full;
    forall n: Metric | n != m ensures Value(MetricBenefits(scale, a), n) == Value(MetricBenefits(scale, b), n) {
      assert Value(a, n) == Value(b, n);
    }
  }

  /**
   Of two candidates that differ in one metric the better one leads by the metric's share of the
   weight, in proportion to the distance on the scale.
   */
  lemma OneMetricMoves(scale: Scale, a: Candidate, b: Candidate, w: Weights, m: Metric)
    requires Full(scale) && ValidWeights(w) && DifferOnlyIn(a.kpis, b.kpis, m)
    requires Lowest(scale[m]) < Highest(scale[m])
    ensures var span := Highest(scale[m]) - Lowest(scale[m]);
            var better := if m == OnTimeRate then Value(a.kpis, m) - Value(b.kpis, m)
                          else Value(b.kpis, m) - Value(a.kpis, m);
            ScoreOf(scale, a, w).score - ScoreOf(scale, b, w).score
            == Times(Share(w, m), better / span) / TotalWeight(w)
  {
    hide Times, MetricBenefit, Benefit, Weighted, Objectives, MetricBenefits, Share, TotalWeight;
    BenefitGap(scale, a.kpis, b.kpis, m);
    SameBenefits(scale, a.kpis, b.kpis, m);
    var x, y := MetricBenefits(scale, a.kpis), MetricBenefits(scale, b.kpis);
    WeightedGap(x, y, w, m);
    assert TotalWeight(w) > 0.0;
    DifferenceOfQuotients(Weighted(Objectives(x), w), Weighted(Objectives(y), w), TotalWeight(w));
  }

  // Winner and sweep ----------------------------------------------------------------------------

  /** The first row has the highest score; equal scores go by strategy, then by identifier. */
  lemma WinnerScoresHighest(scale: Scale, candidates: seq<Candidate>, w: Weights, c: Candidate)
    requires Full(scale) && ValidWeights(w) && c in candidates
    ensures RankBy(scale, candidates, w) != []
    ensures var winner := RankBy(scale, candidates, w)[0];
            && winner.score >= ScoreOf(scale, c, w).score
            && (winner.score == ScoreOf(scale, c, w).score ==>
                  && (c.strategy == ProductionPriority ==> winner.plan.strategy == ProductionPriority)
                  && (c.strategy == Balanced ==> winner.plan.strategy != ReliabilityPriority)
                  && (c.strategy == winner.plan.strategy ==> winner.plan.id <= c.id))
  {
    hide RankBy, ScoreOf;
    WinnerIsBest(scale, candidates, w);
    var winner := RankBy(scale, candidates, w)[0];
    assert Before(winner, ScoreOf(scale, c, w));
    ScoreNamesPlan(scale, c, w);
  }

  lemma ScoreNamesPlan(scale: Scale, c: Candidate, w: Weights)
    requires Full(scale) && ValidWeights(w)
    ensures ScoreOf(scale, c, w).plan == c
  {
  }

  /** The reference has bounds for the metric, and every candidate lies in them. */
  ghost predicate BoundsAll(reference: map<Metric, Bounds>, candidates: seq<Candidate>, m: Metric) {
    && m in reference
    && reference[m].lo <= reference[m].hi
    && forall c :: c in candidates ==> reference[m].lo <= Value(c.kpis, m) && Value(c.kpis, m) <= reference[m].hi
  }

  /** A reference is refused exactly when it misses a metric, is inverted, or leaves a candidate outside. */
  lemma RefusalIsExact(candidates: seq<Candidate>, w: Weights, reference: map<Metric, Bounds>)
    requires ValidWeights(w) && candidates != []
    ensures Rank(candidates, w, Some(reference)).Invalid? <==> exists m :: !BoundsAll(reference, candidates, m)
    ensures !Rank(candidates, w, None).Invalid?
  {
    hide RankBy, ValidWeights, Value;
    if Covers(reference, candidates) {
      forall m ensures BoundsAll(reference, candidates, m) {
        assert m in reference;
      }
    } else {
      var m := OutOfBounds(reference, candidates);
    }
  }

  lemma OutOfBounds(reference: map<Metric, Bounds>, candidates: seq<Candidate>) returns (m: Metric)
    requires !Covers(reference, candidates)
    ensures !BoundsAll(reference, candidates, m)
  {
    m :| !(m in reference && reference[m].lo <= reference[m].hi
           && forall c :: c in candidates ==> reference[m].lo <= Value(c.kpis, m) <= reference[m].hi);
  }

  /** The intervals are the neighbouring samples whose winners follow different strategies, in order. */
  lemma {:induction false} IntervalsAreChanges(points: seq<Point>, n: nat, iv: Interval)
    requires n <= |points|
    ensures iv in IntervalsOf(points, n) <==> exists k :: 1 <= k < n && IsChange(points[k - 1], points[k], iv)
  {
    if n >= 2 {
      IntervalsAreChanges(points, n - 1, iv);
      if IsChange(points[n - 2], points[n - 1], iv) { assert iv in IntervalsOf(points, n); }
    }
  }

  predicate IsChange(left: Point, right: Point, iv: Interval) {
    && left.winner.Some? && right.winner.Some?
    && iv.lower == left.value && iv.upper == right.value
    && iv.from == left.winner.value.strategy && iv.to == right.winner.value.strategy && iv.from != iv.to
  }

  /** A point shows its weight and the winner there, unless the budget was spent before it. */
  lemma PointShowsWinner(
    scale: Scale, candidates: seq<Candidate>, w: Weights, o: Objective, value: real, spent: bool, point: Point)
    requires Full(scale) && candidates != [] && Shows(scale, candidates, w, o, value, spent, point)
    ensures point.value == value && (point.winner == None <==> spent)
    ensures !spent ==>
              && ValidWeights(At(w, o, value)) && point.winner.value in candidates
              && forall c :: c in candidates ==>
                   ScoreOf(scale, point.winner.value, At(w, o, value)).score >= ScoreOf(scale, c, At(w, o, value)).score
  {
    hide RankBy, At, ScoreOf;
    WinnerIsBest(scale, candidates, At(w, o, value));
  }

  /** Sweeping an objective changes its own weight and no other. */
  lemma SweptWeightIsAlone(w: Weights, o: Objective, value: real, other: Objective)
    ensures Weight(At(w, o, value), other) == if other == o then value else Weight(w, other)
  {
  }

  /** A swept weight is usable exactly when no weight is negative and their sum is not within 1e-12 of zero. */
  lemma SweptWeightIsValidExactly(w: Weights, o: Objective, value: real)
    ensures ValidWeights(At(w, o, value)) <==>
              && value >= 0.0 && (forall other: Objective :: other != o ==> Weight(w, other) >= 0.0)
              && value + TotalWeight(w) - Weight(w, o) > 0.000000000001
  {
    assert forall other: Objective :: Weight(At(w, o, value), other) == if other == o then value else Weight(w, other);
    assert Weight(w, Production) == w.production && Weight(w, Reliability) == w.reliability
           && Weight(w, Maintenance) == w.maintenance && Weight(w, Workforce) == w.workforce
           && Weight(w, Stability) == w.stability;
  }
}
