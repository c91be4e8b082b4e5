/**
 Candidate ranking over min-max normalised benefits, in exact reals: the rounding of scores
 to twelve digits is not modelled.
 */
module Scoring {
  import opened Collections

  datatype Metric =
    | Makespan | Tardiness | OnTimeRate | FailureCount
    | EmergencyDowntime | MaintenanceCost | Utilization | ScheduleChanges
  datatype Objective = Production | Reliability | Maintenance | Workforce | Stability
  datatype Strategy = ProductionPriority | Balanced | ReliabilityPriority

  /** One number per metric: the KPIs themselves, or their benefits. */
  datatype Kpis = Kpis(
    makespan: real, tardiness: real, onTime: real, failures: real, downtime: real, cost: real, utilization: real,
    changes: real)
  datatype Candidate = Candidate(id: int, strategy: Strategy, kpis: Kpis)

  /** One number per objective: weights, benefits or contributions. */
  datatype Weights = Weights(production: real, reliability: real, maintenance: real, workforce: real, stability: real)

  /** Per metric, the values its minimum and maximum are taken over. */
  type Scale = map<Metric, seq<real>>
  datatype Bounds = Bounds(lo: real, hi: real)

  datatype Scored = Scored(
    plan: Candidate, score: real, benefits: Kpis, objectives: Weights, contributions: Weights)
  datatype Ranking = Invalid | Ranked(rows: seq<Scored>)

  function Value(k: Kpis, m: Metric): real {
    match m
    case Makespan => k.makespan
    case Tardiness => k.tardiness
    case OnTimeRate => k.onTime
    case FailureCount => k.failures
    case EmergencyDowntime => k.downtime
    case MaintenanceCost => k.cost
    case Utilization => k.utilization
    case ScheduleChanges => k.changes
  }

  predicate LowerIsBetter(m: Metric) { !m.OnTimeRate? }

  function Weight(w: Weights, o: Objective): real {
    match o
    case Production => w.production
    case Reliability => w.reliability
    case Maintenance => w.maintenance
    case Workforce => w.workforce
    case Stability => w.stability
  }

  function TotalWeight(w: Weights): real { w.production + w.reliability + w.maintenance + w.workforce + w.stability }

  /** Non-negative, and not all within 1e-12 of zero. */
  predicate ValidWeights(w: Weights) {
    && w.production >= 0.0 && w.reliability >= 0.0 && w.maintenance >= 0.0 && w.workforce >= 0.0 && w.stability >= 0.0
    && TotalWeight(w) > 0.000000000001
  }

  function Lowest(values: seq<real>): (r: real)
    requires values != []
    ensures r in values && forall v :: v in values ==> r <= v
  {
    if |values| == 1 then values[0]
    else
      var rest := Lowest(values[1..]);
      assert values == [values[0]] + values[1..];
      if values[0] <= rest then values[0] else rest
  }

  function Highest(values: seq<real>): (r: real)
    requires values != []
    ensures r in values && forall v :: v in values ==> v <= r
  {
    if |values| == 1 then values[0]
    else
      var rest := Highest(values[1..]);
      assert values == [values[0]] + values[1..];
      if values[0] >= rest then values[0] else rest
  }

  function Benefit(values: seq<real>, value: real, lowerIsBetter: bool): real
    requires values != []
  {
    var lo, hi := Lowest(values), Highest(values);
    if lo == hi then 1.0
    else
      var normalized := (value - lo) / (hi - lo);
      if lowerIsBetter then 1.0 - normalized else normalized
  }

  function ValuesOf(candidates: seq<Candidate>, m: Metric): (r: seq<real>)
    ensures |r| == |candidates| && forall i :: 0 <= i < |r| ==> r[i] == Value(candidates[i].kpis, m)
  {
    if candidates == [] then [] else [Value(candidates[0].kpis, m)] + ValuesOf(candidates[1..], m)
  }

  predicate Full(scale: Scale) { forall m: Metric :: m in scale && scale[m] != [] }

  function OwnScale(candidates: seq<Candidate>): (scale: Scale)
    requires candidates != []
    ensures Full(scale)
  {
    map m: Metric | true :: ValuesOf(candidates, m)
  }

  function NormalizationReference(candidates: seq<Candidate>): map<Metric, Bounds> {
    if candidates == [] then map[]
    else map m: Metric | true :: Bounds(Lowest(ValuesOf(candidates, m)), Highest(ValuesOf(candidates, m)))
  }

  /** All metrics bounded, and every candidate inside. */
  predicate Covers(reference: map<Metric, Bounds>, candidates: seq<Candidate>) {
    forall m: Metric ::
      && m in reference
      && reference[m].lo <= reference[m].hi
      && forall c :: c in candidates ==> reference[m].lo <= Value(c.kpis, m) <= reference[m].hi
  }

  function ReferenceScale(reference: map<Metric, Bounds>): (scale: Scale)
    requires forall m: Metric :: m in reference
    ensures Full(scale)
  {
    map m: Metric | true :: [reference[m].lo, reference[m].hi]
  }

  function MetricBenefit(scale: Scale, k: Kpis, m: Metric): real
    requires Full(scale)
  {
    Benefit(scale[m], Value(k, m), LowerIsBetter(m))
  }

  function MetricBenefits(scale: Scale, k: Kpis): Kpis
    requires Full(scale)
  {
    Kpis(
      MetricBenefit(scale, k, Makespan), MetricBenefit(scale, k, Tardiness), MetricBenefit(scale, k, OnTimeRate),
      MetricBenefit(scale, k, FailureCount), MetricBenefit(scale, k, EmergencyDowntime),
      MetricBenefit(scale, k, MaintenanceCost), MetricBenefit(scale, k, Utilization),
      MetricBenefit(scale, k, ScheduleChanges))
  }

  /** Objectives average the benefits of their metrics. */
  function Objectives(b: Kpis): Weights {
    Weights((b.makespan + b.tardiness + b.onTime) / 3.0, (b.failures + b.downtime) / 2.0, b.cost, b.utilization,
            b.changes)
  }

  function Times(x: real, y: real): real { x * y }

  /** The score before division by the total weight. */
  function Weighted(b: Weights, w: Weights): real {
    Times(w.production, b.production) + Times(w.reliability, b.reliability) + Times(w.maintenance, b.maintenance)
    + Times(w.workforce, b.workforce) + Times(w.stability, b.stability)
  }

  function Contributions(b: Weights, w: Weights, total: real): Weights
    requires total > 0.0
  {
    Weights(
      Times(b.production, w.production) / total, Times(b.reliability, w.reliability) / total,
      Times(b.maintenance, w.maintenance) / total, Times(b.workforce, w.workforce) / total,
      Times(b.stability, w.stability) / total)
  }

  function ScoreOf(scale: Scale, c: Candidate, w: Weights): Scored
    requires Full(scale) && ValidWeights(w)
  {
    var benefits := MetricBenefits(scale, c.kpis);
    var objectives := Objectives(benefits);
    Scored(c, Weighted(objectives, w) / TotalWeight(w), benefits, objectives,
           Contributions(objectives, w, TotalWeight(w)))
  }

  function Order(s: Strategy): int {
    match s
    case ProductionPriority => 0
    case Balanced => 1
    case ReliabilityPriority => 2
  }

  /** Higher score, then strategy order, then identifier. */
  predicate Before(a: Scored, b: Scored) {
    a.score > b.score
    || (a.score == b.score
        && (Order(a.plan.strategy) < Order(b.plan.strategy)
            || (a.plan.strategy == b.plan.strategy && a.plan.id <= b.plan.id)))
  }

  lemma BeforeIsTotal()
    ensures Total(Before)
  {
  }

  function ScoreAll(scale: Scale, candidates: seq<Candidate>, w: Weights): (r: seq<Scored>)
    requires Full(scale) && ValidWeights(w)
    ensures |r| == |candidates| && forall i :: 0 <= i < |r| ==> r[i] == ScoreOf(scale, candidates[i], w)
  {
    if candidates == [] then []
    else
      var n := |candidates| - 1;
      ScoreAll(scale, candidates[..n], w) + [ScoreOf(scale, candidates[n], w)]
  }

  function RankBy(scale: Scale, candidates: seq<Candidate>, w: Weights): seq<Scored>
    requires Full(scale) && ValidWeights(w)
  {
    Sorted(ScoreAll(scale, candidates, w), Before)
  }

  function Rank(candidates: seq<Candidate>, w: Weights, reference: Option<map<Metric, Bounds>>): Ranking
    requires ValidWeights(w)
  {
    if candidates == [] then Ranked([])
    else if reference.None? then Ranked(RankBy(OwnScale(candidates), candidates, w))
    else if !Covers(reference.value, candidates) then Invalid
    else Ranked(RankBy(ReferenceScale(reference.value), candidates, w))
  }

  lemma ScoreAllNext(scale: Scale, candidates: seq<Candidate>, w: Weights, i: nat)
    requires Full(scale) && ValidWeights(w) && i < |candidates|
    ensures ScoreAll(scale, candidates[..i + 1], w) ==
              ScoreAll(scale, candidates[..i], w) + [ScoreOf(scale, candidates[i], w)]
  {
    assert candidates[..i + 1][..i] == candidates[..i];
  }

  method ScoreCandidates(scale: Scale, candidates: seq<Candidate>, w: Weights) returns (scored: seq<Scored>)
    requires Full(scale) && ValidWeights(w)
    ensures scored == ScoreAll(scale, candidates, w)
  {
    scored := [];
    var i := 0;
    while i < |candidates|
      invariant 0 <= i <= |candidates|
      invariant scored == ScoreAll(scale, candidates[..i], w)
    {
      ScoreAllNext(scale, candidates, w, i);
      scored := scored + [ScoreOf(scale, candidates[i], w)];
      i := i + 1;
    }
    assert candidates[..i] == candidates;
  }

  method RankCandidates(candidates: seq<Candidate>, w: Weights, reference: Option<map<Metric, Bounds>>)
    returns (ranking: Ranking)
    requires ValidWeights(w)
    ensures ranking == Rank(candidates, w, reference)
  {
    if candidates == [] { return Ranked([]); }
    var scale := OwnScale(candidates);
    if reference.Some? {
      if !Covers(reference.value, candidates) { return Invalid; }
      scale := ReferenceScale(reference.value);
    }
    var scored := ScoreCandidates(scale, candidates, w);
    ranking := Ranked(Sorted(scored, Before));
  }

  // Laws ----------------------------------------------------------------------------------------

  lemma NonNegativeQuotient(x: real, d: real)
    requires x >= 0.0 && d > 0.0
    ensures x / d >= 0.0
  {
    var q := x / d;
    assert q * d == x;
  }

  lemma QuotientIsMonotone(x: real, y: real, d: real)
    requires x <= y && d > 0.0
    ensures x / d <= y / d
  {
    NonNegativeQuotient(y - x, d);
    assert y / d == x / d + (y - x) / d;
  }

  lemma FractionInUnit(x: real, d: real)
    requires 0.0 <= x <= d && d > 0.0
    ensures 0.0 <= x / d <= 1.0
  {
    NonNegativeQuotient(x, d);
    QuotientIsMonotone(x, d, d);
  }

  /** Inside the reference a benefit lies in [0, 1]. */
  lemma BenefitInUnit(values: seq<real>, value: real, lower: bool)
    requires values != [] && Lowest(values) <= value <= Highest(values)
    ensures 0.0 <= Benefit(values, value, lower) <= 1.0
  {
    var lo, hi := Lowest(values), Highest(values);
    if lo != hi { FractionInUnit(value - lo, hi - lo); }
  }

  /** A value at least as good never has the lower benefit. */
  lemma BenefitIsMonotone(values: seq<real>, a: real, b: real, lower: bool)
    requires values != []
    requires if lower then a <= b else b <= a
    ensures Benefit(values, a, lower) >= Benefit(values, b, lower)
  {
    var lo, hi := Lowest(values), Highest(values);
    if lo != hi {
      QuotientIsMonotone(Smaller(a, b) - lo, Larger(a, b) - lo, hi - lo);
    }
  }

  function Smaller(a: real, b: real): real { if a <= b then a else b }

  function Larger(a: real, b: real): real { if a <= b then b else a }

  lemma TimesMonotone(w: real, x: real, y: real)
    requires w >= 0.0 && x <= y
    ensures Times(w, x) <= Times(w, y)
  {
    assert w * (y - x) >= 0.0;
  }

  predicate AsGood(a: Kpis, b: Kpis) {
    forall m: Metric :: if m == OnTimeRate then Value(b, m) <= Value(a, m) else Value(a, m) <= Value(b, m)
  }

  lemma WeightedIsMonotone(a: Weights, b: Weights, w: Weights)
    requires ValidWeights(w)
    requires a.production >= b.production && a.reliability >= b.reliability && a.maintenance >= b.maintenance
    requires a.workforce >= b.workforce && a.stability >= b.stability
    ensures Weighted(a, w) >= Weighted(b, w)
  {
    TimesMonotone(w.production, b.production, a.production);
    TimesMonotone(w.reliability, b.reliability, a.reliability);
    TimesMonotone(w.maintenance, b.maintenance, a.maintenance);
    TimesMonotone(w.workforce, b.workforce, a.workforce);
    TimesMonotone(w.stability, b.stability, a.stability);
  }

  /** A candidate at least as good on every KPI never scores lower, whatever the weights. */
  lemma ScoreRespectsDominance(scale: Scale, a: Candidate, b: Candidate, w: Weights)
    requires Full(scale) && ValidWeights(w) && AsGood(a.kpis, b.kpis)
    ensures ScoreOf(scale, a, w).score >= ScoreOf(scale, b, w).score
  {
    forall m: Metric ensures MetricBenefit(scale, a.kpis, m) >= MetricBenefit(scale, b.kpis, m) {
      BenefitIsMonotone(scale[m], Value(a.kpis, m), Value(b.kpis, m), LowerIsBetter(m));
    }
    var x, y := Objectives(MetricBenefits(scale, a.kpis)), Objectives(MetricBenefits(scale, b.kpis));
    WeightedIsMonotone(x, y, w);
    QuotientIsMonotone(Weighted(y, w), Weighted(x, w), TotalWeight(w));
  }

  lemma SumOfQuotients(x: Weights, t: real)
    requires t > 0.0
    ensures TotalWeight(x) / t == TotalWeight(Weights(
      x.production / t, x.reliability / t, x.maintenance / t, x.workforce / t, x.stability / t))
  {
  }

  lemma TimesCommutes(x: real, y: real)
    ensures Times(x, y) == Times(y, x)
  {
  }

  /** The weighted contributions add up to the score. */
  lemma ContributionsSumToScore(b: Weights, w: Weights)
    requires ValidWeights(w)
    ensures TotalWeight(Contributions(b, w, TotalWeight(w))) == Weighted(b, w) / TotalWeight(w)
  {
    TimesCommutes(b.production, w.production);
    TimesCommutes(b.reliability, w.reliability);
    TimesCommutes(b.maintenance, w.maintenance);
    TimesCommutes(b.workforce, w.workforce);
    TimesCommutes(b.stability, w.stability);
    var products := Weights(
      Times(b.production, w.production), Times(b.reliability, w.reliability), Times(b.maintenance, w.maintenance),
      Times(b.workforce, w.workforce), Times(b.stability, w.stability));
    assert TotalWeight(products) == Weighted(b, w);
    SumOfQuotients(products, TotalWeight(w));
  }

  lemma BenefitMattersByBounds(a: seq<real>, b: seq<real>, value: real, lower: bool)
    requires a != [] && b != [] && Lowest(a) == Lowest(b) && Highest(a) == Highest(b)
    ensures Benefit(a, value, lower) == Benefit(b, value, lower)
  {
  }

  lemma ScaleMattersByBounds(a: Scale, b: Scale, k: Kpis)
    requires Full(a) && Full(b)
    requires forall m: Metric :: Lowest(a[m]) == Lowest(b[m]) && Highest(a[m]) == Highest(b[m])
    ensures MetricBenefits(a, k) == MetricBenefits(b, k)
  {
    BenefitMattersByBounds(a[Makespan], b[Makespan], k.makespan, true);
    BenefitMattersByBounds(a[Tardiness], b[Tardiness], k.tardiness, true);
    BenefitMattersByBounds(a[OnTimeRate], b[OnTimeRate], k.onTime, false);
    BenefitMattersByBounds(a[FailureCount], b[FailureCount], k.failures, true);
    BenefitMattersByBounds(a[EmergencyDowntime], b[EmergencyDowntime], k.downtime, true);
    BenefitMattersByBounds(a[MaintenanceCost], b[MaintenanceCost], k.cost, true);
    BenefitMattersByBounds(a[Utilization], b[Utilization], k.utilization, true);
    BenefitMattersByBounds(a[ScheduleChanges], b[ScheduleChanges], k.changes, true);
  }

  lemma ValuesWithinBounds(candidates: seq<Candidate>, m: Metric, c: Candidate)
    requires c in candidates
    ensures ValuesOf(candidates, m) != []
    ensures Lowest(ValuesOf(candidates, m)) <= Value(c.kpis, m) <= Highest(ValuesOf(candidates, m))
  {
    var i :| 0 <= i < |candidates| && candidates[i] == c;
    assert ValuesOf(candidates, m)[i] in ValuesOf(candidates, m);
  }

  lemma OwnReferenceCovers(candidates: seq<Candidate>)
    requires candidates != []
    ensures Covers(NormalizationReference(candidates), candidates)
  {
    var reference := NormalizationReference(candidates);
    forall m: Metric, c | c in candidates
      ensures m in reference && reference[m].lo <= Value(c.kpis, m) <= reference[m].hi
    {
      ValuesWithinBounds(candidates, m, c);
    }
    forall m: Metric ensures m in reference && reference[m].lo <= reference[m].hi {
      ValuesWithinBounds(candidates, m, candidates[0]);
    }
  }

  lemma PairBounds(lo: real, hi: real)
    requires lo <= hi
    ensures Lowest([lo, hi]) == lo && Highest([lo, hi]) == hi
  {
    assert lo in [lo, hi] && hi in [lo, hi];
  }

  lemma OwnReferenceSameBounds(candidates: seq<Candidate>, m: Metric)
    requires candidates != []
    ensures var own, fixed := OwnScale(candidates), ReferenceScale(NormalizationReference(candidates));
            Lowest(own[m]) == Lowest(fixed[m]) && Highest(own[m]) == Highest(fixed[m])
  {
    var values := ValuesOf(candidates, m);
    assert Lowest(values) in values;
    PairBounds(Lowest(values), Highest(values));
  }

  lemma {:induction false} SameScores(a: Scale, b: Scale, candidates: seq<Candidate>, w: Weights)
    requires Full(a) && Full(b) && ValidWeights(w)
    requires forall k: Kpis :: MetricBenefits(a, k) == MetricBenefits(b, k)
    ensures ScoreAll(a, candidates, w) == ScoreAll(b, candidates, w)
  {
    if candidates != [] {
      SameScores(a, b, candidates[..|candidates| - 1], w);
      var last := candidates[|candidates| - 1];
      assert MetricBenefits(a, last.kpis) == MetricBenefits(b, last.kpis);
    }
  }

  /** Ranking against the candidates' own reference is ranking without one. */
  lemma OwnReferenceIsNeutral(candidates: seq<Candidate>, w: Weights)
    requires ValidWeights(w)
    ensures Rank(candidates, w, Some(NormalizationReference(candidates))) == Rank(candidates, w, None)
  {
    if candidates != [] {
      OwnReferenceCovers(candidates);
      var own, fixed := OwnScale(candidates), ReferenceScale(NormalizationReference(candidates));
      forall m: Metric ensures Lowest(own[m]) == Lowest(fixed[m]) && Highest(own[m]) == Highest(fixed[m]) {
        OwnReferenceSameBounds(candidates, m);
      }
      forall k: Kpis ensures MetricBenefits(own, k) == MetricBenefits(fixed, k) { ScaleMattersByBounds(own, fixed, k); }
      SameScores(own, fixed, candidates, w);
    }
  }

  /** Rows are the scored candidates, best first. */
  lemma RankIsSortedPermutation(scale: Scale, candidates: seq<Candidate>, w: Weights)
    requires Full(scale) && ValidWeights(w)
    ensures SortedBy(RankBy(scale, candidates, w), Before)
    ensures multiset(RankBy(scale, candidates, w)) == multiset(ScoreAll(scale, candidates, w))
    ensures |RankBy(scale, candidates, w)| == |candidates|
  {
    BeforeIsTotal();
    SortedIsSorted(ScoreAll(scale, candidates, w), Before);
    SameMembers(RankBy(scale, candidates, w), ScoreAll(scale, candidates, w));
  }

  /** Scores belong to candidates, one to one by position. */
  lemma ScoresOfCandidates(scale: Scale, candidates: seq<Candidate>, w: Weights)
    requires Full(scale) && ValidWeights(w)
    ensures forall c :: c in candidates ==> ScoreOf(scale, c, w) in ScoreAll(scale, candidates, w)
    ensures forall r :: r in ScoreAll(scale, candidates, w) ==> r.plan in candidates && r == ScoreOf(scale, r.plan, w)
  {
    hide ValidWeights, Full, TotalWeight, MetricBenefits, Objectives, Contributions, Weighted;
    var scored := ScoreAll(scale, candidates, w);
    forall c | c in candidates ensures ScoreOf(scale, c, w) in scored {
      var i :| 0 <= i < |candidates| && candidates[i] == c;
      assert scored[i] == ScoreOf(scale, c, w);
    }
  }

  lemma HeadComesFirst(rows: seq<Scored>)
    requires rows != [] && SortedBy(rows, Before)
    ensures forall r :: r in rows ==> Before(rows[0], r)
  {
    BeforeIsTotal();
    hide Before;
    forall r | r in rows ensures Before(rows[0], r) {
      var k :| 0 <= k < |rows| && rows[k] == r;
      assert k == 0 || Before(rows[0], rows[k]);
    }
  }

  /** The first row is a candidate that comes before every other. */
  lemma WinnerIsBest(scale: Scale, candidates: seq<Candidate>, w: Weights)
    requires Full(scale) && ValidWeights(w) && candidates != []
    ensures RankBy(scale, candidates, w) != []
    ensures var winner := RankBy(scale, candidates, w)[0];
            && winner.plan in candidates && winner == ScoreOf(scale, winner.plan, w)
            && forall c :: c in candidates ==> Before(winner, ScoreOf(scale, c, w))
  {
    hide RankBy, ScoreAll, ScoreOf, Before, ValidWeights, Full, SortedBy;
    RankIsSortedPermutation(scale, candidates, w);
    SameMembers(RankBy(scale, candidates, w), ScoreAll(scale, candidates, w));
    ScoresOfCandidates(scale, candidates, w);
    HeadComesFirst(RankBy(scale, candidates, w));
    HeadIsMember(RankBy(scale, candidates, w));
  }
}
