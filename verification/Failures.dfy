/** Monte-Carlo failure estimates and the common random numbers that couple them (exact reals). */
module Failures {
  import opened Collections

  type MachineId = int
  type Digest = d: int | 0 <= d < 0x1_0000_0000_0000_0000 witness 0

  /** A health observation of a pinned baseline. */
  datatype Observation = Observation(id: int, machine: MachineId, observedAt: int)
  datatype Health = Health(observation: Observation, probability: real, horizon: real)

  const TWO_TO_53: int := 0x20_0000_0000_0000

  /** The 53 leading bits of a digest as a fraction. */
  function Fraction(d: Digest): real { (d / 2048) as real / TWO_TO_53 as real }

  lemma FractionInUnit(d: Digest)
    ensures 0.0 <= Fraction(d) < 1.0
  {
    var n := d / 2048;
    assert 0 <= n < TWO_TO_53;
    var q := n as real / TWO_TO_53 as real;
    assert q * TWO_TO_53 as real == n as real;
  }

  /** The fraction with its 53 leading bits, the remaining eleven cut off. */
  lemma FractionIsLeadingBits(d: Digest, bits: int)
    requires 0 <= d - bits * 0x800 < 0x800
    ensures Fraction(d) * 9_007_199_254_740_992.0 == bits as real
  {
    assert d / 2048 == bits;
    var q := bits as real / TWO_TO_53 as real;
    assert q * TWO_TO_53 as real == bits as real;
  }

  /** Draws are pure functions of seed, observation and index; the cache only remembers them. */
  class CommonRandomDraws {
    const digest: (int, Observation, int) -> Digest
    const seed: int
    const samples: int
    const observations: map<int, Observation>
    var cache: map<(int, int), real>

    /** Fits the request: the observation is the pinned one and the index is within the specification. */
    predicate Pinned(o: Observation, index: int) {
      0 <= index < samples && o.id in observations && observations[o.id] == o
    }

    ghost function Draw(o: Observation, index: int): real { Fraction(digest(seed, o, index)) }

    ghost predicate Valid()
      reads this
    {
      forall k :: k in cache ==> k.0 in observations && cache[k] == Draw(observations[k.0], k.1)
    }

    constructor (
      digest: (int, Observation, int) -> Digest, seed: int, samples: int, observations: map<int, Observation>)
      ensures Valid()
      ensures this.digest == digest && this.seed == seed && this.samples == samples && this.observations == observations
    {
      this.digest, this.seed, this.samples, this.observations := digest, seed, samples, observations;
      cache := map[];
    }

    /** The draw, computed once; asking again, in any order and any number of times, gives the same number. */
    method Call(o: Observation, index: int) returns (draw: Option<real>)
      requires Valid()
      modifies this
      ensures Valid()
      ensures draw == if Pinned(o, index) then Some(Draw(o, index)) else None
      ensures draw.Some? <==> 0 <= index < samples && o.id in observations && observations[o.id] == o
      ensures draw.Some? ==> 0.0 <= draw.value < 1.0
      ensures cache.Keys == old(cache.Keys) + (if Pinned(o, index) then {(o.id, index)} else {})
    {
      if !(0 <= index < samples) { return None; }
      if !(o.id in observations && observations[o.id] == o) { return None; }
      var key := (o.id, index);
      if key !in cache {
        var d := digest(seed, o, index);
        cache := cache[key := Fraction(d)];
      }
      FractionInUnit(digest(seed, o, index));
      draw := Some(cache[key]);
    }
  }

  // The simulation ------------------------------------------------------------------------------

  /** A maintained machine keeps three tenths of its failure probability. */
  function Chance(h: Health, maintained: set<MachineId>): real {
    if h.observation.machine in maintained then h.probability * 0.3 else h.probability
  }

  predicate Breaks(h: Health, maintained: set<MachineId>, draw: real) { draw < Chance(h, maintained) }

  function Shorter(a: real, b: real): real { if b < a then b else a }

  /** Failures among the first `n` observations of run `r`; `draw` maps run and position to a number. */
  function FailuresIn(hs: seq<Health>, m: set<MachineId>, draw: (nat, nat) -> real, r: nat, n: nat): nat
    requires n <= |hs|
  {
    if n == 0 then 0
    else FailuresIn(hs, m, draw, r, n - 1) + (if Breaks(hs[n - 1], m, draw(r, n - 1)) then 1 else 0)
  }

  function DowntimeIn(hs: seq<Health>, m: set<MachineId>, draw: (nat, nat) -> real, horizon: real, r: nat, n: nat): real
    requires n <= |hs|
  {
    if n == 0 then 0.0
    else
      DowntimeIn(hs, m, draw, horizon, r, n - 1)
      + (if Breaks(hs[n - 1], m, draw(r, n - 1)) then Shorter(hs[n - 1].horizon, horizon) else 0.0)
  }

  function FailingRuns(hs: seq<Health>, m: set<MachineId>, draw: (nat, nat) -> real, runs: nat): nat {
    if runs == 0 then 0
    else FailingRuns(hs, m, draw, runs - 1) + (if FailuresIn(hs, m, draw, runs - 1, |hs|) > 0 then 1 else 0)
  }

  function AllFailures(hs: seq<Health>, m: set<MachineId>, draw: (nat, nat) -> real, runs: nat): nat {
    if runs == 0 then 0 else AllFailures(hs, m, draw, runs - 1) + FailuresIn(hs, m, draw, runs - 1, |hs|)
  }

  function AllDowntime(hs: seq<Health>, m: set<MachineId>, draw: (nat, nat) -> real, horizon: real, runs: nat): real {
    if runs == 0 then 0.0
    else AllDowntime(hs, m, draw, horizon, runs - 1) + DowntimeIn(hs, m, draw, horizon, runs - 1, |hs|)
  }

  datatype Estimate = Estimate(probability: real, failures: real, downtime: real)

  function EstimateOf(
    hs: seq<Health>, m: set<MachineId>, draw: (nat, nat) -> real, horizon: real, runs: nat): Estimate {
    if hs == [] || runs == 0 then Estimate(0.0, 0.0, 0.0)
    else
      Estimate(
        FailingRuns(hs, m, draw, runs) as real / runs as real,
        AllFailures(hs, m, draw, runs) as real / runs as real,
        AllDowntime(hs, m, draw, horizon, runs) / runs as real)
  }

  /** `abort(r)` stands for cancellation or the deadline, looked at every 128 runs. */
  method SimulateFailures(
    hs: seq<Health>, m: set<MachineId>, draw: (nat, nat) -> real, horizon: real, runs: nat, abort: nat -> bool)
    returns (estimate: Option<Estimate>)
    ensures estimate.Some? ==> estimate.value == EstimateOf(hs, m, draw, horizon, runs)
    ensures estimate.None? <==> hs != [] && exists r :: 0 <= r < runs && r % 128 == 0 && abort(r)
  {
    if hs == [] || runs == 0 { return Some(Estimate(0.0, 0.0, 0.0)); }
    var failing, failures, downtime := 0, 0, 0.0;
    var run := 0;
    while run < runs
      invariant 0 <= run <= runs
      invariant failing == FailingRuns(hs, m, draw, run) && failures == AllFailures(hs, m, draw, run)
      invariant downtime == AllDowntime(hs, m, draw, horizon, run)
      invariant forall r :: 0 <= r < run && r % 128 == 0 ==> !abort(r)
    {
      if run % 128 == 0 && abort(run) { return None; }
      var here, i := 0, 0;
      while i < |hs|
        invariant 0 <= i <= |hs|
        invariant here == FailuresIn(hs, m, draw, run, i)
        invariant downtime == AllDowntime(hs, m, draw, horizon, run) + DowntimeIn(hs, m, draw, horizon, run, i)
      {
        var h := hs[i];
        var probability := h.probability;
        if h.observation.machine in m { probability := probability * 0.3; }
        if draw(run, i) < probability {
          here := here + 1;
          downtime := downtime + Shorter(h.horizon, horizon);
        }
        i := i + 1;
      }
      if here > 0 {
        failing := failing + 1;
        failures := failures + here;
      }
      run := run + 1;
    }
    estimate := Some(Estimate(failing as real / runs as real, failures as real / runs as real,
                              downtime / runs as real));
  }

  // Laws ----------------------------------------------------------------------------------------

  ghost predicate Proper(hs: seq<Health>) {
    forall h :: h in hs ==> 0.0 <= h.probability <= 1.0 && h.horizon >= 0.0
  }

  lemma MaintenanceNeverHurts(h: Health, few: set<MachineId>, many: set<MachineId>, draw: real)
    requires h.probability >= 0.0 && few <= many
    ensures Breaks(h, many, draw) ==> Breaks(h, few, draw)
  {
  }

  lemma {:induction false} MaintenanceLowersRun(
    hs: seq<Health>, few: set<MachineId>, many: set<MachineId>, draw: (nat, nat) -> real, horizon: real, r: nat, n: nat)
    requires Proper(hs) && few <= many && n <= |hs| && horizon >= 0.0
    ensures FailuresIn(hs, many, draw, r, n) <= FailuresIn(hs, few, draw, r, n)
    ensures DowntimeIn(hs, many, draw, horizon, r, n) <= DowntimeIn(hs, few, draw, horizon, r, n)
  {
    if n > 0 {
      MaintenanceLowersRun(hs, few, many, draw, horizon, r, n - 1);
      assert hs[n - 1] in hs;
      MaintenanceNeverHurts(hs[n - 1], few, many, draw(r, n - 1));
    }
  }

  /** Under common random numbers and one horizon, maintaining more machines never raises any total. */
  lemma {:induction false} MaintenanceLowersTotals(
    hs: seq<Health>, few: set<MachineId>, many: set<MachineId>, draw: (nat, nat) -> real, horizon: real, runs: nat)
    requires Proper(hs) && few <= many && horizon >= 0.0
    ensures FailingRuns(hs, many, draw, runs) <= FailingRuns(hs, few, draw, runs)
    ensures AllFailures(hs, many, draw, runs) <= AllFailures(hs, few, draw, runs)
    ensures AllDowntime(hs, many, draw, horizon, runs) <= AllDowntime(hs, few, draw, horizon, runs)
  {
    if runs > 0 {
      MaintenanceLowersTotals(hs, few, many, draw, horizon, runs - 1);
      MaintenanceLowersRun(hs, few, many, draw, horizon, runs - 1, |hs|);
    }
  }

  lemma {:induction false} FailuresFewerThanObservations(
    hs: seq<Health>, m: set<MachineId>, draw: (nat, nat) -> real, r: nat, n: nat)
    requires n <= |hs|
    ensures FailuresIn(hs, m, draw, r, n) <= n
  {
    if n > 0 { FailuresFewerThanObservations(hs, m, draw, r, n - 1); }
  }

  lemma OneMoreRun(runs: nat, n: nat)
    ensures (runs + 1) * n == runs * n + n
  {
  }

  /** Each failing run has at least one failure and at most one per observation. */
  lemma {:induction false} FailuresAreBracketed(hs: seq<Health>, m: set<MachineId>, draw: (nat, nat) -> real, runs: nat)
    ensures FailingRuns(hs, m, draw, runs) <= AllFailures(hs, m, draw, runs)
    ensures AllFailures(hs, m, draw, runs) <= FailingRuns(hs, m, draw, runs) * |hs|
    ensures FailingRuns(hs, m, draw, runs) <= runs
  {
    if runs > 0 {
      FailuresAreBracketed(hs, m, draw, runs - 1);
      FailuresFewerThanObservations(hs, m, draw, runs - 1, |hs|);
      OneMoreRun(FailingRuns(hs, m, draw, runs - 1), |hs|);
    }
  }

  /** Each failure costs at most the horizon. */
  lemma {:induction false} DowntimeIsBounded(
    hs: seq<Health>, m: set<MachineId>, draw: (nat, nat) -> real, horizon: real, r: nat, n: nat)
    requires Proper(hs) && n <= |hs| && horizon >= 0.0
    ensures 0.0 <= DowntimeIn(hs, m, draw, horizon, r, n) <= FailuresIn(hs, m, draw, r, n) as real * horizon
  {
    if n > 0 {
      DowntimeIsBounded(hs, m, draw, horizon, r, n - 1);
      assert hs[n - 1] in hs;
      var before := FailuresIn(hs, m, draw, r, n - 1);
      assert (before + 1) as real * horizon == before as real * horizon + horizon;
    }
  }

  lemma Quotients(x: real, y: real, d: real)
    requires x <= y && d > 0.0
    ensures x / d <= y / d
  {
    var q := (y - x) / d;
    assert q * d == y - x;
    assert y / d == x / d + q;
  }

  /** The estimates themselves never rise when more machines are maintained. */
  lemma MaintenanceLowersEstimates(
    hs: seq<Health>, few: set<MachineId>, many: set<MachineId>, draw: (nat, nat) -> real, horizon: real, runs: nat)
    requires Proper(hs) && few <= many && horizon >= 0.0
    ensures var a, b := EstimateOf(hs, many, draw, horizon, runs), EstimateOf(hs, few, draw, horizon, runs);
            a.probability <= b.probability && a.failures <= b.failures && a.downtime <= b.downtime
  {
    if hs != [] && runs > 0 {
      MaintenanceLowersTotals(hs, few, many, draw, horizon, runs);
      Quotients(FailingRuns(hs, many, draw, runs) as real, FailingRuns(hs, few, draw, runs) as real, runs as real);
      Quotients(AllFailures(hs, many, draw, runs) as real, AllFailures(hs, few, draw, runs) as real, runs as real);
      Quotients(AllDowntime(hs, many, draw, horizon, runs), AllDowntime(hs, few, draw, horizon, runs), runs as real);
    }
  }

  // What is counted -----------------------------------------------------------------------------

  /** The draw falls below the chance of failure, of which maintenance leaves three tenths. */
  predicate Fails(hs: seq<Health>, m: set<MachineId>, draw: (nat, nat) -> real, r: nat, i: nat)
    requires i < |hs|
  {
    draw(r, i) < (if hs[i].observation.machine in m then 3.0 * hs[i].probability / 10.0 else hs[i].probability)
  }

  ghost function FailedAt(hs: seq<Health>, m: set<MachineId>, draw: (nat, nat) -> real, r: nat, n: nat): set<nat>
    requires n <= |hs|
  {
    set i: nat | i < n && Fails(hs, m, draw, r, i)
  }

  ghost function FailedRuns(hs: seq<Health>, m: set<MachineId>, draw: (nat, nat) -> real, runs: nat): set<nat> {
    set r: nat | r < runs && FailsInRun(hs, m, draw, r)
  }

  predicate FailsInRun(hs: seq<Health>, m: set<MachineId>, draw: (nat, nat) -> real, r: nat) {
    exists i: nat :: i < |hs| && Fails(hs, m, draw, r, i)
  }

  lemma RunFails(hs: seq<Health>, m: set<MachineId>, draw: (nat, nat) -> real, r: nat)
    ensures FailsInRun(hs, m, draw, r) <==> |FailedAt(hs, m, draw, r, |hs|)| > 0
  {
    hide Fails;
    var failed := FailedAt(hs, m, draw, r, |hs|);
    if |failed| > 0 {
      var i :| i in failed;
    }
    if FailsInRun(hs, m, draw, r) {
      var i: nat :| i < |hs| && Fails(hs, m, draw, r, i);
      assert i in failed;
    }
  }

  lemma {:induction false} FailuresAreCounted(
    hs: seq<Health>, m: set<MachineId>, draw: (nat, nat) -> real, r: nat, n: nat)
    requires n <= |hs|
    ensures FailuresIn(hs, m, draw, r, n) == |FailedAt(hs, m, draw, r, n)|
  {
    if n == 0 {
      assert FailedAt(hs, m, draw, r, 0) == {};
    } else {
      FailuresAreCounted(hs, m, draw, r, n - 1);
      assert Breaks(hs[n - 1], m, draw(r, n - 1)) == Fails(hs, m, draw, r, n - 1);
      var last := if Fails(hs, m, draw, r, n - 1) then {n - 1} else {};
      assert FailedAt(hs, m, draw, r, n) == FailedAt(hs, m, draw, r, n - 1) + last;
    }
  }

  lemma {:induction false} FailingRunsAreCounted(
    hs: seq<Health>, m: set<MachineId>, draw: (nat, nat) -> real, runs: nat)
    ensures FailingRuns(hs, m, draw, runs) == |FailedRuns(hs, m, draw, runs)|
  {
    if runs == 0 {
      assert FailedRuns(hs, m, draw, 0) == {};
    } else {
      hide FailsInRun, FailedAt, FailuresIn;
      FailingRunsAreCounted(hs, m, draw, runs - 1);
      FailuresAreCounted(hs, m, draw, runs - 1, |hs|);
      RunFails(hs, m, draw, runs - 1);
      var last := if FailsInRun(hs, m, draw, runs - 1) then {runs - 1} else {};
      assert FailedRuns(hs, m, draw, runs) == FailedRuns(hs, m, draw, runs - 1) + last;
    }
  }

  function Priced(failures: nat, price: real): real { failures as real * price }

  lemma OneMorePriced(failures: nat, price: real)
    ensures Priced(failures + 1, price) == Priced(failures, price) + price
    ensures Priced(0, price) == 0.0
  {
  }

  /** With one forecast horizon every failure costs it, capped by the plan's. */
  lemma {:induction false} DowntimePerFailure(
    hs: seq<Health>, m: set<MachineId>, draw: (nat, nat) -> real, horizon: real, forecast: real, r: nat, n: nat)
    requires n <= |hs| && forall h :: h in hs ==> h.horizon == forecast
    ensures DowntimeIn(hs, m, draw, horizon, r, n) ==
              Priced(|FailedAt(hs, m, draw, r, n)|, if forecast <= horizon then forecast else horizon)
  {
    hide FailedAt, Breaks, Priced;
    var price := if forecast <= horizon then forecast else horizon;
    FailuresAreCounted(hs, m, draw, r, n);
    OneMorePriced(0, price);
    if n > 0 {
      DowntimePerFailure(hs, m, draw, horizon, forecast, r, n - 1);
      FailuresAreCounted(hs, m, draw, r, n - 1);
      OneMorePriced(FailuresIn(hs, m, draw, r, n - 1), price);
      assert hs[n - 1] in hs;
    }
  }

  lemma Unquoted(x: nat, d: nat)
    requires d > 0
    ensures x as real / d as real * d as real == x as real
  {
  }

  /** The failure probability is the share of runs in which some observation fails. */
  lemma ProbabilityIsShareOfRuns(
    hs: seq<Health>, m: set<MachineId>, draw: (nat, nat) -> real, horizon: real, runs: nat)
    requires runs > 0
    ensures EstimateOf(hs, m, draw, horizon, runs).probability * runs as real ==
              |FailedRuns(hs, m, draw, runs)| as real
  {
    FailingRunsAreCounted(hs, m, draw, runs);
    if hs == [] {
      assert FailedRuns(hs, m, draw, runs) == {};
    } else {
      Unquoted(FailingRuns(hs, m, draw, runs), runs);
    }
  }

  /** The failures of all runs, by run and observation. */
  ghost function Failed(hs: seq<Health>, m: set<MachineId>, draw: (nat, nat) -> real, runs: nat): set<(nat, nat)> {
    set r: nat, i: nat | r < runs && i < |hs| && Fails(hs, m, draw, r, i) :: (r, i)
  }

  function InRun(r: nat, positions: set<nat>): (pairs: set<(nat, nat)>)
    ensures forall p :: p in pairs <==> p.0 == r && p.1 in positions
  {
    set i | i in positions :: (r, i)
  }

  lemma {:induction false} SameSize(r: nat, positions: set<nat>)
    ensures |InRun(r, positions)| == |positions|
    decreases |positions|
  {
    if positions == {} {
      assert InRun(r, {}) == {};
    } else {
      var i :| i in positions;
      SameSize(r, positions - {i});
      assert InRun(r, positions) == InRun(r, positions - {i}) + {(r, i)};
    }
  }

  lemma {:induction false} AllFailuresAreCounted(
    hs: seq<Health>, m: set<MachineId>, draw: (nat, nat) -> real, runs: nat)
    ensures AllFailures(hs, m, draw, runs) == |Failed(hs, m, draw, runs)|
  {
    if runs == 0 {
      assert Failed(hs, m, draw, 0) == {};
    } else {
      hide Fails;
      var last := FailedAt(hs, m, draw, runs - 1, |hs|);
      AllFailuresAreCounted(hs, m, draw, runs - 1);
      FailuresAreCounted(hs, m, draw, runs - 1, |hs|);
      SameSize(runs - 1, last);
      assert Failed(hs, m, draw, runs) == Failed(hs, m, draw, runs - 1) + InRun(runs - 1, last);
    }
  }

  /** Failures and downtime are averages over the runs. */
  lemma EstimatesArePerRun(
    hs: seq<Health>, m: set<MachineId>, draw: (nat, nat) -> real, horizon: real, runs: nat)
    requires runs > 0 && hs != []
    ensures var e := EstimateOf(hs, m, draw, horizon, runs);
            && e.failures * runs as real == |Failed(hs, m, draw, runs)| as real
            && e.downtime * runs as real == AllDowntime(hs, m, draw, horizon, runs)
  {
    AllFailuresAreCounted(hs, m, draw, runs);
    Unquoted(AllFailures(hs, m, draw, runs), runs);
  }
}
