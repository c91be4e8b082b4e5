/**
 Maintenance analytics: the relational projection that turns one order's row, events and
 completions into metric samples, each counted or excluded. It is defined on any rows,
 consistent or not. Intervals are in the clock's unit; NULL is None.
 */
module Analytics {
  import opened Collections
  import opened WorkOrderPolicy
  import opened WorkOrders

  /** Attempts of more than nine digits do not parse. */
  const MAX_ATTEMPT: int := 999_999_999

  datatype Metric =
    | OpenOrders | OverdueOrders | BlockedOrders | WaitingVerification
    | CreatedOrders | ClosedOrders | CancelledOrders | SuccessfulVerified | FirstPassVerifiedRate | ReworkDecisionRate
    | TimeToFirstAccept | ActiveExecutionTime | VerificationWaitTime

  datatype Exclusion = MissingHistory | InconsistentHistory

  datatype Sample = Sample(metric: Metric, contribution: int, duration: Option<int>, exclusion: Option<Exclusion>)

  predicate BySequence(a: Event, b: Event) { a.sequence <= b.sequence }

  function Attempt(e: Event): Option<int> {
    if 1 <= e.attempt <= MAX_ATTEMPT then Some(e.attempt) else None
  }

  /** The next event by sequence, when its number is the successor. */
  function NextOf(es: seq<Event>, i: nat): Option<Event>
    requires i < |es|
  {
    if i + 1 < |es| && es[i + 1].sequence == es[i].sequence + 1 then Some(es[i + 1]) else None
  }

  function Count(es: seq<Event>, k: Kind): nat {
    if es == [] then 0 else Count(es[..|es| - 1], k) + (if es[|es| - 1].kind == k then 1 else 0)
  }

  function FirstCreation(es: seq<Event>): Option<Time> {
    if es == [] then None
    else
      var e, before := es[|es| - 1], FirstCreation(es[..|es| - 1]);
      if !e.kind.CREATE? then before
      else if before.Some? then Some(Min(before.value, e.at))
      else Some(e.at)
  }

  predicate InOrder(es: seq<Event>, i: nat)
    requires i < |es|
  {
    && es[i].sequence > 0
    && Attempt(es[i]).Some?
    && (NextOf(es, i).Some? ==> NextOf(es, i).value.at >= es[i].at)
  }

  /** Numbered 1..n, times not running backwards, attempts readable; `es` is ordered by sequence. */
  predicate ValidHistory(es: seq<Event>) {
    && es != []
    && es[0].sequence == 1
    && es[|es| - 1].sequence == |es|
    && forall i :: 0 <= i < |es| ==> InOrder(es, i)
  }

  /** Row `i` is an IN_PROGRESS interval of attempt `a`. */
  predicate Runs(es: seq<Event>, a: int, i: nat)
    requires i < |es|
  {
    es[i].to.InProgress? && Attempt(es[i]) == Some(a)
  }

  /** SQL sum over the first `n` rows: NULL when no interval of the attempt has an end. */
  function Seconds(es: seq<Event>, a: int, n: nat): Option<int>
    requires n <= |es|
  {
    if n == 0 then None
    else
      var before, next := Seconds(es, a, n - 1), NextOf(es, n - 1);
      if Runs(es, a, n - 1) && next.Some?
        then Some((if before.Some? then before.value else 0) + (next.value.at - es[n - 1].at))
      else before
  }

  /** Some interval of the attempt is open, runs backwards or leaves the attempt. */
  predicate Broken(es: seq<Event>, a: int) {
    exists i :: 0 <= i < |es| && Runs(es, a, i)
      && (NextOf(es, i).None? || NextOf(es, i).value.at < es[i].at
          || (Attempt(NextOf(es, i).value).Some? && Attempt(NextOf(es, i).value) != Some(a)))
  }

  /** COMPLETE events of the attempt. */
  function Completes(es: seq<Event>, a: int): seq<Event> {
    if es == [] then []
    else
      var e := es[|es| - 1];
      Completes(es[..|es| - 1], a) + (if e.kind.COMPLETE? && Attempt(e) == Some(a) then [e] else [])
  }

  function LastTime(es: seq<Event>): Time
    requires es != []
  {
    if |es| == 1 then es[0].at else Max(LastTime(es[..|es| - 1]), es[|es| - 1].at)
  }

  function FindCompletion(cs: seq<Completion>, a: Option<int>): Option<Completion> {
    if cs == [] then None
    else
      var before := FindCompletion(cs[..|cs| - 1], a);
      if before.Some? then before
      else if Some(cs[|cs| - 1].attempt) == a then Some(cs[|cs| - 1])
      else None
  }

  function FindEvent(es: seq<Event>, sequence: int): Option<Event> {
    if es == [] then None
    else
      var before := FindEvent(es[..|es| - 1], sequence);
      if before.Some? then before
      else if es[|es| - 1].sequence == sequence then Some(es[|es| - 1])
      else None
  }

  function FirstAccept(es: seq<Event>): Option<Event> {
    if es == [] then None
    else
      var before := FirstAccept(es[..|es| - 1]);
      if before.Some? then before
      else if es[|es| - 1].kind.ACCEPT? then Some(es[|es| - 1])
      else None
  }

  /** Current-state metrics of an order that is not closed or cancelled. */
  function StateSamples(row: Order, es: seq<Event>, now: Time): seq<Sample> {
    if row.status.Closed? || row.status.Cancelled? then []
    else
      var exclusion := if FindEvent(es, row.revision).None? then Some(MissingHistory) else None;
      [Sample(OpenOrders, 1, None, exclusion)]
      + (if row.origin.plannedEnd < now then [Sample(OverdueOrders, 1, None, exclusion)] else [])
      + (if row.status.Blocked? then [Sample(BlockedOrders, 1, None, exclusion)] else [])
      + (if row.status.Completed? then [Sample(WaitingVerification, 1, None, exclusion)] else [])
  }

  function FlowSamples(e: Event, cs: seq<Completion>): seq<Sample> {
    var c := FindCompletion(cs, Attempt(e));
    var exclusion := if e.kind.CLOSE? && c.None? then Some(MissingHistory) else None;
    var success := c.Some? && c.value.outcome.Success? && e.verdict == Some(Verified);
    match e.kind
    case CREATE => [Sample(CreatedOrders, 1, None, exclusion)]
    case CANCEL => [Sample(CancelledOrders, 1, None, exclusion)]
    case CLOSE =>
      [Sample(ClosedOrders, 1, None, exclusion)]
      + (if success then [Sample(SuccessfulVerified, 1, None, exclusion)] else [])
      + [Sample(FirstPassVerifiedRate, if Attempt(e) == Some(1) && success then 1 else 0, None, exclusion),
         Sample(ReworkDecisionRate, 0, None, exclusion)]
    case REQUEST_REWORK | REASSIGN_FOR_REWORK => [Sample(ReworkDecisionRate, 1, None, exclusion)]
    case _ => []
  }

  function AllFlowSamples(es: seq<Event>, cs: seq<Completion>): seq<Sample> {
    if es == [] then [] else AllFlowSamples(es[..|es| - 1], cs) + FlowSamples(es[|es| - 1], cs)
  }

  function AcceptSamples(es: seq<Event>): seq<Sample> {
    var first, created := FirstAccept(es), FirstCreation(es);
    if first.None? then []
    else
      var exclusion :=
        if created.None? then Some(MissingHistory)
        else if Count(es, CREATE) != 1 || !ValidHistory(es) || first.value.at < created.value
          then Some(InconsistentHistory)
        else None;
      [Sample(TimeToFirstAccept, 1, if created.Some? then Some(first.value.at - created.value) else None, exclusion)]
  }

  function ExecutionSample(c: Completion, es: seq<Event>): Sample {
    var completes, seconds := Completes(es, c.attempt), Seconds(es, c.attempt, |es|);
    var exclusion :=
      if es == [] || seconds.None? || completes == [] then Some(MissingHistory)
      else if Broken(es, c.attempt) || !ValidHistory(es) || Count(es, CREATE) != 1 || |completes| != 1
              || LastTime(completes) != c.at
        then Some(InconsistentHistory)
      else None;
    Sample(ActiveExecutionTime, 1, seconds, exclusion)
  }

  function ExecutionSamples(cs: seq<Completion>, es: seq<Event>): seq<Sample> {
    if cs == [] then [] else ExecutionSamples(cs[..|cs| - 1], es) + [ExecutionSample(cs[|cs| - 1], es)]
  }

  /** Time from a completion to the decision on it. */
  function WaitSample(e: Event, es: seq<Event>, cs: seq<Completion>): Sample {
    var p := FindEvent(es, e.sequence - 1);
    var complete := p.Some? && p.value.kind.COMPLETE?;
    var c := if complete then FindCompletion(cs, Attempt(p.value)) else None;
    if !complete then Sample(VerificationWaitTime, 1, None, Some(MissingHistory))
    else
      var exclusion :=
        if c.None? then Some(MissingHistory)
        else if !ValidHistory(es) || Count(es, CREATE) != 1 || p.value.at != c.value.at || e.at < p.value.at
          then Some(InconsistentHistory)
        else None;
      Sample(VerificationWaitTime, 1, Some(e.at - p.value.at), exclusion)
  }

  function WaitSamples(some: seq<Event>, es: seq<Event>, cs: seq<Completion>): seq<Sample> {
    if some == [] then []
    else
      var e := some[|some| - 1];
      WaitSamples(some[..|some| - 1], es, cs) + (if IsDecision(e.kind) then [WaitSample(e, es, cs)] else [])
  }

  /** All samples of one order. */
  function Contributions(row: Order, events: seq<Event>, cs: seq<Completion>, now: Time): seq<Sample> {
    var es := Sorted(events, BySequence);
    StateSamples(row, es, now) + AllFlowSamples(es, cs) + AcceptSamples(es) + ExecutionSamples(cs, es)
    + WaitSamples(es, es, cs)
  }

  /** No sample is excluded. */
  predicate AllCounted(samples: seq<Sample>) {
    forall x :: x in samples ==> x.exclusion.None?
  }

  /** Aggregate columns of one metric: how many samples, and their contributions added up. */
  function Denominator(samples: seq<Sample>, m: Metric): nat {
    if samples == [] then 0
    else Denominator(samples[..|samples| - 1], m) + (if samples[|samples| - 1].metric == m then 1 else 0)
  }

  function Numerator(samples: seq<Sample>, m: Metric): int {
    if samples == [] then 0
    else
      var x := samples[|samples| - 1];
      Numerator(samples[..|samples| - 1], m) + (if x.metric == m then x.contribution else 0)
  }
}
