/** What each metric counts, and which samples are excluded, over any rows the tables can hold. */
module AnalyticsCounts {
  import opened Collections
  import opened WorkOrderPolicy
  import opened WorkOrders
  import opened Analytics
  import opened AnalyticsLaws

  // What each metric counts ---------------------------------------------------------------------

  /** One completion per attempt, the unique key of the table. */
  ghost predicate OnePerAttempt(cs: seq<Completion>) {
    forall c, d :: c in cs && d in cs && c.attempt == d.attempt ==> c == d
  }

  /** The event closes an attempt that was reported a success. */
  ghost predicate ClosesSuccess(e: Event, cs: seq<Completion>) {
    && e.kind == CLOSE && e.verdict == Some(Verified) && 1 <= e.attempt <= 999_999_999
    && exists c :: c in cs && c.attempt == e.attempt && c.outcome == Success
  }

  /** The event is one of those the metric is about. */
  ghost predicate Feeds(e: Event, cs: seq<Completion>, m: Metric) {
    match m
    case CreatedOrders => e.kind == CREATE
    case CancelledOrders => e.kind == CANCEL
    case ClosedOrders | FirstPassVerifiedRate => e.kind == CLOSE
    case SuccessfulVerified => ClosesSuccess(e, cs)
    case ReworkDecisionRate => e.kind in {CLOSE, REQUEST_REWORK, REASSIGN_FOR_REWORK}
    case _ => false
  }

  /** The event speaks for the metric's numerator. */
  ghost predicate Favours(e: Event, cs: seq<Completion>, m: Metric) {
    match m
    case FirstPassVerifiedRate => ClosesSuccess(e, cs) && e.attempt == 1
    case ReworkDecisionRate => e.kind in {REQUEST_REWORK, REASSIGN_FOR_REWORK}
    case _ => Feeds(e, cs, m)
  }

  ghost function Positions<T>(xs: seq<T>, p: T -> bool): set<int> {
    set i | 0 <= i < |xs| && p(xs[i])
  }

  lemma LastPosition<T>(xs: seq<T>, p: T -> bool)
    requires xs != []
    ensures var n := |xs| - 1; |Positions(xs, p)| == |Positions(xs[..n], p)| + (if p(xs[n]) then 1 else 0)
  {
    var n := |xs| - 1;
    if p(xs[n]) {
      assert Positions(xs, p) == Positions(xs[..n], p) + {n};
    } else {
      assert Positions(xs, p) == Positions(xs[..n], p);
    }
  }

  lemma NoPositions<T>(p: T -> bool)
    ensures Positions([], p) == {}
  {
  }

  /** How many events the metric is about, and how many speak for its numerator. */
  ghost function Feeding(es: seq<Event>, cs: seq<Completion>, m: Metric): nat {
    |Positions(es, e => Feeds(e, cs, m))|
  }

  ghost function Favouring(es: seq<Event>, cs: seq<Completion>, m: Metric): nat {
    |Positions(es, e => Favours(e, cs, m))|
  }

  lemma {:induction false} CompletionOfAttempt(cs: seq<Completion>, a: Option<int>)
    requires OnePerAttempt(cs)
    ensures var c := FindCompletion(cs, a);
            if c.Some? then c.value in cs && Some(c.value.attempt) == a
            else forall d :: d in cs ==> Some(d.attempt) != a
  {
    if cs != [] {
      var n := |cs| - 1;
      assert cs == cs[..n] + [cs[n]];
      CompletionOfAttempt(cs[..n], a);
    }
  }

  lemma SuccessIsExact(e: Event, cs: seq<Completion>)
    requires OnePerAttempt(cs) && e.kind.CLOSE?
    ensures Succeeds(e, cs) <==> ClosesSuccess(e, cs)
  {
    CompletionOfAttempt(cs, Attempt(e));
  }

  lemma CloseFlow(e: Event, cs: seq<Completion>, m: Metric)
    requires OnePerAttempt(cs) && e.kind.CLOSE?
    ensures Denominator(FlowSamples(e, cs), m) == (if Feeds(e, cs, m) then 1 else 0)
    ensures Numerator(FlowSamples(e, cs), m) == (if Favours(e, cs, m) then 1 else 0)
  {
    hide FindCompletion, OnePerAttempt, ClosesSuccess, Denominator, Numerator;
    SuccessIsExact(e, cs);
    var exclusion := if FindCompletion(cs, Attempt(e)).None? then Some(MissingHistory) else None;
    var xs := FlowSamples(e, cs);
    var closed := Sample(ClosedOrders, 1, None, exclusion);
    var verified := Sample(SuccessfulVerified, 1, None, exclusion);
    var first := Sample(FirstPassVerifiedRate, if Attempt(e) == Some(1) && Succeeds(e, cs) then 1 else 0, None,
                        exclusion);
    var rework := Sample(ReworkDecisionRate, 0, None, exclusion);
    if Succeeds(e, cs) {
      assert xs == [closed] + [verified] + [first] + [rework];
      AggregatesAppend([closed], [verified], m);
    } else {
      assert xs == [closed] + [first] + [rework];
    }
    var head := if Succeeds(e, cs) then [closed] + [verified] else [closed];
    AggregatesAppend(head, [first], m);
    AggregatesAppend(head + [first], [rework], m);
    AggregateOne(closed, m);
    AggregateOne(verified, m);
    AggregateOne(first, m);
    AggregateOne(rework, m);
  }

  lemma OtherFlow(e: Event, cs: seq<Completion>, m: Metric)
    requires !e.kind.CLOSE?
    ensures Denominator(FlowSamples(e, cs), m) == (if Feeds(e, cs, m) then 1 else 0)
    ensures Numerator(FlowSamples(e, cs), m) == (if Favours(e, cs, m) then 1 else 0)
  {
    var xs := FlowSamples(e, cs);
    if xs != [] { AggregateOne(xs[0], m); }
  }

  lemma NothingCounts(m: Metric)
    ensures Denominator([], m) == 0 && Numerator([], m) == 0
  {
  }

  lemma {:induction false} FlowCounts(es: seq<Event>, cs: seq<Completion>, m: Metric)
    requires OnePerAttempt(cs)
    ensures Denominator(AllFlowSamples(es, cs), m) == Feeding(es, cs, m)
    ensures Numerator(AllFlowSamples(es, cs), m) == Favouring(es, cs, m)
  {
    hide FlowSamples, Feeds, Favours, Denominator, Numerator;
    if es == [] {
      NothingCounts(m);
      NoPositions((e: Event) => Feeds(e, cs, m));
      NoPositions((e: Event) => Favours(e, cs, m));
    } else {
      var n := |es| - 1;
      FlowCounts(es[..n], cs, m);
      FlowAggregates(es, cs, m);
      if es[n].kind.CLOSE? { CloseFlow(es[n], cs, m); } else { OtherFlow(es[n], cs, m); }
      LastPosition(es, e => Feeds(e, cs, m));
      LastPosition(es, e => Favours(e, cs, m));
    }
  }

  /** The order is in the state the metric is about. */
  predicate Shows(row: Order, now: Time, m: Metric) {
    && row.status !in {Closed, Cancelled}
    && match m
       case OpenOrders => true
       case OverdueOrders => row.origin.plannedEnd < now
       case BlockedOrders => row.status == Blocked
       case WaitingVerification => row.status == Completed
       case _ => false
  }

  lemma StateCounts(row: Order, es: seq<Event>, now: Time, m: Metric)
    ensures Denominator(StateSamples(row, es, now), m) == (if Shows(row, now, m) then 1 else 0)
    ensures Numerator(StateSamples(row, es, now), m) == (if Shows(row, now, m) then 1 else 0)
  {
    hide FindEvent, Denominator, Numerator;
    if row.status.Closed? || row.status.Cancelled? {
      OthersDoNotCount(StateSamples(row, es, now), m);
    } else {
      var x := if FindEvent(es, row.revision).None? then Some(MissingHistory) else None;
      var open := [Sample(OpenOrders, 1, None, x)];
      var overdue := if row.origin.plannedEnd < now then [Sample(OverdueOrders, 1, None, x)] else [];
      var blocked := if row.status.Blocked? then [Sample(BlockedOrders, 1, None, x)] else [];
      var waiting := if row.status.Completed? then [Sample(WaitingVerification, 1, None, x)] else [];
      AggregatesAppend(open, overdue, m);
      AggregatesAppend(open + overdue, blocked, m);
      AggregatesAppend(open + overdue + blocked, waiting, m);
      AtMostOne(open, m);
      AtMostOne(overdue, m);
      AtMostOne(blocked, m);
      AtMostOne(waiting, m);
    }
  }

  lemma AtMostOne(xs: seq<Sample>, m: Metric)
    requires |xs| <= 1
    ensures Denominator(xs, m) == if xs != [] && xs[0].metric == m then 1 else 0
    ensures Numerator(xs, m) == if xs != [] && xs[0].metric == m then xs[0].contribution else 0
  {
    if xs != [] { AggregateOne(xs[0], m); }
  }

  lemma {:induction false} AcceptanceExists(es: seq<Event>)
    ensures FirstAccept(es).Some? <==> exists i :: 0 <= i < |es| && es[i].kind == ACCEPT
  {
    if es != [] { AcceptanceExists(es[..|es| - 1]); }
  }

  lemma {:induction false} ExecutionCounts(cs: seq<Completion>, es: seq<Event>, m: Metric)
    ensures Denominator(ExecutionSamples(cs, es), m) == if m == ActiveExecutionTime then |cs| else 0
  {
    hide ExecutionSample;
    if cs != [] {
      var n := |cs| - 1;
      ExecutionCounts(cs[..n], es, m);
      ExecutionIsAboutTime(cs[n], es);
      AggregatesAppend(ExecutionSamples(cs[..n], es), [ExecutionSample(cs[n], es)], m);
      AggregateOne(ExecutionSample(cs[n], es), m);
    }
  }

  lemma ExecutionIsAboutTime(c: Completion, es: seq<Event>)
    ensures ExecutionSample(c, es).metric == ActiveExecutionTime
  {
  }

  ghost function Decisions(es: seq<Event>): nat {
    |Positions(es, (e: Event) => e.kind in {CLOSE, REQUEST_REWORK, REASSIGN_FOR_REWORK})|
  }

  lemma {:induction false} WaitCounts(some: seq<Event>, es: seq<Event>, cs: seq<Completion>, m: Metric)
    ensures Denominator(WaitSamples(some, es, cs), m) == if m == VerificationWaitTime then Decisions(some) else 0
  {
    hide WaitSample;
    if some == [] {
      NoPositions((e: Event) => e.kind in {CLOSE, REQUEST_REWORK, REASSIGN_FOR_REWORK});
    } else {
      var n := |some| - 1;
      WaitCounts(some[..n], es, cs, m);
      WaitIsAboutTime(some[n], es, cs);
      var x := WaitSample(some[n], es, cs);
      var xs := if IsDecision(some[n].kind) then [x] else [];
      AggregatesAppend(WaitSamples(some[..n], es, cs), xs, m);
      AtMostOne(xs, m);
      LastPosition(some, (e: Event) => e.kind in {CLOSE, REQUEST_REWORK, REASSIGN_FOR_REWORK});
    }
  }

  lemma WaitIsAboutTime(e: Event, es: seq<Event>, cs: seq<Completion>)
    ensures WaitSample(e, es, cs).metric == VerificationWaitTime
  {
  }

  /** How many samples an order gives each metric. */
  ghost function Expected(row: Order, es: seq<Event>, cs: seq<Completion>, now: Time, m: Metric): nat {
    match m
    case OpenOrders | OverdueOrders | BlockedOrders | WaitingVerification => if Shows(row, now, m) then 1 else 0
    case TimeToFirstAccept => if exists i :: 0 <= i < |es| && es[i].kind == ACCEPT then 1 else 0
    case ActiveExecutionTime => |cs|
    case VerificationWaitTime => Decisions(es)
    case _ => Feeding(es, cs, m)
  }

  lemma NothingFeeds(es: seq<Event>, cs: seq<Completion>, m: Metric)
    requires forall e: Event :: !Feeds(e, cs, m)
    ensures Feeding(es, cs, m) == 0
  {
    assert Positions(es, e => Feeds(e, cs, m)) == {};
  }

  lemma AcceptCounts(es: seq<Event>, m: Metric)
    ensures Denominator(AcceptSamples(es), m) ==
              if m == TimeToFirstAccept && exists i :: 0 <= i < |es| && es[i].kind == ACCEPT then 1 else 0
  {
    hide FirstAccept, FirstCreation, ValidHistory, Count, Denominator;
    AcceptanceExists(es);
    AtMostOne(AcceptSamples(es), m);
  }

  /** Every metric has exactly the samples of the rows it is about, whatever the history. */
  lemma SamplesAreCounted(row: Order, events: seq<Event>, cs: seq<Completion>, now: Time, m: Metric)
    requires OnePerAttempt(cs)
    ensures Denominator(Contributions(row, events, cs, now), m)
            == Expected(row, Sorted(events, BySequence), cs, now, m)
  {
    hide Sorted, StateSamples, AllFlowSamples, AcceptSamples, ExecutionSamples, WaitSamples, Denominator, OnePerAttempt;
    var es := Sorted(events, BySequence);
    var a, b, c, d, e := StateSamples(row, es, now), AllFlowSamples(es, cs), AcceptSamples(es),
        ExecutionSamples(cs, es), WaitSamples(es, es, cs);
    AggregatesAppend(a, b, m);
    AggregatesAppend(a + b, c, m);
    AggregatesAppend(a + b + c, d, m);
    AggregatesAppend(a + b + c + d, e, m);
    StateCounts(row, es, now, m);
    FlowCounts(es, cs, m);
    AcceptCounts(es, m);
    ExecutionCounts(cs, es, m);
    WaitCounts(es, es, cs, m);
    if forall e: Event :: !Feeds(e, cs, m) { NothingFeeds(es, cs, m); }
  }

  // What is excluded ----------------------------------------------------------------------------

  /** Read by sequence; the numbers of an order's events differ by the unique key of the table. */
  ghost predicate Rising(es: seq<Event>) {
    forall i, j :: 0 <= i < j < |es| ==> es[i].sequence < es[j].sequence
  }

  /** Numbered 1..n without a gap, in time order, with readable attempts. */
  ghost predicate Orderly(es: seq<Event>) {
    && es != []
    && (forall i :: 0 <= i < |es| ==> es[i].sequence == i + 1 && 1 <= es[i].attempt <= 999_999_999)
    && forall i :: 0 < i < |es| ==> es[i - 1].at <= es[i].at
  }

  lemma {:induction false} NumbersLeaveRoom(es: seq<Event>, i: nat, j: nat)
    requires Rising(es) && i <= j < |es|
    ensures es[j].sequence - es[i].sequence >= j - i
  {
    if i < j {
      NumbersLeaveRoom(es, i, j - 1);
      assert es[j - 1].sequence < es[j].sequence;
    }
  }

  /** First number, last number and signs leave no room for a gap. */
  lemma HistoryIsValidRaw(es: seq<Event>)
    requires Rising(es)
    ensures ValidHistory(es) <==> Orderly(es)
  {
    if ValidHistory(es) {
      forall i | 0 <= i < |es| ensures es[i].sequence == i + 1 && 1 <= es[i].attempt <= 999_999_999 {
        assert InOrder(es, i);
        NumbersLeaveRoom(es, 0, i);
        NumbersLeaveRoom(es, i, |es| - 1);
      }
      forall i | 0 < i < |es| ensures es[i - 1].at <= es[i].at { assert InOrder(es, i - 1); }
    }
    if Orderly(es) {
      forall i | 0 <= i < |es| ensures InOrder(es, i) {}
    }
  }

  /** A history that lost an event before its last is no longer valid, and one that lost its last misses the row. */
  lemma LostEventIsNoticed(es: seq<Event>, k: nat, row: Order, now: Time)
    requires Orderly(es) && k < |es| && row.revision == |es| && row.status !in {Closed, Cancelled}
    ensures var rest := es[..k] + es[k + 1..];
            if k < |es| - 1 then !ValidHistory(rest)
            else forall x :: x in StateSamples(row, rest, now) ==> x.exclusion == Some(MissingHistory)
  {
    var rest := es[..k] + es[k + 1..];
    if k < |es| - 1 {
      assert rest[|rest| - 1] == es[|es| - 1];
    } else {
      assert rest == es[..k];
      NumberIsMissing(rest, |es|);
    }
  }

  lemma {:induction false} NumberIsMissing(es: seq<Event>, number: int)
    ensures FindEvent(es, number).None? <==> forall i :: 0 <= i < |es| ==> es[i].sequence != number
  {
    if es != [] { NumberIsMissing(es[..|es| - 1], number); }
  }

  lemma {:induction false} NumberIsFound(es: seq<Event>, i: nat)
    requires Rising(es) && i < |es|
    ensures FindEvent(es, es[i].sequence) == Some(es[i])
  {
    var n := |es| - 1;
    if i < n {
      NumberIsFound(es[..n], i);
    } else {
      NumberIsMissing(es[..n], es[n].sequence);
    }
  }

  /** State samples are excluded exactly when no event has the revision of the row. */
  lemma StateIsExcludedExactly(row: Order, es: seq<Event>, now: Time, x: Sample)
    requires x in StateSamples(row, es, now)
    ensures x.exclusion == None || x.exclusion == Some(MissingHistory)
    ensures x.exclusion == None <==> exists i :: 0 <= i < |es| && es[i].sequence == row.revision
  {
    NumberIsMissing(es, row.revision);
  }

  /** Flow samples are excluded exactly for a CLOSE without the completion of its attempt. */
  lemma FlowIsExcludedExactly(e: Event, cs: seq<Completion>, x: Sample)
    requires OnePerAttempt(cs) && x in FlowSamples(e, cs)
    ensures x.exclusion == None || x.exclusion == Some(MissingHistory)
    ensures x.exclusion == Some(MissingHistory) <==>
              e.kind == CLOSE && !(1 <= e.attempt <= 999_999_999 && exists c :: c in cs && c.attempt == e.attempt)
  {
    CompletionOfAttempt(cs, Attempt(e));
  }

  lemma {:induction false} CreationsAreCounted(es: seq<Event>)
    ensures Count(es, CREATE) == |Positions(es, (e: Event) => e.kind == CREATE)|
    ensures FirstCreation(es).None? <==> Count(es, CREATE) == 0
    ensures forall e :: e in es && e.kind == CREATE ==> FirstCreation(es).Some? && FirstCreation(es).value <= e.at
    ensures FirstCreation(es).Some? ==> exists e :: e in es && e.kind == CREATE && e.at == FirstCreation(es).value
  {
    if es == [] {
      NoPositions((e: Event) => e.kind == CREATE);
    } else {
      var n := |es| - 1;
      assert es == es[..n] + [es[n]];
      CreationsAreCounted(es[..n]);
      LastPosition(es, (e: Event) => e.kind == CREATE);
    }
  }

  /** `i` is the one position at which `p` holds. */
  ghost predicate OnlyAt<T>(xs: seq<T>, p: T -> bool, i: int) {
    0 <= i < |xs| && p(xs[i]) && forall j :: 0 <= j < |xs| && p(xs[j]) ==> j == i
  }

  lemma OnePosition<T>(xs: seq<T>, p: T -> bool)
    ensures |Positions(xs, p)| == 1 <==> exists i :: OnlyAt(xs, p, i)
  {
    var all := Positions(xs, p);
    if |all| == 1 {
      var i :| i in all;
      assert |all - {i}| == 0;
      forall j | 0 <= j < |xs| && p(xs[j]) ensures j == i {
        assert j in all;
        assert j !in all - {i};
      }
      assert OnlyAt(xs, p, i);
    }
    if i :| OnlyAt(xs, p, i) { assert all == {i}; }
  }

  ghost predicate CreatedOnceAt(es: seq<Event>, i: int) { OnlyAt(es, (e: Event) => e.kind == CREATE, i) }

  lemma CreationTime(es: seq<Event>, i: int)
    requires CreatedOnceAt(es, i)
    ensures Count(es, CREATE) == 1 && FirstCreation(es) == Some(es[i].at)
  {
    CreationsAreCounted(es);
    OnePosition(es, (e: Event) => e.kind == CREATE);
    assert es[i] in es;
  }

  lemma OneCreation(es: seq<Event>)
    requires Count(es, CREATE) == 1
    ensures exists i :: CreatedOnceAt(es, i)
  {
    CreationsAreCounted(es);
    OnePosition(es, (e: Event) => e.kind == CREATE);
    var i :| OnlyAt(es, (e: Event) => e.kind == CREATE, i);
    assert CreatedOnceAt(es, i);
  }

  /** The time to the first acceptance counts exactly in an orderly history with one creation before it. */
  lemma AcceptIsCountedExactly(es: seq<Event>)
    requires Rising(es) && FirstAccept(es).Some?
    ensures |AcceptSamples(es)| == 1
    ensures AcceptSamples(es)[0].exclusion == None <==>
              Orderly(es) && exists i :: CreatedOnceAt(es, i) && es[i].at <= FirstAccept(es).value.at
  {
    hide FirstAccept, FirstCreation, ValidHistory, Orderly, Count;
    HistoryIsValidRaw(es);
    CreationsAreCounted(es);
    if Count(es, CREATE) == 1 { OneCreation(es); }
    forall i | CreatedOnceAt(es, i) ensures Count(es, CREATE) == 1 && FirstCreation(es) == Some(es[i].at) {
      CreationTime(es, i);
    }
  }

  /** A COMPLETE of a readable attempt `a`. */
  predicate IsComplete(e: Event, a: int) { e.kind == COMPLETE && e.attempt == a && 1 <= a <= 999_999_999 }

  lemma {:induction false} CompletesAreCounted(es: seq<Event>, a: int)
    ensures |Completes(es, a)| == |Positions(es, (e: Event) => IsComplete(e, a))|
    ensures forall e :: e in Completes(es, a) <==> e in es && IsComplete(e, a)
  {
    if es == [] {
      NoPositions((e: Event) => IsComplete(e, a));
    } else {
      var n := |es| - 1;
      assert es == es[..n] + [es[n]];
      CompletesAreCounted(es[..n], a);
      LastPosition(es, (e: Event) => IsComplete(e, a));
    }
  }

  ghost predicate CompletedOnceAt(es: seq<Event>, a: int, i: int) { OnlyAt(es, (e: Event) => IsComplete(e, a), i) }

  lemma OneCompletion(es: seq<Event>, a: int, at: Time)
    ensures |Completes(es, a)| == 1 && LastTime(Completes(es, a)) == at <==>
              exists i :: CompletedOnceAt(es, a, i) && es[i].at == at
  {
    hide Completes;
    CompletesAreCounted(es, a);
    OnePosition(es, (e: Event) => IsComplete(e, a));
    var found := Completes(es, a);
    forall j | CompletedOnceAt(es, a, j) ensures OnlyAt(es, (e: Event) => IsComplete(e, a), j) {}
    if |found| == 1 {
      var i :| OnlyAt(es, (e: Event) => IsComplete(e, a), i);
      assert CompletedOnceAt(es, a, i) && es[i] in es && es[i] in found && found[0] == es[i];
      if j :| CompletedOnceAt(es, a, j) && es[j].at == at { assert j == i; }
    }
  }

  /** Position `i` starts an interval of work on attempt `a`. */
  predicate AtWork(es: seq<Event>, a: int, i: int) {
    0 <= i < |es| && es[i].to == InProgress && es[i].attempt == a
  }

  /** The interval has an end, in the same attempt. */
  predicate EndsInside(es: seq<Event>, a: int, i: int) { 0 <= i < |es| - 1 && es[i + 1].attempt == a }

  lemma {:induction false} SecondsExist(es: seq<Event>, a: int, n: nat)
    requires Orderly(es) && n <= |es|
    ensures Seconds(es, a, n).Some? <==> exists i :: 0 <= i < n && AtWork(es, a, i) && i + 1 < |es|
  {
    hide Orderly;
    if n > 0 {
      SecondsExist(es, a, n - 1);
      NextIsNext(es, n - 1);
      assert AtWork(es, a, n - 1) <==> Runs(es, a, n - 1);
    }
  }

  lemma NextIsNext(es: seq<Event>, i: nat)
    requires Orderly(es) && i < |es|
    ensures NextOf(es, i) == (if i + 1 < |es| then Some(es[i + 1]) else None)
    ensures Attempt(es[i]) == Some(es[i].attempt)
    ensures i + 1 < |es| ==> es[i].at <= es[i + 1].at
  {
  }

  lemma BrokenIsExact(es: seq<Event>, a: int)
    requires Orderly(es)
    ensures !Broken(es, a) <==> forall i :: AtWork(es, a, i) ==> EndsInside(es, a, i)
  {
    hide Orderly;
    if Broken(es, a) {
      var i :| 0 <= i < |es| && Runs(es, a, i)
        && (NextOf(es, i).None? || NextOf(es, i).value.at < es[i].at
            || (Attempt(NextOf(es, i).value).Some? && Attempt(NextOf(es, i).value) != Some(a)));
      WorkEnds(es, a, i);
      assert AtWork(es, a, i) && !EndsInside(es, a, i);
    } else {
      forall i | AtWork(es, a, i) ensures EndsInside(es, a, i) {
        WorkEnds(es, a, i);
        assert Runs(es, a, i);
      }
    }
  }

  /** In an orderly history an interval of work ends inside its attempt exactly when nothing breaks it. */
  lemma WorkEnds(es: seq<Event>, a: int, i: nat)
    requires Orderly(es) && i < |es|
    ensures Runs(es, a, i) <==> AtWork(es, a, i)
    ensures EndsInside(es, a, i) <==>
              !(NextOf(es, i).None? || NextOf(es, i).value.at < es[i].at
                || (Attempt(NextOf(es, i).value).Some? && Attempt(NextOf(es, i).value) != Some(a)))
  {
    hide Orderly;
    NextIsNext(es, i);
    if i + 1 < |es| { NextIsNext(es, i + 1); }
  }

  /** The history is orderly, begins once, completes the attempt once at that time, and has all its work inside it. */
  ghost predicate WellReported(c: Completion, es: seq<Event>) {
    && Orderly(es)
    && (exists i :: CreatedOnceAt(es, i))
    && (exists i :: CompletedOnceAt(es, c.attempt, i) && es[i].at == c.at)
    && (exists i :: AtWork(es, c.attempt, i))
    && forall i :: AtWork(es, c.attempt, i) ==> EndsInside(es, c.attempt, i)
  }

  /** The active time of a completion counts exactly when its history reports it well. */
  lemma ExecutionIsCountedExactly(c: Completion, es: seq<Event>)
    requires Rising(es)
    ensures ExecutionSample(c, es).exclusion == None <==> WellReported(c, es)
  {
    hide Rising, Orderly, ValidHistory, Count, Completes, Seconds, Broken, CreatedOnceAt, CompletedOnceAt, AtWork,
         EndsInside;
    HistoryIsValidRaw(es);
    OneCompletion(es, c.attempt, c.at);
    if Count(es, CREATE) == 1 { OneCreation(es); }
    forall i | CreatedOnceAt(es, i) ensures Count(es, CREATE) == 1 { CreationTime(es, i); }
    if Orderly(es) {
      BrokenIsExact(es, c.attempt);
      WorkWasMeasured(c, es);
    }
  }

  lemma WorkWasMeasured(c: Completion, es: seq<Event>)
    requires Orderly(es)
    ensures es != []
    ensures (forall i :: AtWork(es, c.attempt, i) ==> EndsInside(es, c.attempt, i)) ==>
              (Seconds(es, c.attempt, |es|).Some? <==> exists i :: AtWork(es, c.attempt, i))
  {
    SecondsExist(es, c.attempt, |es|);
  }

  /** The event before the decision is the COMPLETE that a completion row reports at the same time. */
  ghost predicate FollowsReport(e: Event, es: seq<Event>, cs: seq<Completion>) {
    exists i, c :: 0 <= i < |es| && es[i].sequence == e.sequence - 1 && es[i].kind == COMPLETE
                   && c in cs && c.attempt == es[i].attempt && c.at == es[i].at
  }

  /** The wait for a decision counts exactly in an orderly history with one creation, right after the report. */
  lemma WaitIsCountedExactly(e: Event, es: seq<Event>, cs: seq<Completion>)
    requires Rising(es) && OnePerAttempt(cs) && e in es
    ensures WaitSample(e, es, cs).exclusion == None <==>
              Orderly(es) && (exists i :: CreatedOnceAt(es, i)) && FollowsReport(e, es, cs)
  {
    hide Rising, Orderly, ValidHistory, Count, CreatedOnceAt, FindEvent, FindCompletion, FollowsReport, OnePerAttempt;
    HistoryIsValidRaw(es);
    if Count(es, CREATE) == 1 { OneCreation(es); }
    forall i | CreatedOnceAt(es, i) ensures Count(es, CREATE) == 1 { CreationTime(es, i); }
    if Orderly(es) { ReportIsFound(e, es, cs); }
  }

  lemma ReportIsFound(e: Event, es: seq<Event>, cs: seq<Completion>)
    requires Rising(es) && Orderly(es) && OnePerAttempt(cs) && e in es
    ensures FollowsReport(e, es, cs) <==>
              var p := FindEvent(es, e.sequence - 1);
              && p.Some? && p.value.kind.COMPLETE? && p.value.at <= e.at
              && var c := FindCompletion(cs, Attempt(p.value));
                 c.Some? && c.value.at == p.value.at
  {
    hide FindEvent, FindCompletion, Rising;
    NumberIsMissing(es, e.sequence - 1);
    var k :| 0 <= k < |es| && es[k] == e;
    if k > 0 {
      NumberIsFound(es, k - 1);
      CompletionOfAttempt(cs, Attempt(es[k - 1]));
    }
  }

  // Missing or inconsistent ---------------------------------------------------------------------

  /** An interval of work on `a` with the event that ends it. */
  predicate Interval(es: seq<Event>, a: int, i: int) {
    && 0 <= i < |es| - 1 && es[i + 1].sequence == es[i].sequence + 1
    && es[i].to == InProgress && es[i].attempt == a && 1 <= a <= 999_999_999
  }

  lemma {:induction false} SecondsAreMissingExactly(es: seq<Event>, a: int, n: nat)
    requires n <= |es|
    ensures Seconds(es, a, n).Some? <==> exists i :: i < n && Interval(es, a, i)
  {
    if n > 0 {
      SecondsAreMissingExactly(es, a, n - 1);
      assert Runs(es, a, n - 1) && NextOf(es, n - 1).Some? <==> Interval(es, a, n - 1);
    }
  }

  /** Missing means that a row the sample needs is not there; everything else is an inconsistency. */
  lemma ExecutionIsMissingExactly(c: Completion, es: seq<Event>)
    ensures ExecutionSample(c, es).exclusion == Some(MissingHistory) <==>
              !((exists i :: Interval(es, c.attempt, i)) && exists e :: e in es && IsComplete(e, c.attempt))
  {
    hide ValidHistory, Count, Completes, Seconds, Broken;
    SecondsAreMissingExactly(es, c.attempt, |es|);
    CompletesAreCounted(es, c.attempt);
    if Completes(es, c.attempt) != [] { HeadIsMember(Completes(es, c.attempt)); }
  }

  lemma AcceptIsMissingExactly(es: seq<Event>)
    requires FirstAccept(es).Some?
    ensures |AcceptSamples(es)| == 1
    ensures AcceptSamples(es)[0].exclusion == Some(MissingHistory) <==> forall e :: e in es ==> e.kind != CREATE
  {
    hide ValidHistory, Count, FirstAccept;
    CreationsAreCounted(es);
  }

  lemma WaitIsMissingExactly(e: Event, es: seq<Event>, cs: seq<Completion>, p: Option<Event>)
    requires OnePerAttempt(cs) && p == FindEvent(es, e.sequence - 1)
    ensures WaitSample(e, es, cs).exclusion == Some(MissingHistory) <==>
              !(p.Some? && p.value.kind == COMPLETE && 1 <= p.value.attempt <= 999_999_999
                && exists c :: c in cs && c.attempt == p.value.attempt)
  {
    hide ValidHistory, Count, FindEvent;
    if p.Some? { CompletionOfAttempt(cs, Attempt(p.value)); }
  }
}
