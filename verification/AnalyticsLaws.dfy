/** What the projection says about histories the service can write. */
module AnalyticsLaws {
  import opened Collections
  import opened WorkOrderPolicy
  import opened WorkOrders
  import opened WorkOrderLog
  import opened WorkOrderRuns
  import opened Analytics

  /** The facts about a legal log that the projection relies on. */
  ghost predicate Tidy(es: seq<Event>) {
    && es != []
    && es[0].kind.CREATE? && !es[0].to.InProgress?
    && (forall i :: 0 <= i < |es| ==> es[i].sequence == i + 1 && es[i].attempt >= 1)
    && (forall i :: 1 <= i < |es| ==> Neighbours(es[i - 1], es[i]))
  }

  predicate Neighbours(e: Event, f: Event) {
    && f.at >= e.at
    && e.to in Sources(f.kind) && f.to == Destination(f.kind)
    && f.attempt == (if IsRework(f.kind) then e.attempt + 1 else e.attempt)
  }

  lemma {:induction false} AttemptsArePositive(es: seq<Event>, origin: Origin)
    requires Legal(es, origin)
    ensures forall i :: 0 <= i < |es| ==> es[i].attempt >= 1
  {
    forall i | 0 <= i < |es| ensures es[i].attempt >= 1 {
      PrefixIsLegal(es, origin, i + 1);
      LegalMeansSane(es[..i + 1], origin);
      RowShowsLastEvent(es[..i + 1], origin);
    }
  }

  lemma LegalIsTidy(es: seq<Event>, origin: Origin)
    requires Legal(es, origin)
    ensures Tidy(es)
  {
    LogOpensWithCreate(es, origin);
    LogIsNumbered(es, origin);
    AttemptsArePositive(es, origin);
    forall i | 1 <= i < |es| ensures Neighbours(es[i - 1], es[i]) {
      NeighboursFit(es, origin, i);
    }
  }

  /** Ordering a tidy log by sequence leaves it as it is. */
  lemma {:induction false} OrderedAlready(es: seq<Event>, from: int)
    requires forall i :: 0 <= i < |es| ==> es[i].sequence == from + i
    ensures Sorted(es, BySequence) == es
  {
    if es != [] {
      OrderedAlready(es[1..], from + 1);
    }
  }

  lemma {:induction false} TimesRise(es: seq<Event>, i: nat, j: nat)
    requires Tidy(es) && i <= j < |es|
    ensures es[i].at <= es[j].at && es[i].attempt <= es[j].attempt
    decreases j
  {
    if i < j {
      TimesRise(es, i, j - 1);
      assert Neighbours(es[j - 1], es[j]);
    }
  }

  lemma {:induction false} CreatedOnce(es: seq<Event>, n: nat)
    requires Tidy(es) && 1 <= n <= |es|
    ensures Count(es[..n], CREATE) == 1 && FirstCreation(es[..n]) == Some(es[0].at)
  {
    if n > 1 {
      CreatedOnce(es, n - 1);
      assert es[..n][..n - 1] == es[..n - 1];
      assert Neighbours(es[n - 2], es[n - 1]);
    } else {
      assert es[..1][..0] == [];
      assert Count([], CREATE) == 0 && FirstCreation([]) == None;
    }
  }

  /** The history is valid exactly when the last attempt number is readable. */
  lemma HistoryIsValidExactly(es: seq<Event>)
    requires Tidy(es)
    ensures ValidHistory(es) <==> es[|es| - 1].attempt <= MAX_ATTEMPT
  {
    var n := |es| - 1;
    if es[n].attempt <= MAX_ATTEMPT {
      forall i | 0 <= i < |es| ensures InOrder(es, i) {
        TimesRise(es, i, n);
        if i + 1 < |es| { TimesRise(es, i, i + 1); }
      }
    } else {
      assert !InOrder(es, n);
    }
  }

  lemma {:induction false} EventIsFound(es: seq<Event>, k: int, n: nat)
    requires Tidy(es) && n <= |es|
    ensures FindEvent(es[..n], k) == if 1 <= k <= n then Some(es[k - 1]) else None
  {
    if n > 0 {
      EventIsFound(es, k, n - 1);
      assert es[..n][..n - 1] == es[..n - 1];
    }
  }

  lemma {:induction false} CompletionIsFound(cs: seq<Completion>, a: int)
    requires forall k :: 0 <= k < |cs| ==> cs[k].attempt == k + 1
    ensures FindCompletion(cs, Some(a)) == if 1 <= a <= |cs| then Some(cs[a - 1]) else None
  {
    if cs != [] {
      CompletionIsFound(cs[..|cs| - 1], a);
    }
  }

  /** Every COMPLETE event has its completion row, under its attempt. */
  lemma {:induction false} CompleteHasReport(es: seq<Event>, origin: Origin, i: nat)
    requires Legal(es, origin) && i < |es| && es[i].kind.COMPLETE?
    ensures ReportOf(es[i]) != []
    ensures var cs := Reports(es); 1 <= es[i].attempt <= |cs| && cs[es[i].attempt - 1] == ReportOf(es[i])[0]
  {
    var n := |es| - 1;
    LogOpensWithCreate(es, origin);
    LegalMeansSane(es, origin);
    if i == n {
      LastReport(es, origin);
      RowShowsLastEvent(es, origin);
    } else {
      CompleteHasReport(es[..n], origin, i);
    }
  }

  /** A COMPLETE reports the attempt after those already reported. */
  lemma CompleteReportsNextAttempt(es: seq<Event>, origin: Origin)
    requires Legal(es, origin) && |es| >= 2
    ensures var e := es[|es| - 1]; e.kind.COMPLETE? ==> e.attempt == |Reports(es[..|es| - 1])| + 1 && ReportOf(e) != []
  {
    LegalMeansSane(es[..|es| - 1], origin);
  }

  /** The last event reports the next attempt if it is a COMPLETE, and nothing otherwise. */
  lemma LastEventReports(es: seq<Event>, origin: Origin)
    requires Legal(es, origin) && |es| >= 2
    ensures Legal(es[..|es| - 1], origin)
    ensures var e, cs := es[|es| - 1], Reports(es[..|es| - 1]);
            if e.kind.COMPLETE? then e.attempt == |cs| + 1 && |ReportOf(e)| == 1 && Reports(es) == cs + [ReportOf(e)[0]]
            else Reports(es) == cs
  {
    PrefixIsLegal(es, origin, |es| - 1);
    CompleteReportsNextAttempt(es, origin);
    EventWasPermitted(es, origin, |es| - 1);
  }

  lemma LastEventCompletes(es: seq<Event>, a: int)
    requires es != [] && 1 <= a <= MAX_ATTEMPT
    ensures var e, found := es[|es| - 1], Completes(es[..|es| - 1], a);
            Completes(es, a) == if e.kind.COMPLETE? && e.attempt == a then found + [e] else found
  {
  }

  /** An attempt has its COMPLETE event exactly once it has its completion, at the same time. */
  lemma {:induction false} OneCompletePerReport(es: seq<Event>, origin: Origin, a: int)
    requires Legal(es, origin) && 1 <= a <= MAX_ATTEMPT
    ensures var found, cs := Completes(es, a), Reports(es);
            if a <= |cs| then |found| == 1 && found[0].at == cs[a - 1].at else found == []
  {
    if |es| == 1 {
      LogOpensWithCreate(es, origin);
      assert es[..0] == [];
    } else {
      hide Legal, Completes, Reports;
      LastEventReports(es, origin);
      LastEventCompletes(es, a);
      OneCompletePerReport(es[..|es| - 1], origin, a);
    }
  }

  lemma {:induction false} CompleteIsSomewhere(es: seq<Event>, a: int) returns (j: nat)
    requires Completes(es, a) != []
    ensures j < |es| && es[j].kind.COMPLETE? && Attempt(es[j]) == Some(a)
  {
    var n := |es| - 1;
    if es[n].kind.COMPLETE? && Attempt(es[n]) == Some(a) {
      j := n;
    } else {
      j := CompleteIsSomewhere(es[..n], a);
    }
  }

  lemma {:induction false} SecondsPresent(es: seq<Event>, a: int, i: nat, n: nat)
    requires i < n <= |es| && Runs(es, a, i) && NextOf(es, i).Some?
    ensures Seconds(es, a, n).Some?
    decreases n
  {
    if i < n - 1 {
      SecondsPresent(es, a, i, n - 1);
    }
  }

  /** Work before a COMPLETE: its attempt has a finished interval. */
  lemma FinishedAttemptHasSeconds(es: seq<Event>, a: int)
    requires Tidy(es) && Completes(es, a) != []
    ensures Seconds(es, a, |es|).Some?
  {
    var j := CompleteIsSomewhere(es, a);
    assert j >= 1;
    assert Neighbours(es[j - 1], es[j]);
    SecondsPresent(es, a, j - 1, |es|);
  }

  /** Every IN_PROGRESS interval of an attempt that was reported is closed, inside the attempt. */
  lemma ReportedAttemptIsWhole(es: seq<Event>, origin: Origin, a: int)
    requires Legal(es, origin) && a <= |Reports(es)|
    ensures !Broken(es, a)
  {
    LegalIsTidy(es, origin);
    LegalMeansSane(es, origin);
    RowShowsLastEvent(es, origin);
    forall i | 0 <= i < |es| && Runs(es, a, i)
      ensures NextOf(es, i).Some? && NextOf(es, i).value.at >= es[i].at && NextOf(es, i).value.attempt == a
    {
      assert i != |es| - 1;
      assert Neighbours(es[i], es[i + 1]);
    }
  }

  lemma ExecutionIsCounted(row: Order, cs: seq<Completion>, es: seq<Event>, c: Completion)
    requires Faithful(row, cs, es) && c in cs
    ensures ExecutionSample(c, es).exclusion.None? <==> row.attempt <= MAX_ATTEMPT
  {
    hide Legal, Rebuild, Reports, ValidHistory, Count, Completes, Seconds, Broken;
    var n := |es|;
    LegalIsTidy(es, row.origin);
    LegalMeansSane(es, row.origin);
    RowShowsLastEvent(es, row.origin);
    HistoryIsValidExactly(es);
    CreatedOnce(es, n);
    assert es[..n] == es;
    if row.attempt <= MAX_ATTEMPT {
      var a := c.attempt;
      OneCompletePerReport(es, row.origin, a);
      FinishedAttemptHasSeconds(es, a);
      ReportedAttemptIsWhole(es, row.origin, a);
    }
  }

  lemma WaitIsCounted(row: Order, cs: seq<Completion>, es: seq<Event>, i: nat)
    requires Faithful(row, cs, es) && i < |es| && IsDecision(es[i].kind) && row.attempt <= MAX_ATTEMPT
    ensures WaitSample(es[i], es, cs).exclusion.None?
    ensures i >= 1 && WaitSample(es[i], es, cs).duration == Some(es[i].at - es[i - 1].at)
  {
    hide Legal, Rebuild, Reports, ValidHistory, Count, FindEvent, FindCompletion, WaitSample;
    var n := |es|;
    LegalIsTidy(es, row.origin);
    RowShowsLastEvent(es, row.origin);
    HistoryIsValidExactly(es);
    CreatedOnce(es, n);
    assert es[..n] == es;
    DecisionFollowsItsCompletion(es, row.origin, i);
    EventIsFound(es, es[i].sequence - 1, n);
    CompleteHasReport(es, row.origin, i - 1);
    TimesRise(es, i - 1, n - 1);
    LegalMeansSane(es, row.origin);
    CompletionIsFound(cs, es[i - 1].attempt);
    DecisionIsCounted(es[i], es, cs, es[i - 1], cs[es[i - 1].attempt - 1]);
  }

  /** A decision with its COMPLETE and completion in an orderly history has a counted wait. */
  lemma DecisionIsCounted(e: Event, es: seq<Event>, cs: seq<Completion>, p: Event, c: Completion)
    requires FindEvent(es, e.sequence - 1) == Some(p) && p.kind.COMPLETE?
    requires FindCompletion(cs, Attempt(p)) == Some(c) && c.at == p.at <= e.at
    requires ValidHistory(es) && Count(es, CREATE) == 1
    ensures WaitSample(e, es, cs).exclusion.None? && WaitSample(e, es, cs).duration == Some(e.at - p.at)
  {
  }

  lemma AcceptIsCounted(row: Order, cs: seq<Completion>, es: seq<Event>)
    requires Faithful(row, cs, es) && row.attempt <= MAX_ATTEMPT
    ensures AllCounted(AcceptSamples(es))
    ensures FirstAccept(es).Some? ==> AcceptSamples(es)[0].duration == Some(FirstAccept(es).value.at - row.createdAt)
  {
    var n := |es|;
    LegalIsTidy(es, row.origin);
    RowShowsLastEvent(es, row.origin);
    HistoryIsValidExactly(es);
    CreatedOnce(es, n);
    assert es[..n] == es;
    if FirstAccept(es).Some? {
      var j := AcceptIsSomewhere(es);
      TimesRise(es, 0, j);
    }
  }

  lemma {:induction false} AcceptIsSomewhere(es: seq<Event>) returns (j: nat)
    requires FirstAccept(es).Some?
    ensures j < |es| && es[j] == FirstAccept(es).value && es[j].kind.ACCEPT?
    ensures forall k :: 0 <= k < j ==> !es[k].kind.ACCEPT?
  {
    var n := |es| - 1;
    if FirstAccept(es[..n]).Some? {
      j := AcceptIsSomewhere(es[..n]);
      assert forall k :: 0 <= k < n ==> es[..n][k] == es[k];
    } else {
      j := n;
      forall k | 0 <= k < n ensures !es[k].kind.ACCEPT? {
        NoAcceptBefore(es[..n], k);
      }
    }
  }

  lemma {:induction false} NoAcceptBefore(es: seq<Event>, k: nat)
    requires FirstAccept(es).None? && k < |es|
    ensures !es[k].kind.ACCEPT?
  {
    if k < |es| - 1 { NoAcceptBefore(es[..|es| - 1], k); }
  }

  lemma FlowIsCounted(row: Order, cs: seq<Completion>, es: seq<Event>, i: nat)
    requires Faithful(row, cs, es) && i < |es| && row.attempt <= MAX_ATTEMPT
    ensures AllCounted(FlowSamples(es[i], cs))
  {
    hide Permits, Legal;
    if es[i].kind.CLOSE? {
      LegalIsTidy(es, row.origin);
      RowShowsLastEvent(es, row.origin);
      DecisionFollowsItsCompletion(es, row.origin, i);
      CompleteHasReport(es, row.origin, i - 1);
      TimesRise(es, i, |es| - 1);
      LegalMeansSane(es, row.origin);
      CompletionIsFound(cs, es[i].attempt);
    }
  }

  lemma {:induction false} FlowsAreCounted(row: Order, cs: seq<Completion>, es: seq<Event>, n: nat)
    requires Faithful(row, cs, es) && n <= |es| && row.attempt <= MAX_ATTEMPT
    ensures AllCounted(AllFlowSamples(es[..n], cs))
  {
    hide Faithful, FlowSamples, WaitSample;
    if n > 0 {
      assert es[..n][..n - 1] == es[..n - 1];
      FlowsAreCounted(row, cs, es, n - 1);
      FlowIsCounted(row, cs, es, n - 1);
    }
  }

  lemma {:induction false} WaitsAreCounted(row: Order, cs: seq<Completion>, es: seq<Event>, n: nat)
    requires Faithful(row, cs, es) && n <= |es| && row.attempt <= MAX_ATTEMPT
    ensures AllCounted(WaitSamples(es[..n], es, cs))
  {
    hide Faithful, FlowSamples, WaitSample;
    if n > 0 {
      assert es[..n][..n - 1] == es[..n - 1];
      WaitsAreCounted(row, cs, es, n - 1);
      if IsDecision(es[n - 1].kind) { WaitIsCounted(row, cs, es, n - 1); }
    }
  }

  lemma {:induction false} ExecutionsAreCounted(row: Order, cs: seq<Completion>, es: seq<Event>, some: seq<Completion>)
    requires Faithful(row, cs, es) && forall c :: c in some ==> c in cs
    ensures AllCounted(ExecutionSamples(some, es)) <==> (some == [] || row.attempt <= MAX_ATTEMPT)
  {
    if some != [] {
      var n := |some| - 1;
      ExecutionsAreCounted(row, cs, es, some[..n]);
      ExecutionIsCounted(row, cs, es, some[n]);
      var x := ExecutionSample(some[n], es);
      assert ExecutionSamples(some, es) == ExecutionSamples(some[..n], es) + [x];
      assert x in ExecutionSamples(some, es);
    }
  }

  lemma StateIsCounted(row: Order, cs: seq<Completion>, es: seq<Event>, now: Time)
    requires Faithful(row, cs, es)
    ensures AllCounted(StateSamples(row, es, now))
  {
    LegalIsTidy(es, row.origin);
    LogIsNumbered(es, row.origin);
    EventIsFound(es, row.revision, |es|);
    assert es[..|es|] == es;
  }

  /** A history the service wrote is wholly counted, exactly while its attempt number has at most nine digits. */
  lemma NothingIsExcluded(row: Order, cs: seq<Completion>, es: seq<Event>, now: Time)
    requires Faithful(row, cs, es)
    ensures AllCounted(Contributions(row, es, cs, now)) <==> row.attempt <= MAX_ATTEMPT
  {
    hide Legal, Rebuild, Reports, StateSamples, AllFlowSamples, AcceptSamples, ExecutionSamples, WaitSamples;
    LegalIsTidy(es, row.origin);
    OrderedAlready(es, 1);
    ContributionsByParts(row, es, cs, now);
    ExecutionsAreCounted(row, cs, es, cs);
    if row.attempt <= MAX_ATTEMPT {
      StateIsCounted(row, cs, es, now);
      FlowsAreCounted(row, cs, es, |es|);
      AcceptIsCounted(row, cs, es);
      WaitsAreCounted(row, cs, es, |es|);
      assert es[..|es|] == es;
    } else {
      LegalMeansSane(es, row.origin);
      assert cs != [];
    }
  }

  /** Of an ordered history the samples are counted when those of each part are. */
  lemma ContributionsByParts(row: Order, es: seq<Event>, cs: seq<Completion>, now: Time)
    requires Sorted(es, BySequence) == es
    ensures AllCounted(Contributions(row, es, cs, now)) <==>
              && AllCounted(StateSamples(row, es, now)) && AllCounted(AllFlowSamples(es, cs))
              && AllCounted(AcceptSamples(es)) && AllCounted(ExecutionSamples(cs, es))
              && AllCounted(WaitSamples(es, es, cs))
  {
    hide Sorted, StateSamples, AllFlowSamples, AcceptSamples, ExecutionSamples, WaitSamples;
    CountedTogether(StateSamples(row, es, now), AllFlowSamples(es, cs));
    CountedTogether(StateSamples(row, es, now) + AllFlowSamples(es, cs), AcceptSamples(es));
    CountedTogether(StateSamples(row, es, now) + AllFlowSamples(es, cs) + AcceptSamples(es), ExecutionSamples(cs, es));
    CountedTogether(
      StateSamples(row, es, now) + AllFlowSamples(es, cs) + AcceptSamples(es) + ExecutionSamples(cs, es),
      WaitSamples(es, es, cs));
  }

  lemma CountedTogether(xs: seq<Sample>, ys: seq<Sample>)
    ensures AllCounted(xs + ys) <==> AllCounted(xs) && AllCounted(ys)
  {
    assert forall x :: x in xs + ys <==> x in xs || x in ys;
  }

  /** No order of any reachable store is classified as missing or inconsistent. */
  lemma ReachableHistoriesAreCounted(steps: seq<Step>, id: OrderId, now: Time)
    requires Clocked(steps) && id in Run(steps).orders
    ensures var s := Run(steps);
            var samples := Contributions(s.orders[id], EventsOf(s.events, id), CompletionsOf(s.completions, id), now);
            AllCounted(samples) <==> s.orders[id].attempt <= MAX_ATTEMPT
  {
    RunsStayConsistent(steps);
    assert OwnLog(Run(steps), id);
    NothingIsExcluded(Run(steps).orders[id], CompletionsOf(Run(steps).completions, id),
                      EventsOf(Run(steps).events, id), now);
  }

  // Replayed time -------------------------------------------------------------------------------

  /** The log read as a clock: the event in force at instant `t`. */
  function InForce(es: seq<Event>, t: Time): Option<Event> {
    if es == [] then None
    else if es[|es| - 1].at <= t then Some(es[|es| - 1])
    else InForce(es[..|es| - 1], t)
  }

  /** At instant `t` the order is IN_PROGRESS in attempt `a`. */
  predicate WorkingAt(es: seq<Event>, a: int, t: Time) {
    InForce(es, t).Some? && InForce(es, t).value.to.InProgress? && InForce(es, t).value.attempt == a
  }

  /** The instants, from the first event up to event `i`, spent IN_PROGRESS in attempt `a`. */
  ghost function Instants(es: seq<Event>, a: int, i: nat): set<Time>
    requires i < |es|
  {
    set t: Time | es[0].at <= t < es[i].at && WorkingAt(es, a, t)
  }

  function Range(start: int, end: int): (r: set<int>)
    ensures forall t :: t in r <==> start <= t < end
    ensures |r| == (if start <= end then end - start else 0)
    decreases end - start
  {
    if start >= end then {} else Range(start, end - 1) + {end - 1}
  }

  lemma {:induction false} ForceBetween(es: seq<Event>, i: nat, t: Time)
    requires forall k :: 0 <= k < i < |es| ==> es[k].at <= es[i].at
    requires i < |es| && es[i].at <= t && forall k :: i < k < |es| ==> t < es[k].at
    ensures InForce(es, t) == Some(es[i])
  {
    if i < |es| - 1 {
      ForceBetween(es[..|es| - 1], i, t);
    }
  }

  lemma WorkingBetween(es: seq<Event>, a: int, i: nat, t: Time)
    requires Tidy(es) && i + 1 < |es| && es[i].at <= t < es[i + 1].at
    ensures WorkingAt(es, a, t) <==> es[i].to.InProgress? && es[i].attempt == a
  {
    forall k | 0 <= k < i ensures es[k].at <= es[i].at { TimesRise(es, k, i); }
    forall k | i < k < |es| ensures t < es[k].at { TimesRise(es, i + 1, k); }
    ForceBetween(es, i, t);
  }

  /** The instants up to the next event: those so far, and the whole interval if it is one of the attempt's. */
  lemma InstantsOfInterval(es: seq<Event>, a: int, i: nat)
    requires Tidy(es) && i + 1 < |es|
    ensures var interval := if es[i].to.InProgress? && es[i].attempt == a then Range(es[i].at, es[i + 1].at) else {};
            Instants(es, a, i + 1) == Instants(es, a, i) + interval && Instants(es, a, i) !! interval
  {
    TimesRise(es, i, i + 1);
    TimesRise(es, 0, i);
    forall t | es[i].at <= t < es[i + 1].at
      ensures WorkingAt(es, a, t) <==> es[i].to.InProgress? && es[i].attempt == a
    {
      WorkingBetween(es, a, i, t);
    }
  }

  /** The SQL sum over intervals is the number of instants the replayed order was at work. */
  lemma {:induction false} SecondsAreInstants(es: seq<Event>, a: int, i: nat)
    requires Tidy(es) && i < |es| && 1 <= a <= MAX_ATTEMPT
    ensures |Instants(es, a, i)| == var sum := Seconds(es, a, i); if sum.Some? then sum.value else 0
    decreases i
  {
    if i == 0 {
      assert Instants(es, a, 0) == {};
    } else {
      hide Instants;
      SecondsAreInstants(es, a, i - 1);
      TimesRise(es, i - 1, i);
      InstantsOfInterval(es, a, i - 1);
    }
  }

  /** The active execution time of a completion is the time its attempt spent IN_PROGRESS. */
  lemma ActiveTimeIsReplayedTime(row: Order, cs: seq<Completion>, es: seq<Event>, c: Completion)
    requires Faithful(row, cs, es) && c in cs && row.attempt <= MAX_ATTEMPT
    ensures ExecutionSample(c, es).duration == Some(|Instants(es, c.attempt, |es| - 1)|)
  {
    var n := |es| - 1;
    LegalIsTidy(es, row.origin);
    LegalMeansSane(es, row.origin);
    OneCompletePerReport(es, row.origin, c.attempt);
    FinishedAttemptHasSeconds(es, c.attempt);
    SecondsAreInstants(es, c.attempt, n);
    assert Seconds(es, c.attempt, |es|) == Seconds(es, c.attempt, n);
  }

  /** Rework decisions count the extra attempts, COMPLETE events the completions. */
  lemma {:induction false} ReworksAreExtraAttempts(es: seq<Event>, origin: Origin)
    requires Legal(es, origin)
    ensures Count(es, REQUEST_REWORK) + Count(es, REASSIGN_FOR_REWORK) == es[|es| - 1].attempt - 1
    ensures Count(es, COMPLETE) == |Reports(es)|
  {
    var n := |es| - 1;
    if n == 0 {
      LogOpensWithCreate(es, origin);
      assert es[..0] == [] && Reports([]) == [];
      assert forall k :: Count([], k) == 0;
    } else {
      ReworksAreExtraAttempts(es[..n], origin);
      NeighboursFit(es, origin, n);
      CompleteReportsNextAttempt(es, origin);
    }
  }

  /** An order is closed or cancelled at most once, and shows it. */
  lemma {:induction false} EndsOnce(es: seq<Event>, origin: Origin)
    requires Legal(es, origin)
    ensures Count(es, CLOSE) == (if es[|es| - 1].to.Closed? then 1 else 0)
    ensures Count(es, CANCEL) == (if es[|es| - 1].to.Cancelled? then 1 else 0)
  {
    var n := |es| - 1;
    if n == 0 {
      LogOpensWithCreate(es, origin);
      assert es[..0] == [];
      assert forall k :: Count([], k) == 0;
    } else {
      EndsOnce(es[..n], origin);
      NeighboursFit(es, origin, n);
    }
  }

  lemma {:induction false} AggregatesAppend(a: seq<Sample>, b: seq<Sample>, m: Metric)
    ensures Denominator(a + b, m) == Denominator(a, m) + Denominator(b, m)
    ensures Numerator(a + b, m) == Numerator(a, m) + Numerator(b, m)
  {
    if b == [] {
      assert a + b == a;
    } else {
      var n := |b| - 1;
      assert (a + b)[..|a + b| - 1] == a + b[..n];
      AggregatesAppend(a, b[..n], m);
    }
  }

  lemma AggregateOne(x: Sample, m: Metric)
    ensures Denominator([x], m) == (if x.metric == m then 1 else 0)
    ensures Numerator([x], m) == (if x.metric == m then x.contribution else 0)
  {
    assert [x][..0] == [];
  }

  lemma {:induction false} OthersDoNotCount(xs: seq<Sample>, m: Metric)
    requires forall x :: x in xs ==> x.metric != m
    ensures Denominator(xs, m) == 0 && Numerator(xs, m) == 0
  {
    if xs != [] { OthersDoNotCount(xs[..|xs| - 1], m); }
  }

  lemma LastTwoCount(head: seq<Sample>, x: Sample, y: Sample, m: Metric)
    requires forall z :: z in head ==> z.metric != m
    ensures Denominator(head + [x, y], m) == (if x.metric == m then 1 else 0) + (if y.metric == m then 1 else 0)
    ensures Numerator(head + [x, y], m)
            == (if x.metric == m then x.contribution else 0) + (if y.metric == m then y.contribution else 0)
  {
    OthersDoNotCount(head, m);
    AggregatesAppend(head, [x], m);
    AggregatesAppend(head + [x], [y], m);
    assert head + [x, y] == head + [x] + [y];
    AggregateOne(x, m);
    AggregateOne(y, m);
  }

  /** A verified success: what the first-pass rate looks for. */
  predicate Succeeds(e: Event, cs: seq<Completion>) {
    var c := FindCompletion(cs, Attempt(e));
    c.Some? && c.value.outcome.Success? && e.verdict == Some(Verified)
  }

  /** What a CLOSE adds to the rates. */
  lemma CloseAggregates(e: Event, cs: seq<Completion>)
    requires e.kind.CLOSE?
    ensures var xs := FlowSamples(e, cs);
            && Denominator(xs, ReworkDecisionRate) == 1 && Numerator(xs, ReworkDecisionRate) == 0
            && Denominator(xs, FirstPassVerifiedRate) == 1
            && Numerator(xs, FirstPassVerifiedRate) == (if Attempt(e) == Some(1) && Succeeds(e, cs) then 1 else 0)
  {
    var xs := FlowSamples(e, cs);
    var n := |xs|;
    assert xs == xs[..n - 2] + [xs[n - 2], xs[n - 1]];
    LastTwoCount(xs[..n - 2], xs[n - 2], xs[n - 1], ReworkDecisionRate);
    LastTwoCount(xs[..n - 2], xs[n - 2], xs[n - 1], FirstPassVerifiedRate);
  }

  lemma ReworkAggregates(e: Event, cs: seq<Completion>)
    ensures Denominator(FlowSamples(e, cs), ReworkDecisionRate) == (if IsDecision(e.kind) then 1 else 0)
    ensures Numerator(FlowSamples(e, cs), ReworkDecisionRate) == (if IsRework(e.kind) then 1 else 0)
  {
    var xs := FlowSamples(e, cs);
    if e.kind.CLOSE? {
      CloseAggregates(e, cs);
    } else if IsRework(e.kind) {
      AggregateOne(xs[0], ReworkDecisionRate);
    } else {
      OthersDoNotCount(xs, ReworkDecisionRate);
    }
  }

  lemma FlowAggregates(es: seq<Event>, cs: seq<Completion>, m: Metric)
    requires es != []
    ensures var n := |es| - 1;
            && Denominator(AllFlowSamples(es, cs), m)
               == Denominator(AllFlowSamples(es[..n], cs), m) + Denominator(FlowSamples(es[n], cs), m)
            && Numerator(AllFlowSamples(es, cs), m)
               == Numerator(AllFlowSamples(es[..n], cs), m) + Numerator(FlowSamples(es[n], cs), m)
  {
    AggregatesAppend(AllFlowSamples(es[..|es| - 1], cs), FlowSamples(es[|es| - 1], cs), m);
  }

  lemma {:induction false} ReworkRateCounts(es: seq<Event>, cs: seq<Completion>)
    ensures Numerator(AllFlowSamples(es, cs), ReworkDecisionRate) ==
              Count(es, REQUEST_REWORK) + Count(es, REASSIGN_FOR_REWORK)
    ensures Denominator(AllFlowSamples(es, cs), ReworkDecisionRate)
            == Count(es, REQUEST_REWORK) + Count(es, REASSIGN_FOR_REWORK) + Count(es, CLOSE)
  {
    if es != [] {
      ReworkRateCounts(es[..|es| - 1], cs);
      FlowAggregates(es, cs, ReworkDecisionRate);
      ReworkAggregates(es[|es| - 1], cs);
    }
  }

  /** The rework rate of an order: its extra attempts over all decisions taken on it. */
  lemma ReworkRateIsExact(row: Order, cs: seq<Completion>, es: seq<Event>)
    requires Faithful(row, cs, es)
    ensures var xs := AllFlowSamples(es, cs);
            && Numerator(xs, ReworkDecisionRate) == row.attempt - 1
            && Denominator(xs, ReworkDecisionRate) == row.attempt - 1 + (if row.status.Closed? then 1 else 0)
  {
    ReworkRateCounts(es, cs);
    RowShowsLastEvent(es, row.origin);
    ReworksAreExtraAttempts(es, row.origin);
    EndsOnce(es, row.origin);
  }

  lemma NoFirstPassSample(e: Event, cs: seq<Completion>)
    requires !e.kind.CLOSE?
    ensures forall x :: x in FlowSamples(e, cs) ==> !x.metric.FirstPassVerifiedRate?
  {
  }

  lemma {:induction false} NoCloseNoFirstPass(es: seq<Event>, cs: seq<Completion>)
    requires Count(es, CLOSE) == 0
    ensures Denominator(AllFlowSamples(es, cs), FirstPassVerifiedRate) == 0
    ensures Numerator(AllFlowSamples(es, cs), FirstPassVerifiedRate) == 0
  {
    if es != [] {
      hide FlowSamples, AllFlowSamples;
      NoCloseNoFirstPass(es[..|es| - 1], cs);
      NoFirstPassSample(es[|es| - 1], cs);
      OthersDoNotCount(FlowSamples(es[|es| - 1], cs), FirstPassVerifiedRate);
      FlowAggregates(es, cs, FirstPassVerifiedRate);
    }
  }

  /**
   An order counts once for the first-pass rate when closed, and in its favour exactly when its
   first attempt succeeded.
   */
  lemma FirstPassIsExact(row: Order, cs: seq<Completion>, es: seq<Event>)
    requires Faithful(row, cs, es) && row.attempt <= MAX_ATTEMPT
    ensures var xs := AllFlowSamples(es, cs);
            && Denominator(xs, FirstPassVerifiedRate) == (if row.status.Closed? then 1 else 0)
            && (Numerator(xs, FirstPassVerifiedRate) == 1
                <==> row.status.Closed? && row.attempt == 1 && LastOf(cs).Some? && LastOf(cs).value.outcome.Success?)
  {
    var n := |es| - 1;
    RowShowsLastEvent(es, row.origin);
    EndsOnce(es, row.origin);
    if row.status.Closed? {
      LogOpensWithCreate(es, row.origin);
      ArrivedByOwnKind(es, row.origin, n);
      NeighboursFit(es, row.origin, n);
      EndsOnce(es[..n], row.origin);
      NoCloseNoFirstPass(es[..n], cs);
      CloseAggregates(es[n], cs);
      FlowAggregates(es, cs, FirstPassVerifiedRate);
      FirstPassVerdict(row, cs, es);
    } else {
      NoCloseNoFirstPass(es, cs);
    }
  }

  /** The closing verdict says VERIFIED exactly when the last report was not STOPPED. */
  lemma FirstPassVerdict(row: Order, cs: seq<Completion>, es: seq<Event>)
    requires Faithful(row, cs, es) && row.attempt <= MAX_ATTEMPT && es[|es| - 1].kind.CLOSE?
    ensures cs != [] && (Succeeds(es[|es| - 1], cs) <==> cs[|cs| - 1].outcome.Success?)
    ensures |cs| == row.attempt == es[|es| - 1].attempt && Attempt(es[|es| - 1]) == Some(row.attempt)
  {
    var n := |es| - 1;
    RowShowsLastEvent(es, row.origin);
    LegalIsTidy(es, row.origin);
    LegalMeansSane(es, row.origin);
    CompletionIsFound(cs, row.attempt);
    DecisionFollowsItsCompletion(es, row.origin, n);
    CompleteHasReport(es, row.origin, n - 1);
    ArrivedByOwnKind(es, row.origin, n);
  }
}
