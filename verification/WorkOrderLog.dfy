/**
 The event log of one order as the single source of truth: the row and the completions are
 functions of it, and the policy decides which events may follow which.
 */
module WorkOrderLog {
  import opened Collections
  import opened WorkOrderPolicy
  import opened WorkOrders

  /** The row an event leaves behind. */
  function RowAfter(row: Order, e: Event): Order {
    row.(
      status := e.to, revision := e.sequence, attempt := e.attempt, assignee := e.assignee, updatedAt := e.at,
      blocker := if e.to.Blocked? then e.reason else None,
      startedAt := if e.kind.START? && row.startedAt.None? then Some(e.at) else row.startedAt,
      completedAt := if e.to.Completed? then Some(e.at) else if e.to.Closed? then row.completedAt else None,
      verification :=
        if e.kind.CLOSE? && e.verdict.Some? then Some(Verification(e.verdict.value, e.actor, e.at)) else None,
      cancelReason := if e.to.Cancelled? then e.reason else None,
      cancelledAt := if e.to.Cancelled? then Some(e.at) else None)
  }

  /** The row rebuilt from its log. */
  function Rebuild(es: seq<Event>, origin: Origin): Order
    requires es != []
  {
    if |es| == 1 then NewOrder(es[0].orderId, origin, es[0].at)
    else RowAfter(Rebuild(es[..|es| - 1], origin), es[|es| - 1])
  }

  function ReportOf(e: Event): seq<Completion> {
    if e.kind.COMPLETE? && e.outcome.Some?
      then [Completion(e.orderId, e.attempt, e.actor, e.at, e.outcome.value)] else []
  }

  /** The completions rebuilt from the log: one per COMPLETE. */
  function Reports(es: seq<Event>): seq<Completion> {
    if es == [] then [] else Reports(es[..|es| - 1]) + ReportOf(es[|es| - 1])
  }

  function LastOf(cs: seq<Completion>): Option<Completion> {
    if cs == [] then None else Some(cs[|cs| - 1])
  }

  /** The policy's answer to: may `e` be the next event after `row`, whose last completion is `latest`? */
  predicate Permits(row: Order, latest: Option<Completion>, e: Event) {
    && e.orderId == row.id
    && e.sequence == row.revision + 1
    && e.at >= row.updatedAt
    && e.from == Some(row.status)
    && row.status in Sources(e.kind)
    && e.to == Destination(e.kind)
    && e.attempt == (if IsRework(e.kind) then row.attempt + 1 else row.attempt)
    && (e.kind.ASSIGN? || e.kind.REASSIGN? || e.kind.REASSIGN_FOR_REWORK? || e.assignee == row.assignee)
    && (e.kind.ASSIGN? ==> e.assignee.Some?)
    && (e.kind.REASSIGN? || e.kind.REASSIGN_FOR_REWORK? ==> e.assignee.Some? && e.assignee != row.assignee)
    && (IsExecution(e.kind) ==> row.assignee == Some(e.actor))
    && (e.kind.CANCEL? ==> row.startedAt.None?)
    && (e.to.Blocked? || e.kind.CANCEL? ==> e.reason.Some?)
    && (e.kind.COMPLETE? <==> e.outcome.Some?)
    && (e.kind.CLOSE? <==> e.verdict.Some?)
    && (IsDecision(e.kind) && latest.Some? ==> latest.value.actor != e.actor)
    && (e.kind.CLOSE? ==> (e.verdict.value.VerifiedStopped? <==> latest.Some? && latest.value.outcome.Stopped?))
  }

  predicate Opening(e: Event) {
    e.sequence == 1 && e.kind.CREATE? && e.from.None? && e.to.Unassigned? && e.attempt == 1
    && e.assignee.None? && e.outcome.None? && e.verdict.None?
  }

  /** A log the policy allows from its first event to its last. */
  predicate Legal(es: seq<Event>, origin: Origin) {
    if |es| == 0 then false
    else if |es| == 1 then Opening(es[0])
    else
      var n := |es| - 1;
      Legal(es[..n], origin) && Permits(Rebuild(es[..n], origin), LastOf(Reports(es[..n])), es[n])
  }

  /** Row and completions agree with a legal log. */
  ghost predicate Faithful(row: Order, cs: seq<Completion>, es: seq<Event>) {
    Legal(es, row.origin) && row == Rebuild(es, row.origin) && cs == Reports(es)
  }

  /** The invariant that makes a row and its completions consistent. */
  predicate Sane(row: Order, cs: seq<Completion>) {
    && row.attempt >= 1
    && |cs| == (if row.status.Completed? || row.status.Closed? then row.attempt else row.attempt - 1)
    && (forall k :: 0 <= k < |cs| ==> cs[k].attempt == k + 1 && cs[k].orderId == row.id && cs[k].at <= row.updatedAt)
    && (row.status.Completed? ==> cs[|cs| - 1].at == row.updatedAt)
    && Constrained(row)
  }

  /** The CHECK constraints of the work-order table, and what else a row of each status carries. */
  predicate Constrained(row: Order) {
    && row.revision > 0 && row.attempt > 0
    && row.updatedAt >= row.createdAt
    && (!row.status.Unassigned? && !row.status.Cancelled? ==> row.assignee.Some?)
    && (row.status.InProgress? || row.status.Blocked? || row.status.Completed? || row.status.Closed? ==>
          row.startedAt.Some?)
    && ((row.status.Completed? || row.status.Closed?) <==> row.completedAt.Some?)
    && (row.startedAt.Some? && row.completedAt.Some? ==> row.completedAt.value >= row.startedAt.value)
    && (row.startedAt.Some? ==> row.createdAt <= row.startedAt.value <= row.updatedAt)
    && (row.status.Blocked? <==> row.blocker.Some?)
    && (row.status.Closed? <==> row.verification.Some?)
    && (row.status.Cancelled? <==> row.cancelReason.Some? && row.cancelledAt.Some?)
    && (row.status.Cancelled? ==> row.startedAt.None?)
    && (row.status.Unassigned? ==> row.startedAt.None? && row.assignee.None?)
    && (row.attempt > 1 ==> row.startedAt.Some?)
    && (!row.status.Cancelled? ==> row.cancelReason.None? && row.cancelledAt.None?)
  }

  lemma StepStaysConstrained(row: Order, latest: Option<Completion>, e: Event)
    requires Constrained(row) && Permits(row, latest, e)
    ensures Constrained(RowAfter(row, e))
  {
  }

  lemma StepStaysSane(row: Order, cs: seq<Completion>, e: Event)
    requires Sane(row, cs) && Permits(row, LastOf(cs), e)
    ensures Sane(RowAfter(row, e), cs + ReportOf(e))
  {
    StepStaysConstrained(row, LastOf(cs), e);
  }

  /** Every legal log leaves a consistent row. */
  lemma {:induction false} LegalMeansSane(es: seq<Event>, origin: Origin)
    requires Legal(es, origin)
    ensures Sane(Rebuild(es, origin), Reports(es))
  {
    var n := |es| - 1;
    if n == 0 {
      assert Reports(es[..0]) == [];
    } else {
      LegalMeansSane(es[..n], origin);
      StepStaysSane(Rebuild(es[..n], origin), Reports(es[..n]), es[n]);
    }
  }

  lemma RecoveryIsPermitted(
    row: Order, latest: Option<Completion>, user: User, c: Command, at: Time, eligible: Option<UserId>)
    requires (c.ManagerHold? || c.ReassignForRework?) && Constrained(row) && at >= row.updatedAt
    requires Recover(row, latest, user, c, at, eligible).Granted?
    ensures var next := Recover(row, latest, user, c, at, eligible).value;
            && Permits(row, latest, Recorded(next, row, user.id, c, at))
            && next == RowAfter(row, Recorded(next, row, user.id, c, at))
  {
  }

  lemma TransitionIsPermitted(row: Order, latest: Option<Completion>, user: User, c: Command, at: Time)
    requires !c.ManagerHold? && !c.ReassignForRework? && Constrained(row) && at >= row.updatedAt
    requires Transition(row, latest, user, c, at).Granted?
    ensures var next := Transition(row, latest, user, c, at).value;
            && Permits(row, latest, Recorded(next, row, user.id, c, at))
            && next == RowAfter(row, Recorded(next, row, user.id, c, at))
  {
  }

  /** A granted command is one the policy permits, and its patch is the effect of the recorded event. */
  lemma GrantedIsPermitted(
    row: Order, latest: Option<Completion>, directory: Directory, user: User, c: Command, at: Time)
    requires Constrained(row) && at >= row.updatedAt
    requires Decide(row, latest, directory, user, c, at).Granted?
    ensures var next := Decide(row, latest, directory, user, c, at).value;
            && Permits(row, latest, Recorded(next, row, user.id, c, at))
            && next == RowAfter(row, Recorded(next, row, user.id, c, at))
  {
    if c.ManagerHold? || c.ReassignForRework? {
      RecoveryIsPermitted(row, latest, user, c, at, c.Target());
    } else {
      TransitionIsPermitted(row, latest, user, c, at);
    }
    hide Recover, Transition, Permits, RowAfter, Constrained;
  }

  /** The status moves the trigger knows. */
  predicate MayFollow(from: Status, to: Status) {
    match from
    case Unassigned => to.Assigned? || to.Cancelled?
    case Assigned => to.Assigned? || to.Accepted? || to.Cancelled?
    case Accepted => to.Assigned? || to.InProgress? || to.Cancelled?
    case InProgress => to.Blocked? || to.Completed?
    case Blocked => to.Assigned? || to.InProgress?
    case Completed => to.InProgress? || to.Assigned? || to.Closed?
    case _ => false
  }

  /** The row's BEFORE UPDATE trigger lets the write through. */
  predicate UpdateAllowed(old_: Order, new_: Order) {
    && new_.id == old_.id && new_.origin == old_.origin && new_.createdAt == old_.createdAt
    && new_.revision == old_.revision + 1
    && !old_.status.Closed? && !old_.status.Cancelled?
    && (old_.startedAt.Some? ==> new_.startedAt == old_.startedAt)
    && new_.attempt == old_.attempt
                       + (if old_.status.Completed? && (new_.status.InProgress? || new_.status.Assigned?) then 1 else 0)
    && MayFollow(old_.status, new_.status)
  }

  lemma PermittedUpdateIsAllowed(row: Order, latest: Option<Completion>, e: Event)
    requires Permits(row, latest, e)
    ensures UpdateAllowed(row, RowAfter(row, e))
  {
  }

  lemma {:induction false} LatestIsLast(cs: seq<Completion>)
    requires forall k :: 0 <= k < |cs| ==> cs[k].attempt == k + 1
    ensures Latest(cs) == LastOf(cs)
  {
    if cs != [] {
      LatestIsLast(cs[..|cs| - 1]);
    }
  }

  // Prefixes of a log ---------------------------------------------------------------------------

  lemma {:induction false} PrefixIsLegal(es: seq<Event>, origin: Origin, n: nat)
    requires Legal(es, origin) && 1 <= n <= |es|
    ensures Legal(es[..n], origin)
  {
    if n == |es| {
      assert es[..n] == es;
    } else {
      PrefixIsLegal(es[..|es| - 1], origin, n);
      assert es[..|es| - 1][..n] == es[..n];
    }
  }

  /** Event `i` was permitted by the row before it. */
  lemma EventWasPermitted(es: seq<Event>, origin: Origin, i: nat)
    requires Legal(es, origin) && 1 <= i < |es|
    ensures Legal(es[..i], origin)
    ensures Permits(Rebuild(es[..i], origin), LastOf(Reports(es[..i])), es[i])
  {
    hide Permits, Rebuild, Reports;
    PrefixIsLegal(es, origin, i + 1);
    assert es[..i + 1][..i] == es[..i];
  }

  lemma RowShowsLastEvent(es: seq<Event>, origin: Origin)
    requires Legal(es, origin)
    ensures var row, e := Rebuild(es, origin), es[|es| - 1];
            row.status == e.to && row.revision == e.sequence && row.attempt == e.attempt && row.updatedAt == e.at
            && row.assignee == e.assignee && row.id == es[0].orderId && row.createdAt == es[0].at
    decreases |es|
  {
    if |es| > 1 {
      RowShowsLastEvent(es[..|es| - 1], origin);
    }
  }

  /** One event to the next: numbered without gap, in time order, from the status the last one left. */
  lemma NeighboursFit(es: seq<Event>, origin: Origin, i: nat)
    requires Legal(es, origin) && 1 <= i < |es|
    ensures var e, f := es[i - 1], es[i];
            && f.sequence == e.sequence + 1 && f.at >= e.at && f.orderId == e.orderId
            && e.to in Sources(f.kind) && f.to == Destination(f.kind)
            && f.attempt == (if IsRework(f.kind) then e.attempt + 1 else e.attempt)
  {
    hide Legal;
    EventWasPermitted(es, origin, i);
    RowShowsLastEvent(es[..i], origin);
    if i >= 2 {
      IdStays(es[..i], origin);
    }
  }

  lemma {:induction false} IdStays(es: seq<Event>, origin: Origin)
    requires Legal(es, origin)
    ensures es[|es| - 1].orderId == Rebuild(es, origin).id
  {
    if |es| > 1 {
      IdStays(es[..|es| - 1], origin);
    }
  }

  lemma {:induction false} LogIsNumbered(es: seq<Event>, origin: Origin)
    requires Legal(es, origin)
    ensures forall k :: 0 <= k < |es| ==> es[k].sequence == k + 1
    ensures Rebuild(es, origin).revision == |es|
  {
    var n := |es| - 1;
    RowShowsLastEvent(es, origin);
    if n > 0 {
      LogIsNumbered(es[..n], origin);
      assert forall k :: 0 <= k < n ==> es[k] == es[..n][k];
    }
  }

  /** Every event leads where its kind leads. */
  lemma ArrivedByOwnKind(es: seq<Event>, origin: Origin, i: nat)
    requires Legal(es, origin) && i < |es|
    ensures es[i].to == Destination(es[i].kind)
  {
    if i == 0 {
      PrefixIsLegal(es, origin, 1);
    } else {
      EventWasPermitted(es, origin, i);
    }
  }

  /** The last report of a log that ends in COMPLETE is that event's. */
  lemma LastReport(es: seq<Event>, origin: Origin)
    requires Legal(es, origin) && es[|es| - 1].kind.COMPLETE?
    ensures var e := es[|es| - 1];
            ReportOf(e) != [] && LastOf(Reports(es)) == Some(ReportOf(e)[0])
  {
  }

  lemma LogOpensWithCreate(es: seq<Event>, origin: Origin)
    requires Legal(es, origin)
    ensures Opening(es[0])
  {
    PrefixIsLegal(es, origin, 1);
  }

  /** The judge of a completion is not its reporter, and the verdict fits the reported outcome. */
  lemma JudgeIsIndependent(es: seq<Event>, origin: Origin, i: nat)
    requires Legal(es, origin) && 1 <= i < |es| && IsDecision(es[i].kind) && es[i - 1].kind.COMPLETE?
    ensures es[i].actor != es[i - 1].actor
    ensures es[i].kind.CLOSE? ==> (es[i].verdict == Some(VerifiedStopped) <==> es[i - 1].outcome == Some(Stopped))
  {
    EventWasPermitted(es, origin, i);
    assert es[..i][i - 1] == es[i - 1];
    LastReport(es[..i], origin);
  }

  /** A decision comes straight after the completion it judges, by another person, at the same attempt. */
  lemma DecisionFollowsItsCompletion(es: seq<Event>, origin: Origin, i: nat)
    requires Legal(es, origin) && i < |es| && IsDecision(es[i].kind)
    ensures i >= 1
    ensures var e, f := es[i - 1], es[i];
            && e.kind.COMPLETE? && f.sequence == e.sequence + 1 && f.at >= e.at
            && f.actor != e.actor
            && f.attempt == (if f.kind.CLOSE? then e.attempt else e.attempt + 1)
            && (f.kind.CLOSE? ==> (f.verdict == Some(VerifiedStopped) <==> e.outcome == Some(Stopped)))
  {
    LogOpensWithCreate(es, origin);
    NeighboursFit(es, origin, i);
    ArrivedByOwnKind(es, origin, i - 1);
    JudgeIsIndependent(es, origin, i);
  }

  /** Once set, the actual start is the time of a START event and never changes. */
  lemma {:induction false} StartNeverChanges(es: seq<Event>, origin: Origin, n: nat)
    requires Legal(es, origin) && 1 <= n <= |es|
    requires Rebuild(es[..n], origin).startedAt.Some?
    ensures Rebuild(es, origin).startedAt == Rebuild(es[..n], origin).startedAt
  {
    if n == |es| {
      assert es[..n] == es;
    } else {
      assert es[..|es| - 1][..n] == es[..n];
      StartNeverChanges(es[..|es| - 1], origin, n);
    }
  }

  lemma {:induction false} StartedExactlyWithStart(es: seq<Event>, origin: Origin)
    requires Legal(es, origin)
    ensures Rebuild(es, origin).startedAt.Some? <==> exists k :: 0 <= k < |es| && es[k].kind.START?
  {
    var n := |es| - 1;
    if n > 0 {
      StartedExactlyWithStart(es[..n], origin);
      assert forall k :: 0 <= k < n ==> es[k] == es[..n][k];
    }
  }

  lemma RunningMeansStarted(es: seq<Event>, origin: Origin, k: nat)
    requires Legal(es, origin) && k < |es| && es[k].to.InProgress?
    ensures Rebuild(es, origin).startedAt.Some?
  {
    PrefixIsLegal(es, origin, k + 1);
    LegalMeansSane(es[..k + 1], origin);
    RowShowsLastEvent(es[..k + 1], origin);
    StartNeverChanges(es, origin, k + 1);
  }

  /** A cancelled order never ran. */
  lemma CancelledNeverStarted(es: seq<Event>, origin: Origin)
    requires Legal(es, origin) && Rebuild(es, origin).status.Cancelled?
    ensures forall k :: 0 <= k < |es| ==> !es[k].kind.START? && !es[k].to.InProgress?
  {
    LegalMeansSane(es, origin);
    StartedExactlyWithStart(es, origin);
    forall k | 0 <= k < |es| ensures !es[k].to.InProgress? {
      if es[k].to.InProgress? {
        RunningMeansStarted(es, origin, k);
      }
    }
  }
}
