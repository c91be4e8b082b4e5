/** Every run of the service, from the empty store, under a clock that does not run backwards. */
module WorkOrderRuns {
  import opened Collections
  import opened WorkOrderPolicy
  import opened WorkOrders
  import opened WorkOrderLog

  /** One transaction; directories may differ freely from step to step. */
  datatype Step =
    | CreateStep(
        directory: Directory, identity: UserId, operations: Operations, draft: Draft, id: OrderId, key: Key, at: Time)
    | CommandStep(
        directory: Directory, identity: UserId, id: OrderId, command: Command, expected: int, key: Key, at: Time)

  function Next(s: Store, step: Step): (Store, Reply) {
    match step
    case CreateStep(directory, identity, operations, draft, id, key, at) =>
      CreatedIn(s, directory, identity, operations, draft, id, key, at)
    case CommandStep(directory, identity, id, command, expected, key, at) =>
      Commanded(s, directory, identity, id, command, expected, key, at)
  }

  function Run(steps: seq<Step>): Store {
    if steps == [] then Store(map[], [], [], map[])
    else Next(Run(steps[..|steps| - 1]), steps[|steps| - 1]).0
  }

  /** The step's clock reading is not before the last one, and a new order's identifier is fresh. */
  ghost predicate Follows(steps: seq<Step>, step: Step) {
    && (steps != [] ==> steps[|steps| - 1].at <= step.at)
    && (step.CreateStep? ==> step.id !in Run(steps).orders)
  }

  ghost predicate Clocked(steps: seq<Step>) {
    steps != [] ==> var n := |steps| - 1; Clocked(steps[..n]) && Follows(steps[..n], steps[n])
  }

  ghost predicate OwnLog(s: Store, id: OrderId)
    requires id in s.orders
  {
    s.orders[id].id == id && Faithful(s.orders[id], CompletionsOf(s.completions, id), EventsOf(s.events, id))
  }

  /** Every order's row and completions are functions of its legal log; no event or completion is unowned. */
  ghost predicate Consistent(s: Store) {
    && (forall id :: id in s.orders ==> OwnLog(s, id))
    && (forall e :: e in s.events ==> e.orderId in s.orders)
    && (forall c :: c in s.completions ==> c.orderId in s.orders)
  }

  ghost predicate NotAfter(s: Store, now: Time) {
    forall id :: id in s.orders ==> s.orders[id].updatedAt <= now
  }

  lemma OneMoreEvent(events: seq<Event>, e: Event, id: OrderId)
    ensures e.orderId == id ==> EventsOf(events + [e], id) == EventsOf(events, id) + [e]
    ensures e.orderId != id ==> EventsOf(events + [e], id) == EventsOf(events, id)
  {
    assert (events + [e])[..|events|] == events;
  }

  lemma OneMoreReport(completions: seq<Completion>, e: Event, id: OrderId)
    ensures e.orderId == id ==>
              CompletionsOf(completions + ReportOf(e), id) == CompletionsOf(completions, id) + ReportOf(e)
    ensures e.orderId != id ==> CompletionsOf(completions + ReportOf(e), id) == CompletionsOf(completions, id)
  {
    if ReportOf(e) == [] {
      assert completions + ReportOf(e) == completions;
    } else {
      assert (completions + ReportOf(e))[..|completions|] == completions;
    }
  }

  /** A permitted event, its row and its report extend a faithful history to a faithful history. */
  lemma FaithfulStep(row: Order, cs: seq<Completion>, es: seq<Event>, e: Event)
    requires Faithful(row, cs, es) && Permits(row, LastOf(cs), e)
    ensures Faithful(RowAfter(row, e), cs + ReportOf(e), es + [e])
  {
    assert (es + [e])[..|es|] == es;
  }

  lemma FaithfulIsSane(row: Order, cs: seq<Completion>, es: seq<Event>)
    requires Faithful(row, cs, es)
    ensures Sane(row, cs) && Latest(cs) == LastOf(cs)
  {
    LegalMeansSane(es, row.origin);
    LatestIsLast(cs);
  }

  /** What one event does to the store: its row, its log entry, its report. */
  ghost predicate Extends(s: Store, t: Store, id: OrderId, e: Event)
    requires id in s.orders
  {
    && t.orders == s.orders[id := RowAfter(s.orders[id], e)]
    && t.events == s.events + [e]
    && t.completions == s.completions + ReportOf(e)
  }

  /** A command changes nothing, or extends the store by one event its row permits. */
  lemma CommandEffect(s: Store, step: Step) returns (e: Event)
    requires step.CommandStep?
    requires step.id in s.orders ==> OwnLog(s, step.id) && s.orders[step.id].updatedAt <= step.at
    ensures Next(s, step).0 == s || (
              && step.id in s.orders && e.orderId == step.id && e.at == step.at
              && Permits(s.orders[step.id], LastOf(CompletionsOf(s.completions, step.id)), e)
              && Extends(s, Next(s, step).0, step.id, e))
  {
    hide Next, Decide, RowAfter, Permits, Sane, EventsOf, CompletionsOf, Constrained, Legal, Rebuild, Reports;
    hide ReportOf, Report;
    var t := Next(s, step).0;
    if t != s {
      var user, next := CommandWrites(s, step);
      var row, cs := s.orders[step.id], CompletionsOf(s.completions, step.id);
      FaithfulIsSane(row, cs, EventsOf(s.events, step.id));
      SaneIsConstrained(row, cs);
      GrantedIsPermitted(row, LastOf(cs), step.directory, user, step.command, step.at);
      e := Recorded(next, row, step.identity, step.command, step.at);
      ReportIsRecorded(next, row, LastOf(cs), step);
    } else {
      e :| true;
    }
  }

  lemma SaneIsConstrained(row: Order, cs: seq<Completion>)
    requires Sane(row, cs)
    ensures Constrained(row)
  {
  }

  /** A command that changes the store was decided for, and wrote the row decided on. */
  lemma CommandWrites(s: Store, step: Step) returns (user: User, next: Order)
    requires step.CommandStep? && Next(s, step).0 != s
    ensures step.id in s.orders && user.id == step.identity
    ensures Decide(s.orders[step.id], Latest(CompletionsOf(s.completions, step.id)), step.directory, user,
                   step.command, step.at) == Granted(next)
    ensures var t, row := Next(s, step).0, s.orders[step.id];
            && t.orders == s.orders[step.id := next]
            && t.completions == s.completions + Report(step.id, row, step.identity, step.command, step.at)
            && t.events == s.events + [Recorded(next, row, step.identity, step.command, step.at)]
  {
    hide Decide, Replay, RoleProblem, CompletionsOf, Latest;
    user := Authorize(step.directory, step.identity).value;
    next := Decide(s.orders[step.id], Latest(CompletionsOf(s.completions, step.id)), step.directory, user, step.command,
                   step.at).value;
  }

  lemma ReportIsRecorded(next: Order, row: Order, latest: Option<Completion>, step: Step)
    requires step.CommandStep? && row.id == step.id
    requires Permits(row, latest, Recorded(next, row, step.identity, step.command, step.at))
    ensures next.id == step.id
    ensures ReportOf(Recorded(next, row, step.identity, step.command, step.at)) ==
              Report(step.id, row, step.identity, step.command, step.at)
  {
  }

  lemma OwnLogAfter(s: Store, t: Store, id: OrderId, e: Event, other: OrderId)
    requires id in s.orders && e.orderId == id && Extends(s, t, id, e)
    requires other in s.orders && OwnLog(s, other)
    requires other == id ==> Permits(s.orders[id], LastOf(CompletionsOf(s.completions, id)), e)
    ensures OwnLog(t, other)
  {
    OneMoreEvent(s.events, e, other);
    OneMoreReport(s.completions, e, other);
    if other == id {
      FaithfulStep(s.orders[id], CompletionsOf(s.completions, id), EventsOf(s.events, id), e);
    }
  }

  lemma CommandStaysConsistent(s: Store, step: Step)
    requires Consistent(s) && step.CommandStep? && NotAfter(s, step.at)
    ensures Consistent(Next(s, step).0) && NotAfter(Next(s, step).0, step.at)
  {
    hide Next, OwnLog, Permits;
    var e := CommandEffect(s, step);
    var t := Next(s, step).0;
    if t != s {
      forall id | id in t.orders ensures OwnLog(t, id) {
        OwnLogAfter(s, t, step.id, e, id);
      }
    }
  }

  lemma Inhabited<T>(xs: seq<T>)
    requires xs != []
    ensures exists x :: x in xs
  {
    assert xs[0] in xs;
  }

  lemma NoRows(s: Store, id: OrderId)
    requires Consistent(s) && id !in s.orders
    ensures EventsOf(s.events, id) == [] && CompletionsOf(s.completions, id) == []
  {
    var es, cs := EventsOf(s.events, id), CompletionsOf(s.completions, id);
    if es != [] { Inhabited(es); }
    if cs != [] { Inhabited(cs); }
  }

  lemma OpeningIsFaithful(row: Order, actor: UserId)
    requires row == NewOrder(row.id, row.origin, row.createdAt)
    ensures Faithful(row, [], [Created(row, actor, row.createdAt)])
  {
    var es := [Created(row, actor, row.createdAt)];
    assert es[..0] == [] && Reports([]) == [];
  }

  lemma OwnLogAfterCreation(s: Store, t: Store, row: Order, actor: UserId, id: OrderId)
    requires row == NewOrder(row.id, row.origin, row.createdAt) && row.id !in s.orders && Consistent(s)
    requires t.orders == s.orders[row.id := row] && t.completions == s.completions
    requires t.events == s.events + [Created(row, actor, row.createdAt)]
    requires id in t.orders
    ensures OwnLog(t, id)
  {
    OneMoreEvent(s.events, Created(row, actor, row.createdAt), id);
    if id == row.id {
      NoRows(s, id);
      assert EventsOf(t.events, id) == [Created(row, actor, row.createdAt)];
      OpeningIsFaithful(row, actor);
    } else {
      assert OwnLog(s, id);
      assert EventsOf(t.events, id) == EventsOf(s.events, id);
    }
  }

  /** A creation changes nothing, or adds one fresh row with its event. */
  lemma CreationEffect(s: Store, step: Step) returns (row: Order)
    requires step.CreateStep?
    ensures Next(s, step).0 == s || (
              && OriginOf(step.operations, step.draft).Granted?
              && row == NewOrder(step.id, OriginOf(step.operations, step.draft).value, step.at)
              && Next(s, step).0.orders == s.orders[step.id := row] && Next(s, step).0.completions == s.completions
              && Next(s, step).0.events == s.events + [Created(row, step.identity, step.at)])
  {
    hide OriginProblem, OriginOf;
    var origin := OriginOf(step.operations, step.draft);
    row := NewOrder(step.id, if origin.Granted? then origin.value else Origin(0, 0, 0, 0, 0, 0, 0, 0), step.at);
  }

  lemma CreationStaysConsistent(s: Store, step: Step)
    requires Consistent(s) && step.CreateStep? && step.id !in s.orders && NotAfter(s, step.at)
    ensures Consistent(Next(s, step).0) && NotAfter(Next(s, step).0, step.at)
  {
    hide Next, OriginOf, OwnLog;
    var t := Next(s, step).0;
    var row := CreationEffect(s, step);
    if t != s {
      forall id | id in t.orders ensures OwnLog(t, id) {
        OwnLogAfterCreation(s, t, row, step.identity, id);
      }
    }
  }

  /** In every reachable store each row and its completions are exactly what its legal log says. */
  lemma {:induction false} RunsStayConsistent(steps: seq<Step>)
    requires Clocked(steps)
    ensures Consistent(Run(steps))
    ensures steps != [] ==> NotAfter(Run(steps), steps[|steps| - 1].at)
  {
    if steps != [] {
      var n := |steps| - 1;
      RunsStayConsistent(steps[..n]);
      if n == 0 {
        assert Run(steps[..n]) == Store(map[], [], [], map[]);
      }
      assert NotAfter(Run(steps[..n]), steps[n].at);
      if steps[n].CreateStep? {
        CreationStaysConsistent(Run(steps[..n]), steps[n]);
      } else {
        CommandStaysConsistent(Run(steps[..n]), steps[n]);
      }
    }
  }

  /** The counting law of completions, and the other laws every reachable row obeys. */
  lemma ReachableRowsAreSane(steps: seq<Step>, id: OrderId)
    requires Clocked(steps) && id in Run(steps).orders
    ensures Sane(Run(steps).orders[id], CompletionsOf(Run(steps).completions, id))
  {
    RunsStayConsistent(steps);
    assert OwnLog(Run(steps), id);
    FaithfulIsSane(Run(steps).orders[id], CompletionsOf(Run(steps).completions, id), EventsOf(Run(steps).events, id));
  }

  /**
   A reachable command passes the triggers: its update is allowed, its event carries the next
   sequence and the new status.
   */
  lemma TriggersNeverFire(steps: seq<Step>, step: Step)
    requires Clocked(steps + [step]) && step.CommandStep?
    ensures var s, t := Run(steps), Run(steps + [step]);
            t == s || (
              && step.id in s.orders && UpdateAllowed(s.orders[step.id], t.orders[step.id])
              && var es, fs := EventsOf(s.events, step.id), EventsOf(t.events, step.id);
                 |fs| == |es| + 1 && fs[|es|].sequence == |es| + 1 == t.orders[step.id].revision
                 && fs[|es|].to == t.orders[step.id].status)
  {
    assert (steps + [step])[..|steps|] == steps;
    RunsStayConsistent(steps);
    var s := Run(steps);
    if step.id in s.orders {
      assert OwnLog(s, step.id);
      LogIsNumbered(EventsOf(s.events, step.id), s.orders[step.id].origin);
    }
    var e := CommandEffect(s, step);
    if Run(steps + [step]) != s {
      PermittedUpdateIsAllowed(s.orders[step.id], LastOf(CompletionsOf(s.completions, step.id)), e);
      OneMoreEvent(s.events, e, step.id);
    }
  }

  // Receipts ------------------------------------------------------------------------------------

  lemma ReceiptsAreImmutable(s: Store, step: Step)
    ensures forall k :: k in s.receipts ==>
              k in Next(s, step).0.receipts && Next(s, step).0.receipts[k] == s.receipts[k]
  {
  }

  function Continue(s: Store, steps: seq<Step>): Store
    decreases |steps|
  {
    if steps == [] then s else Continue(Next(s, steps[0]).0, steps[1..])
  }

  lemma {:induction false} ReceiptsStay(s: Store, steps: seq<Step>, k: (UserId, Key))
    requires k in s.receipts
    ensures k in Continue(s, steps).receipts && Continue(s, steps).receipts[k] == s.receipts[k]
    decreases |steps|
  {
    if steps != [] {
      ReceiptsAreImmutable(s, steps[0]);
      ReceiptsStay(Next(s, steps[0]).0, steps[1..], k);
    }
  }

  /** What a step asks for; equal requests under one key are the same write. */
  function RequestOf(step: Step): Request {
    match step
    case CreateStep(_, _, _, draft, _, _, _) => CreateOrder(draft)
    case CommandStep(_, _, id, command, expected, _, _) => CommandOrder(id, command, expected)
  }

  /** The answer to a write is recorded under its sender and key. */
  lemma AnswerIsRecorded(s: Store, step: Step)
    requires Next(s, step).1.Response?
    ensures var k, t := (step.identity, step.key), Next(s, step).0;
            k in t.receipts && t.receipts[k] == Receipt(RequestOf(step), Next(s, step).1.order)
  {
    hide Decide, OriginOf, OriginProblem, Authorize;
  }

  /** What a spent key answers: its own request gets the recorded answer, any other is refused, nothing changes. */
  lemma SpentKey(t: Store, again: Step)
    requires (again.identity, again.key) in t.receipts
    ensures var r, reply := t.receipts[(again.identity, again.key)], Next(t, again).1;
            && Next(t, again).0 == t
            && (r.request == RequestOf(again) && reply.Response? ==> reply == Response(r.response, true))
            && (r.request == RequestOf(again) && reply.Error? ==>
                  reply.why in {Unauthorized, Forbidden, NotFound, NotAssignee})
            && (r.request != RequestOf(again) ==> reply.Error?)
  {
    hide Decide, OriginOf, OriginProblem;
  }

  /**
   A write that was answered and is sent again, at any later time and whatever happened in
   between, changes nothing: it gets the recorded answer, or its sender is refused as such.
   */
  lemma RetriesAreHarmless(s: Store, first: Step, between: seq<Step>, again: Step)
    requires first.identity == again.identity && first.key == again.key && RequestOf(first) == RequestOf(again)
    requires Next(s, first).1.Response?
    ensures var t := Continue(Next(s, first).0, between);
            && Next(t, again).0 == t
            && (Next(t, again).1 == Response(Next(s, first).1.order, true)
                || (Next(t, again).1.Error?
                    && Next(t, again).1.why in {Unauthorized, Forbidden, NotFound, NotAssignee}))
  {
    hide Next;
    AnswerIsRecorded(s, first);
    ReceiptsStay(Next(s, first).0, between, (first.identity, first.key));
    SpentKey(Continue(Next(s, first).0, between), again);
  }

  /** A key spent on one request is refused for any other, creations and commands alike. */
  lemma KeysAreNotReused(s: Store, first: Step, between: seq<Step>, again: Step)
    requires first.identity == again.identity && first.key == again.key && RequestOf(first) != RequestOf(again)
    requires Next(s, first).1.Response?
    ensures var t := Continue(Next(s, first).0, between); Next(t, again).0 == t && Next(t, again).1.Error?
  {
    hide Next;
    AnswerIsRecorded(s, first);
    ReceiptsStay(Next(s, first).0, between, (first.identity, first.key));
    SpentKey(Continue(Next(s, first).0, between), again);
  }

  // Offered commands ----------------------------------------------------------------------------

  /** There is somebody for the command: a new assignee to name, or the old one to go back to. */
  ghost predicate Staffed(row: Order, directory: Directory, k: Kind) {
    && (k.ASSIGN? || k.REASSIGN? || k.REASSIGN_FOR_REWORK? ==> exists other :: MayTakeOver(row, directory, k, other))
    && (k.REQUEST_REWORK? ==> row.assignee.Some? && Eligible(directory, row.assignee.value))
  }

  predicate MayTakeOver(row: Order, directory: Directory, k: Kind, other: UserId) {
    Eligible(directory, other) && (k.ASSIGN? || row.assignee != Some(other))
  }

  /** A command of the given kind with the payload its guards ask for. */
  function Example(k: Kind, latest: Option<Completion>, other: UserId): Command
    requires !k.CREATE?
  {
    match k
    case ASSIGN => Assign(other)
    case REASSIGN => Reassign(other, "r")
    case ACCEPT => Accept
    case START => Start
    case BLOCK => Block("r")
    case RESUME => Resume("r")
    case COMPLETE => Complete(Success)
    case CLOSE => Close(if latest.Some? && latest.value.outcome.Stopped? then VerifiedStopped else Verified)
    case REQUEST_REWORK => RequestRework("r")
    case CANCEL => Cancel("r")
    case MANAGER_HOLD => ManagerHold("r")
    case REASSIGN_FOR_REWORK => ReassignForRework(other, "r")
  }

  lemma OfferedCanBeGranted(
    row: Order, latest: Option<Completion>, directory: Directory, user: User, other: UserId, k: Kind, at: Time)
    requires k.ASSIGN? || k.REASSIGN? || k.REASSIGN_FOR_REWORK? ==> MayTakeOver(row, directory, k, other)
    requires k.REQUEST_REWORK? ==> row.assignee.Some? && Eligible(directory, row.assignee.value)
    requires row.revision < LAST_REVISION && (row.status.Completed? ==> latest.Some?)
    requires k in Available(row, latest, user)
    ensures Example(k, latest, other).Kind() == k
    ensures Decide(row, latest, directory, user, Example(k, latest, other), at).Granted?
  {
  }

  lemma GrantedWasOffered(
    row: Order, latest: Option<Completion>, directory: Directory, user: User, c: Command, at: Time)
    requires Decide(row, latest, directory, user, c, at).Granted?
    ensures c.Kind() in Available(row, latest, user) && Staffed(row, directory, c.Kind())
            && row.revision < LAST_REVISION
  {
    if c.Target().Some? && !c.Reassign? {
      assert c.ReassignForRework? ==> row.assignee != c.Target();
      assert MayTakeOver(row, directory, c.Kind(), c.Target().value);
    } else if c.Reassign? {
      assert MayTakeOver(row, directory, c.Kind(), c.assignee);
    }
  }

  /**
   Some request of a kind gets granted exactly when the reader is offered the kind, there is
   somebody for it, and the revision counter has room.
   */
  lemma OfferIsExact(row: Order, cs: seq<Completion>, directory: Directory, user: User, k: Kind, at: Time)
    requires Sane(row, cs)
    ensures (exists c: Command :: c.Kind() == k && Decide(row, Latest(cs), directory, user, c, at).Granted?) <==>
              k in Available(row, Latest(cs), user) && Staffed(row, directory, k) && row.revision < LAST_REVISION
  {
    LatestIsLast(cs);
    if k in Available(row, Latest(cs), user) && Staffed(row, directory, k) && row.revision < LAST_REVISION {
      var other := 0;
      if exists u :: MayTakeOver(row, directory, k, u) {
        other :| MayTakeOver(row, directory, k, other);
      }
      OfferedCanBeGranted(row, Latest(cs), directory, user, other, k, at);
    }
    forall c: Command | c.Kind() == k && Decide(row, Latest(cs), directory, user, c, at).Granted?
      ensures k in Available(row, Latest(cs), user) && Staffed(row, directory, k) && row.revision < LAST_REVISION
    {
      GrantedWasOffered(row, Latest(cs), directory, user, c, at);
    }
  }
}
