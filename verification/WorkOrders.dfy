/** The transactions of the work-order service as functions of rows, completions, events and receipts. */
module WorkOrders {
  import opened Collections
  import opened WorkOrderPolicy

  type Key = string

  datatype Event = Event(
    orderId: OrderId, sequence: int, actor: UserId, kind: Kind, at: Time,
    from: Option<Status>, to: Status, attempt: int, assignee: Option<UserId>,
    reason: Option<string>, outcome: Option<Outcome>, verdict: Option<Verdict>)

  /**
   What a creation request names: a committed assignment, the head its sender saw, and a reason to
   accept overlaps.
   */
  datatype Draft = Draft(
    caseId: int, scheduleId: int, scheduleRevision: int, scheduleHash: int, assignmentId: int,
    headRevision: int, snapshotId: int, planVersion: int, overlapReason: Option<string>)

  /** The published head of the factory. */
  datatype Head = Head(
    revision: int, snapshotId: int, planVersion: int, scheduleId: Option<int>, scheduleRevision: Option<int>)

  datatype PlannedWork = PlannedWork(
    assignmentId: int, maintenance: bool, cancelled: bool, requestId: Option<int>, machineId: int, start: Time,
    end: Time)

  /** A commit with its schedule and basis; `intact` when stored hashes and payloads check out. */
  datatype Publication = Publication(
    scheduleId: int, scheduleRevision: int, scheduleHash: int, planVersion: int, snapshotId: int,
    live: bool, committed: bool, intact: bool,
    assignments: seq<PlannedWork>, requestMachines: map<int, int>, machines: set<int>)

  /** What a creation reads of the decision side, at the time of its transaction. */
  datatype Operations = Operations(head: Option<Head>, commits: map<int, Publication>)

  /** A normalised request; requests with equal hashes are equal. */
  datatype Request =
    | CreateOrder(draft: Draft)
    | CommandOrder(id: OrderId, command: Command, expectedRevision: int)

  datatype Receipt = Receipt(request: Request, response: Order)

  datatype Store = Store(
    orders: map<OrderId, Order>, completions: seq<Completion>, events: seq<Event>,
    receipts: map<(UserId, Key), Receipt>)

  datatype Reply = Error(why: Refusal) | Response(order: Order, replayed: bool)

  /** Rows of one order, in insertion order. */
  function EventsOf(events: seq<Event>, id: OrderId): (r: seq<Event>)
    ensures forall e :: e in r <==> e in events && e.orderId == id
  {
    if events == [] then []
    else
      var n := |events| - 1;
      assert events == events[..n] + [events[n]];
      EventsOf(events[..n], id) + (if events[n].orderId == id then [events[n]] else [])
  }

  function CompletionsOf(completions: seq<Completion>, id: OrderId): (r: seq<Completion>)
    ensures forall c :: c in r <==> c in completions && c.orderId == id
  {
    if completions == [] then []
    else
      var n := |completions| - 1;
      assert completions == completions[..n] + [completions[n]];
      CompletionsOf(completions[..n], id) + (if completions[n].orderId == id then [completions[n]] else [])
  }

  /** The completion with the highest attempt. */
  function Latest(cs: seq<Completion>): Option<Completion> {
    if cs == [] then None
    else
      var n := |cs| - 1;
      var before := Latest(cs[..n]);
      if before.Some? && before.value.attempt >= cs[n].attempt then before else Some(cs[n])
  }

  predicate MayEnter(directory: Directory, id: UserId) {
    id in directory && directory[id].active && (directory[id].role.Admin? || directory[id].member)
  }

  /** An active operator or engineer with access to the factory. */
  predicate Eligible(directory: Directory, id: UserId) {
    MayEnter(directory, id) && Executes(directory[id].role)
  }

  /** The acting user of a write, or why the write is refused. */
  function Authorize(directory: Directory, id: UserId): Decision<User> {
    if id !in directory || !directory[id].active then Refused(Unauthorized)
    else if directory[id].role.Viewer? then Refused(Forbidden)
    else if !MayEnter(directory, id) then Refused(NotFound)
    else Granted(User(id, directory[id].role))
  }

  /** Everything between the revision check and the writes. */
  function Decide(row: Order, latest: Option<Completion>, directory: Directory, user: User, c: Command, at: Time)
    : Decision<Order>
  {
    var target := c.Target();
    if target.Some? && !Eligible(directory, target.value) then Refused(AssigneeUnavailable)
    else
      var next :=
        if c.ManagerHold? || c.ReassignForRework? then Recover(row, latest, user, c, at, target)
        else Transition(row, latest, user, c, at);
      if next.Refused? then next
      else if c.RequestRework? && !(row.assignee.Some? && Eligible(directory, row.assignee.value))
        then Refused(AssigneeUnavailable)
      else if next.value.revision > LAST_REVISION then Refused(IntegrityError)
      else next
  }

  function NewOrder(id: OrderId, origin: Origin, at: Time): Order {
    Order(id, Unassigned, 1, 1, None, None, None, None, None, None, None, origin, at, at)
  }

  function Created(row: Order, actor: UserId, at: Time): Event {
    Event(row.id, row.revision, actor, CREATE, at, None, row.status, row.attempt, row.assignee, None, None, None)
  }

  function Recorded(next: Order, previous: Order, actor: UserId, c: Command, at: Time): Event {
    Event(
      next.id, next.revision, actor, c.Kind(), at, Some(previous.status), next.status, next.attempt, next.assignee,
      c.Reason(), c.Outcome(), c.Verdict())
  }

  function Report(id: OrderId, row: Order, actor: UserId, c: Command, at: Time): seq<Completion> {
    if c.Complete? then [Completion(id, row.attempt, actor, at, c.outcome)] else []
  }

  /** A stored receipt answers a repeated request and refuses a different one under the same key. */
  function Replay(s: Store, user: UserId, key: Key, request: Request): Option<Reply> {
    if (user, key) !in s.receipts then None
    else
      var r := s.receipts[(user, key)];
      Some(if r.request != request then Error(KeyReused) else Response(r.response, true))
  }

  /** The command transaction as a function of the store. */
  function Commanded(
    s: Store, directory: Directory, identity: UserId, id: OrderId, c: Command, expected: int, key: Key, at: Time)
    : (Store, Reply)
  {
    var user := Authorize(directory, identity);
    if id !in s.orders then (s, Error(NotFound))
    else if user.Refused? then (s, Error(user.why))
    else
      var row, request := s.orders[id], CommandOrder(id, c, expected);
      var problem := RoleProblem(row, user.value, c.Kind());
      var replay := Replay(s, identity, key, request);
      if problem.Some? then (s, Error(problem.value))
      else if replay.Some? then (s, replay.value)
      else if row.revision != expected then (s, Error(RevisionConflict))
      else
        var next := Decide(row, Latest(CompletionsOf(s.completions, id)), directory, user.value, c, at);
        if next.Refused? then (s, Error(next.why))
        else
          (Store(
             s.orders[id := next.value],
             s.completions + Report(id, row, identity, c, at),
             s.events + [Recorded(next.value, row, identity, c, at)],
             s.receipts[(identity, key) := Receipt(request, next.value)]),
           Response(next.value, false))
  }

  function FindWork(assignments: seq<PlannedWork>, id: int): (r: Option<PlannedWork>)
    ensures r.Some? ==> r.value in assignments && r.value.assignmentId == id
    ensures r.None? ==> forall a :: a in assignments ==> a.assignmentId != id
  {
    if assignments == [] then None
    else
      assert assignments == [assignments[0]] + assignments[1..];
      if assignments[0].assignmentId == id then Some(assignments[0]) else FindWork(assignments[1..], id)
  }

  predicate HeadMatches(head: Option<Head>, d: Draft) {
    head == Some(Head(d.headRevision, d.snapshotId, d.planVersion, Some(d.scheduleId), Some(d.scheduleRevision)))
  }

  predicate IsSource(p: Publication, d: Draft) {
    && p.scheduleId == d.scheduleId && p.scheduleRevision == d.scheduleRevision && p.scheduleHash == d.scheduleHash
    && p.planVersion == d.planVersion && p.live && p.committed && p.intact
  }

  /** A maintenance row that is not cancelled, for a request of the basis on the same known machine. */
  predicate IsWork(p: Publication, a: PlannedWork) {
    && a.maintenance && !a.cancelled
    && a.requestId.Some? && a.requestId.value in p.requestMachines
    && p.requestMachines[a.requestId.value] == a.machineId && a.machineId in p.machines
  }

  /** The published assignment a draft names, if head, commit and assignment agree with it. */
  function OriginOf(ops: Operations, d: Draft): Decision<Origin> {
    if !HeadMatches(ops.head, d) then Refused(SourcePlanChanged)
    else if d.caseId !in ops.commits || !IsSource(ops.commits[d.caseId], d) then Refused(InvalidSource)
    else
      var p := ops.commits[d.caseId];
      var a := FindWork(p.assignments, d.assignmentId);
      if a.None? || !IsWork(p, a.value) then Refused(InvalidSource)
      else Granted(Origin(p.scheduleId, p.scheduleRevision, a.value.assignmentId, p.snapshotId, a.value.requestId.value,
                          a.value.machineId, a.value.start, a.value.end))
  }

  /** The three look-ups of a creation among the existing orders. */
  predicate HasOrder(orders: map<OrderId, Order>, o: Origin) {
    exists id :: id in orders && orders[id].origin.SameAssignment(o)
  }

  predicate HasActiveOrder(orders: map<OrderId, Order>, o: Origin) {
    exists id :: id in orders && !Terminal(orders[id].status) && orders[id].origin.SameRequest(o)
  }

  predicate Crowded(orders: map<OrderId, Order>, o: Origin) {
    exists id :: id in orders && !Terminal(orders[id].status) && orders[id].origin.Meets(o)
  }

  /** Why an origin may not get an order beside the existing ones. */
  function OriginProblem(orders: map<OrderId, Order>, o: Origin, overlapReason: Option<string>): Option<Refusal> {
    if HasOrder(orders, o) then Some(OriginExists)
    else if HasActiveOrder(orders, o) then Some(ActiveRequestExists)
    else if Crowded(orders, o) && overlapReason.None? then Some(OverlapUnreviewed)
    else None
  }

  /** Creation from a published assignment; `id` stands for the fresh identifier. */
  function CreatedIn(
    s: Store, directory: Directory, identity: UserId, ops: Operations, d: Draft, id: OrderId, key: Key, at: Time)
    : (Store, Reply)
  {
    var user := Authorize(directory, identity);
    var replay := Replay(s, identity, key, CreateOrder(d));
    if user.Refused? then (s, Error(user.why))
    else if !Manages(user.value.role) then (s, Error(Forbidden))
    else if replay.Some? then (s, replay.value)
    else
      var origin := OriginOf(ops, d);
      if origin.Refused? then (s, Error(origin.why))
      else
        var problem := OriginProblem(s.orders, origin.value, d.overlapReason);
        if problem.Some? then (s, Error(problem.value))
        else
          var row := NewOrder(id, origin.value, at);
          (Store(
             s.orders[id := row], s.completions, s.events + [Created(row, identity, at)],
             s.receipts[(identity, key) := Receipt(CreateOrder(d), row)]),
           Response(row, false))
  }
}
