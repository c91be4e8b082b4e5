/**
 Maintenance work orders: the transition table and its guards. One factory; reasons are
 non-empty after request parsing, reports carry only what the state machine reads.
 */
module WorkOrderPolicy {
  import opened Collections

  type UserId = int
  type OrderId = int
  type Time = int

  datatype Status = Unassigned | Assigned | Accepted | InProgress | Blocked | Completed | Closed | Cancelled
  datatype Role = Viewer | Operator | Engineer | Admin

  /** `member` is the factory grant an account other than an administrator needs. */
  datatype Account = Account(role: Role, active: bool, member: bool)
  type Directory = map<UserId, Account>
  datatype User = User(id: UserId, role: Role)

  datatype Outcome = Success | Partial | Stopped
  datatype Verdict = Verified | VerifiedStopped
  datatype Verification = Verification(verdict: Verdict, actor: UserId, at: Time)

  /** Command names as recorded in the event log. */
  datatype Kind =
    | CREATE | ASSIGN | REASSIGN | ACCEPT | START | BLOCK | RESUME | COMPLETE | CLOSE | REQUEST_REWORK | CANCEL
    | MANAGER_HOLD | REASSIGN_FOR_REWORK

  datatype Command =
    | Assign(assignee: UserId)
    | Reassign(assignee: UserId, reason: string)
    | Accept
    | Start
    | Block(reason: string)
    | Resume(reason: string)
    | Complete(outcome: Outcome)
    | Close(verdict: Verdict)
    | RequestRework(reason: string)
    | Cancel(reason: string)
    | ManagerHold(reason: string)
    | ReassignForRework(assignee: UserId, reason: string)
  {
    function Kind(): Kind {
      match this
      case Assign(_) => ASSIGN
      case Reassign(_, _) => REASSIGN
      case Accept => ACCEPT
      case Start => START
      case Block(_) => BLOCK
      case Resume(_) => RESUME
      case Complete(_) => COMPLETE
      case Close(_) => CLOSE
      case RequestRework(_) => REQUEST_REWORK
      case Cancel(_) => CANCEL
      case ManagerHold(_) => MANAGER_HOLD
      case ReassignForRework(_, _) => REASSIGN_FOR_REWORK
    }

    function Target(): Option<UserId> {
      if Assign? || Reassign? || ReassignForRework? then Some(assignee) else None
    }

    function Reason(): Option<string> {
      if Assign? || Accept? || Start? || Complete? || Close? then None else Some(reason)
    }

    function Outcome(): Option<Outcome> { if Complete? then Some(outcome) else None }

    function Verdict(): Option<Verdict> { if Close? then Some(verdict) else None }
  }

  /** Which published assignment an order executes; fixed at creation. */
  datatype Origin = Origin(
    scheduleId: int, scheduleRevision: int, assignmentId: int, snapshotId: int, requestId: int, machineId: int,
    plannedStart: Time, plannedEnd: Time)
  {
    predicate SameAssignment(other: Origin) {
      scheduleId == other.scheduleId && scheduleRevision == other.scheduleRevision && assignmentId == other.assignmentId
    }

    predicate SameRequest(other: Origin) { snapshotId == other.snapshotId && requestId == other.requestId }

    /** Same machine, meeting half-open windows. */
    predicate Meets(other: Origin) {
      machineId == other.machineId && plannedStart < other.plannedEnd && other.plannedStart < plannedEnd
    }
  }

  datatype Order = Order(
    id: OrderId, status: Status, revision: int, attempt: int, assignee: Option<UserId>, blocker: Option<string>,
    startedAt: Option<Time>, completedAt: Option<Time>, verification: Option<Verification>,
    cancelReason: Option<string>, cancelledAt: Option<Time>,
    origin: Origin, createdAt: Time, updatedAt: Time)

  datatype Completion = Completion(orderId: OrderId, attempt: int, actor: UserId, at: Time, outcome: Outcome)

  datatype Refusal =
    | NotFound | Unauthorized | Forbidden | NotAssignee | KeyReused | RevisionConflict | InvalidTransition
    | SelfVerification | AssigneeUnavailable | StateConflict | IndependentVerificationRequired | IntegrityError
    | SourcePlanChanged | InvalidSource | OriginExists | ActiveRequestExists | OverlapUnreviewed

  datatype Decision<+T> = Refused(why: Refusal) | Granted(value: T)

  predicate Terminal(s: Status) { s.Closed? || s.Cancelled? }

  const LAST_REVISION: int := 2147483647

  predicate Manages(r: Role) { r.Admin? || r.Engineer? }

  predicate Executes(r: Role) { r.Operator? || r.Engineer? }

  predicate IsExecution(k: Kind) { k.ACCEPT? || k.START? || k.BLOCK? || k.RESUME? || k.COMPLETE? }

  /** The decisions on a reported completion. */
  predicate IsDecision(k: Kind) { k.CLOSE? || IsRework(k) }

  predicate IsRework(k: Kind) { k.REQUEST_REWORK? || k.REASSIGN_FOR_REWORK? }

  function Sources(k: Kind): set<Status> {
    match k
    case CREATE => {}
    case ASSIGN => {Unassigned}
    case REASSIGN => {Assigned, Accepted, Blocked}
    case ACCEPT => {Assigned}
    case START => {Accepted}
    case BLOCK => {InProgress}
    case RESUME => {Blocked}
    case COMPLETE => {InProgress}
    case CLOSE => {Completed}
    case REQUEST_REWORK => {Completed}
    case CANCEL => {Unassigned, Assigned, Accepted}
    case MANAGER_HOLD => {InProgress}
    case REASSIGN_FOR_REWORK => {Completed}
  }

  function Destination(k: Kind): Status {
    match k
    case CREATE => Unassigned
    case ASSIGN | REASSIGN | REASSIGN_FOR_REWORK => Assigned
    case ACCEPT => Accepted
    case START | RESUME | REQUEST_REWORK => InProgress
    case BLOCK | MANAGER_HOLD => Blocked
    case COMPLETE => Completed
    case CLOSE => Closed
    case CANCEL => Cancelled
  }

  /** Who may issue a command on the row at all. */
  function RoleProblem(row: Order, user: User, k: Kind): Option<Refusal> {
    if IsExecution(k) then
      if !Executes(user.role) then Some(Forbidden)
      else if row.assignee != Some(user.id) then Some(NotAssignee)
      else None
    else if !Manages(user.role) then Some(Forbidden)
    else None
  }

  /** Guards and patch of every command except the two recovery commands. */
  function Transition(row: Order, latest: Option<Completion>, user: User, c: Command, at: Time): Decision<Order> {
    var k := c.Kind();
    var problem := RoleProblem(row, user, k);
    if problem.Some? then Refused(problem.value)
    else if row.status !in Sources(k) || (c.Cancel? && row.startedAt.Some?) then Refused(InvalidTransition)
    else if IsDecision(k) && latest.Some? && latest.value.actor == user.id then Refused(SelfVerification)
    else
      var next := row.(status := Destination(k), revision := row.revision + 1, updatedAt := at);
      match c
      case Assign(assignee) => Granted(next.(assignee := Some(assignee), blocker := None))
      case Reassign(assignee, _) =>
        if row.assignee == Some(assignee) then Refused(InvalidTransition)
        else Granted(next.(assignee := Some(assignee), blocker := None))
      case Start => Granted(next.(startedAt := if row.startedAt.Some? then row.startedAt else Some(at)))
      case Block(reason) => Granted(next.(blocker := Some(reason)))
      case Resume(_) => Granted(next.(blocker := None))
      case Complete(_) => Granted(next.(completedAt := Some(at)))
      case RequestRework(_) => Granted(next.(attempt := row.attempt + 1, completedAt := None))
      case Close(verdict) =>
        var stopped := latest.Some? && latest.value.outcome.Stopped?;
        if verdict != (if stopped then VerifiedStopped else Verified) then Refused(InvalidTransition)
        else Granted(next.(verification := Some(Verification(verdict, user.id, at))))
      case Cancel(reason) => Granted(next.(cancelReason := Some(reason), cancelledAt := Some(at)))
      case _ => Granted(next)
  }

  /** Manager hold and rework by another assignee; `eligible` is the looked-up target, if it may execute here. */
  function Recover(
    row: Order, latest: Option<Completion>, actor: User, c: Command, at: Time,
    eligible: Option<UserId>): Decision<Order>
    requires c.ManagerHold? || c.ReassignForRework?
  {
    if !Manages(actor.role) then Refused(Forbidden)
    else
      var next := row.(revision := row.revision + 1, updatedAt := at);
      if c.ManagerHold? then
        if !row.status.InProgress? then Refused(StateConflict)
        else Granted(next.(status := Blocked, blocker := Some(c.reason)))
      else if !row.status.Completed? then Refused(StateConflict)
      else if latest.None? then Refused(IntegrityError)
      else if latest.value.actor == actor.id then Refused(IndependentVerificationRequired)
      else if eligible != Some(c.assignee) || row.assignee == Some(c.assignee) then Refused(AssigneeUnavailable)
      else Granted(next.(status := Assigned, assignee := Some(c.assignee), attempt := row.attempt + 1,
                         completedAt := None))
  }

  /** The commands a reader is offered. */
  function Available(row: Order, latest: Option<Completion>, user: User): set<Kind> {
    set k: Kind |
      && row.status in Sources(k)
      && !(k.CANCEL? && row.startedAt.Some?)
      && !(IsDecision(k) && latest.Some? && latest.value.actor == user.id)
      && if IsExecution(k) then Executes(user.role) && row.assignee == Some(user.id) else Manages(user.role)
  }
}
