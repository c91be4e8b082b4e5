/**
 The operations head of one factory, its snapshots, decision cases and published schedules.
 Each transaction holds the factory lock or the case row lock, so it is one atomic step.
 */
module Decisions {
  import opened Collections

  type SnapshotId = int
  type CaseId = int
  type UserId = int
  type Token = int
  type Key = string
  type Time = int

  /** A content hash; equal hashes mean equal content. */
  datatype Hash<+T> = HashOf(content: T)

  datatype Status =
    | Created | Analyzing | Generating | Validating | Explaining | AwaitingApproval | Failed | Approved | Rejected
    | Committed
  datatype Processing = Pending | Running | Succeeded | Broken
  datatype Mode = Live | SimulationOnly
  datatype ErrorCode =
    | PlanningFailed | PlanningTimeout | InvalidPayload | PlannerUnavailable | LeaseExpired | WorkerShutdown

  datatype ScheduleKey = ScheduleKey(id: int, revision: int)
  datatype Schedule = Schedule(key: ScheduleKey, content: int)
  datatype Candidate = Candidate(
    id: int, version: int, caseId: CaseId, snapshotId: SnapshotId, valid: bool, schedule: Schedule)
  datatype Recommendation = Recommendation(id: int, caseId: CaseId, snapshotId: SnapshotId, candidates: seq<Candidate>)
  datatype Artifact = Artifact(payload: Recommendation, hash: Hash<Recommendation>)

  datatype Human =
    | Approval(
        recommendationId: int, candidateId: int, version: int,
        candidateHash: Hash<Candidate>, scheduleHash: Hash<Schedule>, actor: UserId)
    | Rejection(recommendationId: int, actor: UserId)
  datatype Commit = Commit(snapshotId: SnapshotId, key: ScheduleKey, hash: Hash<Schedule>, planVersion: int,
                           actor: UserId)
  datatype Lease = Lease(token: Token, owner: UserId, expiresAt: Time)

  /** A case row together with its at most one recommendation, human record and commit. */
  datatype Case = Case(
    snapshotId: SnapshotId, basePlanVersion: int, mode: Mode, status: Status, revision: int,
    processing: Processing, attempt: int, error: Option<ErrorCode>, lease: Option<Lease>,
    artifact: Option<Artifact>, human: Option<Human>, commit: Option<Commit>)

  datatype Head = Head(snapshotId: SnapshotId, revision: int, planVersion: int, schedule: Option<ScheduleKey>)
  datatype Publication = Publication(snapshotId: SnapshotId, hash: Hash<Schedule>, payload: Schedule)

  datatype Command = Approve(candidateId: int, version: int) | Reject | Publish(candidateId: int, version: int)
  datatype Body = Body(
    caseId: CaseId, command: Command, recommendationId: int,
    expectedSnapshot: SnapshotId, expectedRevision: int, expectedPlan: int)
  datatype CommandKind = APPROVE | REJECT | COMMIT

  datatype Request =
    | CreateRequest(snapshotId: SnapshotId, planVersion: int, mode: Mode, content: int)
    | CommandRequest(body: Body)

  /** What a caller is shown of a case. */
  datatype View = View(caseId: CaseId, row: Case, stale: bool, commands: set<CommandKind>)
  datatype Receipt = Receipt(request: Request, response: View)

  /** `issued` remembers, for every lease token ever drawn, its case and attempt. */
  datatype Operations = Operations(
    snapshots: map<SnapshotId, Hash<int>>, head: Option<Head>, cases: map<CaseId, Case>,
    schedules: map<ScheduleKey, Publication>, receipts: map<(UserId, Key), Receipt>,
    issued: map<Token, (CaseId, int)>)

  datatype Refusal =
    | NotFound | Forbidden | KeyReused | SnapshotConflict | PlanVersionConflict | InvalidTrigger | HeadConflict
    | ContentConflict | CaseRevisionConflict | LeaseConflict | SimulationRefused | StateConflict
    | RecommendationConflict | RecommendationExists | IntegrityError | CandidateNotFound | CandidateVersionConflict
    | CandidateNotValid | ApprovedCandidateConflict | SchedulePublished | InvalidRecommendation | GuardRefused

  datatype Reply = Error(why: Refusal) | Answer(view: View, replayed: bool) | Ingestion(head: Head, replayed: bool)
                 | Claimed(token: Token, attempt: int) | Done

  // Snapshots -----------------------------------------------------------------------------------

  function HeadRevision(s: Operations): int { if s.head.None? then 0 else s.head.value.revision }

  /** Compare and swap on the head revision; a known snapshot id is only ever replayed. */
  function Ingested(s: Operations, id: SnapshotId, hash: Hash<int>, expected: int): (Operations, Reply) {
    if id in s.snapshots then
      if s.snapshots[id] != hash then (s, Error(ContentConflict))
      else if s.head.None? then (s, Error(HeadConflict))
      else (s, Ingestion(s.head.value, true))
    else if HeadRevision(s) != expected then (s, Error(HeadConflict))
    else
      var next :=
        if s.head.None? then Head(id, 1, 0, None)
        else s.head.value.(snapshotId := id, revision := s.head.value.revision + 1);
      (s.(snapshots := s.snapshots[id := hash], head := Some(next)), Ingestion(next, false))
  }

  // Cases ---------------------------------------------------------------------------------------

  predicate Stale(row: Case, head: Option<Head>) {
    head.None? || head.value.snapshotId != row.snapshotId || head.value.planVersion != row.basePlanVersion
  }

  predicate AnyValid(candidates: seq<Candidate>) { exists c :: c in candidates && c.valid }

  function Offered(row: Case, head: Option<Head>, writer: bool): set<CommandKind> {
    var writable := writer && !Stale(row, head);
    (if writable && row.status.AwaitingApproval?
        && row.artifact.Some? && AnyValid(row.artifact.value.payload.candidates)
       then {APPROVE} else {})
    + (if writable && row.status.AwaitingApproval? then {REJECT} else {})
    + (if writable && row.status.Approved? && row.mode.Live? then {COMMIT} else {})
  }

  function Respond(id: CaseId, row: Case, head: Option<Head>, writer: bool): View {
    View(id, row, Stale(row, head), Offered(row, head, writer))
  }

  function Replay(s: Operations, user: UserId, key: Key, request: Request): Option<Reply> {
    if (user, key) !in s.receipts then None
    else if s.receipts[(user, key)].request != request then Some(Error(KeyReused))
    else Some(Answer(s.receipts[(user, key)].response, true))
  }

  function NewCase(head: Head, mode: Mode): Case {
    Case(head.snapshotId, head.planVersion, mode, Created, 1, Pending, 0, None, None, None, None, None)
  }

  /** Creation pins the current head; `references` says the trigger names resources of the pinned snapshot. */
  function CaseCreated(
    s: Operations, user: UserId, writer: bool, key: Key, request: Request, references: bool, id: CaseId)
    : (Operations, Reply)
    requires request.CreateRequest?
  {
    var replay := Replay(s, user, key, request);
    if !writer then (s, Error(Forbidden))
    else if replay.Some? then (s, replay.value)
    else if s.head.None? then (s, Error(NotFound))
    else if s.head.value.snapshotId != request.snapshotId then (s, Error(SnapshotConflict))
    else if s.head.value.planVersion != request.planVersion then (s, Error(PlanVersionConflict))
    else if !references then (s, Error(InvalidTrigger))
    else
      var row := NewCase(s.head.value, request.mode);
      var view := Respond(id, row, s.head, true);
      (s.(cases := s.cases[id := row], receipts := s.receipts[(user, key) := Receipt(request, view)]),
       Answer(view, false))
  }

  // Planning ------------------------------------------------------------------------------------

  predicate Processed(status: Status) {
    status.Analyzing? || status.Generating? || status.Validating? || status.Explaining?
  }

  /** The fence of every worker step: revision, token, running state and lease time. */
  function Fence(row: Case, revision: int, token: Token, at: Time, expired: bool): Option<Refusal> {
    if row.revision != revision then Some(CaseRevisionConflict)
    else if row.lease.None? || row.lease.value.token != token || !Processed(row.status)
            || (if expired then row.lease.value.expiresAt > at else row.lease.value.expiresAt <= at)
      then Some(LeaseConflict)
    else None
  }

  function Write(s: Operations, id: CaseId, row: Case): Operations { s.(cases := s.cases[id := row]) }

  const SECOND: int := 1_000_000

  function Claim(s: Operations, id: CaseId, revision: int, worker: UserId, seconds: int, token: Token, at: Time)
    : (Operations, Reply)
  {
    if id !in s.cases then (s, Error(NotFound))
    else
      var row := s.cases[id];
      if row.revision != revision then (s, Error(CaseRevisionConflict))
      else if !(row.status.Created? || row.status.Failed?) || row.lease.Some? || row.artifact.Some?
        then (s, Error(LeaseConflict))
      else
        var next := row.(
          status := Analyzing, processing := Running, revision := row.revision + 1, attempt := row.attempt + 1,
          error := None, lease := Some(Lease(token, worker, at + seconds * SECOND)));
        (Write(s, id, next).(issued := s.issued[token := (id, next.attempt)]), Claimed(token, next.attempt))
  }

  /** Heartbeat; the row guard of the database only lets an ANALYZING lease grow. */
  function Renewed(
    s: Operations, id: CaseId, revision: int, token: Token, seconds: int, at: Time): (Operations, Reply) {
    if id !in s.cases then (s, Error(NotFound))
    else
      var row := s.cases[id];
      var fence := Fence(row, revision, token, at, false);
      if fence.Some? then (s, Error(fence.value))
      else if !row.status.Analyzing? || at + seconds * SECOND <= row.lease.value.expiresAt then (s, Error(GuardRefused))
      else
        (Write(s, id, row.(revision := row.revision + 1,
                           lease := Some(row.lease.value.(expiresAt := at + seconds * SECOND)))), Done)
  }

  /** Leaving the running states: the lease is cleared. */
  function Stopped(row: Case, status: Status, processing: Processing, error: Option<ErrorCode>): Case {
    row.(status := status, processing := processing, error := error, lease := None, revision := row.revision + 1)
  }

  function FailedPlanning(s: Operations, id: CaseId, revision: int, token: Token, code: ErrorCode, at: Time)
    : (Operations, Reply)
  {
    if id !in s.cases then (s, Error(NotFound))
    else
      var fence := Fence(s.cases[id], revision, token, at, false);
      if fence.Some? then (s, Error(fence.value))
      else (Write(s, id, Stopped(s.cases[id], Failed, Broken, Some(code))), Done)
  }

  function Released(
    s: Operations, id: CaseId, revision: int, token: Token, expired: bool, at: Time): (Operations, Reply) {
    if id !in s.cases then (s, Error(NotFound))
    else
      var fence := Fence(s.cases[id], revision, token, at, expired);
      if fence.Some? then (s, Error(fence.value))
      else
        (Write(s, id, Stopped(s.cases[id], Created, Pending, Some(if expired then LeaseExpired else WorkerShutdown))),
         Done)
  }

  /** What the deterministic check of a recommendation guarantees about its cross references. */
  predicate Checked(r: Recommendation, id: CaseId, snapshotId: SnapshotId) {
    && r.caseId == id && r.snapshotId == snapshotId
    && (forall c :: c in r.candidates ==> c.caseId == id && c.snapshotId == snapshotId && c.valid)
    && forall i, j :: 0 <= i < j < |r.candidates| ==> r.candidates[i].id != r.candidates[j].id
  }

  function StageAfter(status: Status): Status {
    match status
    case Analyzing => Generating
    case Generating => Validating
    case Validating => Explaining
    case _ => AwaitingApproval
  }

  function StagesLeft(status: Status): nat {
    match status
    case Analyzing => 4
    case Generating => 3
    case Validating => 2
    case Explaining => 1
    case _ => 0
  }

  /** One stage further, under the fence at the time of the stage. */
  function NextStage(row: Case, token: Token, at: Time): Option<Case> {
    if Fence(row, row.revision, token, at, false).Some? then None
    else if StageAfter(row.status).AwaitingApproval?
      then Some(Stopped(row, AwaitingApproval, Succeeded, None))
    else Some(row.(status := StageAfter(row.status), revision := row.revision + 1))
  }

  /** All remaining stages, the clock read before each; any refusal abandons the transaction. */
  function Stages(row: Case, token: Token, clock: nat -> Time, k: nat): Option<Case>
    decreases StagesLeft(row.status)
  {
    if StagesLeft(row.status) == 0 then Some(row)
    else
      var next := NextStage(row, token, clock(k));
      if next.None? then None else Stages(next.value, token, clock, k + 1)
  }

  predicate RecommendationTaken(s: Operations, recommendationId: int) {
    exists id :: id in s.cases && s.cases[id].artifact.Some?
      && s.cases[id].artifact.value.payload.id == recommendationId
  }

  function Persisted(s: Operations, id: CaseId, revision: int, token: Token, r: Recommendation, clock: nat -> Time)
    : (Operations, Reply)
  {
    if id !in s.cases then (s, Error(NotFound))
    else
      var row := s.cases[id];
      var fence := Fence(row, revision, token, clock(0), false);
      if !Checked(r, id, row.snapshotId) then (s, Error(InvalidRecommendation))
      else if fence.Some? then (s, Error(fence.value))
      else if row.artifact.Some? || RecommendationTaken(s, r.id) then (s, Error(RecommendationExists))
      else
        var done := Stages(row.(artifact := Some(Artifact(r, HashOf(r)))), token, clock, 1);
        if done.None? then (s, Error(LeaseConflict)) else (Write(s, id, done.value), Done)
  }

  // Human commands ------------------------------------------------------------------------------

  function FindCandidate(candidates: seq<Candidate>, id: int): (r: Option<Candidate>)
    ensures r.Some? ==> r.value in candidates && r.value.id == id
    ensures r.None? ==> forall c :: c in candidates ==> c.id != id
  {
    if candidates == [] then None
    else if candidates[0].id == id then Some(candidates[0])
    else FindCandidate(candidates[1..], id)
  }

  /** Revision, basis, mode and state fences of a command, in order. */
  function BasisProblem(row: Case, head: Option<Head>, b: Body): Option<Refusal> {
    if row.revision != b.expectedRevision then Some(CaseRevisionConflict)
    else if head.None? || head.value.snapshotId != b.expectedSnapshot || row.snapshotId != b.expectedSnapshot
      then Some(SnapshotConflict)
    else if head.value.planVersion != b.expectedPlan || row.basePlanVersion != b.expectedPlan
      then Some(PlanVersionConflict)
    else if b.command.Publish? && !row.mode.Live? then Some(SimulationRefused)
    else if (if b.command.Publish? then !row.status.Approved? else !row.status.AwaitingApproval?)
      then Some(StateConflict)
    else if row.artifact.None? || row.artifact.value.payload.id != b.recommendationId then Some(RecommendationConflict)
    else
      var r := row.artifact.value;
      if HashOf(r.payload) != r.hash || r.payload.caseId != b.caseId || r.payload.snapshotId != row.snapshotId
        then Some(IntegrityError)
      else None
  }

  function CandidateProblem(row: Case, b: Body): Option<Refusal>
    requires row.artifact.Some? && !b.command.Reject?
  {
    var c := FindCandidate(row.artifact.value.payload.candidates, b.command.candidateId);
    if c.None? then Some(CandidateNotFound)
    else if c.value.version != b.command.version then Some(CandidateVersionConflict)
    else if !c.value.valid then Some(CandidateNotValid)
    else if c.value.caseId != b.caseId || c.value.snapshotId != row.snapshotId then Some(IntegrityError)
    else None
  }

  predicate IsApproved(human: Option<Human>, b: Body, c: Candidate)
    requires b.command.Publish?
  {
    human == Some(Approval(b.recommendationId, b.command.candidateId, b.command.version, HashOf(c), HashOf(c.schedule),
                           if human.Some? then human.value.actor else 0))
  }

  /** The commands' writes to case, head and schedules. */
  function Decided(s: Operations, user: UserId, b: Body): (Operations, Option<Refusal>)
    requires b.caseId in s.cases
  {
    var row := s.cases[b.caseId];
    var problem := BasisProblem(row, s.head, b);
    if problem.Some? then (s, problem)
    else if b.command.Reject? then
      (Write(s, b.caseId, row.(status := Rejected, revision := row.revision + 1,
                               human := Some(Rejection(b.recommendationId, user)))), None)
    else
      var candidateProblem := CandidateProblem(row, b);
      if candidateProblem.Some? then (s, candidateProblem)
      else
        var c := FindCandidate(row.artifact.value.payload.candidates, b.command.candidateId).value;
        if b.command.Approve? then
          var approval := Approval(b.recommendationId, c.id, c.version, HashOf(c), HashOf(c.schedule), user);
          (Write(s, b.caseId, row.(status := Approved, revision := row.revision + 1, human := Some(approval))), None)
        else if !IsApproved(row.human, b, c) then (s, Some(ApprovedCandidateConflict))
        else if c.schedule.key in s.schedules then (s, Some(SchedulePublished))
        else
          var head := s.head.value;
          var commit := Commit(row.snapshotId, c.schedule.key, row.human.value.scheduleHash, head.planVersion + 1,
                               user);
          (Write(s, b.caseId, row.(status := Committed, revision := row.revision + 1, commit := Some(commit))).(
             schedules := s.schedules[
               c.schedule.key := Publication(row.snapshotId, row.human.value.scheduleHash, c.schedule)],
             head := Some(head.(
               schedule := Some(c.schedule.key), planVersion := head.planVersion + 1, revision := head.revision + 1))),
           None)
  }

  function Commanded(s: Operations, user: UserId, writer: bool, key: Key, b: Body): (Operations, Reply) {
    if !writer then (s, Error(Forbidden))
    else if b.caseId !in s.cases then (s, Error(NotFound))
    else
      var replay := Replay(s, user, key, CommandRequest(b));
      if replay.Some? then (s, replay.value)
      else
        var (next, problem) := Decided(s, user, b);
        if problem.Some? then (s, Error(problem.value))
        else
          var view := Respond(b.caseId, next.cases[b.caseId], next.head, true);
          (next.(receipts := s.receipts[(user, key) := Receipt(CommandRequest(b), view)]), Answer(view, false))
  }
}
