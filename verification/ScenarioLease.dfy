/**
 Scenario jobs, their attempts and points, and the leases workers hold on them. Every
 transaction runs under the factory lock and reads the clock at its start and its end.
 */
module ScenarioLease {
  import opened Collections

  type JobId = int
  type FactoryId = int
  type Token = int
  type Time = int

  const MAX_ATTEMPTS: int := 3
  const MILLISECOND: int := 1000

  datatype JobStatus = Queued | Running | Succeeded | Failed
  datatype AttemptStatus = Open | Won | Lost | Expired
  datatype PointStatus = Waiting | Working | Feasible | NoFeasiblePlan | Broken | TimedOut
  datatype ErrorCode = DeadlineExceeded | AttemptsExhausted | LeaseExpired | WorkerStopped | EngineError(code: int)

  datatype Attempt = Attempt(number: int, token: Token, worker: int, status: AttemptStatus, error: Option<ErrorCode>)
  datatype Lease = Lease(token: Token, worker: int, expiresAt: Time)
  datatype Job = Job(
    factory: FactoryId, status: JobStatus, attempt: int, lease: Option<Lease>, deadline: Time,
    error: Option<ErrorCode>, result: Option<int>, attempts: seq<Attempt>, points: seq<PointStatus>)

  /** `issued` remembers every lease token ever drawn. */
  datatype Jobs = Jobs(jobs: map<JobId, Job>, issued: set<Token>)

  /** What a worker presents: the job and the lease it believes it holds. */
  datatype Claim = Claim(id: JobId, token: Token, attempt: int)

  datatype Reply = Conflict | Invalid | Nothing | Claimed(claim: Claim) | Done

  predicate Terminal(status: JobStatus) { status.Succeeded? || status.Failed? }

  predicate Pending(p: PointStatus) { p.Waiting? || p.Working? }

  /** UPDATE of the open attempt the lease belongs to; a no-op when there is none. */
  function Ended(attempts: seq<Attempt>, number: int, token: Token, status: AttemptStatus, error: Option<ErrorCode>)
    : (r: seq<Attempt>)
    ensures |r| == |attempts|
    ensures forall k :: 0 <= k < |r| ==>
      r[k] == if attempts[k].number == number && attempts[k].token == token && attempts[k].status.Open?
              then attempts[k].(status := status, error := error) else attempts[k]
  {
    if attempts == [] then []
    else
      var a := attempts[0];
      [if a.number == number && a.token == token && a.status.Open? then a.(status := status, error := error) else a]
      + Ended(attempts[1..], number, token, status, error)
  }

  function EndAttempt(job: Job, status: AttemptStatus, error: Option<ErrorCode>): Job {
    if job.lease.None? then job
    else job.(attempts := Ended(job.attempts, job.attempt, job.lease.value.token, status, error))
  }

  function Closed(points: seq<PointStatus>, status: PointStatus): (r: seq<PointStatus>)
    ensures |r| == |points|
    ensures forall k :: 0 <= k < |r| ==> r[k] == if Pending(points[k]) then status else points[k]
  {
    if points == [] then []
    else [if Pending(points[0]) then status else points[0]] + Closed(points[1..], status)
  }

  function Requeued(points: seq<PointStatus>): (r: seq<PointStatus>)
    ensures |r| == |points|
    ensures forall k :: 0 <= k < |r| ==> r[k] == if points[k].Working? then Waiting else points[k]
  {
    if points == [] then []
    else [if points[0].Working? then Waiting else points[0]] + Requeued(points[1..])
  }

  function Fail(job: Job, code: ErrorCode): Job {
    var ended := if job.status.Running? then EndAttempt(job, Lost, Some(code)) else job;
    ended.(
      points := Closed(job.points, if code.DeadlineExceeded? then TimedOut else Broken),
      status := Failed, error := Some(code), lease := None)
  }

  /** Back to the queue. */
  function Requeue(job: Job): Job { job.(status := Queued, lease := None, points := Requeued(job.points)) }

  /** An expired lease found by another worker. */
  function Recover(job: Job, at: Time): Job {
    if job.deadline <= at then Fail(job, DeadlineExceeded)
    else if job.attempt >= MAX_ATTEMPTS then Fail(job, AttemptsExhausted)
    else Requeue(EndAttempt(job, Expired, Some(LeaseExpired)))
  }

  predicate Owns(job: Job, claim: Claim, at: Time) {
    job.status.Running? && job.lease.Some? && job.lease.value.token == claim.token && job.attempt == claim.attempt
    && job.lease.value.expiresAt > at && job.deadline > at
  }

  /** The transaction commits only if its end precedes both the lease it started with and the deadline. */
  predicate InTime(job: Job, end: Time)
    requires job.lease.Some?
  {
    end < job.lease.value.expiresAt && end < job.deadline
  }

  function Started(job: Job, worker: int, leaseMs: int, token: Token, later: Time): Job {
    job.(
      status := Running, attempt := job.attempt + 1,
      lease := Some(Lease(token, worker, Min(job.deadline, later + leaseMs * MILLISECOND))),
      attempts := job.attempts + [Attempt(job.attempt + 1, token, worker, Open, None)])
  }

  predicate FactoryBusy(s: Jobs, factory: FactoryId) {
    exists id :: id in s.jobs && s.jobs[id].factory == factory && s.jobs[id].status.Running?
  }

  /** One candidate of a claim; candidates come from an unlocked read and may be anything. */
  function ClaimOne(s: Jobs, id: JobId, worker: int, leaseMs: int, token: Token, at: Time, later: Time): (Jobs, Reply) {
    if id !in s.jobs then (s, Conflict)
    else
      var job := s.jobs[id];
      if Terminal(job.status) then (s, Nothing)
      else if job.status.Running? && job.lease.Some? && job.lease.value.expiresAt > at then (s, Nothing)
      else
        var row := if job.status.Running? then Recover(job, at) else job;
        var recovered := s.(jobs := s.jobs[id := row]);
        if !row.status.Queued? then (recovered, Nothing)
        else if row.deadline <= at || row.attempt >= MAX_ATTEMPTS then
          (s.(jobs := s.jobs[id := Fail(row, if row.deadline <= at then DeadlineExceeded else AttemptsExhausted)]),
           Nothing)
        else if FactoryBusy(recovered, row.factory) then (recovered, Nothing)
        else
          (Jobs(s.jobs[id := Started(row, worker, leaseMs, token, later)], s.issued + {token}),
           Claimed(Claim(id, token, row.attempt + 1)))
  }

  /** A job the unlocked query proposed, with the token and clock readings of its transaction. */
  datatype Candidate = Candidate(id: JobId, token: Token, at: Time, later: Time)

  /** Candidates in turn until one is claimed or has vanished. */
  function ClaimFirst(s: Jobs, candidates: seq<Candidate>, worker: int, leaseMs: int): (Jobs, Reply)
    decreases |candidates|
  {
    if candidates == [] then (s, Nothing)
    else
      var c := candidates[0];
      var (next, reply) := ClaimOne(s, c.id, worker, leaseMs, c.token, c.at, c.later);
      if reply.Nothing? then ClaimFirst(next, candidates[1..], worker, leaseMs) else (next, reply)
  }

  /** A fenced write of `next` over the claimed job. */
  function Fenced(s: Jobs, claim: Claim, next: Job, at: Time, end: Time): (Jobs, Reply) {
    if claim.id !in s.jobs || !Owns(s.jobs[claim.id], claim, at) || !InTime(s.jobs[claim.id], end) then (s, Conflict)
    else (s.(jobs := s.jobs[claim.id := next]), Done)
  }

  function Extended(job: Job, leaseMs: int, mid: Time): Job
    requires job.lease.Some?
  {
    job.(lease := Some(job.lease.value.(expiresAt := Min(job.deadline, mid + leaseMs * MILLISECOND))))
  }

  function AfterHeartbeat(s: Jobs, claim: Claim, leaseMs: int, at: Time, mid: Time, end: Time): (Jobs, Reply) {
    if claim.id in s.jobs && s.jobs[claim.id].lease.Some?
      then Fenced(s, claim, Extended(s.jobs[claim.id], leaseMs, mid), at, end)
    else (s, Conflict)
  }

  function Stopped(job: Job): Job {
    var ended := EndAttempt(job, Lost, Some(WorkerStopped));
    var idle := ended.(points := Requeued(job.points));
    if job.attempt >= MAX_ATTEMPTS then Fail(idle, AttemptsExhausted) else Requeue(idle)
  }

  function AfterRelease(s: Jobs, claim: Claim, at: Time, end: Time): (Jobs, Reply) {
    if claim.id in s.jobs then Fenced(s, claim, Stopped(s.jobs[claim.id]), at, end) else (s, Conflict)
  }

  /** The engine's outcome for each point, by index. */
  function Evaluated(points: seq<PointStatus>, outcomes: map<nat, PointStatus>, n: nat): Option<seq<PointStatus>>
    requires n <= |points|
  {
    if n == 0 then Some([])
    else
      var before := Evaluated(points, outcomes, n - 1);
      if before.None? || n - 1 !in outcomes then None else Some(before.value + [outcomes[n - 1]])
  }

  function AfterPersist(
    s: Jobs, claim: Claim, result: int, outcomes: map<nat, PointStatus>, at: Time, end: Time): (Jobs, Reply) {
    if claim.id !in s.jobs || !Owns(s.jobs[claim.id], claim, at) then (s, Conflict)
    else
      var job := s.jobs[claim.id];
      var points := Evaluated(job.points, outcomes, |job.points|);
      if points.None? then (s, Invalid)
      else
        Fenced(s, claim,
               EndAttempt(job, Won, None).(points := points.value, status := Succeeded, result := Some(result),
                                           lease := None),
               at, end)
  }

  function Rejected(job: Job, retryable: bool, code: int, mid: Time): Job {
    if retryable && job.attempt < MAX_ATTEMPTS && job.deadline > mid
      then EndAttempt(job, Lost, Some(EngineError(code))).(status := Queued, lease := None)
    else Fail(job, EngineError(code))
  }

  function AfterReject(
    s: Jobs, claim: Claim, retryable: bool, code: int, at: Time, mid: Time, end: Time): (Jobs, Reply) {
    if claim.id in s.jobs then Fenced(s, claim, Rejected(s.jobs[claim.id], retryable, code, mid), at, end)
    else (s, Conflict)
  }

  function Enqueue(s: Jobs, id: JobId, factory: FactoryId, deadline: Time, points: nat): (Jobs, Reply) {
    (s.(jobs := s.jobs[id := Job(factory, Queued, 0, None, deadline, None, None, [], seq(points, _ => Waiting))]), Done)
  }

  lemma EvaluatedStaysNone(points: seq<PointStatus>, outcomes: map<nat, PointStatus>, n: nat, m: nat)
    requires n <= m <= |points| && Evaluated(points, outcomes, n).None?
    ensures Evaluated(points, outcomes, m).None?
    decreases m
  {
    if n < m { EvaluatedStaysNone(points, outcomes, n, m - 1); }
  }
}
