/**
 The triggers and CHECK constraints of the scenario tables, and that no reachable step is
 stopped by one: every row a step writes may be written.
 */
module ScenarioGuards {
  import opened Collections
  import opened ScenarioLease
  import opened ScenarioLaws

  /** The BEFORE UPDATE trigger of the job table. */
  predicate JobGuard(before: Job, after: Job) {
    && !Terminal(before.status)
    && after.factory == before.factory && after.deadline == before.deadline
    && before.attempt <= after.attempt <= before.attempt + 1
    && (after.attempt != before.attempt ==> before.status.Queued? && after.status.Running?)
    && (before.status.Queued? ==> after.status.Running? || after.status.Failed?)
    && (before.status.Queued? && after.status.Running? ==> after.attempt == before.attempt + 1)
    && (before.status.Running? && after.status.Running? ==>
          && before.lease.Some? && after.lease.Some?
          && after.lease.value.token == before.lease.value.token)
  }

  /** The trigger of the attempt table: an open attempt is closed, and nothing else about it changes. */
  predicate AttemptGuard(before: Attempt, after: Attempt) {
    && before.status.Open? && !after.status.Open?
    && after.number == before.number && after.token == before.token && after.worker == before.worker
  }

  /** Each attempt row stays or passes its trigger; at most one is inserted, open and under the next number. */
  predicate AttemptsAllowed(before: seq<Attempt>, after: seq<Attempt>) {
    && |before| <= |after| <= |before| + 1
    && (forall k :: 0 <= k < |before| ==> after[k] == before[k] || AttemptGuard(before[k], after[k]))
    && (|after| > |before| ==> after[|before|].status.Open? && after[|before|].number == |before| + 1)
  }

  /** The trigger of the point table: only a pending point may be written. */
  predicate PointsAllowed(before: seq<PointStatus>, after: seq<PointStatus>) {
    |after| == |before| && forall k :: 0 <= k < |before| ==> after[k] == before[k] || Pending(before[k])
  }

  /** The rows of a job may be written as they are. */
  predicate Allowed(before: Job, after: Job) {
    before == after
    || (JobGuard(before, after) && AttemptsAllowed(before.attempts, after.attempts)
        && PointsAllowed(before.points, after.points))
  }

  /** The CHECK constraints of the job and attempt tables that read their state. */
  predicate ChecksHold(job: Job) {
    && 0 <= job.attempt <= MAX_ATTEMPTS
    && (job.status.Running? <==> job.lease.Some?)
    && (job.status.Succeeded? <==> job.result.Some?)
    && (job.status.Failed? <==> job.error.Some?)
    && (forall k :: 0 <= k < |job.attempts| ==> 1 <= job.attempts[k].number <= MAX_ATTEMPTS)
  }

  /** A row that was written twice in one transaction, or once: `middle` is the state in between. */
  predicate Written(before: Job, middle: Job, after: Job) {
    Allowed(before, middle) && Allowed(middle, after) && ChecksHold(middle) && ChecksHold(after)
  }

  lemma SoundPassesChecks(job: Job)
    requires JobSound(job)
    ensures ChecksHold(job)
  {
  }

  lemma FailIsAllowed(job: Job, code: ErrorCode)
    requires JobSound(job) && !Terminal(job.status)
    ensures Allowed(job, Fail(job, code)) && JobSound(Fail(job, code))
  {
    FailIsSound(job, code);
  }

  lemma RequeueIsAllowed(job: Job, status: AttemptStatus, error: Option<ErrorCode>)
    requires JobSound(job) && job.status.Running? && job.attempt < MAX_ATTEMPTS && !status.Open?
    ensures var next := EndAttempt(job, status, error).(status := Queued, lease := None);
            Allowed(job, next) && JobSound(next)
    ensures var next := Requeue(EndAttempt(job, status, error)); Allowed(job, next) && JobSound(next)
  {
    RequeueIsSound(job, status, error);
  }

  lemma RecoverIsAllowed(job: Job, at: Time)
    requires JobSound(job) && job.status.Running?
    ensures Allowed(job, Recover(job, at)) && JobSound(Recover(job, at))
  {
    RecoverIsSound(job, at);
    FailIsAllowed(job, DeadlineExceeded);
    FailIsAllowed(job, AttemptsExhausted);
    if job.attempt < MAX_ATTEMPTS { RequeueIsAllowed(job, Expired, Some(LeaseExpired)); }
  }

  lemma StoppedIsAllowed(job: Job)
    requires JobSound(job) && job.status.Running?
    ensures Allowed(job, Stopped(job)) && JobSound(Stopped(job))
  {
    StoppedIsSound(job);
  }

  lemma StartedIsAllowed(job: Job, worker: int, leaseMs: int, token: Token, later: Time)
    requires JobSound(job) && job.status.Queued?
    ensures Allowed(job, Started(job, worker, leaseMs, token, later))
    ensures JobSound(Started(job, worker, leaseMs, token, later))
  {
    StartedIsSound(job, worker, leaseMs, token, later);
  }

  /** A claim writes the recovered row first, if its job was running, and then the started or failed one. */
  lemma ClaimIsAllowed(s: Jobs, step: Step) returns (middle: Job)
    requires Sound(s) && Admissible(s, step) && step.ClaimStep? && step.id in s.jobs
    ensures step.id in Next(s, step).0.jobs
    ensures Allowed(s.jobs[step.id], middle) && Allowed(middle, Next(s, step).0.jobs[step.id])
    ensures JobSound(middle) && JobSound(Next(s, step).0.jobs[step.id])
  {
    hide JobSound, Allowed, Recover, Fail, Started;
    var job, t := s.jobs[step.id], Next(s, step).0;
    NoWriteIsAllowed(job);
    middle := job;
    if t != s {
      if job.status.Running? {
        RecoverIsAllowed(job, step.at);
        middle := Recover(job, step.at);
        NoWriteIsAllowed(middle);
      }
      if middle.status.Queued? {
        StartedIsAllowed(middle, step.worker, step.leaseMs, step.token, step.later);
        FailIsAllowed(middle, DeadlineExceeded);
        FailIsAllowed(middle, AttemptsExhausted);
      }
    }
  }

  lemma NoWriteIsAllowed(job: Job)
    ensures Allowed(job, job)
  {
  }

  /** The fenced steps write their job's row once. */
  lemma FencedWriteIsAllowed(s: Jobs, step: Step)
    requires step.HeartbeatStep? || step.ReleaseStep? || step.PersistStep? || step.RejectStep?
    requires Sound(s) && Admissible(s, step) && Next(s, step).0 != s && step.claim.id in s.jobs
    ensures step.claim.id in Next(s, step).0.jobs
    ensures Allowed(s.jobs[step.claim.id], Next(s, step).0.jobs[step.claim.id])
  {
    var job := s.jobs[step.claim.id];
    match step
    case HeartbeatStep(_, _, _, _, _) =>
    case ReleaseStep(_, _, _) => StoppedIsAllowed(job);
    case PersistStep(_, _, outcomes, _, _) => EvaluatedIsFinal(job.points, outcomes, |job.points|);
    case RejectStep(_, _, code, _, _, _) =>
      FailIsAllowed(job, EngineError(code));
      if job.attempt < MAX_ATTEMPTS { RequeueIsAllowed(job, Lost, Some(EngineError(code))); }
  }

  /** Results are written over pending points only, so no final point is ever rewritten. */
  lemma PersistWritesPendingPoints(s: Jobs, step: Step)
    requires Sound(s) && step.PersistStep? && Next(s, step).1.Done?
    ensures step.claim.id in s.jobs
    ensures forall k :: 0 <= k < |s.jobs[step.claim.id].points| ==> Pending(s.jobs[step.claim.id].points[k])
  {
    assert JobSound(s.jobs[step.claim.id]);
  }

  lemma OtherJobsStay(s: Jobs, step: Step, id: JobId)
    requires Admissible(s, step) && id in s.jobs
    requires step.EnqueueStep? || (if step.ClaimStep? then step.id != id else step.claim.id != id)
    ensures id in Next(s, step).0.jobs && Next(s, step).0.jobs[id] == s.jobs[id]
  {
    if step.EnqueueStep? {
      assert step.id != id;
    }
  }

  /** One step from a sound state: every row it writes passes triggers and CHECKs. */
  lemma StepIsAllowed(s: Jobs, step: Step, id: JobId) returns (middle: Job)
    requires Sound(s) && Admissible(s, step) && id in s.jobs
    ensures id in Next(s, step).0.jobs && Written(s.jobs[id], middle, Next(s, step).0.jobs[id])
  {
    hide Next, Allowed, JobSound, TokensSound, OneRunning;
    StepStaysSound(s, step);
    middle := s.jobs[id];
    NoWriteIsAllowed(middle);
    if step.EnqueueStep? || (if step.ClaimStep? then step.id != id else step.claim.id != id) {
      OtherJobsStay(s, step, id);
    } else if step.ClaimStep? {
      middle := ClaimIsAllowed(s, step);
    } else if Next(s, step).0 != s {
      FencedWriteIsAllowed(s, step);
    }
    SoundPassesChecks(middle);
    SoundPassesChecks(Next(s, step).0.jobs[id]);
  }

  /** No step of any run is stopped by a trigger or CHECK of the scenario tables. */
  lemma GuardsNeverFire(steps: seq<Step>, now: Time, step: Step, id: JobId)
    requires Runs(NOTHING, steps, now) && Admissible(After(NOTHING, steps), step)
    requires id in After(NOTHING, steps).jobs
    ensures var s := After(NOTHING, steps);
            && id in Next(s, step).0.jobs
            && exists middle :: Written(s.jobs[id], middle, Next(s, step).0.jobs[id])
    ensures Sound(Next(After(NOTHING, steps), step).0)
  {
    hide Next, Sound, Written;
    ReachableJobsAreSound(steps, now);
    StepStaysSound(After(NOTHING, steps), step);
    var middle := StepIsAllowed(After(NOTHING, steps), step, id);
  }
}
