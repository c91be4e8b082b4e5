/** What a claim takes and what it leaves alone: the protection of a live lease, and each step's outcome. */
module ScenarioClaims {
  import opened Collections
  import opened ScenarioLease
  import opened ScenarioLaws

  // The live lease ------------------------------------------------------------------------------

  /** A worker holds the job, and its lease outlives `at`. */
  predicate Live(s: Jobs, id: JobId, at: Time) {
    && id in s.jobs && s.jobs[id].status == Running
    && s.jobs[id].lease.Some? && at < s.jobs[id].lease.value.expiresAt
  }

  /** The step presents the token and attempt under which the job runs. */
  predicate ByHolder(s: Jobs, id: JobId, step: Step)
    requires id in s.jobs && s.jobs[id].lease.Some?
  {
    && (step.HeartbeatStep? || step.ReleaseStep? || step.PersistStep? || step.RejectStep?)
    && step.claim.id == id && step.claim.token == s.jobs[id].lease.value.token
    && step.claim.attempt == s.jobs[id].attempt
  }

  /** Nobody claims a job under a live lease: the answer is nothing, and nothing changes. */
  lemma LiveLeaseIsProtected(s: Jobs, step: Step)
    requires step.ClaimStep? && Live(s, step.id, step.at)
    ensures Next(s, step) == (s, Nothing)
  {
  }

  /** A step that is not the holder's leaves the running job as it is. */
  lemma OthersLeaveItAlone(s: Jobs, step: Step, id: JobId)
    requires Live(s, id, step.at) && Admissible(s, step) && !ByHolder(s, id, step)
    ensures id in Next(s, step).0.jobs && Next(s, step).0.jobs[id] == s.jobs[id]
  {
    hide Fail, Requeue, Recover, Started, Evaluated, Rejected, Stopped, FactoryBusy;
    if step.ClaimStep? && step.id == id { LiveLeaseIsProtected(s, step); }
  }

  /** No step of the run is the holder's, and none starts after its lease. */
  ghost predicate WithoutHolder(s: Jobs, steps: seq<Step>, id: JobId)
    requires id in s.jobs && s.jobs[id].lease.Some?
  {
    forall k :: 0 <= k < |steps| ==>
      !ByHolder(s, id, steps[k]) && steps[k].at < s.jobs[id].lease.value.expiresAt
  }

  /** Until its lease expires a running job changes only by its holder, whatever all others do. */
  lemma {:induction false} OnlyHolderChanges(s: Jobs, steps: seq<Step>, now: Time, id: JobId)
    requires Runs(s, steps, now) && Live(s, id, now) && WithoutHolder(s, steps, id)
    ensures id in After(s, steps).jobs && After(s, steps).jobs[id] == s.jobs[id]
    decreases |steps|
  {
    hide Next;
    if steps != [] {
      assert !ByHolder(s, id, steps[0]) && steps[0].at < s.jobs[id].lease.value.expiresAt;
      OthersLeaveItAlone(s, steps[0], id);
      var t := Next(s, steps[0]).0;
      forall k | 0 <= k < |steps[1..]|
        ensures !ByHolder(t, id, steps[1..][k]) && steps[1..][k].at < t.jobs[id].lease.value.expiresAt
      {
        assert steps[1..][k] == steps[k + 1];
      }
      OnlyHolderChanges(t, steps[1..], steps[0].at, id);
    }
  }

  // Outcomes ------------------------------------------------------------------------------------

  lemma {:induction false} EvaluatedByIndex(points: seq<PointStatus>, outcomes: map<nat, PointStatus>, n: nat)
    requires n <= |points|
    ensures Evaluated(points, outcomes, n).Some? <==> forall k: nat :: k < n ==> k in outcomes
    ensures Evaluated(points, outcomes, n).Some? ==>
              |Evaluated(points, outcomes, n).value| == n
              && forall k: nat :: k < n ==> k in outcomes && Evaluated(points, outcomes, n).value[k] == outcomes[k]
  {
    if n > 0 { EvaluatedByIndex(points, outcomes, n - 1); }
  }

  /** The claim is in force at `at`, and the transaction ends before the lease and the deadline. */
  predicate InForce(s: Jobs, claim: Claim, at: Time, end: Time) {
    && Live(s, claim.id, at) && at < s.jobs[claim.id].deadline
    && s.jobs[claim.id].lease.value.token == claim.token && s.jobs[claim.id].attempt == claim.attempt
    && end < s.jobs[claim.id].lease.value.expiresAt && end < s.jobs[claim.id].deadline
  }

  /** The job after its current attempt has ended as `status`. */
  function Concluded(job: Job, status: AttemptStatus, error: Option<ErrorCode>): seq<Attempt>
    requires |job.attempts| == job.attempt >= 1
  {
    job.attempts[job.attempt - 1 := job.attempts[job.attempt - 1].(status := status, error := error)]
  }

  lemma EndedIsConcluded(job: Job, status: AttemptStatus, error: Option<ErrorCode>)
    requires JobSound(job) && job.status == Running
    ensures EndAttempt(job, status, error) == job.(attempts := Concluded(job, status, error))
  {
    assert EndAttempt(job, status, error).attempts == Concluded(job, status, error);
  }

  /** Outstanding points of the job get `status`. */
  function Settled(points: seq<PointStatus>, status: PointStatus): seq<PointStatus> {
    seq(|points|, k requires 0 <= k < |points| => if points[k] in {Waiting, Working} then status else points[k])
  }

  function Returned(points: seq<PointStatus>): seq<PointStatus> {
    seq(|points|, k requires 0 <= k < |points| => if points[k] == Working then Waiting else points[k])
  }

  /** The holder's result, in time and complete, is stored point by point and wins the attempt. */
  lemma PersistIsExact(s: Jobs, step: Step)
    requires step.PersistStep? && step.claim.id in s.jobs && JobSound(s.jobs[step.claim.id])
    ensures var job := s.jobs[step.claim.id];
            var complete := forall k: nat :: k < |job.points| ==> k in step.outcomes;
            && (Next(s, step).1 == Done <==> InForce(s, step.claim, step.at, step.end) && complete)
            && (Next(s, step).1 == Done ==>
                  Next(s, step).0 == s.(jobs := s.jobs[step.claim.id := job.(
                    status := Succeeded, lease := None, result := Some(step.result),
                        attempts := Concluded(job, Won, None),
                    points := seq(|job.points|, k requires 0 <= k < |job.points| && complete => step.outcomes[k]))]))
            && (Next(s, step).1 != Done ==> Next(s, step).0 == s)
  {
    hide Evaluated, EndAttempt, AttemptsSound;
    var job := s.jobs[step.claim.id];
    EvaluatedByIndex(job.points, step.outcomes, |job.points|);
    if job.status == Running { EndedIsConcluded(job, Won, None); RunningHasAttempts(job); }
    if Evaluated(job.points, step.outcomes, |job.points|).Some? {
      var complete := forall k: nat :: k < |job.points| ==> k in step.outcomes;
      assert Evaluated(job.points, step.outcomes, |job.points|).value ==
        seq(|job.points|, k requires 0 <= k < |job.points| && complete => step.outcomes[k]);
    }
  }

  lemma RunningHasAttempts(job: Job)
    requires JobSound(job) && job.status == Running
    ensures |job.attempts| == job.attempt >= 1 && job.lease.Some?
  {
  }

  /** The holder's heartbeat moves the expiry to the lease length from now, never past the deadline. */
  lemma HeartbeatIsExact(s: Jobs, step: Step)
    requires step.HeartbeatStep? && step.claim.id in s.jobs
    ensures Next(s, step).1 == Done <==> InForce(s, step.claim, step.at, step.end)
    ensures Next(s, step).1 != Done ==> Next(s, step).0 == s
    ensures Next(s, step).1 == Done ==>
              var job, until := s.jobs[step.claim.id], step.mid + step.leaseMs * 1000;
              Next(s, step).0 == s.(jobs := s.jobs[step.claim.id := job.(
                lease := Some(job.lease.value.(expiresAt := if until < job.deadline then until else job.deadline)))])
  {
  }

  /** A job that fails: outstanding points are settled, a running attempt is lost. */
  function Failure(job: Job, code: ErrorCode): Job
    requires job.status == Running ==> |job.attempts| == job.attempt >= 1
  {
    job.(
      status := Failed, error := Some(code), lease := None,
      attempts := if job.status == Running then Concluded(job, Lost, Some(code)) else job.attempts,
      points := Settled(job.points, if code == DeadlineExceeded then TimedOut else Broken))
  }

  lemma FailIsFailure(job: Job, code: ErrorCode)
    requires JobSound(job)
    ensures job.status == Running ==> |job.attempts| == job.attempt >= 1
    ensures Fail(job, code) == Failure(job, code)
  {
    hide EndAttempt;
    if job.status == Running { EndedIsConcluded(job, Lost, Some(code)); }
    assert Closed(job.points, if code.DeadlineExceeded? then TimedOut else Broken) ==
           Settled(job.points, if code == DeadlineExceeded then TimedOut else Broken);
  }

  /**
   An error of the engine requeues the job if it may be retried, attempts remain and time does;
   otherwise it fails.
   */
  lemma RejectIsExact(s: Jobs, step: Step)
    requires step.RejectStep? && step.claim.id in s.jobs && JobSound(s.jobs[step.claim.id])
    ensures Next(s, step).1 == Done <==> InForce(s, step.claim, step.at, step.end)
    ensures Next(s, step).1 != Done ==> Next(s, step).0 == s
    ensures Next(s, step).1 == Done ==>
              var job, code := s.jobs[step.claim.id], EngineError(step.code);
              && |job.attempts| == job.attempt >= 1
              && Next(s, step).0 == s.(jobs := s.jobs[step.claim.id :=
                   if step.retryable && job.attempt < 3 && step.mid < job.deadline
                   then job.(status := Queued, lease := None, attempts := Concluded(job, Lost, Some(code)))
                   else Failure(job, code)])
  {
    hide EndAttempt, Fail, Failure, JobSound;
    var job := s.jobs[step.claim.id];
    FailIsFailure(job, EngineError(step.code));
    if job.status == Running {
      RunningHasAttempts(job);
      EndedIsConcluded(job, Lost, Some(EngineError(step.code)));
    }
  }

  /** A worker that stops gives its job back, or fails it after its third attempt. */
  lemma ReleaseIsExact(s: Jobs, step: Step)
    requires step.ReleaseStep? && step.claim.id in s.jobs && JobSound(s.jobs[step.claim.id])
    ensures Next(s, step).1 == Done <==> InForce(s, step.claim, step.at, step.end)
    ensures Next(s, step).1 != Done ==> Next(s, step).0 == s
    ensures Next(s, step).1 == Done ==>
              var job := s.jobs[step.claim.id];
              && |job.attempts| == job.attempt >= 1
              && var ended := Concluded(job, Lost, Some(WorkerStopped));
                 Next(s, step).0.jobs == s.jobs[step.claim.id :=
                   if job.attempt < 3
                   then job.(status := Queued, lease := None, attempts := ended, points := Returned(job.points))
                   else job.(status := Failed, lease := None, error := Some(AttemptsExhausted), attempts := ended,
                             points := Settled(job.points, Broken))]
  {
    var job := s.jobs[step.claim.id];
    if Next(s, step).1 == Done { StoppedByCount(job); }
  }

  lemma StoppedByCount(job: Job)
    requires JobSound(job) && job.status == Running
    ensures |job.attempts| == job.attempt >= 1
    ensures var ended := Concluded(job, Lost, Some(WorkerStopped));
            Stopped(job) ==
              if job.attempt < 3
              then job.(status := Queued, lease := None, attempts := ended, points := Returned(job.points))
              else job.(status := Failed, lease := None, error := Some(AttemptsExhausted), attempts := ended,
                        points := Settled(job.points, Broken))
  {
    RunningHasAttempts(job);
    EndedIsConcluded(job, Lost, Some(WorkerStopped));
    var ended := job.(attempts := Concluded(job, Lost, Some(WorkerStopped)));
    assert Requeued(job.points) == Returned(job.points);
    assert Requeued(Requeued(job.points)) == Returned(job.points);
    assert Closed(Requeued(job.points), Broken) == Settled(job.points, Broken);
    assert Ended(ended.attempts, job.attempt, job.lease.value.token, Lost, Some(AttemptsExhausted)) == ended.attempts;
  }

  // Claims --------------------------------------------------------------------------------------

  /** A running job found after its lease: out of time, out of attempts, or back in the queue. */
  function Recovered(job: Job, at: Time): Job
    requires job.status == Running && |job.attempts| == job.attempt >= 1
  {
    if job.deadline <= at then Failure(job, DeadlineExceeded)
    else if job.attempt >= 3 then Failure(job, AttemptsExhausted)
    else job.(status := Queued, lease := None, attempts := Concluded(job, Expired, Some(LeaseExpired)),
              points := Returned(job.points))
  }

  lemma RecoverIsRecovered(job: Job, at: Time)
    requires JobSound(job) && job.status == Running
    ensures |job.attempts| == job.attempt >= 1 && Recover(job, at) == Recovered(job, at)
  {
    hide Failure, Fail, EndAttempt;
    RunningHasAttempts(job);
    FailIsFailure(job, DeadlineExceeded);
    FailIsFailure(job, AttemptsExhausted);
    EndedIsConcluded(job, Expired, Some(LeaseExpired));
    assert Requeued(job.points) == Returned(job.points);
  }

  /** A queued job is claimed if time and attempts remain and its factory is idle; out of either it fails. */
  predicate Claimable(s: Jobs, job: Job, at: Time) {
    && job.status == Queued && at < job.deadline && job.attempt < 3
    && forall other :: other in s.jobs && s.jobs[other].status == Running ==> s.jobs[other].factory != job.factory
  }

  /** The job in the hands of the claimant. */
  function Taken(job: Job, worker: int, leaseMs: int, token: Token, later: Time): Job {
    var until := later + leaseMs * 1000;
    job.(
      status := Running, attempt := job.attempt + 1,
      lease := Some(Lease(token, worker, if until < job.deadline then until else job.deadline)),
      attempts := job.attempts + [Attempt(job.attempt + 1, token, worker, Open, None)])
  }

  /** Claiming a queued job. */
  lemma ClaimOfQueuedIsExact(s: Jobs, step: Step)
    requires step.ClaimStep? && step.id in s.jobs && s.jobs[step.id].status == Queued && JobSound(s.jobs[step.id])
    ensures var job, t := s.jobs[step.id], Next(s, step).0;
            && (Claimable(s, job, step.at) ==>
                  && t.jobs == s.jobs[step.id := Taken(job, step.worker, step.leaseMs, step.token, step.later)]
                  && Next(s, step).1 == Claimed(Claim(step.id, step.token, job.attempt + 1)))
            && (job.deadline <= step.at ==> t.jobs == s.jobs[step.id := Failure(job, DeadlineExceeded)])
            && (!Claimable(s, job, step.at) ==> Next(s, step).1 == Nothing)
            && (step.at < job.deadline && !Claimable(s, job, step.at) ==> t.jobs == s.jobs)
  {
    hide Fail, Failure, JobSound;
    FailIsFailure(s.jobs[step.id], DeadlineExceeded);
    QueuedHasAttempts(s.jobs[step.id]);
    assert s.jobs[step.id := s.jobs[step.id]] == s.jobs;
  }

  lemma QueuedHasAttempts(job: Job)
    requires JobSound(job) && job.status == Queued
    ensures job.attempt < 3
  {
  }

  /** Claiming a running job after its lease: it is recovered, and taken if it can be. */
  lemma ClaimOfExpiredIsExact(s: Jobs, step: Step)
    requires step.ClaimStep? && step.id in s.jobs && s.jobs[step.id].status == Running
    requires Sound(s) && !Live(s, step.id, step.at)
    ensures var job, t := s.jobs[step.id], Next(s, step).0;
            && |job.attempts| == job.attempt >= 1
            && var row := Recovered(job, step.at);
               t.jobs == s.jobs[step.id :=
                 if row.status == Queued then Taken(row, step.worker, step.leaseMs, step.token, step.later) else row]
               && (Next(s, step).1 == Claimed(Claim(step.id, step.token, job.attempt + 1)) <==> row.status == Queued)
  {
    var job := s.jobs[step.id];
    RunningHasAttempts(job);
    RecoverIsRecovered(job, step.at);
    IdleWithoutIt(s, step.id, Recovered(job, step.at));
    hide Recover, Recovered, Failure, Sound, FactoryBusy;
    RecoveredIsOpen(job, step.at);
  }

  lemma RecoveredIsOpen(job: Job, at: Time)
    requires job.status == Running && |job.attempts| == job.attempt >= 1
    ensures var row := Recovered(job, at);
            && row.factory == job.factory && row.attempt == job.attempt && row.deadline == job.deadline
            && (row.status == Queued <==> at < job.deadline && job.attempt < 3)
            && row.status != Running
  {
  }

  /** With one running job per factory, the factory is idle once that job is recovered. */
  lemma IdleWithoutIt(s: Jobs, id: JobId, row: Job)
    requires OneRunning(s) && id in s.jobs && s.jobs[id].status == Running
    ensures row.factory == s.jobs[id].factory && row.status != Running ==>
              !FactoryBusy(s.(jobs := s.jobs[id := row]), row.factory)
  {
    forall other | other in s.jobs && s.jobs[other].status == Running && s.jobs[other].factory == s.jobs[id].factory
      ensures other == id
    {
      assert RunsIn(s, other, s.jobs[id].factory) && RunsIn(s, id, s.jobs[id].factory);
    }
  }

  /** Jobs that are gone or have ended are not claimed. */
  lemma ClaimOfOthersIsRefused(s: Jobs, step: Step)
    requires step.ClaimStep?
    ensures step.id !in s.jobs ==> Next(s, step) == (s, Conflict)
    ensures step.id in s.jobs && s.jobs[step.id].status in {Succeeded, Failed} ==> Next(s, step) == (s, Nothing)
  {
  }

  function StepOf(c: Candidate, worker: int, leaseMs: int): Step {
    ClaimStep(c.id, worker, leaseMs, c.token, c.at, c.later)
  }

  /** The jobs after each candidate was tried once. */
  function Tried(s: Jobs, candidates: seq<Candidate>, worker: int, leaseMs: int): Jobs
    decreases |candidates|
  {
    if candidates == [] then s
    else Tried(Next(s, StepOf(candidates[0], worker, leaseMs)).0, candidates[1..], worker, leaseMs)
  }

  /** Candidates are tried in order up to the first one that is claimed or gone, and no further. */
  lemma {:induction false} ClaimNextTakesFirst(s: Jobs, candidates: seq<Candidate>, worker: int, leaseMs: int)
    returns (k: nat)
    ensures k <= |candidates|
    ensures forall i :: 0 <= i < k ==>
              Next(Tried(s, candidates[..i], worker, leaseMs), StepOf(candidates[i], worker, leaseMs)).1 == Nothing
    ensures ClaimFirst(s, candidates, worker, leaseMs) ==
              if k == |candidates| then (Tried(s, candidates, worker, leaseMs), Nothing)
              else Next(Tried(s, candidates[..k], worker, leaseMs), StepOf(candidates[k], worker, leaseMs))
    ensures k < |candidates| ==> ClaimFirst(s, candidates, worker, leaseMs).1 != Nothing
    decreases |candidates|
  {
    hide ClaimOne;
    if candidates == [] || Next(s, StepOf(candidates[0], worker, leaseMs)).1 != Nothing {
      k := 0;
    } else {
      var rest := candidates[1..];
      var n := ClaimNextTakesFirst(Next(s, StepOf(candidates[0], worker, leaseMs)).0, rest, worker, leaseMs);
      k := n + 1;
      assert forall i :: 0 < i <= |candidates| ==> candidates[..i][1..] == rest[..i - 1];
    }
  }

  /** A new job waits, whole, for its first attempt. */
  lemma EnqueuedWaits(s: Jobs, step: Step)
    requires step.EnqueueStep?
    ensures var t := Next(s, step).0;
            && step.id in t.jobs && t == s.(jobs := s.jobs[step.id := t.jobs[step.id]])
            && var job := t.jobs[step.id];
               && job.factory == step.factory && job.deadline == step.deadline
               && job.status == Queued && job.attempt == 0 && job.attempts == []
               && job.lease == None && job.error == None && job.result == None
               && |job.points| == step.points && forall k :: 0 <= k < |job.points| ==> job.points[k] == Waiting
  {
  }
}
