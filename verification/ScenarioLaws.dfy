/** What holds of scenario jobs under any interleaving of workers. */
module ScenarioLaws {
  import opened Collections
  import opened ScenarioLease

  datatype Step =
    | EnqueueStep(id: JobId, factory: FactoryId, deadline: Time, points: nat, at: Time)
    | ClaimStep(id: JobId, worker: int, leaseMs: int, token: Token, at: Time, later: Time)
    | HeartbeatStep(claim: Claim, leaseMs: int, at: Time, mid: Time, end: Time)
    | ReleaseStep(claim: Claim, at: Time, end: Time)
    | PersistStep(claim: Claim, result: int, outcomes: map<nat, PointStatus>, at: Time, end: Time)
    | RejectStep(claim: Claim, retryable: bool, code: int, at: Time, mid: Time, end: Time)

  function Next(s: Jobs, step: Step): (Jobs, Reply) {
    match step
    case EnqueueStep(id, factory, deadline, points, _) => Enqueue(s, id, factory, deadline, points)
    case ClaimStep(id, worker, leaseMs, token, at, later) => ClaimOne(s, id, worker, leaseMs, token, at, later)
    case HeartbeatStep(claim, leaseMs, at, mid, end) => AfterHeartbeat(s, claim, leaseMs, at, mid, end)
    case ReleaseStep(claim, at, end) => AfterRelease(s, claim, at, end)
    case PersistStep(claim, result, outcomes, at, end) => AfterPersist(s, claim, result, outcomes, at, end)
    case RejectStep(claim, retryable, code, at, mid, end) => AfterReject(s, claim, retryable, code, at, mid, end)
  }

  /** Fresh identifiers and tokens; every job has points; the engine reports final outcomes. */
  predicate Admissible(s: Jobs, step: Step) {
    && (step.EnqueueStep? ==> step.id !in s.jobs && step.points > 0)
    && (step.ClaimStep? ==> step.token !in s.issued && step.at <= step.later)
    && (step.PersistStep? ==> forall k :: k in step.outcomes ==> !Pending(step.outcomes[k]))
  }

  /** A run whose steps start no earlier than `now` and in order. */
  ghost predicate Runs(s: Jobs, steps: seq<Step>, now: Time)
    decreases |steps|
  {
    steps == []
    || (Admissible(s, steps[0]) && now <= steps[0].at && Runs(Next(s, steps[0]).0, steps[1..], steps[0].at))
  }

  ghost function After(s: Jobs, steps: seq<Step>): Jobs
    decreases |steps|
  {
    if steps == [] then s else After(Next(s, steps[0]).0, steps[1..])
  }

  const NOTHING: Jobs := Jobs(map[], {})

  // The invariant -------------------------------------------------------------------------------

  /** Attempts are numbered 1..n; only the last may be open, exactly while the job runs under its token. */
  predicate AttemptsSound(job: Job) {
    && 0 <= job.attempt <= MAX_ATTEMPTS
    && |job.attempts| == job.attempt
    && (forall k :: 0 <= k < |job.attempts| ==> job.attempts[k].number == k + 1)
    && (forall k :: 0 <= k < |job.attempts| ==>
          (job.attempts[k].status.Open? <==> job.status.Running? && k == |job.attempts| - 1))
    && (job.status.Running? ==>
          && job.attempt >= 1 && job.lease.Some?
          && job.attempts[job.attempt - 1].token == job.lease.value.token
          && job.attempts[job.attempt - 1].worker == job.lease.value.worker)
  }

  /** Lease exactly while running and within the deadline; points final exactly when the job is. */
  predicate JobSound(job: Job) {
    && AttemptsSound(job)
    && (job.lease.Some? <==> job.status.Running?)
    && (job.lease.Some? ==> job.lease.value.expiresAt <= job.deadline)
    && (job.status.Queued? ==> job.attempt < MAX_ATTEMPTS)
    && (job.status.Failed? <==> job.error.Some?)
    && (job.status.Succeeded? <==> job.result.Some?)
    && |job.points| > 0
    && (forall k :: 0 <= k < |job.points| ==> (Pending(job.points[k]) <==> !Terminal(job.status)))
  }

  predicate Drew(s: Jobs, id: JobId, k: int, token: Token) {
    id in s.jobs && 0 <= k < |s.jobs[id].attempts| && s.jobs[id].attempts[k].token == token
  }

  /** Every attempt of every job has its own token. */
  ghost predicate TokensSound(s: Jobs) {
    && (forall id, k, token :: Drew(s, id, k, token) ==> token in s.issued)
    && (forall i, k, j, l, token :: Drew(s, i, k, token) && Drew(s, j, l, token) ==> i == j && k == l)
  }

  predicate RunsIn(s: Jobs, id: JobId, factory: FactoryId) {
    id in s.jobs && s.jobs[id].factory == factory && s.jobs[id].status.Running?
  }

  ghost predicate OneRunning(s: Jobs) {
    forall i, j, f :: RunsIn(s, i, f) && RunsIn(s, j, f) ==> i == j
  }

  ghost predicate Sound(s: Jobs) {
    (forall id :: id in s.jobs ==> JobSound(s.jobs[id])) && TokensSound(s) && OneRunning(s)
  }

  // What each write does to one job -------------------------------------------------------------

  predicate SameTokens(a: seq<Attempt>, b: seq<Attempt>) {
    |a| == |b| && forall k :: 0 <= k < |a| ==> a[k].token == b[k].token
  }

  lemma FailIsSound(job: Job, code: ErrorCode)
    requires JobSound(job) && !Terminal(job.status)
    ensures JobSound(Fail(job, code)) && SameTokens(Fail(job, code).attempts, job.attempts)
    ensures Fail(job, code).factory == job.factory
  {
  }

  lemma RequeueIsSound(job: Job, status: AttemptStatus, error: Option<ErrorCode>)
    requires JobSound(job) && job.status.Running? && job.attempt < MAX_ATTEMPTS && !status.Open?
    ensures var next := EndAttempt(job, status, error).(status := Queued, lease := None);
            JobSound(next) && SameTokens(next.attempts, job.attempts)
    ensures var next := Requeue(EndAttempt(job, status, error));
            JobSound(next) && SameTokens(next.attempts, job.attempts) && next.factory == job.factory
  {
  }

  lemma RecoverIsSound(job: Job, at: Time)
    requires JobSound(job) && job.status.Running?
    ensures JobSound(Recover(job, at)) && SameTokens(Recover(job, at).attempts, job.attempts)
    ensures Recover(job, at).factory == job.factory && !Recover(job, at).status.Running?
  {
    FailIsSound(job, DeadlineExceeded);
    FailIsSound(job, AttemptsExhausted);
    if job.attempt < MAX_ATTEMPTS { RequeueIsSound(job, Expired, Some(LeaseExpired)); }
  }

  lemma StoppedIsSound(job: Job)
    requires JobSound(job) && job.status.Running?
    ensures JobSound(Stopped(job)) && SameTokens(Stopped(job).attempts, job.attempts)
    ensures Stopped(job).factory == job.factory && !Stopped(job).status.Running?
  {
  }

  lemma {:induction false} EvaluatedIsFinal(points: seq<PointStatus>, outcomes: map<nat, PointStatus>, n: nat)
    requires n <= |points| && Evaluated(points, outcomes, n).Some?
    requires forall k :: k in outcomes ==> !Pending(outcomes[k])
    ensures |Evaluated(points, outcomes, n).value| == n
    ensures forall k :: 0 <= k < n ==> !Pending(Evaluated(points, outcomes, n).value[k])
  {
    if n > 0 { EvaluatedIsFinal(points, outcomes, n - 1); }
  }

  lemma StartedIsSound(job: Job, worker: int, leaseMs: int, token: Token, later: Time)
    requires JobSound(job) && job.status.Queued?
    ensures JobSound(Started(job, worker, leaseMs, token, later))
  {
  }

  // Preservation --------------------------------------------------------------------------------

  /** Only job `id` changed; it drew no token and did not start running. */
  ghost predicate OneJob(s: Jobs, t: Jobs, id: JobId) {
    && id in s.jobs && id in t.jobs && t.issued == s.issued
    && t.jobs == s.jobs[id := t.jobs[id]]
    && t.jobs[id].factory == s.jobs[id].factory
    && SameTokens(t.jobs[id].attempts, s.jobs[id].attempts)
    && (t.jobs[id].status.Running? ==> s.jobs[id].status.Running?)
  }

  lemma OneJobStaysSound(s: Jobs, t: Jobs, id: JobId)
    requires Sound(s) && OneJob(s, t, id) && JobSound(t.jobs[id])
    ensures Sound(t)
  {
    forall i, k, token | Drew(t, i, k, token) ensures token in t.issued {
      assert Drew(s, i, k, token);
    }
    forall i, k, j, l, token | Drew(t, i, k, token) && Drew(t, j, l, token) ensures i == j && k == l {
      assert Drew(s, i, k, token) && Drew(s, j, l, token);
    }
    forall i, j, f | RunsIn(t, i, f) && RunsIn(t, j, f) ensures i == j {
      assert RunsIn(s, i, f) && RunsIn(s, j, f);
    }
  }

  lemma StartStaysSound(s: Jobs, t: Jobs, id: JobId, worker: int, leaseMs: int, token: Token, later: Time)
    requires Sound(s) && id in s.jobs && s.jobs[id].status.Queued? && token !in s.issued
    requires !FactoryBusy(s, s.jobs[id].factory)
    requires t == Jobs(s.jobs[id := Started(s.jobs[id], worker, leaseMs, token, later)], s.issued + {token})
    ensures Sound(t)
  {
    StartedIsSound(s.jobs[id], worker, leaseMs, token, later);
    forall i, k, u | Drew(t, i, k, u) ensures u in t.issued {
      assert u == token || Drew(s, i, k, u);
    }
    forall i, k, j, l, u | Drew(t, i, k, u) && Drew(t, j, l, u) ensures i == j && k == l {
      if u != token { assert Drew(s, i, k, u) && Drew(s, j, l, u); }
      else { assert !Drew(s, i, k, u) && !Drew(s, j, l, u); }
    }
    forall i, j, f | RunsIn(t, i, f) && RunsIn(t, j, f) ensures i == j {
      assert i == id || RunsIn(s, i, f);
      assert j == id || RunsIn(s, j, f);
    }
  }

  lemma ClaimStaysSound(s: Jobs, step: Step)
    requires Sound(s) && Admissible(s, step) && step.ClaimStep?
    ensures Sound(Next(s, step).0)
  {
    var t := Next(s, step).0;
    if t != s {
      var job := s.jobs[step.id];
      if job.status.Running? { RecoverIsSound(job, step.at); }
      var row := if job.status.Running? then Recover(job, step.at) else job;
      var recovered := s.(jobs := s.jobs[step.id := row]);
      OneJobStaysSound(s, recovered, step.id);
      if t.jobs[step.id].status.Running? {
        assert t.jobs == recovered.jobs[step.id := t.jobs[step.id]];
        StartStaysSound(recovered, t, step.id, step.worker, step.leaseMs, step.token, step.later);
      } else if row.status.Queued? && t != recovered {
        FailIsSound(row, t.jobs[step.id].error.value);
        assert t.jobs == recovered.jobs[step.id := t.jobs[step.id]];
        OneJobStaysSound(recovered, t, step.id);
      }
    }
  }

  lemma FencedJobStaysSound(s: Jobs, step: Step)
    requires step.HeartbeatStep? || step.ReleaseStep? || step.PersistStep? || step.RejectStep?
    requires Admissible(s, step) && Next(s, step).0 != s
    requires step.claim.id in s.jobs && JobSound(s.jobs[step.claim.id])
    ensures OneJob(s, Next(s, step).0, step.claim.id) && JobSound(Next(s, step).0.jobs[step.claim.id])
  {
    hide Fail, Requeued, Stopped;
    var job := s.jobs[step.claim.id];
    match step
    case HeartbeatStep(_, _, _, _, _) =>
    case ReleaseStep(_, _, _) => StoppedIsSound(job);
    case PersistStep(_, _, outcomes, _, _) => EvaluatedIsFinal(job.points, outcomes, |job.points|);
    case RejectStep(_, _, code, _, _, _) =>
      FailIsSound(job, EngineError(code));
      if job.attempt < MAX_ATTEMPTS { RequeueIsSound(job, Lost, Some(EngineError(code))); }
  }

  lemma StepStaysSound(s: Jobs, step: Step)
    requires Sound(s) && Admissible(s, step)
    ensures Sound(Next(s, step).0)
  {
    var t := Next(s, step).0;
    match step
    case EnqueueStep(id, _, _, _, _) =>
      forall i, k, token | Drew(t, i, k, token) ensures Drew(s, i, k, token) {}
      forall i, f | RunsIn(t, i, f) ensures RunsIn(s, i, f) {}
    case ClaimStep(_, _, _, _, _, _) => ClaimStaysSound(s, step);
    case _ =>
      if t != s {
        FencedJobStaysSound(s, step);
        OneJobStaysSound(s, t, step.claim.id);
      }
  }

  lemma {:induction false} RunsStaySound(s: Jobs, steps: seq<Step>, now: Time)
    requires Sound(s) && Runs(s, steps, now)
    ensures Sound(After(s, steps))
    decreases |steps|
  {
    if steps != [] {
      StepStaysSound(s, steps[0]);
      RunsStaySound(Next(s, steps[0]).0, steps[1..], steps[0].at);
    }
  }

  /**
   At most one running job per factory, attempts 1..n of at most three, own tokens, leases within
   deadlines, in every run.
   */
  lemma ReachableJobsAreSound(steps: seq<Step>, now: Time)
    requires Runs(NOTHING, steps, now)
    ensures Sound(After(NOTHING, steps))
  {
    RunsStaySound(NOTHING, steps, now);
  }

  // Progress ------------------------------------------------------------------------------------

  /** What is left of a job's life. */
  function Measure(job: Job): int {
    if Terminal(job.status) then 0 else 2 * (MAX_ATTEMPTS - job.attempt) + (if job.status.Running? then 1 else 0)
  }

  lemma ClaimLowersMeasure(s: Jobs, step: Step)
    requires step.ClaimStep? && step.id in s.jobs && JobSound(s.jobs[step.id])
    ensures var t := Next(s, step).0;
            && step.id in t.jobs
            && (t.jobs[step.id] == s.jobs[step.id] || Measure(t.jobs[step.id]) < Measure(s.jobs[step.id]))
            && forall id :: id in s.jobs && id != step.id ==> id in t.jobs && t.jobs[id] == s.jobs[id]
  {
  }

  /**
   Every step leaves a job as it was, extends its lease, or uses up part of its life; terminal jobs
   stay as they are.
   */
  lemma StepLowersMeasure(s: Jobs, step: Step, id: JobId)
    requires id in s.jobs && JobSound(s.jobs[id]) && Admissible(s, step)
    ensures id in Next(s, step).0.jobs
    ensures var before, after := s.jobs[id], Next(s, step).0.jobs[id];
            || after == before
            || (if step.HeartbeatStep? then Measure(after) == Measure(before) else Measure(after) < Measure(before))
    ensures Terminal(s.jobs[id].status) ==> Next(s, step).0.jobs[id] == s.jobs[id]
  {
    if step.ClaimStep? && step.id in s.jobs {
      if step.id == id || s.jobs[step.id] == s.jobs[id] { ClaimLowersMeasure(s, step); }
    }
  }

  /** Lifecycle steps, heartbeats apart, that changed job `id`. */
  ghost function Changes(s: Jobs, steps: seq<Step>, id: JobId): nat
    decreases |steps|
  {
    if steps == [] then 0
    else
      var t := Next(s, steps[0]).0;
      (if !steps[0].HeartbeatStep? && id in s.jobs && id in t.jobs && t.jobs[id] != s.jobs[id] then 1 else 0)
      + Changes(t, steps[1..], id)
  }

  /** However many workers compete, a job sees at most six lifecycle changes. */
  lemma {:induction false} ChangesAreBounded(s: Jobs, steps: seq<Step>, now: Time, id: JobId)
    requires Sound(s) && Runs(s, steps, now) && id in s.jobs
    ensures id in After(s, steps).jobs && JobSound(After(s, steps).jobs[id])
    ensures Changes(s, steps, id) <= Measure(s.jobs[id]) - Measure(After(s, steps).jobs[id])
    ensures Changes(s, steps, id) <= 6
    decreases |steps|
  {
    if steps != [] {
      StepStaysSound(s, steps[0]);
      StepLowersMeasure(s, steps[0], id);
      ChangesAreBounded(Next(s, steps[0]).0, steps[1..], steps[0].at, id);
    }
  }

  lemma {:induction false} TerminalIsForever(s: Jobs, steps: seq<Step>, now: Time, id: JobId)
    requires Sound(s) && Runs(s, steps, now) && id in s.jobs && Terminal(s.jobs[id].status)
    ensures id in After(s, steps).jobs && After(s, steps).jobs[id] == s.jobs[id]
    decreases |steps|
  {
    if steps != [] {
      StepStaysSound(s, steps[0]);
      StepLowersMeasure(s, steps[0], id);
      TerminalIsForever(Next(s, steps[0]).0, steps[1..], steps[0].at, id);
    }
  }

  // Lost claims ---------------------------------------------------------------------------------

  predicate Holds(s: Jobs, id: JobId, token: Token) {
    id in s.jobs && s.jobs[id].lease.Some? && s.jobs[id].lease.value.token == token
  }

  /** The token was drawn, and no lease under it outlives `now`: superseded, given up or expired. */
  ghost predicate IsLost(s: Jobs, token: Token, now: Time) {
    token in s.issued && forall id :: Holds(s, id, token) ==> s.jobs[id].lease.value.expiresAt <= now
  }

  predicate Uses(step: Step, token: Token) {
    (step.HeartbeatStep? || step.ReleaseStep? || step.PersistStep? || step.RejectStep?) && step.claim.token == token
  }

  lemma LostClaimIsRefused(s: Jobs, step: Step, token: Token)
    requires IsLost(s, token, step.at) && Uses(step, token)
    ensures Next(s, step) == (s, Conflict)
  {
    if step.claim.id in s.jobs && Owns(s.jobs[step.claim.id], step.claim, step.at) {
      assert Holds(s, step.claim.id, token);
    }
  }

  lemma LostStaysLost(s: Jobs, step: Step, token: Token, now: Time)
    requires Sound(s) && Admissible(s, step) && now <= step.at && IsLost(s, token, now)
    ensures IsLost(Next(s, step).0, token, step.at)
  {
    hide Sound, Ended, Closed, Requeued, Evaluated, FactoryBusy;
    var t := Next(s, step).0;
    if Uses(step, token) {
      LostClaimIsRefused(s, step, token);
    }
    forall id | Holds(t, id, token) ensures t.jobs[id].lease.value.expiresAt <= step.at {
      if id in s.jobs && t.jobs[id] == s.jobs[id] {
        assert Holds(s, id, token);
      }
    }
  }

  /** A worker whose claim expired or was superseded can never change anything again, whatever it sends. */
  lemma {:induction false} LostClaimsChangeNothing(s: Jobs, steps: seq<Step>, now: Time, step: Step, token: Token)
    requires Sound(s) && Runs(s, steps, now) && IsLost(s, token, now)
    requires Uses(step, token) && now <= step.at && (steps != [] ==> steps[|steps| - 1].at <= step.at)
    ensures Next(After(s, steps), step) == (After(s, steps), Conflict)
    decreases |steps|
  {
    if steps == [] {
      LostClaimIsRefused(s, step, token);
    } else {
      StepStaysSound(s, steps[0]);
      LostStaysLost(s, steps[0], token, now);
      FirstBeforeLast(s, steps, now);
      LostClaimsChangeNothing(Next(s, steps[0]).0, steps[1..], steps[0].at, step, token);
    }
  }

  lemma {:induction false} FirstBeforeLast(s: Jobs, steps: seq<Step>, now: Time)
    requires steps != [] && Runs(s, steps, now)
    ensures steps[0].at <= steps[|steps| - 1].at
    decreases |steps|
  {
    if |steps| > 1 {
      FirstBeforeLast(Next(s, steps[0]).0, steps[1..], steps[0].at);
    }
  }
}
