/**
 The scenario lease service as it runs: job, attempt and point rows updated in place under a
 lock. The class invariant is the soundness of all jobs, which every transaction keeps.
 */
module ScenarioStore {
  import opened Collections
  import opened ScenarioLease
  import ScenarioLaws

  class ScenarioJobs {
    var jobs: map<JobId, Job>
    ghost var issued: set<Token>

    ghost function Contents(): Jobs
      reads this
    {
      Jobs(jobs, issued)
    }

    ghost predicate Valid()
      reads this
    {
      ScenarioLaws.Sound(Contents())
    }

    constructor ()
      ensures Valid()
      ensures Contents() == Jobs(map[], {})
    {
      jobs := map[];
      issued := {};
    }

    /** A scenario is submitted with its points; nothing runs yet. */
    method EnqueueJob(id: JobId, factory: FactoryId, deadline: Time, points: nat)
      requires Valid() && id !in jobs && points > 0
      modifies this`jobs
      ensures Valid()
      ensures Contents() == Enqueue(old(Contents()), id, factory, deadline, points).0
    {
      ScenarioLaws.StepStaysSound(Contents(), ScenarioLaws.EnqueueStep(id, factory, deadline, points, 0));
      hide ScenarioLaws.Sound;
      jobs := jobs[id := Job(factory, Queued, 0, None, deadline, None, None, [], seq(points, _ => Waiting))];
    }

    /** Some job of the factory is running. */
    method IsBusy(factory: FactoryId) returns (busy: bool)
      ensures busy == FactoryBusy(Contents(), factory)
    {
      busy := exists other :: other in jobs && jobs[other].factory == factory && jobs[other].status.Running?;
    }

    method ClaimCandidate(id: JobId, worker: int, leaseMs: int, token: Token, at: Time, later: Time)
      returns (reply: Reply)
      requires Valid() && token !in issued && at <= later
      modifies this
      ensures Valid()
      ensures (Contents(), reply) == ClaimOne(old(Contents()), id, worker, leaseMs, token, at, later)
    {
      ScenarioLaws.StepStaysSound(Contents(), ScenarioLaws.ClaimStep(id, worker, leaseMs, token, at, later));
      hide ScenarioLaws.Sound, Recover, Fail, Started, FactoryBusy;
      if id !in jobs { return Conflict; }
      var row := jobs[id];
      if Terminal(row.status) { return Nothing; }
      if row.status.Running? {
        if row.lease.Some? && row.lease.value.expiresAt > at { return Nothing; }
        row := Recover(row, at);
      }
      jobs := jobs[id := row];
      if !row.status.Queued? { return Nothing; }
      if row.deadline <= at || row.attempt >= MAX_ATTEMPTS {
        jobs := jobs[id := Fail(row, if row.deadline <= at then DeadlineExceeded else AttemptsExhausted)];
        assert jobs == old(jobs)[id := jobs[id]];
        return Nothing;
      }
      var busy := IsBusy(row.factory);
      if busy { return Nothing; }
      jobs := jobs[id := Started(row, worker, leaseMs, token, later)];
      issued := issued + {token};
      assert jobs == old(jobs)[id := jobs[id]];
      reply := Claimed(Claim(id, token, row.attempt + 1));
    }

    method ClaimNext(candidates: seq<Candidate>, worker: int, leaseMs: int) returns (reply: Reply)
      requires Valid() && (forall c :: c in candidates ==> c.token !in issued && c.at <= c.later)
      modifies this
      ensures Valid()
      ensures (Contents(), reply) == ClaimFirst(old(Contents()), candidates, worker, leaseMs)
    {
      var i := 0;
      while i < |candidates|
        invariant 0 <= i <= |candidates| && Valid() && issued == old(issued)
        invariant ClaimFirst(old(Contents()), candidates, worker, leaseMs)
                  == ClaimFirst(Contents(), candidates[i..], worker, leaseMs)
      {
        var c := candidates[i];
        assert candidates[i..][1..] == candidates[i + 1..];
        reply := ClaimCandidate(c.id, worker, leaseMs, c.token, c.at, c.later);
        if !reply.Nothing? { return; }
        i := i + 1;
      }
      reply := Nothing;
    }

    method Heartbeat(claim: Claim, leaseMs: int, at: Time, mid: Time, end: Time) returns (reply: Reply)
      requires Valid()
      modifies this`jobs
      ensures Valid()
      ensures (Contents(), reply) == AfterHeartbeat(old(Contents()), claim, leaseMs, at, mid, end)
    {
      ScenarioLaws.StepStaysSound(Contents(), ScenarioLaws.HeartbeatStep(claim, leaseMs, at, mid, end));
      hide ScenarioLaws.Sound;
      if claim.id !in jobs || !Owns(jobs[claim.id], claim, at) { return Conflict; }
      var row := jobs[claim.id];
      var next := Extended(row, leaseMs, mid);
      if !InTime(row, end) { return Conflict; }
      jobs := jobs[claim.id := next];
      reply := Done;
    }

    method Release(claim: Claim, at: Time, end: Time) returns (reply: Reply)
      requires Valid()
      modifies this`jobs
      ensures Valid()
      ensures (Contents(), reply) == AfterRelease(old(Contents()), claim, at, end)
    {
      ScenarioLaws.StepStaysSound(Contents(), ScenarioLaws.ReleaseStep(claim, at, end));
      hide ScenarioLaws.Sound;
      if claim.id !in jobs || !Owns(jobs[claim.id], claim, at) { return Conflict; }
      var row := jobs[claim.id];
      var ended := EndAttempt(row, Lost, Some(WorkerStopped));
      var next := ended.(points := Requeued(row.points));
      if row.attempt >= MAX_ATTEMPTS {
        next := Fail(next, AttemptsExhausted);
      } else {
        next := Requeue(next);
      }
      if !InTime(row, end) { return Conflict; }
      jobs := jobs[claim.id := next];
      reply := Done;
    }

    method Persist(claim: Claim, result: int, outcomes: map<nat, PointStatus>, at: Time, end: Time)
      returns (reply: Reply)
      requires Valid() && (forall k :: k in outcomes ==> !Pending(outcomes[k]))
      modifies this`jobs
      ensures Valid()
      ensures (Contents(), reply) == AfterPersist(old(Contents()), claim, result, outcomes, at, end)
    {
      ScenarioLaws.StepStaysSound(Contents(), ScenarioLaws.PersistStep(claim, result, outcomes, at, end));
      hide ScenarioLaws.Sound;
      if claim.id !in jobs || !Owns(jobs[claim.id], claim, at) { return Conflict; }
      var row := jobs[claim.id];
      var points := [];
      var i := 0;
      while i < |row.points|
        invariant 0 <= i <= |row.points|
        invariant Evaluated(row.points, outcomes, i) == Some(points)
      {
        if i !in outcomes {
          EvaluatedStaysNone(row.points, outcomes, i + 1, |row.points|);
          return Invalid;
        }
        points := points + [outcomes[i]];
        i := i + 1;
      }
      if !InTime(row, end) { return Conflict; }
      jobs := jobs[claim.id :=
        EndAttempt(row, Won, None).(points := points, status := Succeeded, result := Some(result), lease := None)];
      reply := Done;
    }

    method Reject(claim: Claim, retryable: bool, code: int, at: Time, mid: Time, end: Time) returns (reply: Reply)
      requires Valid()
      modifies this`jobs
      ensures Valid()
      ensures (Contents(), reply) == AfterReject(old(Contents()), claim, retryable, code, at, mid, end)
    {
      ScenarioLaws.StepStaysSound(Contents(), ScenarioLaws.RejectStep(claim, retryable, code, at, mid, end));
      hide ScenarioLaws.Sound;
      if claim.id !in jobs || !Owns(jobs[claim.id], claim, at) { return Conflict; }
      var row := jobs[claim.id];
      var next := row;
      if retryable && row.attempt < MAX_ATTEMPTS && row.deadline > mid {
        next := EndAttempt(row, Lost, Some(EngineError(code))).(status := Queued, lease := None);
      } else {
        next := Fail(row, EngineError(code));
      }
      if !InTime(row, end) { return Conflict; }
      jobs := jobs[claim.id := next];
      reply := Done;
    }
  }
}
