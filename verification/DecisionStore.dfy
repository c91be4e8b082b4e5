/**
 The decision services as they run: transactions that update tables in place. The class
 invariant is the soundness of the tables, which every transaction keeps.
 */
module DecisionStore {
  import opened Collections
  import opened Decisions
  import DecisionLaws

  lemma CommandStaysSound(s: Operations, user: UserId, writer: bool, key: Key, b: Body)
    requires DecisionLaws.Sound(s)
    ensures DecisionLaws.Sound(Commanded(s, user, writer, key, b).0)
  {
    hide DecisionLaws.Sound, Commanded;
    DecisionLaws.StepStaysSound(s, DecisionLaws.CommandStep(user, writer, key, b));
  }

  lemma RefusalChangesNothing(s: Operations, user: UserId, b: Body)
    requires b.caseId in s.cases
    ensures Decided(s, user, b).1.Some? ==> Decided(s, user, b).0 == s
    ensures b.caseId in Decided(s, user, b).0.cases
  {
    hide BasisProblem, CandidateProblem, FindCandidate, IsApproved;
  }

  class OperationsStore {
    var snapshots: map<SnapshotId, Hash<int>>
    var head: Option<Head>
    var cases: map<CaseId, Case>
    var schedules: map<ScheduleKey, Publication>
    var receipts: map<(UserId, Key), Receipt>
    ghost var issued: map<Token, (CaseId, int)>

    ghost function Contents(): Operations
      reads this
    {
      Operations(snapshots, head, cases, schedules, receipts, issued)
    }

    ghost predicate Valid()
      reads this
    {
      DecisionLaws.Sound(Contents())
    }

    constructor ()
      ensures Valid()
      ensures Contents() == Operations(map[], None, map[], map[], map[], map[])
    {
      snapshots, head, cases, schedules, receipts := map[], None, map[], map[], map[];
      issued := map[];
    }

    method IngestFactorySnapshot(id: SnapshotId, hash: Hash<int>, expected: int) returns (reply: Reply)
      requires Valid()
      modifies this`snapshots, this`head
      ensures Valid()
      ensures (Contents(), reply) == Ingested(old(Contents()), id, hash, expected)
    {
      DecisionLaws.StepStaysSound(Contents(), DecisionLaws.IngestStep(id, hash, expected));
      hide DecisionLaws.Sound;
      if id in snapshots {
        if snapshots[id] != hash { return Error(ContentConflict); }
        if head.None? { return Error(HeadConflict); }
        return Ingestion(head.value, true);
      }
      var revision := if head.None? then 0 else head.value.revision;
      if revision != expected { return Error(HeadConflict); }
      snapshots := snapshots[id := hash];
      if head.Some? {
        head := Some(head.value.(snapshotId := id, revision := head.value.revision + 1));
      } else {
        head := Some(Head(id, 1, 0, None));
      }
      reply := Ingestion(head.value, false);
    }

    method FindReceipt(user: UserId, key: Key, request: Request) returns (reply: Option<Reply>)
      ensures reply == Replay(Contents(), user, key, request)
    {
      if (user, key) !in receipts { return None; }
      if receipts[(user, key)].request != request { return Some(Error(KeyReused)); }
      reply := Some(Answer(receipts[(user, key)].response, true));
    }

    method CreateDecisionCase(user: UserId, writer: bool, key: Key, request: Request, references: bool, id: CaseId)
      returns (reply: Reply)
      requires request.CreateRequest?
      requires Valid() && id !in cases
      modifies this`cases, this`receipts
      ensures Valid()
      ensures (Contents(), reply) == CaseCreated(old(Contents()), user, writer, key, request, references, id)
    {
      DecisionLaws.StepStaysSound(Contents(), DecisionLaws.CreateStep(user, writer, key, request, references, id));
      hide DecisionLaws.Sound;
      if !writer { return Error(Forbidden); }
      var replay := FindReceipt(user, key, request);
      if replay.Some? { return replay.value; }
      if head.None? { return Error(NotFound); }
      if head.value.snapshotId != request.snapshotId { return Error(SnapshotConflict); }
      if head.value.planVersion != request.planVersion { return Error(PlanVersionConflict); }
      if !references { return Error(InvalidTrigger); }
      var row := NewCase(head.value, request.mode);
      cases := cases[id := row];
      var view := Respond(id, row, head, true);
      receipts := receipts[(user, key) := Receipt(request, view)];
      reply := Answer(view, false);
    }

    method ClaimDecisionCase(id: CaseId, revision: int, worker: UserId, seconds: int, token: Token, at: Time)
      returns (reply: Reply)
      requires Valid() && token !in issued
      modifies this`cases, this`issued
      ensures Valid()
      ensures (Contents(), reply) == Claim(old(Contents()), id, revision, worker, seconds, token, at)
    {
      DecisionLaws.StepStaysSound(Contents(), DecisionLaws.ClaimStep(id, revision, worker, seconds, token, at));
      hide DecisionLaws.Sound;
      if id !in cases { return Error(NotFound); }
      var row := cases[id];
      if row.revision != revision { return Error(CaseRevisionConflict); }
      if !(row.status.Created? || row.status.Failed?) || row.lease.Some? || row.artifact.Some? {
        return Error(LeaseConflict);
      }
      var next := row.(
        status := Analyzing, processing := Running, revision := row.revision + 1, attempt := row.attempt + 1,
        error := None, lease := Some(Lease(token, worker, at + seconds * SECOND)));
      cases := cases[id := next];
      issued := issued[token := (id, next.attempt)];
      reply := Claimed(token, next.attempt);
    }

    method RenewDecisionCaseLease(id: CaseId, revision: int, token: Token, seconds: int, at: Time)
      returns (reply: Reply)
      requires Valid()
      modifies this`cases
      ensures Valid()
      ensures (Contents(), reply) == Renewed(old(Contents()), id, revision, token, seconds, at)
    {
      DecisionLaws.StepStaysSound(Contents(), DecisionLaws.RenewStep(id, revision, token, seconds, at));
      hide DecisionLaws.Sound;
      if id !in cases { return Error(NotFound); }
      var row := cases[id];
      var fence := Fence(row, revision, token, at, false);
      if fence.Some? { return Error(fence.value); }
      var until := at + seconds * SECOND;
      if !row.status.Analyzing? || until <= row.lease.value.expiresAt { return Error(GuardRefused); }
      cases := cases[id := row.(revision := row.revision + 1, lease := Some(row.lease.value.(expiresAt := until)))];
      reply := Done;
    }

    method RecordDecisionPlanningFailure(id: CaseId, revision: int, token: Token, code: ErrorCode, at: Time)
      returns (reply: Reply)
      requires Valid()
      modifies this`cases
      ensures Valid()
      ensures (Contents(), reply) == FailedPlanning(old(Contents()), id, revision, token, code, at)
    {
      DecisionLaws.StepStaysSound(Contents(), DecisionLaws.FailStep(id, revision, token, code, at));
      hide DecisionLaws.Sound;
      if id !in cases { return Error(NotFound); }
      var fence := Fence(cases[id], revision, token, at, false);
      if fence.Some? { return Error(fence.value); }
      cases := cases[id := Stopped(cases[id], Failed, Broken, Some(code))];
      reply := Done;
    }

    /** Release by its owner, or by anyone holding its token once the lease has expired. */
    method ReleaseDecisionCaseLease(id: CaseId, revision: int, token: Token, expired: bool, at: Time)
      returns (reply: Reply)
      requires Valid()
      modifies this`cases
      ensures Valid()
      ensures (Contents(), reply) == Released(old(Contents()), id, revision, token, expired, at)
    {
      DecisionLaws.StepStaysSound(Contents(), DecisionLaws.ReleaseStep(id, revision, token, expired, at));
      hide DecisionLaws.Sound;
      if id !in cases { return Error(NotFound); }
      var fence := Fence(cases[id], revision, token, at, expired);
      if fence.Some? { return Error(fence.value); }
      cases := cases[id := Stopped(cases[id], Created, Pending,
                                   Some(if expired then LeaseExpired else WorkerShutdown))];
      reply := Done;
    }

    method PersistDecisionRecommendation(id: CaseId, revision: int, token: Token, r: Recommendation, clock: nat -> Time)
      returns (reply: Reply)
      requires Valid()
      modifies this`cases
      ensures Valid()
      ensures (Contents(), reply) == Persisted(old(Contents()), id, revision, token, r, clock)
    {
      DecisionLaws.StepStaysSound(Contents(), DecisionLaws.PersistStep(id, revision, token, r, clock));
      hide DecisionLaws.Sound;
      if id !in cases { return Error(NotFound); }
      var row := cases[id];
      if !Checked(r, id, row.snapshotId) { return Error(InvalidRecommendation); }
      var fence := Fence(row, revision, token, clock(0), false);
      if fence.Some? { return Error(fence.value); }
      if row.artifact.Some?
         || (exists c :: c in cases && cases[c].artifact.Some? && cases[c].artifact.value.payload.id == r.id) {
        return Error(RecommendationExists);
      }
      var start := row.(artifact := Some(Artifact(r, HashOf(r))));
      var current, k := start, 1;
      while StagesLeft(current.status) > 0
        invariant k >= 1
        invariant Stages(start, token, clock, 1) == Stages(current, token, clock, k)
        decreases StagesLeft(current.status)
      {
        var next := NextStage(current, token, clock(k));
        if next.None? { return Error(LeaseConflict); }
        current, k := next.value, k + 1;
      }
      cases := cases[id := current];
      reply := Done;
    }

    /** The part of a command between receipt lookup and receipt. */
    method Decide(user: UserId, b: Body) returns (problem: Option<Refusal>)
      requires b.caseId in cases
      modifies this`cases, this`schedules, this`head
      ensures (Contents(), problem) == Decided(old(Contents()), user, b)
    {
      var row := cases[b.caseId];
      problem := BasisProblem(row, head, b);
      if problem.Some? { return; }
      if b.command.Reject? {
        var rejection := Rejection(b.recommendationId, user);
        cases := cases[b.caseId := row.(status := Rejected, revision := row.revision + 1, human := Some(rejection))];
        return;
      }
      problem := CandidateProblem(row, b);
      if problem.Some? { return; }
      var c := FindCandidate(row.artifact.value.payload.candidates, b.command.candidateId).value;
      if b.command.Approve? {
        var approval := Approval(b.recommendationId, c.id, c.version, HashOf(c), HashOf(c.schedule), user);
        cases := cases[b.caseId := row.(status := Approved, revision := row.revision + 1, human := Some(approval))];
        return;
      }
      if !IsApproved(row.human, b, c) { return Some(ApprovedCandidateConflict); }
      if c.schedule.key in schedules { return Some(SchedulePublished); }
      var hash := row.human.value.scheduleHash;
      schedules := schedules[c.schedule.key := Publication(row.snapshotId, hash, c.schedule)];
      var commit := Commit(row.snapshotId, c.schedule.key, hash, head.value.planVersion + 1, user);
      head := Some(head.value.(
        schedule := Some(c.schedule.key),
        planVersion := head.value.planVersion + 1, revision := head.value.revision + 1));
      cases := cases[b.caseId := row.(status := Committed, revision := row.revision + 1, commit := Some(commit))];
    }

    method ExecuteDecisionCommand(user: UserId, writer: bool, key: Key, b: Body) returns (reply: Reply)
      requires Valid()
      modifies this`cases, this`schedules, this`head, this`receipts
      ensures Valid()
      ensures (Contents(), reply) == Commanded(old(Contents()), user, writer, key, b)
    {
      hide DecisionLaws.Sound, Decided, Respond, Replay;
      CommandStaysSound(Contents(), user, writer, key, b);
      if b.caseId in cases { RefusalChangesNothing(Contents(), user, b); }
      if !writer { return Error(Forbidden); }
      if b.caseId !in cases { return Error(NotFound); }
      var replay := FindReceipt(user, key, CommandRequest(b));
      if replay.Some? { return replay.value; }
      var problem := Decide(user, b);
      if problem.Some? { return Error(problem.value); }
      var view := Respond(b.caseId, cases[b.caseId], head, true);
      receipts := receipts[(user, key) := Receipt(CommandRequest(b), view)];
      reply := Answer(view, false);
    }
  }
}
