/** When each step of the decision services takes effect, and what it then writes. */
module DecisionEffects {
  import opened Collections
  import opened Decisions
  import opened DecisionLaws
  import opened DecisionHistory

  // Snapshots and cases -------------------------------------------------------------------------

  /** A new snapshot is taken exactly on the expected head revision, and becomes the head at the next one. */
  lemma IngestionIsExact(s: Operations, step: Step)
    requires step.IngestStep? && step.snapshotId !in s.snapshots
    ensures Took(s, step) <==> step.expected == if s.head.Some? then s.head.value.revision else 0
    ensures !Took(s, step) ==> Next(s, step).1 == Error(HeadConflict)
    ensures Took(s, step) ==>
              var h := Head(step.snapshotId, step.expected + 1, if s.head.Some? then s.head.value.planVersion else 0,
                            if s.head.Some? then s.head.value.schedule else None);
              && Next(s, step).1 == Ingestion(h, false)
              && Next(s, step).0 == s.(head := Some(h), snapshots := s.snapshots[step.snapshotId := step.hash])
  {
    assert step.snapshotId in s.snapshots[step.snapshotId := step.hash];
  }

  /** A known snapshot is replayed with its own content and refused with any other; the head stays. */
  lemma KnownSnapshotChangesNothing(s: Operations, step: Step)
    requires Sound(s) && step.IngestStep? && step.snapshotId in s.snapshots
    ensures !Took(s, step)
    ensures Next(s, step).1.Ingestion? <==> s.snapshots[step.snapshotId] == step.hash
    ensures Next(s, step).1.Ingestion? ==> s.head == Some(Next(s, step).1.head) && Next(s, step).1.replayed
  {
  }

  predicate Unused(s: Operations, step: Step)
    requires step.CreateStep? || step.CommandStep?
  {
    (step.user, step.key) !in s.receipts
  }

  /** A case is created exactly on the head its author names, and stands at the start of planning. */
  lemma CreationIsExact(s: Operations, step: Step)
    requires step.CreateStep? && Admissible(s, step) && Unused(s, step)
    ensures Took(s, step) <==>
              && step.writer && step.references
              && s.head.Some? && s.head.value.snapshotId == step.request.snapshotId
              && s.head.value.planVersion == step.request.planVersion
    ensures Took(s, step) ==>
              var t := Next(s, step).0;
              && step.id in t.cases && t.cases == s.cases[step.id := t.cases[step.id]]
              && t == s.(cases := t.cases, receipts := t.receipts)
              && t.receipts.Keys == s.receipts.Keys + {(step.user, step.key)}
              && t.cases[step.id] == Case(step.request.snapshotId, step.request.planVersion, step.request.mode,
                                          Created, 1, Pending, 0, None, None, None, None, None)
    ensures !Took(s, step) ==> Next(s, step).1.Error?
  {
  }

  // Planning ------------------------------------------------------------------------------------

  /** A case nobody plans yet is claimed exactly at the revision it has. */
  lemma ClaimIsExact(s: Operations, step: Step)
    requires Sound(s) && step.ClaimStep?
    ensures Took(s, step) <==>
              && step.id in s.cases && s.cases[step.id].revision == step.revision
              && (s.cases[step.id].status == Created || s.cases[step.id].status == Failed)
    ensures Took(s, step) ==>
              var t, row := Next(s, step).0, s.cases[step.id];
              && t == s.(cases := s.cases[step.id := t.cases[step.id]],
                         issued := s.issued[step.token := (step.id, row.attempt + 1)])
              && t.cases[step.id] == row.(
                   status := Analyzing, processing := Running, error := None,
                   revision := step.revision + 1, attempt := row.attempt + 1,
                   lease := Some(Lease(step.token, step.worker, step.at + step.seconds * 1_000_000)))
              && Next(s, step).1 == Claimed(step.token, row.attempt + 1)
    ensures !Took(s, step) ==> Next(s, step).1.Error?
  {
    if step.id in s.cases { assert CaseSound(s, step.id); }
  }

  /** The case is leased under the token, and has the revision the holder read. */
  predicate Held(s: Operations, id: CaseId, revision: int, token: Token) {
    && id in s.cases && s.cases[id].revision == revision
    && s.cases[id].lease.Some? && s.cases[id].lease.value.token == token
  }

  /** A heartbeat extends exactly a lease in force, and never shortens it. */
  lemma RenewalIsExact(s: Operations, step: Step)
    requires Sound(s) && step.RenewStep?
    ensures Took(s, step) <==>
              && Held(s, step.id, step.revision, step.token) && s.cases[step.id].status == Analyzing
              && step.at < s.cases[step.id].lease.value.expiresAt < step.at + step.seconds * 1_000_000
    ensures Took(s, step) ==>
              var t, row := Next(s, step).0, s.cases[step.id];
              && t == s.(cases := s.cases[step.id := t.cases[step.id]])
              && t.cases[step.id] == row.(
                   revision := row.revision + 1,
                   lease := Some(Lease(step.token, row.lease.value.owner, step.at + step.seconds * 1_000_000)))
    ensures Next(s, step).1 == Done <==> Took(s, step)
  {
    if step.id in s.cases { assert CaseSound(s, step.id); }
  }

  /** A failure is recorded exactly by the holder of a lease in force. */
  lemma FailureIsExact(s: Operations, step: Step)
    requires Sound(s) && step.FailStep?
    ensures Took(s, step) <==>
              Held(s, step.id, step.revision, step.token) && step.at < s.cases[step.id].lease.value.expiresAt
    ensures Took(s, step) ==>
              var t, row := Next(s, step).0, s.cases[step.id];
              && t == s.(cases := s.cases[step.id := t.cases[step.id]])
              && t.cases[step.id] == row.(status := Failed, processing := Broken, error := Some(step.code),
                                          lease := None, revision := row.revision + 1)
    ensures Next(s, step).1 == Done <==> Took(s, step)
  {
    if step.id in s.cases { assert CaseSound(s, step.id); }
  }

  /** A case is requeued by its holder before the lease ends, or as expired from that moment on. */
  lemma ReleaseIsExact(s: Operations, step: Step)
    requires Sound(s) && step.ReleaseStep?
    ensures Took(s, step) <==>
              && Held(s, step.id, step.revision, step.token)
              && (step.expired <==> s.cases[step.id].lease.value.expiresAt <= step.at)
    ensures Took(s, step) ==>
              var t, row := Next(s, step).0, s.cases[step.id];
              && t == s.(cases := s.cases[step.id := t.cases[step.id]])
              && t.cases[step.id] == row.(
                   status := Created, processing := Pending, lease := None, revision := row.revision + 1,
                   error := Some(if s.cases[step.id].lease.value.expiresAt <= step.at then LeaseExpired
                                 else WorkerShutdown))
    ensures Next(s, step).1 == Done <==> Took(s, step)
  {
    if step.id in s.cases { assert CaseSound(s, step.id); }
  }

  /** The clock reading before the last of the remaining stages. */
  function LastReading(row: Case, clock: nat -> Time): Time { clock(StagesLeft(row.status)) }

  ghost predicate Forward(clock: nat -> Time) { forall i: nat, j: nat :: i <= j ==> clock(i) <= clock(j) }

  ghost predicate NewRecommendation(s: Operations, id: int) {
    forall other :: other in s.cases && s.cases[other].artifact.Some? ==> s.cases[other].artifact.value.payload.id != id
  }

  /** A recommendation is stored exactly when it was checked, is new, and every stage ends before the lease does. */
  lemma PersistIsExact(s: Operations, step: Step)
    requires Sound(s) && step.PersistStep? && Forward(step.clock)
    ensures Took(s, step) <==>
              && Held(s, step.id, step.revision, step.token)
              && Checked(step.recommendation, step.id, s.cases[step.id].snapshotId)
              && NewRecommendation(s, step.recommendation.id)
              && LastReading(s.cases[step.id], step.clock) < s.cases[step.id].lease.value.expiresAt
    ensures Took(s, step) ==>
              var t, row := Next(s, step).0, s.cases[step.id];
              && t == s.(cases := s.cases[step.id := t.cases[step.id]])
              && t.cases[step.id] == row.(
                   status := AwaitingApproval, processing := Succeeded, error := None, lease := None,
                   revision := row.revision + StagesLeft(row.status),
                   artifact := Some(Artifact(step.recommendation, HashOf(step.recommendation))))
    ensures Next(s, step).1 == Done <==> Took(s, step)
  {
    hide Stages, ContentSound, CommitSound, PlaceSound;
    if step.id in s.cases {
      var row := s.cases[step.id];
      assert CaseSound(s, step.id);
      assert NewRecommendation(s, step.recommendation.id) <==> !RecommendationTaken(s, step.recommendation.id);
      if row.lease.Some? && row.lease.value.token == step.token {
        var stored := row.(artifact := Some(Artifact(step.recommendation, HashOf(step.recommendation))));
        assert step.clock(0) <= step.clock(StagesLeft(row.status));
        PersistenceIsAllOrNothing(stored, step.token, step.clock, 1);
        if Stages(stored, step.token, step.clock, 1).Some? { StagesOutcome(stored, step.token, step.clock, 1); }
      }
    }
  }

  // The lease -----------------------------------------------------------------------------------

  predicate ByHolder(step: Step, id: CaseId, token: Token) { UsesToken(step, token) && step.id == id }

  /** A case under a lease changes only by steps that present its token. */
  lemma OthersLeaveItAlone(s: Operations, step: Step, id: CaseId, token: Token)
    requires Sound(s) && Admissible(s, step) && Holds(s, id, token) && !ByHolder(step, id, token)
    ensures id in Next(s, step).0.cases && Next(s, step).0.cases[id] == s.cases[id]
  {
    hide ContentSound, CommitSound, PlaceSound, Decided, Stages, Checked;
    assert CaseSound(s, id);
    if step.CommandStep? && step.body.caseId in s.cases { CommandsSpareLeased(s, step.user, step.body, id); }
  }

  lemma CommandsSpareLeased(s: Operations, user: UserId, b: Body, id: CaseId)
    requires Sound(s) && b.caseId in s.cases && id in s.cases && s.cases[id].lease.Some?
    ensures id in Decided(s, user, b).0.cases && Decided(s, user, b).0.cases[id] == s.cases[id]
  {
    hide FindCandidate, CandidateProblem, IsApproved, ContentSound, CommitSound, PlaceSound;
    assert CaseSound(s, id);
  }

  ghost predicate WithoutHolder(steps: seq<Step>, id: CaseId, token: Token) {
    forall k :: 0 <= k < |steps| ==> !ByHolder(steps[k], id, token)
  }

  /** A leased case is its holder's until the holder ends it, whatever all others do. */
  lemma {:induction false} OnlyHolderChanges(s: Operations, steps: seq<Step>, id: CaseId, token: Token)
    requires Sound(s) && Runs(s, steps) && Holds(s, id, token) && WithoutHolder(steps, id, token)
    ensures id in After(s, steps).cases && After(s, steps).cases[id] == s.cases[id]
    decreases |steps|
  {
    hide Sound, Next;
    if steps != [] {
      assert !ByHolder(steps[0], id, token);
      StepStaysSound(s, steps[0]);
      OthersLeaveItAlone(s, steps[0], id, token);
      assert forall k :: 0 <= k < |steps[1..]| ==> steps[1..][k] == steps[k + 1];
      OnlyHolderChanges(Next(s, steps[0]).0, steps[1..], id, token);
    }
  }

  // Human commands ------------------------------------------------------------------------------

  /** The body describes its case, the head and the recommendation as they are. */
  predicate UpToDate(s: Operations, b: Body) {
    && b.caseId in s.cases
    && s.cases[b.caseId].revision == b.expectedRevision
    && s.head.Some?
    && s.head.value.snapshotId == b.expectedSnapshot && s.cases[b.caseId].snapshotId == b.expectedSnapshot
    && s.head.value.planVersion == b.expectedPlan && s.cases[b.caseId].basePlanVersion == b.expectedPlan
    && s.cases[b.caseId].artifact.Some? && s.cases[b.caseId].artifact.value.payload.id == b.recommendationId
  }

  ghost predicate Recommends(row: Case, id: int, version: int) {
    row.artifact.Some? && exists c :: c in row.artifact.value.payload.candidates && c.id == id && c.version == version
  }

  /** The step writes `row` for its case and spends its key, and nothing else. */
  ghost predicate WritesOnly(s: Operations, step: Step, row: Case)
    requires step.CommandStep?
  {
    && Next(s, step).0 == s.(cases := s.cases[step.body.caseId := row], receipts := Next(s, step).0.receipts)
    && Next(s, step).0.receipts.Keys == s.receipts.Keys + {(step.user, step.key)}
  }

  /** A rejection takes effect exactly on an up-to-date case that awaits a decision, and rejects it. */
  lemma RejectionIsExact(s: Operations, step: Step)
    requires Sound(s) && step.CommandStep? && step.body.command.Reject? && Unused(s, step)
    ensures Took(s, step) <==>
              step.writer && UpToDate(s, step.body) && s.cases[step.body.caseId].status == AwaitingApproval
    ensures Took(s, step) ==>
              var row := s.cases[step.body.caseId];
              WritesOnly(s, step, row.(status := Rejected, revision := row.revision + 1,
                                       human := Some(Rejection(row.artifact.value.payload.id, step.user))))
    ensures !Took(s, step) ==> Next(s, step).1.Error?
  {
    if step.body.caseId in s.cases { assert CaseSound(s, step.body.caseId); }
  }

  lemma RecommendedIsFound(s: Operations, id: CaseId, candidateId: int, version: int)
    requires Sound(s) && id in s.cases && s.cases[id].artifact.Some?
    ensures Recommends(s.cases[id], candidateId, version) <==>
              var c := FindCandidate(s.cases[id].artifact.value.payload.candidates, candidateId);
              c.Some? && c.value.version == version
  {
    var row := s.cases[id];
    assert CaseSound(s, id);
    if Recommends(row, candidateId, version) {
      var c :| c in row.artifact.value.payload.candidates && c.id == candidateId && c.version == version;
      CandidateIsFound(row.artifact.value.payload.candidates, c);
    }
  }

  /** An approval takes effect exactly on an up-to-date case that awaits one, for a candidate it recommends. */
  lemma ApprovalIsExact(s: Operations, step: Step)
    requires Sound(s) && step.CommandStep? && step.body.command.Approve? && Unused(s, step)
    ensures Took(s, step) <==>
              && step.writer && UpToDate(s, step.body) && s.cases[step.body.caseId].status == AwaitingApproval
              && Recommends(s.cases[step.body.caseId], step.body.command.candidateId, step.body.command.version)
    ensures !Took(s, step) ==> Next(s, step).1.Error?
  {
    hide FindCandidate;
    var b := step.body;
    if UpToDate(s, b) {
      assert CaseSound(s, b.caseId);
      RecommendedIsFound(s, b.caseId, b.command.candidateId, b.command.version);
    }
  }

  /** It approves: the record names the candidate, its version, both hashes and the person. */
  lemma ApprovalApproves(s: Operations, step: Step, c: Candidate)
    requires Sound(s) && step.CommandStep? && step.body.command.Approve? && Took(s, step)
    requires UpToDate(s, step.body) && c in s.cases[step.body.caseId].artifact.value.payload.candidates
    requires c.id == step.body.command.candidateId
    ensures c.version == step.body.command.version && c.valid
    ensures var row := s.cases[step.body.caseId];
            var record := Approval(row.artifact.value.payload.id, c.id, c.version, HashOf(c), HashOf(c.schedule),
                                   step.user);
            WritesOnly(s, step, row.(status := Approved, revision := row.revision + 1, human := Some(record)))
  {
    hide FindCandidate;
    assert CaseSound(s, step.body.caseId);
    CandidateIsFound(s.cases[step.body.caseId].artifact.value.payload.candidates, c);
  }

  /** The person approved exactly this candidate of the case. */
  predicate ApprovedOf(row: Case, c: Candidate) {
    && row.status == Approved && row.artifact.Some? && c in row.artifact.value.payload.candidates
    && row.human.Some? && row.human.value.Approval? && row.human.value.candidateId == c.id
  }

  /** A publication takes effect exactly for the approved candidate of an up-to-date live case, once per schedule. */
  lemma PublicationIsExact(s: Operations, step: Step, c: Candidate)
    requires Sound(s) && step.CommandStep? && step.body.command.Publish? && Unused(s, step)
    requires UpToDate(s, step.body) && c in s.cases[step.body.caseId].artifact.value.payload.candidates
    requires c.id == step.body.command.candidateId
    ensures Took(s, step) <==>
              && step.writer && s.cases[step.body.caseId].mode == Live && ApprovedOf(s.cases[step.body.caseId], c)
              && step.body.command.version == c.version && c.schedule.key !in s.schedules
    ensures !Took(s, step) ==> Next(s, step).1.Error?
  {
    hide FindCandidate;
    assert CaseSound(s, step.body.caseId);
    CandidateIsFound(s.cases[step.body.caseId].artifact.value.payload.candidates, c);
  }

  /** It commits: the approved schedule is published and the head stands on it, one plan version further. */
  lemma PublicationCommits(s: Operations, step: Step, c: Candidate)
    requires Sound(s) && step.CommandStep? && step.body.command.Publish? && Took(s, step)
    requires UpToDate(s, step.body) && c in s.cases[step.body.caseId].artifact.value.payload.candidates
    requires c.id == step.body.command.candidateId
    ensures var t, row, head := Next(s, step).0, s.cases[step.body.caseId], s.head.value;
            var plan := head.planVersion + 1;
            && t.cases == s.cases[step.body.caseId := row.(
                 status := Committed, revision := row.revision + 1,
                 commit := Some(Commit(row.snapshotId, c.schedule.key, HashOf(c.schedule), plan, step.user)))]
            && t.head == Some(Head(head.snapshotId, head.revision + 1, plan, Some(c.schedule.key)))
            && t.schedules == s.schedules[c.schedule.key := Publication(row.snapshotId, HashOf(c.schedule), c.schedule)]
            && t.snapshots == s.snapshots && t.issued == s.issued
            && t.receipts.Keys == s.receipts.Keys + {(step.user, step.key)}
  {
    hide FindCandidate;
    assert CaseSound(s, step.body.caseId);
    CandidateIsFound(s.cases[step.body.caseId].artifact.value.payload.candidates, c);
  }

  /** Only an up-to-date body takes effect, whatever the command. */
  lemma EffectIsUpToDate(s: Operations, step: Step)
    requires step.CommandStep? && Took(s, step)
    ensures step.writer && UpToDate(s, step.body) && Unused(s, step)
    ensures !step.body.command.Reject? ==>
              exists c :: c in s.cases[step.body.caseId].artifact.value.payload.candidates
                          && c.id == step.body.command.candidateId
  {
    hide FindCandidate, IsApproved;
    if !step.body.command.Reject? {
      var c := FindCandidate(s.cases[step.body.caseId].artifact.value.payload.candidates,
                             step.body.command.candidateId).value;
      assert c in s.cases[step.body.caseId].artifact.value.payload.candidates;
    }
  }

  lemma DecidedCase(s: Operations, user: UserId, b: Body)
    requires b.caseId in s.cases && Decided(s, user, b).1.None?
    ensures var t := Decided(s, user, b).0;
            && b.caseId in t.cases && t.head.Some? && t.receipts == s.receipts
            && (Stale(t.cases[b.caseId], t.head) <==> b.command.Publish?)
  {
    hide FindCandidate, CandidateProblem, IsApproved;
  }

  /** The answer to an effective command shows the case and whether the head has moved on from it. */
  lemma AnswerShowsEffect(s: Operations, step: Step)
    requires step.CommandStep? && Took(s, step)
    ensures var t := Next(s, step).0;
            && step.body.caseId in t.cases && t.head.Some?
            && (step.user, step.key) in t.receipts
            && Next(s, step).1 == Answer(t.receipts[(step.user, step.key)].response, false)
            && t.receipts[(step.user, step.key)].request == CommandRequest(step.body)
            && var view := t.receipts[(step.user, step.key)].response;
               && view.caseId == step.body.caseId && view.row == t.cases[step.body.caseId]
               && (view.stale <==> step.body.command.Publish?)
  {
    hide Decided, Offered, Stale;
    DecidedCase(s, step.user, step.body);
  }

  /** A reader without the right to write is offered nothing. */
  lemma ReadersAreOfferedNothing(row: Case, head: Option<Head>)
    ensures Offered(row, head, false) == {}
  {
  }

  // Retries -------------------------------------------------------------------------------------

  predicate Writes(step: Step) { step.CreateStep? || step.CommandStep? }

  /** What the step asks for, as its receipt remembers it. */
  function RequestOf(step: Step): Request
    requires Writes(step)
  {
    if step.CreateStep? then step.request else CommandRequest(step.body)
  }

  lemma ReceiptsStay(s: Operations, step: Step, user: UserId, key: Key)
    requires Admissible(s, step) && (user, key) in s.receipts
    ensures (user, key) in Next(s, step).0.receipts
            && Next(s, step).0.receipts[(user, key)] == s.receipts[(user, key)]
  {
    hide Stages, Checked, Fence;
    if step.CommandStep? && step.body.caseId in s.cases { DecisionKeepsReceipts(s, step.user, step.body); }
  }

  lemma DecisionKeepsReceipts(s: Operations, user: UserId, b: Body)
    requires b.caseId in s.cases
    ensures Decided(s, user, b).0.receipts == s.receipts
  {
    hide FindCandidate, CandidateProblem, IsApproved, BasisProblem;
  }

  lemma {:induction false} ReceiptsStayInRuns(s: Operations, steps: seq<Step>, user: UserId, key: Key)
    requires Runs(s, steps) && (user, key) in s.receipts
    ensures (user, key) in After(s, steps).receipts
            && After(s, steps).receipts[(user, key)] == s.receipts[(user, key)]
    decreases |steps|
  {
    hide Next;
    if steps != [] {
      ReceiptsStay(s, steps[0], user, key);
      ReceiptsStayInRuns(Next(s, steps[0]).0, steps[1..], user, key);
    }
  }

  lemma ReceiptIsWritten(s: Operations, step: Step)
    requires Writes(step) && Admissible(s, step) && Took(s, step)
    ensures var t := Next(s, step).0;
            && (step.user, step.key) in t.receipts && Next(s, step).1.Answer? && !Next(s, step).1.replayed
            && t.receipts[(step.user, step.key)] == Receipt(RequestOf(step), Next(s, step).1.view)
  {
    hide FindCandidate, CandidateProblem, IsApproved, Offered, BasisProblem;
  }

  /**
   Whatever happened in between, a repeated request is answered as the first time, and any other
   request under its key is refused; both change nothing.
   */
  lemma RetriesAreHarmless(s: Operations, first: Step, between: seq<Step>, again: Step)
    requires Writes(first) && Admissible(s, first) && Took(s, first) && Runs(Next(s, first).0, between)
    requires Writes(again) && again.user == first.user && again.key == first.key && again.writer
    requires again.CommandStep? ==> again.body.caseId in After(Next(s, first).0, between).cases
    requires again.CreateStep? ==> again.request.CreateRequest?
    ensures var t := After(Next(s, first).0, between);
            && Next(t, again).0 == t
            && Next(t, again).1 ==
                 if RequestOf(again) == RequestOf(first) then Answer(Next(s, first).1.view, true) else Error(KeyReused)
  {
    hide Decided, CaseCreated, Commanded;
    ReceiptIsWritten(s, first);
    ReceiptsStayInRuns(Next(s, first).0, between, first.user, first.key);
    var t := After(Next(s, first).0, between);
    SpentKeyAnswers(t, again);
  }

  lemma SpentKeyAnswers(s: Operations, step: Step)
    requires Writes(step) && step.writer && (step.user, step.key) in s.receipts
    requires step.CommandStep? ==> step.body.caseId in s.cases
    requires step.CreateStep? ==> step.request.CreateRequest?
    ensures Next(s, step).0 == s
    ensures var r := s.receipts[(step.user, step.key)];
            Next(s, step).1 == if RequestOf(step) == r.request then Answer(r.response, true) else Error(KeyReused)
  {
    hide Decided, NewCase;
  }

  // From approval to commit ---------------------------------------------------------------------

  lemma ApprovedRowIsSpared(s: Operations, user: UserId, b: Body, id: CaseId)
    requires Sound(s) && id in s.cases && s.cases[id].status == Approved && b.caseId in s.cases
    requires Decided(s, user, b).0.head == s.head
    ensures id in Decided(s, user, b).0.cases && Decided(s, user, b).0.cases[id] == s.cases[id]
  {
    hide FindCandidate, CandidateProblem, IsApproved, ContentSound, CommitSound, PlaceSound;
  }

  /** Until the head moves an approved case stays as it is. */
  lemma ApprovedStays(s: Operations, step: Step, id: CaseId)
    requires Sound(s) && Admissible(s, step) && id in s.cases && s.cases[id].status == Approved
    requires Next(s, step).0.head == s.head
    ensures id in Next(s, step).0.cases && Next(s, step).0.cases[id] == s.cases[id]
  {
    hide ContentSound, CommitSound, PlaceSound, Decided, Stages, Checked;
    assert CaseSound(s, id);
    if step.CommandStep? && Took(s, step) { ApprovedRowIsSpared(s, step.user, step.body, id); }
  }

  /** The head at the start of a run is the head at its end only if no step moved it. */
  lemma HeadStoodStill(s: Operations, step: Step, rest: seq<Step>)
    requires Sound(s) && Admissible(s, step) && Runs(Next(s, step).0, rest)
    requires s.head.Some? && After(Next(s, step).0, rest).head == s.head
    ensures Next(s, step).0.head == s.head
  {
    hide Next, Sound;
    var t := Next(s, step).0;
    StepStaysSound(s, step);
    StepMovesHead(s, step);
    RunMovesHead(t, rest);
    HeadIsKnown(s);
    HeadIsDetermined(s, t);
  }

  lemma HeadIsKnown(s: Operations)
    requires Sound(s) && s.head.Some?
    ensures s.head.value.snapshotId in s.snapshots
  {
  }

  lemma HeadIsDetermined(s: Operations, t: Operations)
    requires Sound(s) && Sound(t) && HeadMoved(s, t) && s.head.Some? && t.head.Some?
    requires t.head.value.snapshotId == s.head.value.snapshotId && t.head.value.planVersion == s.head.value.planVersion
    ensures t.head == s.head
  {
    assert |s.snapshots| == |s.snapshots.Keys| && |t.snapshots| == |t.snapshots.Keys|;
  }

  lemma {:induction false} ApprovedWaits(s: Operations, steps: seq<Step>, id: CaseId)
    requires Sound(s) && Runs(s, steps) && id in s.cases && s.cases[id].status == Approved
    requires s.head.Some? && After(s, steps).head == s.head
    ensures id in After(s, steps).cases && After(s, steps).cases[id] == s.cases[id]
    decreases |steps|
  {
    hide Next, Sound;
    if steps != [] {
      HeadStoodStill(s, steps[0], steps[1..]);
      StepStaysSound(s, steps[0]);
      ApprovedStays(s, steps[0], id);
      ApprovedWaits(Next(s, steps[0]).0, steps[1..], id);
    }
  }

  /** The publication of `c` on the head and the revision an approval under `b` leaves. */
  function PublicationOf(b: Body, c: Candidate): Body {
    b.(command := Publish(c.id, c.version), expectedRevision := b.expectedRevision + 1)
  }

  /**
   After the approval of a live case and any run that leaves the head where it is, the approved
   candidate can be published exactly when its schedule is still unpublished.
   */
  lemma ApprovedCanBePublished(s: Operations, approve: Step, between: seq<Step>, publish: Step, c: Candidate)
    requires Sound(s) && approve.CommandStep? && approve.body.command.Approve? && Took(s, approve)
    requires UpToDate(s, approve.body) && s.cases[approve.body.caseId].mode == Live
    requires c in s.cases[approve.body.caseId].artifact.value.payload.candidates
    requires c.id == approve.body.command.candidateId
    requires Runs(Next(s, approve).0, between)
    requires After(Next(s, approve).0, between).head == s.head
    requires publish.CommandStep? && publish.writer && publish.body == PublicationOf(approve.body, c)
    requires Unused(After(Next(s, approve).0, between), publish)
    ensures var t := After(Next(s, approve).0, between);
            Took(t, publish) <==> c.schedule.key !in t.schedules
  {
    hide Sound, Next;
    var t, id := Next(s, approve).0, approve.body.caseId;
    ApprovalApproves(s, approve, c);
    StepStaysSound(s, approve);
    ApprovedWaits(t, between, id);
    RunMovesHead(t, between);
    PublicationIsExact(After(t, between), publish, c);
  }

  // Commits are reachable -----------------------------------------------------------------------

  /** A person, a worker and fresh identifiers for one case from creation to commit. */
  datatype Actors = Actors(user: UserId, worker: UserId, id: CaseId, token: Token, create: Key, approve: Key,
                           publish: Key)

  ghost predicate Fresh(s: Operations, a: Actors) {
    && a.id !in s.cases && a.token !in s.issued
    && (a.user, a.create) !in s.receipts && (a.user, a.approve) !in s.receipts && (a.user, a.publish) !in s.receipts
    && a.create != a.approve && a.approve != a.publish && a.publish != a.create
  }

  function Decision(a: Actors, head: Head, r: Recommendation, command: Command, revision: int): Body {
    Body(a.id, command, r.id, head.snapshotId, revision, head.planVersion)
  }

  /** Create, claim, persist, approve `c`, publish `c`. */
  function Route(head: Head, a: Actors, r: Recommendation, c: Candidate): seq<Step> {
    [CreateStep(a.user, true, a.create, CreateRequest(head.snapshotId, head.planVersion, Live, 0), true, a.id),
     ClaimStep(a.id, 1, a.worker, 60, a.token, 0),
     PersistStep(a.id, 2, a.token, r, (_: nat) => 1),
     CommandStep(a.user, true, a.approve, Decision(a, head, r, Approve(c.id, c.version), 6)),
     CommandStep(a.user, true, a.publish, Decision(a, head, r, Publish(c.id, c.version), 7))]
  }

  /** The new case stands at `row`, and its decisions are still to be taken. */
  ghost predicate At(s: Operations, head: Head, a: Actors, row: Case) {
    && a.id in s.cases && s.cases[a.id] == row
    && s.head == Some(head)
    && (a.user, a.approve) !in s.receipts && (a.user, a.publish) !in s.receipts
  }

  function Start(head: Head): Case {
    Case(head.snapshotId, head.planVersion, Live, Created, 1, Pending, 0, None, None, None, None, None)
  }

  function UnderWay(head: Head, a: Actors): Case {
    Start(head).(status := Analyzing, revision := 2, processing := Running, attempt := 1,
                 lease := Some(Lease(a.token, a.worker, 60_000_000)))
  }

  function Planned(head: Head, r: Recommendation): Case {
    Start(head).(status := AwaitingApproval, revision := 6, processing := Succeeded, attempt := 1,
                 artifact := Some(Artifact(r, HashOf(r))))
  }

  lemma CaseStarts(s: Operations, head: Head, a: Actors, r: Recommendation, c: Candidate)
    requires Sound(s) && s.head == Some(head) && Fresh(s, a) && NewRecommendation(s, r.id)
    ensures var step := Route(head, a, r, c)[0];
            var t := Next(s, step).0;
            && Admissible(s, step) && At(t, head, a, Start(head)) && NewRecommendation(t, r.id)
            && t.schedules == s.schedules && t.issued == s.issued
  {
    hide Sound, Next;
    CreationIsExact(s, Route(head, a, r, c)[0]);
  }

  lemma PlanningStarts(s: Operations, head: Head, a: Actors, r: Recommendation, c: Candidate)
    requires Sound(s) && At(s, head, a, Start(head)) && NewRecommendation(s, r.id) && a.token !in s.issued
    ensures var step := Route(head, a, r, c)[1];
            var t := Next(s, step).0;
            && Admissible(s, step) && At(t, head, a, UnderWay(head, a)) && NewRecommendation(t, r.id)
            && t.schedules == s.schedules
  {
    hide Sound, Next;
    ClaimIsExact(s, Route(head, a, r, c)[1]);
  }

  lemma PlanningEnds(s: Operations, head: Head, a: Actors, r: Recommendation, c: Candidate)
    requires Sound(s) && At(s, head, a, UnderWay(head, a)) && NewRecommendation(s, r.id)
    requires Checked(r, a.id, head.snapshotId)
    ensures var step := Route(head, a, r, c)[2];
            var t := Next(s, step).0;
            Admissible(s, step) && At(t, head, a, Planned(head, r)) && t.schedules == s.schedules
  {
    hide Sound, Next, Checked;
    PersistIsExact(s, Route(head, a, r, c)[2]);
  }

  lemma ApprovalArrives(s: Operations, head: Head, a: Actors, r: Recommendation, c: Candidate)
    requires Sound(s) && At(s, head, a, Planned(head, r)) && c in r.candidates && a.approve != a.publish
    ensures var step := Route(head, a, r, c)[3];
            var t := Next(s, step).0;
            && Admissible(s, step) && t.schedules == s.schedules && (a.user, a.publish) !in t.receipts
            && a.id in t.cases && UpToDate(t, Route(head, a, r, c)[4].body) && t.head == Some(head)
            && t.cases[a.id].mode == Live && ApprovedOf(t.cases[a.id], c)
            && c in t.cases[a.id].artifact.value.payload.candidates
  {
    hide Sound, Next;
    var step := Route(head, a, r, c)[3];
    assert Recommends(s.cases[a.id], c.id, c.version);
    ApprovalIsExact(s, step);
    ApprovalApproves(s, step, c);
  }

  lemma CommitArrives(s: Operations, head: Head, a: Actors, r: Recommendation, c: Candidate)
    requires Sound(s) && a.id in s.cases && UpToDate(s, Route(head, a, r, c)[4].body) && s.head == Some(head)
    requires s.cases[a.id].mode == Live && ApprovedOf(s.cases[a.id], c) && c.schedule.key !in s.schedules
    requires (a.user, a.publish) !in s.receipts
    ensures var step := Route(head, a, r, c)[4];
            var t := Next(s, step).0;
            && Admissible(s, step) && CommittedAs(t, a.id, head.planVersion + 1)
            && t.schedules == s.schedules[
                 c.schedule.key := Publication(head.snapshotId, HashOf(c.schedule), c.schedule)]
  {
    hide Sound, Next;
    PublicationIsExact(s, Route(head, a, r, c)[4], c);
    PublicationCommits(s, Route(head, a, r, c)[4], c);
  }

  /** A step, then the rest. */
  lemma Then(s: Operations, steps: seq<Step>, k: nat)
    requires k < |steps| && Admissible(s, steps[k]) && Runs(Next(s, steps[k]).0, steps[k + 1..])
    ensures Runs(s, steps[k..]) && After(s, steps[k..]) == After(Next(s, steps[k]).0, steps[k + 1..])
  {
    hide Next, Admissible;
    assert steps[k..][1..] == steps[k + 1..];
  }

  lemma NoSteps(s: Operations, steps: seq<Step>)
    requires steps == []
    ensures Runs(s, steps) && After(s, steps) == s
  {
  }

  /** From every sound state a checked candidate with an unpublished schedule can become the next plan version. */
  lemma CommitIsReachable(s: Operations, head: Head, a: Actors, r: Recommendation, c: Candidate)
    requires Sound(s) && s.head == Some(head) && Fresh(s, a)
    requires Checked(r, a.id, head.snapshotId) && NewRecommendation(s, r.id)
    requires c in r.candidates && c.schedule.key !in s.schedules
    ensures Runs(s, Route(head, a, r, c))
    ensures CommittedAs(After(s, Route(head, a, r, c)), a.id, head.planVersion + 1)
    ensures After(s, Route(head, a, r, c)).schedules == s.schedules[
              c.schedule.key := Publication(head.snapshotId, HashOf(c.schedule), c.schedule)]
  {
    hide Sound, Next, Checked, Runs, After;
    var steps := Route(head, a, r, c);
    CaseStarts(s, head, a, r, c);
    var created := Next(s, steps[0]).0;
    StepStaysSound(s, steps[0]);
    PlanningStarts(created, head, a, r, c);
    var claimed := Next(created, steps[1]).0;
    StepStaysSound(created, steps[1]);
    PlanningEnds(claimed, head, a, r, c);
    var planned := Next(claimed, steps[2]).0;
    StepStaysSound(claimed, steps[2]);
    ApprovalArrives(planned, head, a, r, c);
    var approved := Next(planned, steps[3]).0;
    StepStaysSound(planned, steps[3]);
    CommitArrives(approved, head, a, r, c);
    NoSteps(Next(approved, steps[4]).0, steps[5..]);
    Then(approved, steps, 4);
    Then(planned, steps, 3);
    Then(claimed, steps, 2);
    Then(created, steps, 1);
    Then(s, steps, 0);
    assert steps[0..] == steps;
  }

  /** The first plan: from an empty store, one snapshot and one case lead to a commit. */
  lemma FirstCommit(snapshotId: SnapshotId, hash: Hash<int>, a: Actors, r: Recommendation, c: Candidate)
    requires Fresh(NOTHING, a) && Checked(r, a.id, snapshotId) && c in r.candidates
    ensures var steps := [IngestStep(snapshotId, hash, 0)] + Route(Head(snapshotId, 1, 0, None), a, r, c);
            Runs(NOTHING, steps) && CommittedAs(After(NOTHING, steps), a.id, 1)
  {
    hide Sound, Next, Checked;
    var ingest := IngestStep(snapshotId, hash, 0);
    var s := Next(NOTHING, ingest).0;
    IngestionIsExact(NOTHING, ingest);
    ReachableIsSound([]);
    StepStaysSound(NOTHING, ingest);
    CommitIsReachable(s, Head(snapshotId, 1, 0, None), a, r, c);
    assert ([ingest] + Route(Head(snapshotId, 1, 0, None), a, r, c))[1..] == Route(Head(snapshotId, 1, 0, None), a,
                                                                                   r, c);
  }
}
