/** What runs of the decision services guarantee: no ABA on the head, one commit per basis, dead tokens. */
module DecisionHistory {
  import opened Collections
  import opened Decisions
  import opened DecisionLaws

  // The head fence ------------------------------------------------------------------------------

  /** How the head may have moved from `s` to a later `t`: old snapshots never come back. */
  ghost predicate HeadMoved(s: Operations, t: Operations) {
    s.head.Some? ==>
      && t.head.Some?
      && s.snapshots.Keys <= t.snapshots.Keys
      && s.head.value.planVersion <= t.head.value.planVersion
      && (t.head.value.planVersion == s.head.value.planVersion ==> t.head.value.schedule == s.head.value.schedule)
      && (if t.head.value.snapshotId == s.head.value.snapshotId then t.snapshots.Keys == s.snapshots.Keys
          else t.head.value.snapshotId !in s.snapshots)
  }

  predicate SameBasis(row: Case, later: Case) {
    later.snapshotId == row.snapshotId && later.basePlanVersion == row.basePlanVersion && later.mode == row.mode
    && later.revision >= row.revision && later.attempt >= row.attempt
    && (row.commit.Some? ==> later == row)
  }

  /** Cases stay, on their basis; a committed case is final. */
  ghost predicate CasesKept(s: Operations, t: Operations) {
    forall id :: id in s.cases ==> id in t.cases && SameBasis(s.cases[id], t.cases[id])
  }

  lemma CommandMovesHead(s: Operations, step: Step)
    requires Sound(s) && step.CommandStep?
    ensures HeadMoved(s, Next(s, step).0)
  {
    if Next(s, step).0 != s {
      if step.body.command.Publish? {
        PublicationWrites(s, step.user, step.body);
      } else {
        DecisionOneRow(s, step.user, step.body);
      }
    }
  }

  lemma StepMovesHead(s: Operations, step: Step)
    requires Sound(s) && Admissible(s, step)
    ensures HeadMoved(s, Next(s, step).0)
  {
    if step.PersistStep? && Next(s, step).0 != s {
      assert CaseSound(s, step.id);
      PersistOneRow(s, step);
    } else if step.CommandStep? {
      CommandMovesHead(s, step);
    }
  }

  lemma PersistKeepsBasis(s: Operations, step: Step)
    requires step.PersistStep? && step.id in s.cases && CaseSound(s, step.id)
    ensures step.id in Next(s, step).0.cases && SameBasis(s.cases[step.id], Next(s, step).0.cases[step.id])
  {
    if Next(s, step).0 != s {
      StagesOutcome(s.cases[step.id].(artifact := Some(Artifact(step.recommendation, HashOf(step.recommendation)))),
                    step.token, step.clock, 1);
    }
  }

  lemma WorkerKeepsBasis(s: Operations, step: Step)
    requires step.ClaimStep? || step.RenewStep? || step.FailStep? || step.ReleaseStep?
    requires step.id in s.cases && CaseSound(s, step.id)
    ensures step.id in Next(s, step).0.cases && SameBasis(s.cases[step.id], Next(s, step).0.cases[step.id])
  {
    hide ContentSound, CommitSound, PlaceSound;
  }

  lemma PublishingKeepsBasis(s: Operations, user: UserId, b: Body)
    requires b.caseId in s.cases && b.command.Publish? && ShapeSound(s.cases[b.caseId])
    ensures b.caseId in Decided(s, user, b).0.cases
    ensures SameBasis(s.cases[b.caseId], Decided(s, user, b).0.cases[b.caseId])
    ensures Decided(s, user, b).0.cases == s.cases[b.caseId := Decided(s, user, b).0.cases[b.caseId]]
  {
    hide FindCandidate, CandidateProblem, IsApproved;
  }

  lemma DecidedKeepsBasis(s: Operations, user: UserId, b: Body)
    requires b.caseId in s.cases && ShapeSound(s.cases[b.caseId])
    ensures b.caseId in Decided(s, user, b).0.cases
    ensures SameBasis(s.cases[b.caseId], Decided(s, user, b).0.cases[b.caseId])
    ensures Decided(s, user, b).0.cases == s.cases[b.caseId := Decided(s, user, b).0.cases[b.caseId]]
  {
    if b.command.Publish? {
      PublishingKeepsBasis(s, user, b);
    } else {
      DecisionOneRow(s, user, b);
    }
  }

  lemma CommandKeepsBasis(s: Operations, step: Step)
    requires step.CommandStep? && step.body.caseId in s.cases && CaseSound(s, step.body.caseId)
    ensures var id := step.body.caseId;
            && id in Next(s, step).0.cases && SameBasis(s.cases[id], Next(s, step).0.cases[id])
            && Next(s, step).0.cases == s.cases[id := Next(s, step).0.cases[id]]
  {
    if Next(s, step).0 != s {
      DecidedKeepsBasis(s, step.user, step.body);
    }
  }

  lemma StepKeepsCases(s: Operations, step: Step)
    requires Sound(s) && Admissible(s, step)
    ensures CasesKept(s, Next(s, step).0)
  {
    var t := Next(s, step).0;
    if t != s && !step.IngestStep? && !step.CreateStep? {
      var id := if step.CommandStep? then step.body.caseId else step.id;
      assert CaseSound(s, id);
      if step.CommandStep? {
        CommandKeepsBasis(s, step);
      } else if step.PersistStep? {
        PersistKeepsBasis(s, step);
        PersistOneRow(s, step);
      } else {
        WorkerKeepsBasis(s, step);
      }
    }
  }

  lemma HeadMovedIsTransitive(s: Operations, t: Operations, u: Operations)
    requires HeadMoved(s, t) && HeadMoved(t, u) && (s.head.Some? ==> s.head.value.snapshotId in s.snapshots)
    ensures HeadMoved(s, u)
  {
  }

  lemma CasesKeptIsTransitive(s: Operations, t: Operations, u: Operations)
    requires CasesKept(s, t) && CasesKept(t, u)
    ensures CasesKept(s, u)
  {
    forall id | id in s.cases ensures id in u.cases && SameBasis(s.cases[id], u.cases[id]) {
      assert SameBasis(s.cases[id], t.cases[id]) && SameBasis(t.cases[id], u.cases[id]);
    }
  }

  lemma {:induction false} RunMovesHead(s: Operations, steps: seq<Step>)
    requires Sound(s) && Runs(s, steps)
    ensures HeadMoved(s, After(s, steps)) && CasesKept(s, After(s, steps)) && Sound(After(s, steps))
    decreases |steps|
  {
    if steps != [] {
      var t := Next(s, steps[0]).0;
      StepStaysSound(s, steps[0]);
      StepMovesHead(s, steps[0]);
      StepKeepsCases(s, steps[0]);
      RunMovesHead(t, steps[1..]);
      HeadMovedIsTransitive(s, t, After(s, steps));
      CasesKeptIsTransitive(s, t, After(s, steps));
    }
  }

  /** Same snapshot and same plan version mean that nothing happened to the head in between. */
  lemma HeadHasNoABA(s: Operations, steps: seq<Step>)
    requires Sound(s) && Runs(s, steps) && s.head.Some?
    ensures var t := After(s, steps);
            && t.head.Some?
            && (t.head.value.snapshotId == s.head.value.snapshotId
                && t.head.value.planVersion == s.head.value.planVersion
                ==> t.head == s.head)
  {
    RunMovesHead(s, steps);
    assert |s.snapshots| == |s.snapshots.Keys| && |After(s, steps).snapshots| == |After(s, steps).snapshots.Keys|;
  }

  /** The step changed the store, so it was accepted and not replayed. */
  predicate Took(s: Operations, step: Step)
    requires step.CreateStep? ==> step.request.CreateRequest?
  {
    Next(s, step).0 != s
  }

  /** A decision that takes effect sees the very head revision its case was created on. */
  lemma CommandSeesHeadOfCreation(s: Operations, create: Step, between: seq<Step>, command: Step)
    requires Sound(s) && create.CreateStep? && Admissible(s, create) && Took(s, create)
    requires Runs(Next(s, create).0, between)
    requires command.CommandStep? && command.body.caseId == create.id
    requires Took(After(Next(s, create).0, between), command)
    ensures After(Next(s, create).0, between).head == s.head && s.head.Some?
  {
    var t := Next(s, create).0;
    StepStaysSound(s, create);
    RunMovesHead(t, between);
    var u := After(t, between);
    assert SameBasis(t.cases[create.id], u.cases[create.id]);
    HeadHasNoABA(t, between);
  }

  /** Two cases on one basis never both commit. */
  lemma OneCommitPerBasis(steps: seq<Step>, c: CaseId, d: CaseId)
    requires Runs(NOTHING, steps)
    requires var s := After(NOTHING, steps);
             c in s.cases && d in s.cases && s.cases[c].commit.Some? && s.cases[d].commit.Some?
    requires var s := After(NOTHING, steps); s.cases[c].basePlanVersion == s.cases[d].basePlanVersion
    ensures c == d
  {
    ReachableIsSound(steps);
    var s := After(NOTHING, steps);
    assert CaseSound(s, c) && CaseSound(s, d);
    var v := s.cases[c].basePlanVersion + 1;
    assert CommittedAs(s, c, v) && CommittedAs(s, d, v);
  }

  /** Commit plan versions are exactly 1 up to the head's, each once. */
  lemma CommitVersionsAreGapFree(steps: seq<Step>, v: int)
    requires Runs(NOTHING, steps)
    ensures var s := After(NOTHING, steps);
            && (Published(s, v) <==> s.head.Some? && 1 <= v <= s.head.value.planVersion)
            && forall c, d :: CommittedAs(s, c, v) && CommittedAs(s, d, v) ==> c == d
  {
    ReachableIsSound(steps);
    var s := After(NOTHING, steps);
    if Published(s, v) {
      var c :| CommittedAs(s, c, v);
      assert CaseSound(s, c);
    }
  }

  /** The published schedule is the approved one, byte for byte by its hash. */
  lemma PublishedIsApproved(steps: seq<Step>, id: CaseId)
    requires Runs(NOTHING, steps)
    requires var s := After(NOTHING, steps); id in s.cases && s.cases[id].commit.Some?
    ensures var s := After(NOTHING, steps);
            var row := s.cases[id];
            && row.human.Some? && row.human.value.Approval? && row.artifact.Some?
            && var k := row.commit.value;
               var c := FindCandidate(row.artifact.value.payload.candidates, row.human.value.candidateId);
               && c.Some? && c.value.valid
               && k.key in s.schedules
               && s.schedules[k.key].payload == c.value.schedule
               && s.schedules[k.key].hash == k.hash == row.human.value.scheduleHash == HashOf(c.value.schedule)
               && s.schedules[k.key].snapshotId == row.snapshotId
  {
    ReachableIsSound(steps);
    assert CaseSound(After(NOTHING, steps), id);
  }

  /** Stored content never fails its integrity check. */
  lemma IntegrityNeverFails(steps: seq<Step>, step: Step)
    requires Runs(NOTHING, steps) && step.CommandStep?
    ensures Next(After(NOTHING, steps), step).1 != Error(IntegrityError)
  {
    ReachableIsSound(steps);
    var s := After(NOTHING, steps);
    if step.body.caseId in s.cases {
      assert CaseSound(s, step.body.caseId);
    }
  }

  // Leases --------------------------------------------------------------------------------------

  predicate Holds(s: Operations, id: CaseId, token: Token) {
    id in s.cases && s.cases[id].lease.Some? && s.cases[id].lease.value.token == token
  }

  /** Drawn once, held by nobody. */
  ghost predicate Dead(s: Operations, token: Token) {
    token in s.issued && forall id :: !Holds(s, id, token)
  }

  predicate UsesToken(step: Step, token: Token) {
    match step
    case RenewStep(_, _, k, _, _) => k == token
    case FailStep(_, _, k, _, _) => k == token
    case ReleaseStep(_, _, k, _, _) => k == token
    case PersistStep(_, _, k, _, _) => k == token
    case _ => false
  }

  lemma HeldTokenIsCurrent(s: Operations, step: Step, token: Token)
    requires Sound(s) && Admissible(s, step) && UsesToken(step, token) && Next(s, step).0 != s
    ensures Holds(s, step.id, token)
  {
  }

  lemma PersistEndsLease(s: Operations, step: Step, id: CaseId, token: Token)
    requires step.PersistStep? && (step.id in s.cases ==> CaseSound(s, step.id)) && Holds(Next(s, step).0, id, token)
    ensures Holds(s, id, token)
  {
    if Next(s, step).0 != s {
      PersistOneRow(s, step);
      StagesOutcome(s.cases[step.id].(artifact := Some(Artifact(step.recommendation, HashOf(step.recommendation)))),
                    step.token, step.clock, 1);
    }
  }

  lemma CommandKeepsLeases(s: Operations, step: Step, id: CaseId, token: Token)
    requires step.CommandStep? && Holds(Next(s, step).0, id, token)
    ensures Holds(s, id, token)
  {
    hide Decided, Respond, Replay;
    if step.body.caseId in s.cases { DecisionKeepsLeases(s, step.user, step.body); }
  }

  lemma DecisionKeepsLeases(s: Operations, user: UserId, b: Body)
    requires b.caseId in s.cases
    ensures var t := Decided(s, user, b).0;
            t.cases.Keys == s.cases.Keys && forall id :: id in s.cases ==> t.cases[id].lease == s.cases[id].lease
  {
    hide BasisProblem, CandidateProblem, FindCandidate, IsApproved;
  }

  /** Leases only appear by a claim, under the claim's own fresh token. */
  lemma LeasesComeFromClaims(s: Operations, step: Step, id: CaseId, token: Token)
    requires Sound(s) && Admissible(s, step) && Holds(Next(s, step).0, id, token)
    ensures Holds(s, id, token) || (step.ClaimStep? && step.token == token && token !in s.issued)
  {
    if step.PersistStep? {
      if step.id in s.cases { assert CaseSound(s, step.id); }
      PersistEndsLease(s, step, id, token);
    } else if step.CommandStep? {
      CommandKeepsLeases(s, step, id, token);
    }
  }

  lemma TokensStayIssued(s: Operations, step: Step, token: Token)
    requires Sound(s) && Admissible(s, step) && token in s.issued
    ensures token in Next(s, step).0.issued && Next(s, step).0.issued[token] == s.issued[token]
  {
    if step.PersistStep? && Next(s, step).0 != s {
      assert CaseSound(s, step.id);
      PersistOneRow(s, step);
    }
  }

  lemma {:induction false} DeadTokensStayDead(s: Operations, steps: seq<Step>, token: Token)
    requires Sound(s) && Runs(s, steps) && Dead(s, token)
    ensures Sound(After(s, steps)) && Dead(After(s, steps), token)
    decreases |steps|
  {
    if steps != [] {
      var t := Next(s, steps[0]).0;
      StepStaysSound(s, steps[0]);
      TokensStayIssued(s, steps[0], token);
      forall id ensures !Holds(t, id, token) {
        if Holds(t, id, token) { LeasesComeFromClaims(s, steps[0], id, token); }
      }
      DeadTokensStayDead(t, steps[1..], token);
    }
  }

  /** A worker whose lease was released, expired and requeued, or superseded can never change anything again. */
  lemma DeadTokensChangeNothing(s: Operations, steps: seq<Step>, step: Step, token: Token)
    requires Sound(s) && Runs(s, steps) && Dead(s, token)
    requires Admissible(After(s, steps), step) && UsesToken(step, token)
    ensures Next(After(s, steps), step).0 == After(s, steps)
  {
    DeadTokensStayDead(s, steps, token);
    if Next(After(s, steps), step).0 != After(s, steps) {
      HeldTokenIsCurrent(After(s, steps), step, token);
    }
  }

  // Offered commands ----------------------------------------------------------------------------

  /** The request a reader would build from what it was shown, choosing candidate `c`. */
  function Prepared(id: CaseId, row: Case, kind: CommandKind, c: Candidate): Body
    requires row.artifact.Some?
  {
    var command := match kind
      case APPROVE => Approve(c.id, c.version)
      case REJECT => Reject
      case COMMIT => Publish(c.id, c.version);
    Body(id, command, row.artifact.value.payload.id, row.snapshotId, row.revision, row.basePlanVersion)
  }

  lemma CandidateIsFound(candidates: seq<Candidate>, c: Candidate)
    requires c in candidates && forall i, j :: 0 <= i < j < |candidates| ==> candidates[i].id != candidates[j].id
    ensures FindCandidate(candidates, c.id) == Some(c)
  {
    if candidates[0] != c {
      assert c in candidates[1..];
      CandidateIsFound(candidates[1..], c);
    }
  }

  /**
   An offered approval or rejection is granted; an offered commit is granted exactly when its
   schedule is still unpublished.
   */
  lemma OffersAreHonoured(s: Operations, id: CaseId, user: UserId, kind: CommandKind, c: Candidate)
    requires Sound(s) && id in s.cases && kind in Offered(s.cases[id], s.head, true)
    requires s.cases[id].artifact.Some? && c in s.cases[id].artifact.value.payload.candidates
    requires kind.COMMIT? ==> s.cases[id].human.Some? && s.cases[id].human.value.Approval?
                              && s.cases[id].human.value.candidateId == c.id
    ensures var problem := Decided(s, user, Prepared(id, s.cases[id], kind, c)).1;
            problem == if kind.COMMIT? && c.schedule.key in s.schedules then Some(SchedulePublished) else None
  {
    assert CaseSound(s, id);
    CandidateIsFound(s.cases[id].artifact.value.payload.candidates, c);
  }

  function KindOf(c: Command): CommandKind {
    match c
    case Approve(_, _) => APPROVE
    case Reject => REJECT
    case Publish(_, _) => COMMIT
  }

  /** Whatever is granted was on offer. */
  lemma GrantedWasOffered(s: Operations, user: UserId, b: Body)
    requires Sound(s) && b.caseId in s.cases && Decided(s, user, b).1.None?
    ensures KindOf(b.command) in Offered(s.cases[b.caseId], s.head, true)
  {
    assert CaseSound(s, b.caseId);
    var row := s.cases[b.caseId];
    if b.command.Approve? {
      var c := FindCandidate(row.artifact.value.payload.candidates, b.command.candidateId).value;
      assert c in row.artifact.value.payload.candidates && c.valid;
    }
  }
}
