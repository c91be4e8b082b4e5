/** Safety of the head and its cases over every interleaving of ingestion, workers and people. */
module DecisionLaws {
  import opened Collections
  import opened Decisions

  datatype Step =
    | IngestStep(snapshotId: SnapshotId, hash: Hash<int>, expected: int)
    | CreateStep(user: UserId, writer: bool, key: Key, request: Request, references: bool, id: CaseId)
    | ClaimStep(id: CaseId, revision: int, worker: UserId, seconds: int, token: Token, at: Time)
    | RenewStep(id: CaseId, revision: int, token: Token, seconds: int, at: Time)
    | FailStep(id: CaseId, revision: int, token: Token, code: ErrorCode, at: Time)
    | ReleaseStep(id: CaseId, revision: int, token: Token, expired: bool, at: Time)
    | PersistStep(id: CaseId, revision: int, token: Token, recommendation: Recommendation, clock: nat -> Time)
    | CommandStep(user: UserId, writer: bool, key: Key, body: Body)

  function Next(s: Operations, step: Step): (Operations, Reply)
    requires step.CreateStep? ==> step.request.CreateRequest?
  {
    match step
    case IngestStep(snapshotId, hash, expected) => Ingested(s, snapshotId, hash, expected)
    case CreateStep(user, writer, key, request, references, id) =>
      CaseCreated(s, user, writer, key, request, references, id)
    case ClaimStep(id, revision, worker, seconds, token, at) => Claim(s, id, revision, worker, seconds, token, at)
    case RenewStep(id, revision, token, seconds, at) => Renewed(s, id, revision, token, seconds, at)
    case FailStep(id, revision, token, code, at) => FailedPlanning(s, id, revision, token, code, at)
    case ReleaseStep(id, revision, token, expired, at) => Released(s, id, revision, token, expired, at)
    case PersistStep(id, revision, token, r, clock) => Persisted(s, id, revision, token, r, clock)
    case CommandStep(user, writer, key, body) => Commanded(s, user, writer, key, body)
  }

  /** Drawn identifiers are fresh. */
  predicate Admissible(s: Operations, step: Step) {
    && (step.CreateStep? ==> step.request.CreateRequest? && step.id !in s.cases)
    && (step.ClaimStep? ==> step.token !in s.issued)
  }

  ghost predicate Runs(s: Operations, steps: seq<Step>)
    decreases |steps|
  {
    steps == [] || (Admissible(s, steps[0]) && Runs(Next(s, steps[0]).0, steps[1..]))
  }

  /** The state after a run. */
  ghost function After(s: Operations, steps: seq<Step>): Operations
    requires Runs(s, steps)
    decreases |steps|
  {
    if steps == [] then s else After(Next(s, steps[0]).0, steps[1..])
  }

  const NOTHING: Operations := Operations(map[], None, map[], map[], map[], map[])

  // The invariant -------------------------------------------------------------------------------

  predicate Recommended(status: Status) {
    status.AwaitingApproval? || status.Approved? || status.Rejected? || status.Committed?
  }

  predicate HeadSound(s: Operations) {
    match s.head
    case None => s.snapshots == map[] && s.cases == map[] && s.schedules == map[]
    case Some(h) =>
      && h.snapshotId in s.snapshots
      && h.planVersion >= 0
      && h.revision == |s.snapshots| + h.planVersion
      && (h.schedule.Some? ==> h.schedule.value in s.schedules)
  }

  /** The CHECK constraints on status, processing state and lease, and what each status has attached. */
  predicate ShapeSound(row: Case) {
    && row.revision >= 1 && row.attempt >= 0
    && row.processing == (if row.status.Created? then Pending else if Processed(row.status) then Running
                          else if row.status.Failed? then Broken else Succeeded)
    && (row.status.Failed? ==> row.error.Some?)
    && (row.lease.Some? <==> Processed(row.status))
    && (row.artifact.Some? <==> Recommended(row.status))
    && (row.human.Some? <==> row.status.Approved? || row.status.Rejected? || row.status.Committed?)
    && (row.human.Some? ==> (row.human.value.Rejection? <==> row.status.Rejected?))
    && (row.commit.Some? <==> row.status.Committed?)
    && (row.commit.Some? ==> row.mode.Live?)
  }

  /** The recommendation was checked and stored with its own hash; an approval names one of its valid candidates. */
  predicate ContentSound(id: CaseId, row: Case) {
    && (row.artifact.Some? ==>
          && Checked(row.artifact.value.payload, id, row.snapshotId)
          && row.artifact.value.hash == HashOf(row.artifact.value.payload))
    && (row.artifact.Some? && row.human.Some? && row.human.value.Approval? ==>
          var h, r := row.human.value, row.artifact.value.payload;
          var c := FindCandidate(r.candidates, h.candidateId);
          && h.recommendationId == r.id
          && c.Some? && c.value.version == h.version && c.value.valid
          && h.candidateHash == HashOf(c.value) && h.scheduleHash == HashOf(c.value.schedule))
  }

  /** A commit published the approved schedule, on the case's own basis, as the very next plan version. */
  predicate CommitSound(s: Operations, row: Case) {
    row.commit.Some? && row.human.Some? && row.human.value.Approval? && row.artifact.Some? ==>
      var k := row.commit.value;
      var c := FindCandidate(row.artifact.value.payload.candidates, row.human.value.candidateId);
      && k.planVersion == row.basePlanVersion + 1
      && k.snapshotId == row.snapshotId
      && k.hash == row.human.value.scheduleHash
      && c.Some? && k.key == c.value.schedule.key
      && k.key in s.schedules
      && s.schedules[k.key] == Publication(row.snapshotId, k.hash, c.value.schedule)
      && HashOf(s.schedules[k.key].payload) == k.hash
  }

  predicate PlaceSound(s: Operations, id: CaseId, row: Case) {
    && s.head.Some?
    && row.snapshotId in s.snapshots
    && 0 <= row.basePlanVersion <= s.head.value.planVersion
    && (row.commit.Some? ==> 1 <= row.commit.value.planVersion <= s.head.value.planVersion)
    && (row.lease.Some? ==> row.lease.value.token in s.issued && s.issued[row.lease.value.token] == (id, row.attempt))
  }

  predicate CaseSound(s: Operations, id: CaseId)
    requires id in s.cases
  {
    var row := s.cases[id];
    ShapeSound(row) && ContentSound(id, row) && CommitSound(s, row) && PlaceSound(s, id, row)
  }

  /** Case `id` committed plan version `v`. */
  predicate CommittedAs(s: Operations, id: CaseId, v: int) {
    id in s.cases && s.cases[id].commit.Some? && s.cases[id].commit.value.planVersion == v
  }

  ghost predicate Published(s: Operations, v: int) { exists id :: CommittedAs(s, id, v) }

  /** Plan versions 1..n of the head are each some case's commit, and no two cases share one. */
  ghost predicate VersionsSound(s: Operations) {
    && (forall v :: s.head.Some? && 1 <= v <= s.head.value.planVersion ==> Published(s, v))
    && (forall c, d, v :: CommittedAs(s, c, v) && CommittedAs(s, d, v) ==> c == d)
  }

  ghost predicate Sound(s: Operations) {
    HeadSound(s) && (forall id :: id in s.cases ==> CaseSound(s, id)) && VersionsSound(s)
  }

  // Preservation --------------------------------------------------------------------------------

  /** Nothing a sound case relies on was taken away. */
  ghost predicate Grows(s: Operations, t: Operations) {
    && s.snapshots.Keys <= t.snapshots.Keys
    && (s.head.Some? ==> t.head.Some? && t.head.value.planVersion >= s.head.value.planVersion)
    && (forall k :: k in s.schedules ==> k in t.schedules && t.schedules[k] == s.schedules[k])
    && (forall k :: k in s.issued ==> k in t.issued && t.issued[k] == s.issued[k])
  }

  lemma SameCaseStaysSound(s: Operations, t: Operations, id: CaseId)
    requires Grows(s, t) && id in s.cases && id in t.cases && t.cases[id] == s.cases[id] && CaseSound(s, id)
    ensures CaseSound(t, id)
  {
  }

  /** Commits are those of before, on the same head version. */
  ghost predicate SameCommits(s: Operations, t: Operations) {
    && (forall id :: id in s.cases ==> id in t.cases && t.cases[id].commit == s.cases[id].commit)
    && (forall id :: id in t.cases && id !in s.cases ==> t.cases[id].commit.None?)
    && (t.head.Some? ==> t.head.value.planVersion == if s.head.Some? then s.head.value.planVersion else 0)
  }

  lemma SameCommitsStaySound(s: Operations, t: Operations)
    requires VersionsSound(s) && SameCommits(s, t)
    ensures VersionsSound(t)
  {
    forall v | t.head.Some? && 1 <= v <= t.head.value.planVersion ensures Published(t, v) {
      assert Published(s, v);
      var c :| CommittedAs(s, c, v);
      assert CommittedAs(t, c, v);
    }
    forall c, d, v | CommittedAs(t, c, v) && CommittedAs(t, d, v) ensures c == d {
      assert CommittedAs(s, c, v) && CommittedAs(s, d, v);
    }
  }

  /** Only the row of `id` changed, and not its commit. */
  ghost predicate OneRow(s: Operations, t: Operations, id: CaseId) {
    && id in s.cases && id in t.cases
    && t.snapshots == s.snapshots && t.head == s.head && t.schedules == s.schedules
    && t.cases == s.cases[id := t.cases[id]]
    && t.cases[id].commit == s.cases[id].commit
    && (forall k :: k in s.issued ==> k in t.issued && t.issued[k] == s.issued[k])
  }

  lemma OneRowStaysSound(s: Operations, t: Operations, id: CaseId)
    requires Sound(s) && OneRow(s, t, id) && CaseSound(t, id)
    ensures Sound(t)
  {
    forall c | c in t.cases ensures CaseSound(t, c) {
      if c != id { SameCaseStaysSound(s, t, c); }
    }
    SameCommitsStaySound(s, t);
  }

  lemma {:induction false} StagesOutcome(row: Case, token: Token, clock: nat -> Time, k: nat)
    requires StagesLeft(row.status) > 0
    requires Stages(row, token, clock, k).Some?
    ensures Stages(row, token, clock, k).value ==
              row.(status := AwaitingApproval, processing := Succeeded, error := None, lease := None,
                   revision := row.revision + StagesLeft(row.status))
    ensures row.lease.Some? && row.lease.value.token == token
    decreases StagesLeft(row.status)
  {
    var next := NextStage(row, token, clock(k)).value;
    if StagesLeft(next.status) > 0 {
      StagesOutcome(next, token, clock, k + 1);
    }
  }

  /** Against a clock that does not run backwards, all stages pass exactly when the last one precedes the expiry. */
  lemma {:induction false} PersistenceIsAllOrNothing(row: Case, token: Token, clock: nat -> Time, k: nat)
    requires forall i, j :: 0 <= i <= j ==> clock(i) <= clock(j)
    requires StagesLeft(row.status) > 0 && Processed(row.status)
    requires row.lease.Some? && row.lease.value.token == token
    ensures Stages(row, token, clock, k).Some? <==> clock(k + StagesLeft(row.status) - 1) < row.lease.value.expiresAt
    decreases StagesLeft(row.status)
  {
    var next := NextStage(row, token, clock(k));
    assert clock(k) <= clock(k + StagesLeft(row.status) - 1);
    if next.Some? && StagesLeft(next.value.status) > 0 {
      PersistenceIsAllOrNothing(next.value, token, clock, k + 1);
    }
  }

  lemma WorkerRowStaysSound(s: Operations, step: Step)
    requires step.ClaimStep? || step.RenewStep? || step.FailStep? || step.ReleaseStep?
    requires step.id in s.cases && CaseSound(s, step.id) && Admissible(s, step)
    ensures CaseSound(Next(s, step).0, step.id)
  {
  }

  lemma PersistedRowStaysSound(s: Operations, step: Step)
    requires step.PersistStep? && step.id in s.cases && CaseSound(s, step.id)
    ensures CaseSound(Next(s, step).0, step.id)
  {
    var row := s.cases[step.id];
    if Next(s, step).0 != s {
      StagesOutcome(row.(artifact := Some(Artifact(step.recommendation, HashOf(step.recommendation)))),
                    step.token, step.clock, 1);
    }
  }

  lemma PersistOneRow(s: Operations, step: Step)
    requires step.PersistStep? && Next(s, step).0 != s && step.id in s.cases && CaseSound(s, step.id)
    ensures OneRow(s, Next(s, step).0, step.id)
  {
    StagesOutcome(s.cases[step.id].(artifact := Some(Artifact(step.recommendation, HashOf(step.recommendation)))),
                  step.token, step.clock, 1);
  }

  lemma PlanningStaysSound(s: Operations, step: Step)
    requires Sound(s) && Admissible(s, step)
    requires step.ClaimStep? || step.RenewStep? || step.FailStep? || step.ReleaseStep? || step.PersistStep?
    ensures Sound(Next(s, step).0)
  {
    var t := Next(s, step).0;
    if t != s {
      if step.PersistStep? {
        PersistedRowStaysSound(s, step);
        PersistOneRow(s, step);
      } else {
        WorkerRowStaysSound(s, step);
      }
      OneRowStaysSound(s, t, step.id);
    }
  }

  lemma CreationStaysSound(s: Operations, step: Step)
    requires Sound(s) && Admissible(s, step) && step.CreateStep?
    ensures Sound(Next(s, step).0)
  {
    var t := Next(s, step).0;
    if t != s {
      forall c | c in t.cases ensures CaseSound(t, c) {
        if c != step.id { SameCaseStaysSound(s, t, c); }
      }
      SameCommitsStaySound(s, t);
    }
  }

  lemma IngestionStaysSound(s: Operations, step: Step)
    requires Sound(s) && step.IngestStep?
    ensures Sound(Next(s, step).0)
  {
    var t := Next(s, step).0;
    if t != s {
      assert |t.snapshots| == |s.snapshots| + 1;
      forall c | c in t.cases ensures CaseSound(t, c) {
        SameCaseStaysSound(s, t, c);
      }
      SameCommitsStaySound(s, t);
    }
  }

  lemma DecidedRowStaysSound(s: Operations, user: UserId, b: Body)
    requires b.caseId in s.cases && CaseSound(s, b.caseId) && !b.command.Publish?
    ensures CaseSound(Decided(s, user, b).0, b.caseId)
  {
  }

  lemma DecisionOneRow(s: Operations, user: UserId, b: Body)
    requires b.caseId in s.cases && !b.command.Publish?
    ensures OneRow(s, Decided(s, user, b).0, b.caseId)
  {
  }

  lemma DecisionStaysSound(s: Operations, user: UserId, b: Body)
    requires Sound(s) && b.caseId in s.cases && !b.command.Publish?
    ensures Sound(Decided(s, user, b).0)
  {
    var t := Decided(s, user, b).0;
    if t != s {
      DecidedRowStaysSound(s, user, b);
      DecisionOneRow(s, user, b);
      OneRowStaysSound(s, t, b.caseId);
    }
  }

  /** What a successful publication wrote. */
  lemma PublicationWrites(s: Operations, user: UserId, b: Body)
    requires Sound(s) && b.caseId in s.cases && b.command.Publish? && Decided(s, user, b).1.None?
    ensures var t, row := Decided(s, user, b).0, s.cases[b.caseId];
            && row.commit.None? && s.head.Some? && t.head.Some?
            && t.snapshots == s.snapshots && t.issued == s.issued
            && t.head.value.planVersion == s.head.value.planVersion + 1
            && t.head.value.revision == s.head.value.revision + 1
            && t.head.value.snapshotId == s.head.value.snapshotId == row.snapshotId
            && b.caseId in t.cases && t.cases == s.cases[b.caseId := t.cases[b.caseId]]
            && t.cases[b.caseId].commit.Some?
            && t.cases[b.caseId].commit.value.planVersion == s.head.value.planVersion + 1
            && Grows(s, t) && HeadSound(t)
  {
    assert CaseSound(s, b.caseId);
  }

  lemma PublishedRowIsSound(s: Operations, user: UserId, b: Body)
    requires Sound(s) && b.caseId in s.cases && b.command.Publish? && Decided(s, user, b).1.None?
    ensures b.caseId in Decided(s, user, b).0.cases && CaseSound(Decided(s, user, b).0, b.caseId)
  {
    assert CaseSound(s, b.caseId);
  }

  lemma PublicationKeepsVersions(s: Operations, t: Operations, id: CaseId)
    requires Sound(s) && s.head.Some? && t.head.Some? && id in s.cases && s.cases[id].commit.None?
    requires t.head.value.planVersion == s.head.value.planVersion + 1
    requires id in t.cases && t.cases == s.cases[id := t.cases[id]]
    requires CommittedAs(t, id, t.head.value.planVersion)
    ensures VersionsSound(t)
  {
    forall v | 1 <= v <= t.head.value.planVersion ensures Published(t, v) {
      if v <= s.head.value.planVersion {
        assert Published(s, v);
        var c :| CommittedAs(s, c, v);
        assert CommittedAs(t, c, v);
      }
    }
    forall c, d, v | CommittedAs(t, c, v) && CommittedAs(t, d, v) ensures c == d {
      if c != id { assert CommittedAs(s, c, v) && CaseSound(s, c); }
      if d != id { assert CommittedAs(s, d, v) && CaseSound(s, d); }
    }
  }

  lemma PublicationStaysSound(s: Operations, user: UserId, b: Body)
    requires Sound(s) && b.caseId in s.cases && b.command.Publish?
    ensures Sound(Decided(s, user, b).0)
  {
    var t := Decided(s, user, b).0;
    if t != s {
      PublicationWrites(s, user, b);
      PublishedRowIsSound(s, user, b);
      forall c | c in t.cases ensures CaseSound(t, c) {
        if c != b.caseId { SameCaseStaysSound(s, t, c); }
      }
      PublicationKeepsVersions(s, t, b.caseId);
    }
  }

  lemma ReceiptsDoNotMatter(s: Operations, receipts: map<(UserId, Key), Receipt>)
    requires Sound(s)
    ensures Sound(s.(receipts := receipts))
  {
    var t := s.(receipts := receipts);
    forall c | c in t.cases ensures CaseSound(t, c) { SameCaseStaysSound(s, t, c); }
    SameCommitsStaySound(s, t);
  }

  lemma CommandStaysSound(s: Operations, step: Step)
    requires Sound(s) && step.CommandStep?
    ensures Sound(Next(s, step).0)
  {
    if Next(s, step).0 != s {
      if step.body.command.Publish? {
        PublicationStaysSound(s, step.user, step.body);
      } else {
        DecisionStaysSound(s, step.user, step.body);
      }
      ReceiptsDoNotMatter(Decided(s, step.user, step.body).0, Next(s, step).0.receipts);
    }
  }

  lemma StepStaysSound(s: Operations, step: Step)
    requires Sound(s) && Admissible(s, step)
    ensures Sound(Next(s, step).0)
  {
    match step
    case IngestStep(_, _, _) => IngestionStaysSound(s, step);
    case CreateStep(_, _, _, _, _, _) => CreationStaysSound(s, step);
    case CommandStep(_, _, _, _) => CommandStaysSound(s, step);
    case _ => PlanningStaysSound(s, step);
  }

  /** Every reachable state is sound. */
  lemma {:induction false} RunsStaySound(s: Operations, steps: seq<Step>)
    requires Sound(s) && Runs(s, steps)
    ensures Sound(After(s, steps))
    decreases |steps|
  {
    if steps != [] {
      StepStaysSound(s, steps[0]);
      RunsStaySound(Next(s, steps[0]).0, steps[1..]);
    }
  }

  lemma ReachableIsSound(steps: seq<Step>)
    requires Runs(NOTHING, steps)
    ensures Sound(After(NOTHING, steps))
  {
    RunsStaySound(NOTHING, steps);
  }
}
