/** What one command may do and does, and the revision fence between two that read the same row. */
module WorkOrderFences {
  import opened Collections
  import opened WorkOrderPolicy
  import opened WorkOrders
  import opened WorkOrderLog
  import opened WorkOrderRuns

  // The fence -----------------------------------------------------------------------------------

  lemma DecisionCounts(row: Order, latest: Option<Completion>, directory: Directory, user: User, c: Command, at: Time)
    requires Decide(row, latest, directory, user, c, at).Granted?
    ensures Decide(row, latest, directory, user, c, at).value.revision == row.revision + 1
    ensures Decide(row, latest, directory, user, c, at).value.id == row.id
  {
  }

  /** A command that takes effect had read the revision it met; row and event carry the next one. */
  lemma EffectNeedsRevision(s: Store, step: Step)
    requires step.CommandStep? && Next(s, step).0 != s
    ensures var t := Next(s, step).0;
            && step.id in s.orders && s.orders[step.id].revision == step.expected
            && step.id in t.orders && t.orders[step.id].revision == step.expected + 1
            && |t.events| == |s.events| + 1 && t.events[..|s.events|] == s.events
            && t.events[|s.events|].sequence == step.expected + 1
            && t.events[|s.events|].orderId == s.orders[step.id].id
            && t.events[|s.events|].actor == step.identity && t.events[|s.events|].at == step.at
  {
    hide Decide, CompletionsOf, Latest;
    var user, next := CommandWrites(s, step);
    DecisionCounts(s.orders[step.id], Latest(CompletionsOf(s.completions, step.id)), step.directory, user, step.command,
                   step.at);
    RevisionWasRead(s, step);
  }

  lemma RevisionWasRead(s: Store, step: Step)
    requires step.CommandStep? && Next(s, step).0 != s
    ensures step.id in s.orders && s.orders[step.id].revision == step.expected
  {
    hide Decide, Authorize, RoleProblem, Replay;
  }

  /** Under an unused key a command with another expected revision changes nothing and is refused. */
  lemma StaleCommandIsRefused(s: Store, step: Step)
    requires step.CommandStep? && step.id in s.orders && s.orders[step.id].revision != step.expected
    requires (step.identity, step.key) !in s.receipts
    ensures Next(s, step).0 == s && Next(s, step).1.Error?
    ensures Next(s, step).1.why in {Unauthorized, Forbidden, NotFound, NotAssignee, RevisionConflict}
  {
    hide Decide;
  }

  /** Only a stale command is answered with a conflict of revisions. */
  lemma ConflictMeansStale(s: Store, step: Step)
    requires step.CommandStep? && Next(s, step).1 == Error(RevisionConflict)
    ensures step.id in s.orders && s.orders[step.id].revision != step.expected
  {
    hide Decide, Replay, Authorize;
    if step.id in s.orders && s.orders[step.id].revision == step.expected {
      NoOtherConflict(s, step);
    }
  }

  lemma NoOtherConflict(s: Store, step: Step)
    requires step.CommandStep? && step.id in s.orders && s.orders[step.id].revision == step.expected
    ensures Next(s, step).1 != Error(RevisionConflict)
  {
  }

  lemma StepKeepsRevisions(s: Store, step: Step, id: OrderId)
    requires id in s.orders && (step.CreateStep? ==> step.id !in s.orders)
    ensures id in Next(s, step).0.orders && Next(s, step).0.orders[id].revision >= s.orders[id].revision
  {
    hide Next, OriginOf;
    if step.CreateStep? {
      var row := CreationEffect(s, step);
    } else if Next(s, step).0 != s {
      EffectNeedsRevision(s, step);
      var user, next := CommandWrites(s, step);
    }
  }

  /** Revisions never fall along a run. */
  lemma {:induction false} RevisionsNeverFall(steps: seq<Step>, i: nat, k: nat, id: OrderId)
    requires Clocked(steps) && i <= k <= |steps| && id in Run(steps[..i]).orders
    ensures id in Run(steps[..k]).orders
    ensures Run(steps[..k]).orders[id].revision >= Run(steps[..i]).orders[id].revision
    decreases k
  {
    hide Next;
    if i < k {
      RevisionsNeverFall(steps, i, k - 1, id);
      PrefixIsClocked(steps, k);
      assert steps[..k][..k - 1] == steps[..k - 1];
      StepKeepsRevisions(Run(steps[..k - 1]), steps[k - 1], id);
    }
  }

  lemma {:induction false} PrefixIsClocked(steps: seq<Step>, k: nat)
    requires Clocked(steps) && k <= |steps|
    ensures Clocked(steps[..k])
  {
    if k < |steps| {
      PrefixIsClocked(steps[..|steps| - 1], k);
      assert steps[..|steps| - 1][..k] == steps[..k];
    } else {
      assert steps[..k] == steps;
    }
  }

  predicate TookEffect(steps: seq<Step>, i: nat)
    requires i < |steps|
  {
    Run(steps[..i + 1]) != Run(steps[..i])
  }

  lemma EffectAt(steps: seq<Step>, i: nat)
    requires i < |steps| && steps[i].CommandStep? && TookEffect(steps, i)
    ensures var s, t := Run(steps[..i]), Run(steps[..i + 1]);
            && steps[i].id in s.orders && s.orders[steps[i].id].revision == steps[i].expected
            && steps[i].id in t.orders && t.orders[steps[i].id].revision == steps[i].expected + 1
  {
    hide Next;
    assert steps[..i + 1][..i] == steps[..i];
    EffectNeedsRevision(Run(steps[..i]), steps[i]);
  }

  /** Of two commands that read the same revision of an order at most one takes effect, in any run. */
  lemma OneEffectPerRevision(steps: seq<Step>, i: nat, k: nat)
    requires Clocked(steps) && i < k < |steps|
    requires steps[i].CommandStep? && steps[k].CommandStep?
    requires steps[i].id == steps[k].id && steps[i].expected == steps[k].expected
    ensures !(TookEffect(steps, i) && TookEffect(steps, k))
  {
    hide Run, TookEffect;
    if TookEffect(steps, i) && TookEffect(steps, k) {
      EffectAt(steps, i);
      EffectAt(steps, k);
      RevisionsNeverFall(steps, i + 1, k, steps[i].id);
    }
  }

  // Who and what --------------------------------------------------------------------------------

  /** An account in use, with access to the factory. */
  predicate MayWrite(directory: Directory, id: UserId) {
    id in directory && directory[id].active && (directory[id].role == Admin || directory[id].member)
  }

  /** Managers direct an order, its assignee works on it. */
  predicate Entitled(row: Order, directory: Directory, id: UserId, c: Command)
    requires id in directory
  {
    match c
    case Accept | Start | Block(_) | Resume(_) | Complete(_) =>
      directory[id].role in {Operator, Engineer} && row.assignee == Some(id)
    case _ => directory[id].role in {Admin, Engineer}
  }

  predicate MayBeAssigned(directory: Directory, id: UserId) {
    id in directory && directory[id].active && directory[id].member && directory[id].role in {Operator, Engineer}
  }

  /** The state a command asks for. */
  predicate Fits(row: Order, latest: Option<Completion>, directory: Directory, id: UserId, c: Command) {
    match c
    case Assign(who) => row.status == Unassigned && MayBeAssigned(directory, who)
    case Reassign(who, _) =>
      row.status in {Assigned, Accepted, Blocked} && MayBeAssigned(directory, who) && row.assignee != Some(who)
    case Accept => row.status == Assigned
    case Start => row.status == Accepted
    case Block(_) => row.status == InProgress
    case Resume(_) => row.status == Blocked
    case Complete(_) => row.status == InProgress
    case Close(verdict) =>
      && row.status == Completed && (latest.Some? ==> latest.value.actor != id)
      && (verdict == VerifiedStopped <==> latest.Some? && latest.value.outcome == Stopped)
    case RequestRework(_) =>
      && row.status == Completed && (latest.Some? ==> latest.value.actor != id)
      && row.assignee.Some? && MayBeAssigned(directory, row.assignee.value)
    case Cancel(_) => row.status in {Unassigned, Assigned, Accepted} && row.startedAt == None
    case ManagerHold(_) => row.status == InProgress
    case ReassignForRework(who, _) =>
      && row.status == Completed && latest.Some? && latest.value.actor != id
      && MayBeAssigned(directory, who) && row.assignee != Some(who)
  }

  /** The row a command leaves. */
  function Outcome(row: Order, id: UserId, c: Command, at: Time): Order {
    var next := row.(revision := row.revision + 1, updatedAt := at);
    match c
    case Assign(who) => next.(status := Assigned, assignee := Some(who), blocker := None)
    case Reassign(who, _) => next.(status := Assigned, assignee := Some(who), blocker := None)
    case Accept => next.(status := Accepted)
    case Start => next.(status := InProgress, startedAt := if row.startedAt == None then Some(at) else row.startedAt)
    case Block(reason) => next.(status := Blocked, blocker := Some(reason))
    case Resume(_) => next.(status := InProgress, blocker := None)
    case Complete(_) => next.(status := Completed, completedAt := Some(at))
    case Close(verdict) => next.(status := Closed, verification := Some(Verification(verdict, id, at)))
    case RequestRework(_) => next.(status := InProgress, attempt := row.attempt + 1, completedAt := None)
    case Cancel(reason) => next.(status := Cancelled, cancelReason := Some(reason), cancelledAt := Some(at))
    case ManagerHold(reason) => next.(status := Blocked, blocker := Some(reason))
    case ReassignForRework(who, _) =>
      next.(status := Assigned, assignee := Some(who), attempt := row.attempt + 1, completedAt := None)
  }

  /** A decision is granted exactly to the entitled, in the state the command asks for, while revisions last. */
  lemma DecisionIsExact(
    row: Order, latest: Option<Completion>, directory: Directory, id: UserId, c: Command, at: Time)
    requires id in directory
    ensures var d := Decide(row, latest, directory, User(id, directory[id].role), c, at);
            && (d.Granted? <==> Entitled(row, directory, id, c) && Fits(row, latest, directory, id, c)
                                && row.revision < 2_147_483_647)
            && (d.Granted? ==> d.value == Outcome(row, id, c, at))
  {
  }

  lemma AuthorizationIsExact(directory: Directory, id: UserId)
    ensures var a := Authorize(directory, id);
            && (a.Granted? <==> MayWrite(directory, id) && directory[id].role != Viewer)
            && (a.Granted? ==> a.value == User(id, directory[id].role))
  {
  }

  /** A command under an unused key takes effect exactly when its sender, its state and its revision allow it. */
  lemma CommandIsExact(s: Store, step: Step)
    requires step.CommandStep? && (step.identity, step.key) !in s.receipts
    ensures var latest := Latest(CompletionsOf(s.completions, step.id));
            Next(s, step).0 != s <==>
              && step.id in s.orders && MayWrite(step.directory, step.identity)
              && s.orders[step.id].revision == step.expected < 2_147_483_647
              && Entitled(s.orders[step.id], step.directory, step.identity, step.command)
              && Fits(s.orders[step.id], latest, step.directory, step.identity, step.command)
    ensures Next(s, step).0 != s ==>
              && Next(s, step).0.orders == s.orders[step.id :=
                   Outcome(s.orders[step.id], step.identity, step.command, step.at)]
              && Next(s, step).1 == Response(Next(s, step).0.orders[step.id], false)
  {
    hide Decide, Authorize, CompletionsOf, Latest, Fits, Outcome;
    AuthorizationIsExact(step.directory, step.identity);
    if step.id in s.orders && step.identity in step.directory {
      DecisionIsExact(s.orders[step.id], Latest(CompletionsOf(s.completions, step.id)), step.directory, step.identity,
                      step.command, step.at);
      if MayWrite(step.directory, step.identity)
         && Entitled(s.orders[step.id], step.directory, step.identity, step.command) {
        EntitledMeansNoProblem(s.orders[step.id], step.directory, step.identity, step.command);
        assert Next(s, step).0 != s ==> Next(s, step).0.receipts != s.receipts;
      }
    }
  }

  lemma EntitledMeansNoProblem(row: Order, directory: Directory, id: UserId, c: Command)
    requires id in directory
    ensures Entitled(row, directory, id, c) <==> RoleProblem(row, User(id, directory[id].role), c.Kind()).None?
  {
  }

  /** The moves of the table trigger are those some command makes. */
  lemma TriggerMovesAreCommands(from: Status, to: Status)
    ensures MayFollow(from, to) <==> exists k: Kind :: k != CREATE && from in Sources(k) && Destination(k) == to
  {
    assert Destination(ASSIGN) == Assigned && Destination(REASSIGN) == Assigned && Destination(ACCEPT) == Accepted;
    assert Destination(START) == InProgress && Destination(BLOCK) == Blocked && Destination(RESUME) == InProgress;
    assert Destination(COMPLETE) == Completed && Destination(CLOSE) == Closed && Destination(CANCEL) == Cancelled;
    assert Destination(REQUEST_REWORK) == InProgress && Destination(REASSIGN_FOR_REWORK) == Assigned;
  }
}
