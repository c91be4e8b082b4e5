/** A run of the service whose order outlives the nine digits that analytics can read. */
module AnalyticsLimits {
  import opened Collections
  import opened WorkOrderPolicy
  import opened WorkOrders
  import opened WorkOrderRuns
  import opened Analytics
  import opened AnalyticsLaws

  const WORKER: UserId := 7
  const MANAGER: UserId := 8

  /** An operator and an engineer, both with access to the factory. */
  function Staff(): Directory {
    map[WORKER := Account(Operator, true, true), MANAGER := Account(Engineer, true, true)]
  }

  /** One published maintenance assignment: number 1 of schedule 1, for request 1 on machine 1. */
  function Published(): Operations {
    Operations(
      Some(Head(1, 1, 1, Some(1), Some(1))),
      map[1 := Publication(1, 1, 1, 1, 1, true, true, true, [PlannedWork(1, true, false, Some(1), 1, 0, 1)],
                           map[1 := 1], {1})])
  }

  /** A key never used before: longer than all others. */
  function LongKey(n: nat): (k: Key)
    ensures |k| == n
  {
    seq(n, i => 'k')
  }

  function Creation(): Step {
    CreateStep(Staff(), MANAGER, Published(), Draft(1, 1, 1, 1, 1, 1, 1, 1, None), 1, LongKey(0), 0)
  }

  function Command(actor: UserId, c: Command, expected: nat): Step {
    CommandStep(Staff(), actor, 1, c, expected, LongKey(expected), 0)
  }

  /** After `steps` order 1 has had `n` writes, its last report came from the worker, and longer keys are unused. */
  ghost predicate Stage(steps: seq<Step>, n: nat, status: Status, attempt: int) {
    && Clocked(steps) && steps != [] && steps[|steps| - 1].at == 0 && 1 in Run(steps).orders
    && var s := Run(steps); var row := s.orders[1];
       && row.revision == n && row.status == status && row.attempt == attempt
       && (!status.Unassigned? ==> row.assignee == Some(WORKER))
       && (forall k :: k in s.receipts ==> |k.1| < n)
       && (forall c :: c in CompletionsOf(s.completions, 1) ==> c.actor == WORKER)
  }

  lemma OneMoreStep(steps: seq<Step>, step: Step)
    requires Clocked(steps) && Follows(steps, step)
    ensures Clocked(steps + [step]) && Run(steps + [step]) == Next(Run(steps), step).0
  {
    assert (steps + [step])[..|steps|] == steps;
  }

  lemma LatestIsMember(cs: seq<Completion>)
    ensures Latest(cs).Some? ==> Latest(cs).value in cs
    ensures cs != [] ==> Latest(cs).Some?
  {
  }

  lemma Opened() returns (steps: seq<Step>)
    ensures Stage(steps, 1, Unassigned, 1)
  {
    steps := [Creation()];
    assert steps[..0] == [] && Clocked([]) && Run([]) == Store(map[], [], [], map[]);
    OneMoreStep([], Creation());
    assert [] + [Creation()] == steps;
    CreationGoesThrough();
  }

  lemma CreationGoesThrough()
    ensures var s := Next(Store(map[], [], [], map[]), Creation()).0;
            && 1 in s.orders && s.orders[1].revision == 1 && s.orders[1].status.Unassigned? && s.orders[1].attempt == 1
            && s.completions == [] && forall k :: k in s.receipts ==> |k.1| == 0
  {
  }

  /** What the policy grants, sent under an unused key with the current revision, goes through. */
  lemma Moves(steps: seq<Step>, n: nat, status: Status, attempt: int, actor: UserId, c: Command)
    returns (more: seq<Step>)
    requires Stage(steps, n, status, attempt) && n < LAST_REVISION && status in Sources(c.Kind())
    requires if IsExecution(c.Kind()) then actor == WORKER && !status.Unassigned? else actor == MANAGER
    requires c.Assign? || c.Accept? || c.Start? || c.Complete? || c.RequestRework?
    requires c.Assign? ==> c.assignee == WORKER
    ensures Stage(more, n + 1, Destination(c.Kind()), if c.RequestRework? then attempt + 1 else attempt)
  {
    more := steps + [Command(actor, c, n)];
    OneMoreStep(steps, Command(actor, c, n));
    CommandGoesThrough(Run(steps), n, actor, c);
  }

  lemma CommandGoesThrough(s: Store, n: nat, actor: UserId, c: Command)
    requires 1 in s.orders && s.orders[1].revision == n < LAST_REVISION && s.orders[1].status in Sources(c.Kind())
    requires (forall k :: k in s.receipts ==> |k.1| < n)
    requires (forall c :: c in CompletionsOf(s.completions, 1) ==> c.actor == WORKER)
    requires !s.orders[1].status.Unassigned? ==> s.orders[1].assignee == Some(WORKER)
    requires if IsExecution(c.Kind()) then actor == WORKER && !s.orders[1].status.Unassigned? else actor == MANAGER
    requires c.Assign? || c.Accept? || c.Start? || c.Complete? || c.RequestRework?
    requires c.Assign? ==> c.assignee == WORKER
    ensures var t, row := Next(s, Command(actor, c, n)).0, s.orders[1];
            && 1 in t.orders && t.orders[1].revision == n + 1 && t.orders[1].status == Destination(c.Kind())
            && t.orders[1].attempt == (if c.RequestRework? then row.attempt + 1 else row.attempt)
            && t.orders[1].assignee == Some(WORKER)
            && (forall k :: k in t.receipts ==> |k.1| < n + 1)
            && (forall c :: c in CompletionsOf(t.completions, 1) ==> c.actor == WORKER)
  {
    hide Decide, Authorize, RoleProblem, Latest, CompletionsOf, Staff;
    var row, latest := s.orders[1], Latest(CompletionsOf(s.completions, 1));
    LatestIsMember(CompletionsOf(s.completions, 1));
    PolicyGrants(row, latest, actor, c);
    var t := Next(s, Command(actor, c, n)).0;
    assert (actor, LongKey(n)) !in s.receipts;
    assert t.completions == s.completions + Report(1, row, actor, c, 0);
    ReportsOfWorker(s.completions, row, actor, c);
  }

  lemma ReportsOfWorker(completions: seq<Completion>, row: Order, actor: UserId, c: Command)
    requires (forall d :: d in CompletionsOf(completions, 1) ==> d.actor == WORKER) && (c.Complete? ==> actor == WORKER)
    ensures forall d :: d in CompletionsOf(completions + Report(1, row, actor, c, 0), 1) ==> d.actor == WORKER
  {
    hide CompletionsOf;
    forall d | d in CompletionsOf(completions + Report(1, row, actor, c, 0), 1) ensures d.actor == WORKER {
      assert d in completions ==> d in CompletionsOf(completions, 1);
    }
  }

  lemma PolicyGrants(row: Order, latest: Option<Completion>, actor: UserId, c: Command)
    requires row.revision < LAST_REVISION && row.status in Sources(c.Kind())
    requires latest.Some? ==> latest.value.actor == WORKER
    requires !row.status.Unassigned? ==> row.assignee == Some(WORKER)
    requires if IsExecution(c.Kind()) then actor == WORKER && !row.status.Unassigned? else actor == MANAGER
    requires c.Assign? || c.Accept? || c.Start? || c.Complete? || c.RequestRework?
    requires c.Assign? ==> c.assignee == WORKER
    ensures var user := User(actor, Staff()[actor].role);
            && Authorize(Staff(), actor) == Granted(user) && RoleProblem(row, user, c.Kind()).None?
            && var next := Decide(row, latest, Staff(), user, c, 0);
               && next.Granted? && next.value.revision == row.revision + 1
               && next.value.status == Destination(c.Kind())
               && next.value.attempt == (if c.RequestRework? then row.attempt + 1 else row.attempt)
               && next.value.assignee == Some(WORKER)
  {
  }

  lemma FirstRound() returns (steps: seq<Step>)
    ensures Stage(steps, 5, Completed, 1)
  {
    hide Stage;
    steps := Opened();
    steps := Moves(steps, 1, Unassigned, 1, MANAGER, Assign(WORKER));
    steps := Moves(steps, 2, Assigned, 1, WORKER, Accept);
    steps := Moves(steps, 3, Accepted, 1, WORKER, Start);
    steps := Moves(steps, 4, InProgress, 1, WORKER, Complete(Success));
  }

  /** Rework never runs out: two commands per attempt bring an order to any attempt within the revision limit. */
  lemma {:induction false} ReworkForever(n: nat) returns (steps: seq<Step>)
    requires n >= 1 && 2 * n + 3 <= LAST_REVISION
    ensures Stage(steps, 2 * n + 3, Completed, n)
  {
    hide Stage;
    if n == 1 {
      steps := FirstRound();
    } else {
      steps := ReworkForever(n - 1);
      steps := Moves(steps, 2 * n + 1, Completed, n - 1, MANAGER, RequestRework("again"));
      steps := Moves(steps, 2 * n + 2, InProgress, n, WORKER, Complete(Success));
    }
  }

  /** The nine-digit limit can be met: a run within the revision limit whose order is excluded from analytics. */
  lemma TenDigitAttemptIsExcluded(now: Time) returns (steps: seq<Step>)
    ensures Clocked(steps) && 1 in Run(steps).orders
    ensures var s := Run(steps);
            && s.orders[1].attempt == MAX_ATTEMPT + 1 && s.orders[1].revision <= LAST_REVISION
            && !AllCounted(Contributions(s.orders[1], EventsOf(s.events, 1), CompletionsOf(s.completions, 1), now))
  {
    steps := ReworkForever(MAX_ATTEMPT + 1);
    ReachableHistoriesAreCounted(steps, 1, now);
  }
}
