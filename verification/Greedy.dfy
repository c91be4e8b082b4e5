/**
 The greedy rule on its own: which booking the planner has to choose next, given the list of
 bookings made so far, and in which turn operations and requests are served.
 */
module Greedy {
  import opened Collections
  import opened Plant
  import opened Judge
  import opened Slots
  import opened Teams
  import opened Bookings

  datatype Choice = Choice(score: real, machineId: Id, start: Time, end: Time)

  predicate Better(a: Choice, b: Choice) {
    || a.score < b.score
    || (a.score == b.score && a.machineId < b.machineId)
    || (a.score == b.score && a.machineId == b.machineId && a.start < b.start)
  }

  function BestChoice(choices: seq<Choice>): (best: Choice)
    requires choices != []
    ensures best in choices && forall c :: c in choices ==> !Better(c, best)
  {
    if |choices| == 1 then choices[0]
    else
      assert choices == [choices[0]] + choices[1..];
      var rest := BestChoice(choices[1..]);
      if Better(rest, choices[0]) then rest else choices[0]
  }

  /** Lexicographic order of technician tuples. */
  predicate TeamBefore(a: seq<Id>, b: seq<Id>) {
    if b == [] then false
    else if a == [] then true
    else a[0] < b[0] || (a[0] == b[0] && TeamBefore(a[1..], b[1..]))
  }

  datatype TeamSlot = TeamSlot(start: Time, team: seq<Id>)

  predicate Sooner(a: TeamSlot, b: TeamSlot) {
    a.start < b.start || (a.start == b.start && TeamBefore(a.team, b.team))
  }

  lemma {:induction false} TeamBeforeTransitive(a: seq<Id>, b: seq<Id>, c: seq<Id>)
    requires !TeamBefore(b, a) && !TeamBefore(c, b)
    ensures !TeamBefore(c, a)
  {
    if a != [] && c != [] && b != [] && a[0] == b[0] == c[0] {
      TeamBeforeTransitive(a[1..], b[1..], c[1..]);
    }
  }

  lemma {:induction false} TeamBeforeAsymmetric(a: seq<Id>, b: seq<Id>)
    requires TeamBefore(a, b)
    ensures !TeamBefore(b, a)
  {
    if a != [] && a[0] == b[0] {
      TeamBeforeAsymmetric(a[1..], b[1..]);
    }
  }

  function SoonestSlot(slots: seq<TeamSlot>): (best: TeamSlot)
    requires slots != []
    ensures best in slots && forall c :: c in slots ==> !Sooner(c, best)
  {
    if |slots| == 1 then
      assert !Sooner(slots[0], slots[0]) by {
        if TeamBefore(slots[0].team, slots[0].team) { TeamBeforeAsymmetric(slots[0].team, slots[0].team); }
      }
      slots[0]
    else
      assert slots == [slots[0]] + slots[1..];
      var rest := SoonestSlot(slots[1..]);
      if Sooner(rest, slots[0]) then
        assert !Sooner(slots[0], rest) by {
          if TeamBefore(rest.team, slots[0].team) { TeamBeforeAsymmetric(rest.team, slots[0].team); }
        }
        rest
      else
        assert forall c :: c in slots ==> !Sooner(c, slots[0]) by {
          SoonestOfHead(slots, rest);
        }
        slots[0]
  }

  lemma SoonestOfHead(slots: seq<TeamSlot>, rest: TeamSlot)
    requires slots != [] && !Sooner(rest, slots[0])
    requires forall c :: c in slots[1..] ==> !Sooner(c, rest)
    ensures forall c :: c in slots ==> !Sooner(c, slots[0])
  {
    forall c | c in slots ensures !Sooner(c, slots[0]) {
      if c == slots[0] {
        if TeamBefore(c.team, c.team) { TeamBeforeAsymmetric(c.team, c.team); }
      } else {
        assert c in slots[1..];
        if c.start == rest.start == slots[0].start {
          TeamBeforeTransitive(slots[0].team, rest.team, c.team);
        }
      }
    }
  }

  /** `timedelta / 2`: microseconds rounded half to even. */
  function HalfEven(d: nat): (h: nat)
    ensures h <= d
  {
    if d % 2 == 0 || (d / 2) % 2 == 0 then d / 2 else d / 2 + 1
  }

  function CurrentMachinePenalty(current: seq<Assignment>, operationId: Id, machineId: Id): int {
    if current == [] then 0
    else if current[0].Produces(operationId) then (if current[0].machineId == machineId then 0 else 1)
    else CurrentMachinePenalty(current[1..], operationId, machineId)
  }

  /** Finish time in minutes, weighted with risk and the preference for the current machine. */
  function Score(s: Snapshot, strategy: Strategy, operationId: Id, machineId: Id, end: Time): real {
    var risk := if machineId in s.health then s.health[machineId] else 0.0;
    var finish := (end - s.window.start) as real / MINUTE as real;
    var change := CurrentMachinePenalty(CurrentAssignments(s), operationId, machineId) as real;
    match strategy
    case ProductionPriority => finish + change * 0.01
    case Balanced => finish + risk * 90.0 + change * 4.0
    case ReliabilityPriority => finish + risk * 5000.0 + change * 15.0
  }

  predicate ByPriority(a: Job, b: Job) {
    || a.priority > b.priority
    || (a.priority == b.priority && (a.releaseAt < b.releaseAt || (a.releaseAt == b.releaseAt && a.id <= b.id)))
  }

  predicate BySequence(a: Operation, b: Operation) {
    a.sequence < b.sequence || (a.sequence == b.sequence && a.id <= b.id)
  }

  function LatestStart(s: Snapshot, r: Request): Time {
    var last := s.window.end - r.Duration();
    if r.latestStart.Some? then Min(r.latestStart.value, last) else last
  }

  function EarliestStart(s: Snapshot, r: Request, strategy: Strategy): Time {
    var earliest, latest := Max(r.earliestStart, s.window.start), LatestStart(s, r);
    if strategy.Balanced? && latest > earliest then earliest + HalfEven(latest - earliest) else earliest
  }

  function UrgencyKey(s: Snapshot, r: Request): Time {
    if r.latestStart.Some? then r.latestStart.value else s.window.end
  }

  predicate ByUrgency(s: Snapshot, a: Request, b: Request) {
    if a.mandatory != b.mandatory then a.mandatory
    else if UrgencyKey(s, a) != UrgencyKey(s, b) then UrgencyKey(s, a) < UrgencyKey(s, b)
    else if a.earliestStart != b.earliestStart then a.earliestStart < b.earliestStart
    else a.id <= b.id
  }

  /** The calendar of a machine. */
  function OnMachine(bookings: seq<Assignment>, machineId: Id): (r: seq<Assignment>)
    ensures forall a :: a in r <==> a in bookings && a.machineId == machineId
  {
    if bookings == [] then []
    else
      assert bookings == [bookings[0]] + bookings[1..];
      (if bookings[0].machineId == machineId then [bookings[0]] else []) + OnMachine(bookings[1..], machineId)
  }

  /** The booking occupies the machine or a member of the team. */
  predicate Shares(a: Assignment, machineId: Id, team: seq<Id>) {
    a.machineId == machineId || exists t :: t in team && t in a.Team()
  }

  lemma SharesOneMore(team: seq<Id>, i: nat, machineId: Id)
    requires i < |team|
    ensures forall a :: Shares(a, machineId, team[..i + 1]) <==> Shares(a, machineId, team[..i]) || team[i] in a.Team()
  {
    assert team[..i + 1] == team[..i] + [team[i]];
    forall a: Assignment | team[i] in a.Team() ensures Shares(a, machineId, team[..i + 1]) {
      var t := team[i];
      assert t in team[..i + 1] && t in a.Team();
    }
  }

  /** The calendars of a machine and a team together. */
  function Sharing(bookings: seq<Assignment>, machineId: Id, team: seq<Id>): (r: seq<Assignment>)
    ensures forall a :: a in r <==> a in bookings && Shares(a, machineId, team)
  {
    if bookings == [] then []
    else
      assert bookings == [bookings[0]] + bookings[1..];
      (if Shares(bookings[0], machineId, team) then [bookings[0]] else []) + Sharing(bookings[1..], machineId, team)
  }

  /** A request of the snapshot that still has to be planned. */
  ghost predicate PendingRequest(x: Index, r: Request) {
    && r.id in x.requests && x.requests[r.id] == r && r.Active()
    && r.machineId in x.machines && r.requiredSkills != [] && r.minutes >= 1
  }

  /** The option's earliest free slot on its machine is `slot`; an unusable machine has none. */
  ghost predicate OptionSlots(
    s: Snapshot, x: Index, bookings: seq<Assignment>, option: MachineOption, earliest: Time, slot: Option<Time>)
  {
    var duration := option.minutes * MINUTE;
    if option.machineId in x.machines && Usable(x.machines[option.machineId]) then
      IsEarliestFree(OnMachine(bookings, option.machineId), Max(earliest, s.window.start), duration,
                     s.window.end - duration, slot)
    else slot.None?
  }

  /** `c` is what the option offers the operation. */
  ghost predicate IsChoice(
    s: Snapshot, x: Index, bookings: seq<Assignment>, o: Operation, option: MachineOption, earliest: Time,
    strategy: Strategy, c: Choice)
  {
    && c.machineId == option.machineId
    && OptionSlots(s, x, bookings, option, earliest, Some(c.start))
    && c.end == c.start + option.minutes * MINUTE
    && c.score == Score(s, strategy, o.id, option.machineId, c.end)
  }

  /** `c` has the least (score, machine, start) among what the options offer. */
  ghost predicate IsLeast(
    s: Snapshot, x: Index, bookings: seq<Assignment>, o: Operation, earliest: Time, strategy: Strategy, c: Choice)
  {
    && (exists option :: option in o.options && IsChoice(s, x, bookings, o, option, earliest, strategy, c))
    && forall option, other ::
         option in o.options && IsChoice(s, x, bookings, o, option, earliest, strategy, other) ==> !Better(other, c)
  }

  /** No option of the operation has a free slot on a usable machine. */
  ghost predicate NoSlot(s: Snapshot, x: Index, bookings: seq<Assignment>, o: Operation, earliest: Time) {
    forall option :: option in o.options ==> OptionSlots(s, x, bookings, option, earliest, None)
  }

  /** `earliest` is the latest among the release of the job and the ends of the predecessors, all of them booked. */
  ghost predicate ReadyAt(bookings: seq<Assignment>, job: Job, o: Operation, earliest: Time) {
    && (forall p :: p in o.predecessors ==> exists b :: b in bookings && b.Produces(p))
    && job.releaseAt <= earliest
    && (forall b :: b in bookings && b.work.Production? && b.work.operationId in o.predecessors ==> b.end <= earliest)
    && (earliest == job.releaseAt
        || exists b :: b in bookings && b.work.Production? && b.work.operationId in o.predecessors && b.end == earliest)
  }

  /** `a` is the booking of least (score, machine, start) for the operation. */
  ghost predicate IsBestPlace(
    s: Snapshot, x: Index, bookings: seq<Assignment>, job: Job, o: Operation, strategy: Strategy, a: Assignment)
  {
    exists earliest, c :: ReadyAt(bookings, job, o, earliest)
      && IsLeast(s, x, bookings, o, earliest, strategy, c)
      && a == Assignment(ForOperation(strategy, o.id), Production(job.id, o.id), Proposed, c.machineId,
                       c.start, c.end, false)
  }

  /** What the joint search finds for `team` in the range of the request. */
  function TeamSlotOf(
    s: Snapshot, x: Index, bookings: seq<Assignment>, r: Request, strategy: Strategy, team: seq<Id>): Option<Time>
  {
    TeamStart(Sharing(bookings, r.machineId, team), ShiftsOf(x, team), EarliestStart(s, r, strategy), LatestStart(s, r),
              r.Duration())
  }

  /** `team` is a minimal team of the request and its search ends at `start`. */
  ghost predicate Offers(
    s: Snapshot, x: Index, bookings: seq<Assignment>, r: Request, strategy: Strategy, team: seq<Id>, start: Time)
  {
    && r.machineId in x.machines && MinimalTeam(s, r, x.machines[r.machineId].family, team)
    && TeamSlotOf(s, x, bookings, r, strategy, team) == Some(start)
  }

  /** The soonest offer over all minimal teams, ties by team order; None when no team has one. */
  ghost predicate Soonest(
    s: Snapshot, x: Index, bookings: seq<Assignment>, r: Request, strategy: Strategy, choice: Option<TeamSlot>)
  {
    && (choice.Some? ==> Offers(s, x, bookings, r, strategy, choice.value.team, choice.value.start))
    && forall team, start :: Offers(s, x, bookings, r, strategy, team, start) ==>
         choice.Some? && !Sooner(TeamSlot(start, team), choice.value)
  }

  ghost predicate IsSoonestTeam(
    s: Snapshot, x: Index, bookings: seq<Assignment>, r: Request, strategy: Strategy, a: Assignment)
  {
    && Soonest(s, x, bookings, r, strategy, Some(TeamSlot(a.start, a.Team())))
    && a == Assignment(ForRequest(strategy, r.id), Work.Maintenance(r.id, a.Team()), Proposed, r.machineId,
                       a.start, a.start + r.Duration(), false)
  }

  /** The booking is the one the rule picks for its operation or request after `bookings`. */
  ghost predicate Chosen(s: Snapshot, x: Index, strategy: Strategy, bookings: seq<Assignment>, a: Assignment) {
    match a.work
    case Production(j, o) =>
      && o in x.operations && x.operations[o].0.id == j && !x.operations[o].1.status.Completed?
      && IsBestPlace(s, x, bookings, x.operations[o].0, x.operations[o].1, strategy, a)
    case Maintenance(r, _) =>
      r in x.requests && x.requests[r].Active() && IsSoonestTeam(s, x, bookings, x.requests[r], strategy, a)
    case BlockedTime => false
  }

  /**
   Production before maintenance under production priority, otherwise after it; operations by
   job priority and then by sequence, requests by urgency.
   */
  ghost predicate InTurn(s: Snapshot, x: Index, strategy: Strategy, a: Assignment, b: Assignment) {
    match (a.work, b.work)
    case (Production(_, o), Production(_, p)) =>
      o in x.operations && p in x.operations ==>
        var (j, first), (k, second) := x.operations[o], x.operations[p];
        if j == k then BySequence(first, second) else ByPriority(j, k)
    case (Maintenance(q, _), Maintenance(r, _)) =>
      q in x.requests && r in x.requests ==> ByUrgency(s, x.requests[q], x.requests[r])
    case (Production(_, _), Maintenance(_, _)) => strategy.ProductionPriority?
    case (Maintenance(_, _), Production(_, _)) => !strategy.ProductionPriority?
    case _ => false
  }

  /** `after` continues `before` with bookings each of which the rule picked when its turn came. */
  ghost predicate Run(s: Snapshot, x: Index, strategy: Strategy, before: seq<Assignment>, after: seq<Assignment>) {
    && before <= after
    && (forall i :: |before| <= i < |after| ==> Chosen(s, x, strategy, after[..i], after[i]))
    && (forall i, k :: |before| <= i < k < |after| ==> InTurn(s, x, strategy, after[i], after[k]))
  }

  /** The bookings of `after` beyond `before`. */
  function Added(before: seq<Assignment>, after: seq<Assignment>): seq<Assignment>
    requires |before| <= |after|
  {
    after[|before|..]
  }

  lemma RunExtends(s: Snapshot, x: Index, strategy: Strategy, before: seq<Assignment>, after: seq<Assignment>)
    requires Run(s, x, strategy, before, after)
    ensures |before| <= |after| && after == before + Added(before, after)
  {
  }

  lemma RunBegins(s: Snapshot, x: Index, strategy: Strategy, before: seq<Assignment>, after: seq<Assignment>)
    requires Run(s, x, strategy, before, after) && |before| < |after|
    ensures Chosen(s, x, strategy, before, after[|before|])
  {
    assert after[..|before|] == before;
  }

  lemma RunOfOne(s: Snapshot, x: Index, strategy: Strategy, before: seq<Assignment>, a: Assignment)
    requires Chosen(s, x, strategy, before, a)
    ensures Run(s, x, strategy, before, before + [a]) && Added(before, before + [a]) == [a]
  {
    assert (before + [a])[..|before|] == before;
  }

  /** Runs one after the other are a run when every booking of the second comes in turn after all of the first. */
  lemma RunsCompose(
    s: Snapshot, x: Index, strategy: Strategy, before: seq<Assignment>, middle: seq<Assignment>, after: seq<Assignment>)
    requires Run(s, x, strategy, before, middle) && Run(s, x, strategy, middle, after)
    requires forall a, b :: a in Added(before, middle) && b in Added(middle, after) ==> InTurn(s, x, strategy, a, b)
    ensures Run(s, x, strategy, before, after) && |before| <= |after|
    ensures Added(before, after) == Added(before, middle) + Added(middle, after)
  {
    forall i | |before| <= i < |after| ensures Chosen(s, x, strategy, after[..i], after[i]) {
      if i < |middle| { assert after[..i] == middle[..i]; }
    }
    forall i, k | |before| <= i < k < |after| ensures InTurn(s, x, strategy, after[i], after[k]) {
      if i < |middle| <= k {
        assert after[i] in Added(before, middle) && after[k] in Added(middle, after);
      }
    }
  }

  /** No option of the operation has a slot from the time its predecessors allow. */
  ghost predicate Stuck(s: Snapshot, x: Index, bookings: seq<Assignment>, job: Job, o: Operation) {
    exists earliest :: ReadyAt(bookings, job, o, earliest) && NoSlot(s, x, bookings, o, earliest)
  }

  /** The choices collected from `options`: each one's own, and none missing. */
  ghost predicate OffersOf(
    s: Snapshot, x: Index, bookings: seq<Assignment>, o: Operation, options: seq<MachineOption>, earliest: Time,
    strategy: Strategy, choices: seq<Choice>)
  {
    && (forall c :: c in choices ==>
          exists option :: option in options && IsChoice(s, x, bookings, o, option, earliest, strategy, c))
    && (forall option, c :: option in options && IsChoice(s, x, bookings, o, option, earliest, strategy, c) ==>
          c in choices)
    && (choices == [] ==> forall option :: option in options ==> OptionSlots(s, x, bookings, option, earliest, None))
  }

  lemma OptionSlotIsUnique(
    s: Snapshot, x: Index, bookings: seq<Assignment>, option: MachineOption, earliest: Time, slot: Option<Time>,
    other: Option<Time>)
    requires OptionSlots(s, x, bookings, option, earliest, slot) && OptionSlots(s, x, bookings, option, earliest, other)
    ensures slot == other
  {
    var duration := option.minutes * MINUTE;
    if option.machineId in x.machines && Usable(x.machines[option.machineId]) {
      var calendar := OnMachine(bookings, option.machineId);
      EarliestFreeIsUnique(calendar, calendar, Max(earliest, s.window.start), duration, s.window.end - duration,
                           slot, other);
    }
  }

  /** `choices`, extended by what one option offers. */
  function WithOffer(
    s: Snapshot, strategy: Strategy, o: Operation, option: MachineOption, choices: seq<Choice>, slot: Option<Time>)
    : seq<Choice>
  {
    if slot.None? then choices
    else
      var end := slot.value + option.minutes * MINUTE;
      choices + [Choice(Score(s, strategy, o.id, option.machineId, end), option.machineId, slot.value, end)]
  }

  lemma OffersGrow(
    s: Snapshot, x: Index, bookings: seq<Assignment>, o: Operation, i: nat, earliest: Time, strategy: Strategy,
    choices: seq<Choice>, slot: Option<Time>)
    requires i < |o.options| && OffersOf(s, x, bookings, o, o.options[..i], earliest, strategy, choices)
    requires OptionSlots(s, x, bookings, o.options[i], earliest, slot)
    ensures OffersOf(s, x, bookings, o, o.options[..i + 1], earliest, strategy,
                     WithOffer(s, strategy, o, o.options[i], choices, slot))
  {
    var option, next := o.options[i], WithOffer(s, strategy, o, o.options[i], choices, slot);
    assert forall other :: other in o.options[..i + 1] <==> other in o.options[..i] || other == option;
    forall c | c in next
      ensures exists other :: other in o.options[..i + 1] && IsChoice(s, x, bookings, o, other, earliest, strategy, c)
    {
      if c in choices {
        var other :| other in o.options[..i] && IsChoice(s, x, bookings, o, other, earliest, strategy, c);
        assert other in o.options[..i + 1];
      } else {
        assert IsChoice(s, x, bookings, o, option, earliest, strategy, c);
      }
    }
    forall c | IsChoice(s, x, bookings, o, option, earliest, strategy, c) ensures c in next {
      OptionSlotIsUnique(s, x, bookings, option, earliest, slot, Some(c.start));
    }
  }

  /** The slots found for `teams`: each one's own, and none missing. */
  ghost predicate SlotsOf(
    s: Snapshot, x: Index, bookings: seq<Assignment>, r: Request, strategy: Strategy, teams: seq<seq<Id>>,
    slots: seq<TeamSlot>)
  {
    && (forall c :: c in slots ==> c.team in teams && Offers(s, x, bookings, r, strategy, c.team, c.start))
    && (forall team, start :: team in teams && Offers(s, x, bookings, r, strategy, team, start) ==>
          TeamSlot(start, team) in slots)
  }

  lemma SlotsGrow(
    s: Snapshot, x: Index, bookings: seq<Assignment>, r: Request, strategy: Strategy, teams: seq<seq<Id>>, i: nat,
    slots: seq<TeamSlot>)
    requires i < |teams| && SlotsOf(s, x, bookings, r, strategy, teams[..i], slots)
    requires r.machineId in x.machines && MinimalTeam(s, r, x.machines[r.machineId].family, teams[i])
    ensures var slot := TeamSlotOf(s, x, bookings, r, strategy, teams[i]);
            SlotsOf(s, x, bookings, r, strategy, teams[..i + 1],
                    if slot.Some? then slots + [TeamSlot(slot.value, teams[i])] else slots)
  {
    assert teams[..i + 1] == teams[..i] + [teams[i]];
  }

  lemma SoonestOfSlots(
    s: Snapshot, x: Index, bookings: seq<Assignment>, r: Request, strategy: Strategy, teams: seq<seq<Id>>,
    slots: seq<TeamSlot>)
    requires r.machineId in x.machines && SlotsOf(s, x, bookings, r, strategy, teams, slots)
    requires forall team :: team in teams <==> MinimalTeam(s, r, x.machines[r.machineId].family, team)
    ensures Soonest(s, x, bookings, r, strategy, if slots == [] then None else Some(SoonestSlot(slots)))
  {
  }

  /** Every booking produces an operation of one of the jobs. */
  ghost predicate ForJobs(x: Index, jobs: seq<Job>, bookings: seq<Assignment>) {
    forall a :: a in bookings ==>
      a.work.Production? && a.work.operationId in x.operations && x.operations[a.work.operationId].0 in jobs
  }

  /** Every booking produces one of the job's operations. */
  ghost predicate ForOperations(x: Index, job: Job, operations: seq<Operation>, bookings: seq<Assignment>) {
    forall a :: a in bookings ==>
      && a.work.Production? && a.work.operationId in x.operations
      && x.operations[a.work.operationId].0 == job && x.operations[a.work.operationId].1 in operations
  }

  /** Every booking serves one of the requests. */
  ghost predicate ForRequests(x: Index, requests: seq<Request>, bookings: seq<Assignment>) {
    forall a :: a in bookings ==>
      a.work.Maintenance? && a.work.requestId in x.requests && x.requests[a.work.requestId] in requests
  }

  lemma RunOfNone(s: Snapshot, x: Index, strategy: Strategy, jobs: seq<Job>, bookings: seq<Assignment>)
    ensures Run(s, x, strategy, bookings, bookings) && ForJobs(x, jobs[..0], Added(bookings, bookings))
  {
  }

  lemma OperationInTurn(
    s: Snapshot, x: Index, strategy: Strategy, job: Job, operations: seq<Operation>, k: nat,
    before: seq<Assignment>, middle: seq<Assignment>, after: seq<Assignment>)
    requires k < |operations| && SortedBy(operations, BySequence)
    requires operations[k].id in x.operations && x.operations[operations[k].id] == (job, operations[k])
    requires Run(s, x, strategy, before, middle) && Run(s, x, strategy, middle, after)
    requires ForOperations(x, job, operations[..k], Added(before, middle))
    requires forall a :: a in Added(middle, after) ==> a.Produces(operations[k].id)
    ensures Run(s, x, strategy, before, after)
    ensures ForOperations(x, job, operations[..k + 1], Added(before, after))
    ensures forall more :: ForOperations(x, job, operations[..k + 1], more) ==> ForOperations(x, job, operations, more)
  {
    assert |before| <= |middle| <= |after|;
    hide Run, InTurn, BySequence;
    forall a, b | a in Added(before, middle) && b in Added(middle, after) ensures InTurn(s, x, strategy, a, b) {
      var i :| 0 <= i < k && operations[i] == x.operations[a.work.operationId].1;
      SequenceIsTurn(s, x, strategy, a, b);
    }
    RunsCompose(s, x, strategy, before, middle, after);
    MoreOperations(x, job, operations, k, Added(before, middle), Added(middle, after));
  }

  lemma SequenceIsTurn(s: Snapshot, x: Index, strategy: Strategy, a: Assignment, b: Assignment)
    requires a.work.Production? && a.work.operationId in x.operations
    requires b.work.Production? && b.work.operationId in x.operations
    requires var (j, o), (k, p) := x.operations[a.work.operationId], x.operations[b.work.operationId];
             if j == k then BySequence(o, p) else ByPriority(j, k)
    ensures InTurn(s, x, strategy, a, b)
  {
  }

  lemma MoreOperations(
    x: Index, job: Job, operations: seq<Operation>, k: nat, earlier: seq<Assignment>, later: seq<Assignment>)
    requires k < |operations| && ForOperations(x, job, operations[..k], earlier)
    requires operations[k].id in x.operations && x.operations[operations[k].id] == (job, operations[k])
    requires forall a :: a in later ==> a.Produces(operations[k].id)
    ensures ForOperations(x, job, operations[..k + 1], earlier + later)
    ensures forall more :: ForOperations(x, job, operations[..k + 1], more) ==> ForOperations(x, job, operations, more)
  {
    assert operations[..k + 1] == operations[..k] + [operations[k]];
  }

  lemma MoreJobs(x: Index, jobs: seq<Job>, i: nat, earlier: seq<Assignment>, later: seq<Assignment>)
    requires i < |jobs| && ForJobs(x, jobs[..i], earlier) && ForJobs(x, [jobs[i]], later)
    ensures ForJobs(x, jobs[..i + 1], earlier + later) && ForJobs(x, jobs, earlier + later)
  {
    assert jobs[..i + 1] == jobs[..i] + [jobs[i]];
  }

  lemma JobInTurn(
    s: Snapshot, x: Index, strategy: Strategy, jobs: seq<Job>, i: nat,
    before: seq<Assignment>, middle: seq<Assignment>, after: seq<Assignment>)
    requires i < |jobs| && SortedBy(jobs, ByPriority) && Distinct(jobs)
    requires Run(s, x, strategy, before, middle) && Run(s, x, strategy, middle, after)
    requires ForJobs(x, jobs[..i], Added(before, middle)) && ForJobs(x, [jobs[i]], Added(middle, after))
    ensures Run(s, x, strategy, before, after) && |before| <= |after|
    ensures ForJobs(x, jobs[..i + 1], Added(before, after)) && ForJobs(x, jobs, Added(before, after))
  {
    assert |before| <= |middle| <= |after|;
    hide Run, InTurn, ByPriority;
    forall a, b | a in Added(before, middle) && b in Added(middle, after) ensures InTurn(s, x, strategy, a, b) {
      var n :| 0 <= n < i && jobs[n] == x.operations[a.work.operationId].0;
      SequenceIsTurn(s, x, strategy, a, b);
    }
    RunsCompose(s, x, strategy, before, middle, after);
    MoreJobs(x, jobs, i, Added(before, middle), Added(middle, after));
  }

  ghost predicate ByUrgencySorted(s: Snapshot, requests: seq<Request>) {
    forall i, k :: 0 <= i < k < |requests| ==> ByUrgency(s, requests[i], requests[k])
  }

  lemma RequestInTurn(
    s: Snapshot, x: Index, strategy: Strategy, requests: seq<Request>, i: nat,
    before: seq<Assignment>, middle: seq<Assignment>, a: Assignment)
    requires i < |requests| && ByUrgencySorted(s, requests) && PendingRequest(x, requests[i])
    requires Run(s, x, strategy, before, middle) && Chosen(s, x, strategy, middle, a) && a.Maintains(requests[i].id)
    requires ForRequests(x, requests[..i], Added(before, middle))
    ensures Run(s, x, strategy, before, middle + [a])
    ensures ForRequests(x, requests[..i + 1], Added(before, middle + [a]))
  {
    RunOfOne(s, x, strategy, middle, a);
    forall b | b in Added(before, middle) ensures InTurn(s, x, strategy, b, a) {
      var n :| 0 <= n < i && requests[n] == x.requests[b.work.requestId];
    }
    RunsCompose(s, x, strategy, before, middle, middle + [a]);
    assert requests[..i + 1] == requests[..i] + [requests[i]];
  }

  lemma PhasesInTurn(
    s: Snapshot, x: Index, strategy: Strategy, before: seq<Assignment>, middle: seq<Assignment>, after: seq<Assignment>)
    requires Run(s, x, strategy, before, middle) && Run(s, x, strategy, middle, after)
    requires forall a :: a in Added(before, middle) ==>
               if strategy.ProductionPriority? then a.work.Production? else a.work.Maintenance?
    requires forall a :: a in Added(middle, after) ==>
               if strategy.ProductionPriority? then a.work.Maintenance? else a.work.Production?
    ensures Run(s, x, strategy, before, after)
  {
    RunsCompose(s, x, strategy, before, middle, after);
  }

  /** With compatible shifts the joint start finds every member on duty. */
  lemma TeamIsPresent(s: Snapshot, x: Index, r: Request, team: seq<Id>, a: Assignment)
    requires PeopleIndexed(s, x) && r.machineId in x.machines
    requires MinimalTeam(s, r, x.machines[r.machineId].family, team)
    requires a.Team() == team && a.end == a.start + r.Duration()
    requires AllInShift(ShiftsOf(x, team), a.start, r.Duration())
    ensures Attended(x, a)
  {
    forall t | t in team && t in x.technicians ensures Present(x.technicians[t], a) {
      assert x.technicians[t] in Crew(s, team);
      assert x.technicians[t] in OnDutyTechnicians(s);
      var i :| 0 <= i < |team| && team[i] == t;
      assert ShiftsOf(x, team)[i] == x.technicians[t].availability;
      assert ShiftsOf(x, team)[i] in ShiftsOf(x, team);
    }
  }

  /** A chosen booking starts after all its predecessors, each of which is booked. */
  lemma ChosenMeetsPredecessors(s: Snapshot, x: Index, strategy: Strategy, bookings: seq<Assignment>, a: Assignment)
    requires Chosen(s, x, strategy, bookings, a)
    ensures PredecessorsMet(x, Elements(bookings), a)
  {
    if a.work.Production? {
      var (job, o) := x.operations[a.work.operationId];
      var earliest, c :| ReadyAt(bookings, job, o, earliest) && IsLeast(s, x, bookings, o, earliest, strategy, c)
        && a.start == c.start;
      var option :| option in o.options && IsChoice(s, x, bookings, o, option, earliest, strategy, c);
      forall p | p in o.predecessors ensures Finishes(Elements(bookings), p, a) {
        var b :| b in bookings && b.Produces(p);
        assert b in Elements(bookings) && b.end <= a.start;
      }
    }
  }

  /** In a run every booking beyond the base has its predecessors met. */
  lemma RunMeetsPredecessors(
    s: Snapshot, x: Index, strategy: Strategy, base: seq<Assignment>, bookings: seq<Assignment>)
    requires Run(s, x, strategy, base, bookings)
    ensures forall a :: a in Added(base, bookings) ==> PredecessorsMet(x, Elements(bookings), a)
  {
    forall a | a in Added(base, bookings) ensures PredecessorsMet(x, Elements(bookings), a) {
      var i :| |base| <= i < |bookings| && bookings[i] == a;
      ChosenMeetsPredecessors(s, x, strategy, bookings[..i], a);
      assert Elements(bookings[..i]) <= Elements(bookings);
      MorePlansMeetMore(x, Elements(bookings[..i]), Elements(bookings), a);
    }
  }

  lemma ChosenIsAttended(s: Snapshot, x: Index, strategy: Strategy, bookings: seq<Assignment>, a: Assignment)
    requires PeopleIndexed(s, x) && Chosen(s, x, strategy, bookings, a)
    requires a.work.Maintenance? ==> TeamCompatible(x, x.requests[a.work.requestId], a.Team())
    ensures Attended(x, a)
  {
    if a.work.Maintenance? {
      var r, team := x.requests[a.work.requestId], a.Team();
      JointExactlyWhenCompatible(ShiftsOf(x, team), r.Duration());
      assert JointlyFeasible(Sharing(bookings, r.machineId, team), ShiftsOf(x, team), a.start, r.Duration());
      TeamIsPresent(s, x, r, team, a);
    }
  }

  /** A booking of the run serves a request that no reservation holds. */
  lemma RunServesPending(s: Snapshot, x: Index, strategy: Strategy, bookings: seq<Assignment>, i: nat)
    requires WellFormed(s) && x == IndexOf(s) && Admissible(s, x, bookings)
    requires Run(s, x, strategy, Reservations(s), bookings) && |Reservations(s)| <= i < |bookings|
    requires bookings[i].work.Maintenance?
    ensures bookings[i].work.requestId in x.requests
    ensures MayServe(s, x, x.requests[bookings[i].work.requestId], bookings[i].Team())
  {
    hide WellFormed, Sound, MinimalTeam, TeamSlotOf, InTurn;
    var a := bookings[i];
    assert Chosen(s, x, strategy, bookings[..i], a);
    forall b | b in Reservations(s) ensures !b.Maintains(a.work.requestId) {
      var k :| 0 <= k < |Reservations(s)| && Reservations(s)[k] == b;
      assert bookings[k] == b && bookings[k].id != bookings[i].id;
      assert Fit(a, b);
    }
  }

  /** With compatible shifts every team of a run is on shift. */
  lemma RunIsAttended(s: Snapshot, x: Index, strategy: Strategy, bookings: seq<Assignment>)
    requires WellFormed(s) && x == IndexOf(s) && Admissible(s, x, bookings) && TeamsCompatible(s, x)
    requires Run(s, x, strategy, Reservations(s), bookings) && TeamsAttended(x, Reservations(s))
    ensures TeamsAttended(x, bookings)
  {
    IndexIsExact(s);
    forall a | a in bookings ensures Attended(x, a) {
      var i :| 0 <= i < |bookings| && bookings[i] == a;
      if i < |Reservations(s)| {
        assert a in Reservations(s);
      } else {
        if a.work.Maintenance? { RunServesPending(s, x, strategy, bookings, i); }
        ChosenIsAttended(s, x, strategy, bookings[..i], a);
      }
    }
  }
}
