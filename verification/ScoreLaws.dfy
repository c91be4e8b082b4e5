/**
 What the planner's choices mean in minutes, risks and dates: which place an operation gets,
 when a request may start, and who is served first.
 */
module ScoreLaws {
  import opened Collections
  import opened Plant
  import opened Judge
  import opened Slots
  import opened Teams
  import opened Bookings
  import opened Greedy

  // Places of operations ------------------------------------------------------------------------

  function InMinutes(microseconds: int): real { microseconds as real / 60_000_000.0 }

  /** Failure probability of the machine; unknown health counts as none. */
  function RiskOf(s: Snapshot, machineId: Id): real {
    if machineId in s.health then s.health[machineId] else 0.0
  }

  /** The first row of the current schedule for the operation is on another machine. */
  ghost predicate Moves(s: Snapshot, operationId: Id, machineId: Id) {
    exists i :: 0 <= i < |CurrentAssignments(s)| && IsFirstRow(CurrentAssignments(s), i, operationId)
      && CurrentAssignments(s)[i].machineId != machineId
  }

  predicate IsFirstRow(rows: seq<Assignment>, i: nat, operationId: Id)
    requires i < |rows|
  {
    && rows[i].work.Production? && rows[i].work.operationId == operationId
    && forall k :: 0 <= k < i ==> !(rows[k].work.Production? && rows[k].work.operationId == operationId)
  }

  ghost function MoveCount(s: Snapshot, operationId: Id, machineId: Id): real {
    if Moves(s, operationId, machineId) then 1.0 else 0.0
  }

  /** The operation could run on the option's machine from `u`, after its release and its predecessors. */
  ghost predicate CanRun(
    s: Snapshot, x: Index, bookings: seq<Assignment>, job: Job, o: Operation, option: MachineOption, u: Time)
  {
    var end := u + option.minutes * 60_000_000;
    && option in o.options && option.machineId in x.machines
    && !x.machines[option.machineId].status.Failed? && !x.machines[option.machineId].status.Unavailable?
    && job.releaseAt <= u && s.window.start <= u && end <= s.window.end
    && (forall b :: b in bookings && b.work.Production? && b.work.operationId in o.predecessors ==> b.end <= u)
    && (forall b :: b in bookings && b.machineId == option.machineId ==> b.end <= u || end <= b.start)
  }

  lemma {:induction false} PenaltyIsMove(rows: seq<Assignment>, operationId: Id, machineId: Id)
    ensures CurrentMachinePenalty(rows, operationId, machineId) ==
              if exists i :: 0 <= i < |rows| && IsFirstRow(rows, i, operationId) && rows[i].machineId != machineId
              then 1 else 0
  {
    if rows != [] {
      var rest := rows[1..];
      PenaltyIsMove(rest, operationId, machineId);
      if rows[0].Produces(operationId) {
        assert IsFirstRow(rows, 0, operationId);
      } else {
        forall i | 0 <= i < |rest| ensures IsFirstRow(rest, i, operationId) <==> IsFirstRow(rows, i + 1, operationId) {
          assert forall k :: 0 <= k < i ==> rest[k] == rows[k + 1];
          if IsFirstRow(rest, i, operationId) {
            forall k | 0 <= k < i + 1 ensures !(rows[k].work.Production? && rows[k].work.operationId == operationId) {
              assert k == 0 || rows[k] == rest[k - 1];
            }
          }
        }
        if i :| 0 <= i < |rest| && IsFirstRow(rest, i, operationId) && rest[i].machineId != machineId {
          assert IsFirstRow(rows, i + 1, operationId) && rows[i + 1].machineId != machineId;
        }
        if i :| 0 <= i < |rows| && IsFirstRow(rows, i, operationId) && rows[i].machineId != machineId {
          assert IsFirstRow(rest, i - 1, operationId) && rest[i - 1].machineId != machineId;
        }
      }
    }
  }

  /** A free start has a first free start before it. */
  lemma {:induction false} FirstFree(entries: seq<Assignment>, earliest: Time, duration: int, latest: Time, u: Time)
    returns (t: Time)
    requires earliest <= u <= latest && Free(entries, u, duration)
    ensures t <= u && IsEarliestFree(entries, earliest, duration, latest, Some(t))
    decreases u - earliest
  {
    if Free(entries, earliest, duration) {
      t := earliest;
    } else {
      t := FirstFree(entries, earliest + 1, duration, latest, u);
    }
  }

  /** What an option offers is no later than any place it could run at. */
  lemma OfferIsEarliest(
    s: Snapshot, x: Index, bookings: seq<Assignment>, job: Job, o: Operation, option: MachineOption, earliest: Time,
    strategy: Strategy, u: Time) returns (c: Choice)
    requires CanRun(s, x, bookings, job, o, option, u) && ReadyAt(bookings, job, o, earliest)
    ensures IsChoice(s, x, bookings, o, option, earliest, strategy, c)
    ensures c.start <= u && c.machineId == option.machineId && c.end == c.start + option.minutes * 60_000_000
  {
    var duration := option.minutes * MINUTE;
    var calendar := OnMachine(bookings, option.machineId);
    var t := FirstFree(calendar, Max(earliest, s.window.start), duration, s.window.end - duration, u);
    c := Choice(Score(s, strategy, o.id, option.machineId, t + duration), option.machineId, t, t + duration);
  }

  /** The comparison of two places: ends `a` and `b`, their risks and moves. */
  predicate NoWorse(
    strategy: Strategy, a: Time, b: Time, riskA: real, riskB: real, movesA: real, movesB: real)
  {
    match strategy
    case ProductionPriority => InMinutes(a - b) <= 0.01 * (movesB - movesA)
    case Balanced => InMinutes(a - b) + 90.0 * (riskA - riskB) <= 4.0 * (movesB - movesA)
    case ReliabilityPriority => InMinutes(a - b) + 5000.0 * (riskA - riskB) <= 15.0 * (movesB - movesA)
  }

  lemma MinutesApart(a: int, b: int, start: int)
    ensures (a - start) as real / MINUTE as real - (b - start) as real / MINUTE as real == InMinutes(a - b)
  {
  }

  lemma ScoresCompare(s: Snapshot, strategy: Strategy, operationId: Id, m: Id, a: Time, n: Id, b: Time)
    requires Score(s, strategy, operationId, m, a) <= Score(s, strategy, operationId, n, b)
    ensures NoWorse(strategy, a, b, RiskOf(s, m), RiskOf(s, n), MoveCount(s, operationId, m),
                    MoveCount(s, operationId, n))
  {
    PenaltyIsMove(CurrentAssignments(s), operationId, m);
    PenaltyIsMove(CurrentAssignments(s), operationId, n);
    MinutesApart(a, b, s.window.start);
  }

  /** Ending earlier is better. */
  lemma EarlierIsNoWorse(
    strategy: Strategy, a: Time, b: Time, later: Time, riskA: real, riskB: real, movesA: real, movesB: real)
    requires NoWorse(strategy, a, b, riskA, riskB, movesA, movesB) && b <= later
    ensures NoWorse(strategy, a, later, riskA, riskB, movesA, movesB)
  {
    assert InMinutes(a - later) <= InMinutes(a - b);
  }

  /**
   A booked operation could run nowhere better: against any machine and start open to it, the
   place it got is no worse in finish minutes, risk and moves as its strategy weighs them.
   */
  lemma BookedPlaceIsBest(
    s: Snapshot, x: Index, strategy: Strategy, bookings: seq<Assignment>, a: Assignment, option: MachineOption, u: Time)
    requires Chosen(s, x, strategy, bookings, a) && a.work.Production?
    requires var (job, o) := x.operations[a.work.operationId]; CanRun(s, x, bookings, job, o, option, u)
    ensures var (id, m, n) := (x.operations[a.work.operationId].1.id, a.machineId, option.machineId);
            NoWorse(strategy, a.end, u + option.minutes * 60_000_000, RiskOf(s, m), RiskOf(s, n),
                    MoveCount(s, id, m), MoveCount(s, id, n))
  {
    hide CanRun, Score, NoWorse, RiskOf, MoveCount;
    var (job, o) := x.operations[a.work.operationId];
    var earliest, c :| ReadyAt(bookings, job, o, earliest) && IsLeast(s, x, bookings, o, earliest, strategy, c)
      && a == Assignment(ForOperation(strategy, o.id), Production(job.id, o.id), Proposed, c.machineId,
                         c.start, c.end, false);
    CanRunIsOption(s, x, bookings, job, o, option, u);
    var other := OfferIsEarliest(s, x, bookings, job, o, option, earliest, strategy, u);
    assert !Better(other, c);
    var own :| own in o.options && IsChoice(s, x, bookings, o, own, earliest, strategy, c);
    ScoresCompare(s, strategy, o.id, c.machineId, c.end, other.machineId, other.end);
    EarlierIsNoWorse(strategy, c.end, other.end, u + option.minutes * 60_000_000, RiskOf(s, c.machineId),
                     RiskOf(s, option.machineId), MoveCount(s, o.id, c.machineId),
                     MoveCount(s, o.id, option.machineId));
  }

  lemma CanRunIsOption(
    s: Snapshot, x: Index, bookings: seq<Assignment>, job: Job, o: Operation, option: MachineOption, u: Time)
    requires CanRun(s, x, bookings, job, o, option, u)
    ensures option in o.options
  {
  }

  /** Production priority: on equal moves no machine and start would end the operation earlier. */
  lemma ProductionEndsFirst(
    s: Snapshot, x: Index, bookings: seq<Assignment>, a: Assignment, option: MachineOption, u: Time)
    requires Chosen(s, x, ProductionPriority, bookings, a) && a.work.Production?
    requires var (job, o) := x.operations[a.work.operationId]; CanRun(s, x, bookings, job, o, option, u)
    requires var id := x.operations[a.work.operationId].1.id; Moves(s, id, a.machineId) == Moves(s, id,
                                                                                                 option.machineId)
    ensures a.end <= u + option.minutes * 60_000_000
  {
    hide CanRun, Chosen;
    BookedPlaceIsBest(s, x, ProductionPriority, bookings, a, option, u);
  }

  /** Reliability priority: a machine riskier by `d` ends earlier by at least 5000 * d minutes, less 15. */
  lemma ReliabilityPaysForRisk(
    s: Snapshot, x: Index, bookings: seq<Assignment>, a: Assignment, option: MachineOption, u: Time)
    requires Chosen(s, x, ReliabilityPriority, bookings, a) && a.work.Production?
    requires var (job, o) := x.operations[a.work.operationId]; CanRun(s, x, bookings, job, o, option, u)
    ensures var saved, id := u + option.minutes * 60_000_000 - a.end, x.operations[a.work.operationId].1.id;
            var d := RiskOf(s, a.machineId) - RiskOf(s, option.machineId);
            && InMinutes(saved) >= 5000.0 * d - 15.0
            && (Moves(s, id, a.machineId) == Moves(s, id, option.machineId) ==> InMinutes(saved) >= 5000.0 * d)
            && (saved == 0 && Moves(s, id, a.machineId) == Moves(s, id, option.machineId) ==> d <= 0.0)
  {
    hide CanRun, Chosen;
    BookedPlaceIsBest(s, x, ReliabilityPriority, bookings, a, option, u);
  }

  /** Balanced: the same with 90 minutes for the risk and 4 for a move. */
  lemma BalancedPaysForRisk(
    s: Snapshot, x: Index, bookings: seq<Assignment>, a: Assignment, option: MachineOption, u: Time)
    requires Chosen(s, x, Balanced, bookings, a) && a.work.Production?
    requires var (job, o) := x.operations[a.work.operationId]; CanRun(s, x, bookings, job, o, option, u)
    ensures var saved, id := u + option.minutes * 60_000_000 - a.end, x.operations[a.work.operationId].1.id;
            var d := RiskOf(s, a.machineId) - RiskOf(s, option.machineId);
            && InMinutes(saved) >= 90.0 * d - 4.0
            && (Moves(s, id, a.machineId) == Moves(s, id, option.machineId) ==> InMinutes(saved) >= 90.0 * d)
            && (saved == 0 && Moves(s, id, a.machineId) == Moves(s, id, option.machineId) ==> d <= 0.0)
  {
    hide CanRun, Chosen;
    BookedPlaceIsBest(s, x, Balanced, bookings, a, option, u);
  }

  /** With equal end and risk the current machine is kept, under every strategy. */
  lemma CurrentMachineIsKept(
    s: Snapshot, x: Index, strategy: Strategy, bookings: seq<Assignment>, a: Assignment, option: MachineOption, u: Time)
    requires Chosen(s, x, strategy, bookings, a) && a.work.Production?
    requires var (job, o) := x.operations[a.work.operationId]; CanRun(s, x, bookings, job, o, option, u)
    requires a.end == u + option.minutes * 60_000_000 && RiskOf(s, a.machineId) == RiskOf(s, option.machineId)
    ensures var id := x.operations[a.work.operationId].1.id;
            Moves(s, id, a.machineId) ==> Moves(s, id, option.machineId)
  {
    hide CanRun, Chosen;
    BookedPlaceIsBest(s, x, strategy, bookings, a, option, u);
  }

  /** The place is open to the operation in the first place, for one of its options. */
  lemma BookedPlaceIsOpen(s: Snapshot, x: Index, strategy: Strategy, bookings: seq<Assignment>, a: Assignment)
    returns (option: MachineOption)
    requires Chosen(s, x, strategy, bookings, a) && a.work.Production?
    ensures var (job, o) := x.operations[a.work.operationId];
            && CanRun(s, x, bookings, job, o, option, a.start)
            && option.machineId == a.machineId && a.end == a.start + option.minutes * 60_000_000
  {
    var (job, o) := x.operations[a.work.operationId];
    var earliest, c :| ReadyAt(bookings, job, o, earliest) && IsLeast(s, x, bookings, o, earliest, strategy, c)
      && a == Assignment(ForOperation(strategy, o.id), Production(job.id, o.id), Proposed, c.machineId,
                         c.start, c.end, false);
    option :| option in o.options && IsChoice(s, x, bookings, o, option, earliest, strategy, c);
    assert Free(OnMachine(bookings, option.machineId), c.start, c.end - c.start);
  }

  /** Of equally good places the one on the machine of least name is booked. */
  lemma TiesGoToLeastMachine(
    s: Snapshot, x: Index, strategy: Strategy, bookings: seq<Assignment>, a: Assignment, option: MachineOption, u: Time)
    requires Chosen(s, x, strategy, bookings, a) && a.work.Production?
    requires var (job, o) := x.operations[a.work.operationId]; CanRun(s, x, bookings, job, o, option, u)
    requires var id := x.operations[a.work.operationId].1.id;
             && a.end == u + option.minutes * 60_000_000 && RiskOf(s, a.machineId) == RiskOf(s, option.machineId)
             && Moves(s, id, a.machineId) == Moves(s, id, option.machineId)
    ensures a.machineId <= option.machineId
  {
    hide CanRun;
    var (job, o) := x.operations[a.work.operationId];
    var earliest, c :| ReadyAt(bookings, job, o, earliest) && IsLeast(s, x, bookings, o, earliest, strategy, c)
      && a == Assignment(ForOperation(strategy, o.id), Production(job.id, o.id), Proposed, c.machineId,
                         c.start, c.end, false);
    CanRunIsOption(s, x, bookings, job, o, option, u);
    var other := OfferIsEarliest(s, x, bookings, job, o, option, earliest, strategy, u);
    var own :| own in o.options && IsChoice(s, x, bookings, o, own, earliest, strategy, c);
    assert !Better(other, c);
    PenaltyIsMove(CurrentAssignments(s), o.id, c.machineId);
    PenaltyIsMove(CurrentAssignments(s), o.id, other.machineId);
    MinutesApart(other.end, c.end, s.window.start);
  }

  // Turns ---------------------------------------------------------------------------------------

  /** Higher priority first, then earlier release, then the smaller name. */
  predicate JobBefore(j: Job, k: Job) {
    && j.priority >= k.priority
    && (j.priority == k.priority ==> j.releaseAt <= k.releaseAt)
    && (j.priority == k.priority && j.releaseAt == k.releaseAt ==> j.id <= k.id)
  }

  predicate StepBefore(o: Operation, p: Operation) {
    o.sequence <= p.sequence && (o.sequence == p.sequence ==> o.id <= p.id)
  }

  /** The latest start a request states, or the end of the window. */
  function Deadline(s: Snapshot, r: Request): Time {
    match r.latestStart
    case Some(t) => t
    case None => s.window.end
  }

  /** Mandatory first, then the earlier deadline, then the earlier possible start, then the smaller name. */
  predicate RequestBefore(s: Snapshot, q: Request, r: Request) {
    && (r.mandatory ==> q.mandatory)
    && (q.mandatory == r.mandatory ==>
          && Deadline(s, q) <= Deadline(s, r)
          && (Deadline(s, q) == Deadline(s, r) ==>
                && q.earliestStart <= r.earliestStart
                && (q.earliestStart == r.earliestStart ==> q.id <= r.id)))
  }

  /** In a run, of two bookings the earlier one comes by phase, priority, sequence or urgency. */
  lemma BookingsComeInTurn(
    s: Snapshot, x: Index, strategy: Strategy, before: seq<Assignment>, after: seq<Assignment>, i: nat, k: nat)
    requires Run(s, x, strategy, before, after) && |before| <= i < k < |after|
    ensures var a, b := after[i], after[k];
            && (a.work.Production? || a.work.Maintenance?) && (b.work.Production? || b.work.Maintenance?)
            && (strategy == ProductionPriority ==> a.work.Production? || b.work.Maintenance?)
            && (strategy != ProductionPriority ==> a.work.Maintenance? || b.work.Production?)
            && (a.work.Production? && b.work.Production? ==>
                  var ((j, o), (l, p)) := (x.operations[a.work.operationId], x.operations[b.work.operationId]);
                  if j == l then StepBefore(o, p) else JobBefore(j, l))
            && (a.work.Maintenance? && b.work.Maintenance? ==>
                  RequestBefore(s, x.requests[a.work.requestId], x.requests[b.work.requestId]))
  {
    assert Chosen(s, x, strategy, after[..i], after[i]) && Chosen(s, x, strategy, after[..k], after[k]);
    assert InTurn(s, x, strategy, after[i], after[k]);
  }

  // Starts of requests --------------------------------------------------------------------------

  /** `bound` is the first start a strategy considers: the request's own, or midway in its range when balanced. */
  ghost predicate IsFirstStart(s: Snapshot, r: Request, strategy: Strategy, bound: Time) {
    var earliest := if r.earliestStart > s.window.start then r.earliestStart else s.window.start;
    var room := s.window.end - r.minutes * 60_000_000;
    var latest := match r.latestStart case Some(t) => (if t < room then t else room) case None => room;
    if strategy == Balanced && latest > earliest then
      // Midway, a half microsecond going to the even side.
      && -1 <= 2 * (bound - earliest) - (latest - earliest) <= 1
      && ((latest - earliest) % 2 == 1 ==> (bound - earliest) % 2 == 0)
    else bound == earliest
  }

  /** `start` is no later than the request allows and leaves room for it in the window. */
  predicate StartsInTime(s: Snapshot, r: Request, start: Time) {
    && start + r.minutes * 60_000_000 <= s.window.end
    && (r.latestStart.Some? ==> start <= r.latestStart.value)
  }

  lemma FirstStart(s: Snapshot, r: Request, strategy: Strategy)
    ensures IsFirstStart(s, r, strategy, EarliestStart(s, r, strategy))
  {
  }

  lemma LastStart(s: Snapshot, r: Request, start: Time)
    ensures start <= LatestStart(s, r) <==> StartsInTime(s, r, start)
  {
  }

  /** A request is booked in its range, at or after the first start of the strategy. */
  lemma RequestStartsInRange(s: Snapshot, x: Index, strategy: Strategy, bookings: seq<Assignment>, a: Assignment)
    returns (bound: Time)
    requires Chosen(s, x, strategy, bookings, a) && a.work.Maintenance?
    ensures var r := x.requests[a.work.requestId];
            && IsFirstStart(s, r, strategy, bound) && bound <= a.start
            && StartsInTime(s, r, a.start) && a.end == a.start + r.minutes * 60_000_000
            && r.earliestStart <= a.start && s.window.start <= a.start
  {
    var r := x.requests[a.work.requestId];
    bound := EarliestStart(s, r, strategy);
    FirstStart(s, r, strategy);
    LastStart(s, r, a.start);
    TeamStartIsLowerBound(Sharing(bookings, r.machineId, a.Team()), ShiftsOf(x, a.Team()), bound, LatestStart(s, r),
                          r.Duration());
  }

  /** Nobody on `team` and not the machine is taken at [u, u + length), and every member has a window for it. */
  ghost predicate CanServe(x: Index, bookings: seq<Assignment>, r: Request, team: seq<Id>, u: Time) {
    var end := u + r.minutes * 60_000_000;
    && (forall b :: b in bookings && (b.machineId == r.machineId || exists t :: t in team && t in b.Team()) ==>
          b.end <= u || end <= b.start)
    && (forall t :: t in team ==> HasWindow(x, t, u, end))
  }

  predicate HasWindow(x: Index, t: Id, start: Time, end: Time) {
    t in x.technicians && exists w :: w in x.technicians[t].availability && w.start <= start && end <= w.end
  }

  /** Its place meets no earlier booking of the machine or of anybody sent, and the last one sent is on shift. */
  lemma ServedPlaceIsOpen(s: Snapshot, x: Index, strategy: Strategy, bookings: seq<Assignment>, a: Assignment)
    requires Chosen(s, x, strategy, bookings, a) && a.work.Maintenance?
    ensures a.machineId == x.requests[a.work.requestId].machineId
    ensures forall b :: b in bookings && (b.machineId == a.machineId || exists t :: t in a.Team() && t in b.Team()) ==>
              b.end <= a.start || a.end <= b.start
    ensures a.Team() != [] && HasWindow(x, a.Team()[|a.Team()| - 1], a.start, a.end)
  {
    var r, team := x.requests[a.work.requestId], a.Team();
    var entries, shifts := Sharing(bookings, r.machineId, team), ShiftsOf(x, team);
    TeamStartIsLowerBound(entries, shifts, EarliestStart(s, r, strategy), LatestStart(s, r), r.Duration());
    assert Free(entries, a.start, r.Duration());
    forall b | b in bookings && (b.machineId == a.machineId || exists t :: t in team && t in b.Team())
      ensures b.end <= a.start || a.end <= b.start
    {
      assert b in entries;
    }
  }

  lemma FirstStartIsUnique(s: Snapshot, r: Request, strategy: Strategy, bound: Time)
    requires IsFirstStart(s, r, strategy, bound)
    ensures bound == EarliestStart(s, r, strategy)
  {
    FirstStart(s, r, strategy);
  }

  lemma ServiceIsFeasible(x: Index, bookings: seq<Assignment>, r: Request, team: seq<Id>, u: Time)
    requires CanServe(x, bookings, r, team, u)
    ensures JointlyFeasible(Sharing(bookings, r.machineId, team), ShiftsOf(x, team), u, r.Duration())
  {
    var shifts := ShiftsOf(x, team);
    forall shift | shift in shifts ensures InShift(shift, u, r.Duration()) {
      var i :| 0 <= i < |shifts| && shifts[i] == shift;
      assert team[i] in team && HasWindow(x, team[i], u, u + r.minutes * 60_000_000);
    }
  }

  /** No minimal team could serve the request sooner, in its range and from the strategy's first start on. */
  lemma RequestIsServedSoonest(
    s: Snapshot, x: Index, strategy: Strategy, bookings: seq<Assignment>, a: Assignment, team: seq<Id>, bound: Time,
    u: Time)
    requires Chosen(s, x, strategy, bookings, a) && a.work.Maintenance?
    requires var r := x.requests[a.work.requestId];
             && r.machineId in x.machines && MinimalTeam(s, r, x.machines[r.machineId].family, team)
             && IsFirstStart(s, r, strategy, bound) && bound <= u && StartsInTime(s, r, u)
             && CanServe(x, bookings, r, team, u)
    ensures a.start <= u
  {
    hide IsFirstStart, CanServe, MinimalTeam;
    var r := x.requests[a.work.requestId];
    FirstStartIsUnique(s, r, strategy, bound);
    LastStart(s, r, u);
    ServiceIsFeasible(x, bookings, r, team, u);
    TeamStartIsLowerBound(Sharing(bookings, r.machineId, team), ShiftsOf(x, team), bound, LatestStart(s, r),
                          r.Duration());
    var t := TeamSlotOf(s, x, bookings, r, strategy, team);
    assert t.Some? && t.value <= u;
    assert Offers(s, x, bookings, r, strategy, team, t.value);
    assert !Sooner(TeamSlot(t.value, team), TeamSlot(a.start, a.Team()));
  }

  /** The first team in the order of names: at the first difference the smaller name, or the shorter team. */
  ghost predicate NamedFirst(a: seq<Id>, b: seq<Id>) {
    exists i :: 0 <= i <= |a| && i < |b| && a[..i] == b[..i] && (i < |a| ==> a[i] < b[i])
  }

  lemma {:induction false} TeamOrderIsByNames(a: seq<Id>, b: seq<Id>)
    ensures TeamBefore(a, b) <==> NamedFirst(a, b)
  {
    if b != [] && a == [] {
      assert a[..0] == b[..0];
    } else if b != [] {
      TeamOrderIsByNames(a[1..], b[1..]);
      if a[0] < b[0] { assert a[..0] == b[..0]; }
      if a[0] == b[0] && NamedFirst(a[1..], b[1..]) {
        var i :| 0 <= i <= |a[1..]| && i < |b[1..]| && a[1..][..i] == b[1..][..i]
          && (i < |a[1..]| ==> a[1..][i] < b[1..][i]);
        assert a[..i + 1] == [a[0]] + a[1..][..i] && b[..i + 1] == [b[0]] + b[1..][..i];
      }
      if NamedFirst(a, b) {
        var i :| 0 <= i <= |a| && i < |b| && a[..i] == b[..i] && (i < |a| ==> a[i] < b[i]);
        if i > 0 {
          assert a[0] == a[..i][0] == b[..i][0] == b[0];
          assert a[1..][..i - 1] == a[..i][1..] && b[1..][..i - 1] == b[..i][1..];
        }
      }
    }
  }

  /** Of teams that could start together the first by names is sent. */
  lemma TiesGoToFirstTeam(
    s: Snapshot, x: Index, strategy: Strategy, bookings: seq<Assignment>, a: Assignment, team: seq<Id>, bound: Time)
    requires Chosen(s, x, strategy, bookings, a) && a.work.Maintenance?
    requires var r := x.requests[a.work.requestId];
             && r.machineId in x.machines && MinimalTeam(s, r, x.machines[r.machineId].family, team)
             && IsFirstStart(s, r, strategy, bound) && bound <= a.start
             && CanServe(x, bookings, r, team, a.start)
    ensures !NamedFirst(team, a.Team())
  {
    hide IsFirstStart, CanServe, MinimalTeam;
    var r := x.requests[a.work.requestId];
    FirstStartIsUnique(s, r, strategy, bound);
    var first := RequestStartsInRange(s, x, strategy, bookings, a);
    LastStart(s, r, a.start);
    ServiceIsFeasible(x, bookings, r, team, a.start);
    TeamStartIsLowerBound(Sharing(bookings, r.machineId, team), ShiftsOf(x, team), bound, LatestStart(s, r),
                          r.Duration());
    var t := TeamSlotOf(s, x, bookings, r, strategy, team);
    assert Offers(s, x, bookings, r, strategy, team, t.value);
    assert !Sooner(TeamSlot(t.value, team), TeamSlot(a.start, a.Team()));
    TeamOrderIsByNames(team, a.Team());
  }
}
