/**
 What the strict profile demands of a plan, clause by clause, and what a plan that meets
 every clause means on the shop floor. Plans are judged as sets of assignments, so no
 verdict depends on list order.
 */
module Judge {
  import opened Plant

  datatype Code =
    | UnknownReference | PlanningWindow | MachineEligibility | MachineOverlap | Precedence
    | TechnicianAvailability | SkillAdequacy
    | BlockedOperation | JobRelease | OperationDuration
    | MaintenanceDuration | MaintenanceStartWindow | MaintenanceStatus
    | OperationCoverage | MaintenanceCoverage | ImmutableReservation

  datatype Plan = Plan(snapshotId: Id, schedule: Schedule)

  /** Cancelled rows are dropped before anything is judged. */
  function ActivePart(xs: seq<Assignment>): set<Assignment> {
    set a | a in xs && !a.status.Cancelled?
  }

  predicate KnownReferences(x: Index, a: Assignment) {
    && a.machineId in x.machines
    && match a.work {
         case Production(j, o) => o in x.operations && x.operations[o].0.id == j
         case Maintenance(r, team) =>
           r in x.requests && forall t :: t in team ==> t in x.technicians
         case BlockedTime => true
       }
  }

  predicate InPlanningWindow(s: Snapshot, a: Assignment) {
    Contains(s.window, a.start, a.end)
  }

  predicate Usable(m: Machine) {
    !m.status.Failed? && !m.status.Unavailable?
  }

  predicate EligibleMachine(x: Index, a: Assignment) {
    match a.work
    case Production(_, o) =>
      (a.machineId in x.machines && o in x.operations) ==>
        var operation, machine := x.operations[o].1, x.machines[a.machineId];
        && (exists option :: option in operation.options && option.machineId == a.machineId)
        && operation.operationType in machine.operationTypes
        && Usable(machine)
    case Maintenance(r, _) => r in x.requests ==> x.requests[r].machineId == a.machineId
    case BlockedTime => true
  }

  /** Some known member of the team masters the skill. */
  predicate Adequate(x: Index, team: seq<Id>, r: Request, family: Id, skillId: Id) {
    exists t :: t in team && t in x.technicians && Masters(x.technicians[t], skillId, r, family)
  }

  predicate Skilled(x: Index, a: Assignment) {
    a.work.Maintenance? && a.work.requestId in x.requests && a.machineId in x.machines ==>
      var r := x.requests[a.work.requestId];
      forall k :: k in r.requiredSkills ==>
        Adequate(x, a.work.technicianIds, r, x.machines[a.machineId].family, k)
  }

  /** The technician is on duty and one availability window holds the whole assignment. */
  predicate Present(t: Technician, a: Assignment) {
    OnDuty(t) && exists w :: w in t.availability && Contains(w, a.start, a.end)
  }

  predicate Attended(x: Index, a: Assignment) {
    forall t :: t in a.Team() && t in x.technicians ==> Present(x.technicians[t], a)
  }

  predicate Disjoint(a: Assignment, b: Assignment) {
    !Overlaps(a.start, a.end, b)
  }

  ghost predicate MachinesExclusive(plan: set<Assignment>) {
    forall a, b :: a in plan && b in plan && a != b && a.machineId == b.machineId ==> Disjoint(a, b)
  }

  ghost predicate TechniciansExclusive(x: Index, plan: set<Assignment>) {
    forall a, b, t :: a in plan && b in plan && a != b && t in a.Team() && t in b.Team() && t in x.technicians
      ==> Disjoint(a, b)
  }

  /** Some assignment of `p` ends by the time `a` starts. */
  ghost predicate Finishes(plan: set<Assignment>, p: Id, a: Assignment) {
    exists b :: b in plan && b.Produces(p) && b.end <= a.start
  }

  ghost predicate PredecessorsMet(x: Index, plan: set<Assignment>, a: Assignment) {
    a.work.Production? && a.work.operationId in x.operations ==>
      forall p :: p in x.operations[a.work.operationId].1.predecessors ==>
        || (p in x.operations && x.operations[p].1.status.Completed?)
        || Finishes(plan, p, a)
  }

  predicate OperationRules(x: Index, a: Assignment, rule: Code) {
    a.work.Production? && a.work.operationId in x.operations ==>
      var (job, operation) := x.operations[a.work.operationId];
      match rule
      case BlockedOperation => !operation.status.Blocked?
      case JobRelease => job.releaseAt <= a.start
      case OperationDuration =>
        forall option :: option in operation.options && option.machineId == a.machineId && !a.status.Completed?
          ==> a.end - a.start == option.minutes * MINUTE
      case _ => true
  }

  predicate MaintenanceRules(x: Index, a: Assignment, rule: Code) {
    a.work.Maintenance? && a.work.requestId in x.requests && !a.status.Completed? ==>
      var r := x.requests[a.work.requestId];
      match rule
      case MaintenanceDuration => a.end - a.start == r.Duration()
      case MaintenanceStartWindow =>
        r.earliestStart <= a.start && (r.latestStart.Some? ==> a.start <= r.latestStart.value)
      case MaintenanceStatus => r.Active()
      case _ => true
  }

  ghost predicate AtMostOne(plan: set<Assignment>, pick: Assignment -> bool) {
    forall a, b :: a in plan && b in plan && pick(a) && pick(b) ==> a == b
  }

  ghost predicate AtLeastOne(plan: set<Assignment>, pick: Assignment -> bool) {
    exists a :: a in plan && pick(a)
  }

  ghost predicate OperationCovered(plan: set<Assignment>, o: Operation) {
    && AtMostOne(plan, (a: Assignment) => a.Produces(o.id))
    && (o.status.Completed? || AtLeastOne(plan, (a: Assignment) => a.Produces(o.id)))
  }

  ghost predicate RequestCovered(plan: set<Assignment>, r: Request) {
    && AtMostOne(plan, (a: Assignment) => a.Maintains(r.id))
    && (r.mandatory && r.Active() ==> AtLeastOne(plan, (a: Assignment) => a.Maintains(r.id)))
  }

  ghost predicate AllKnown(x: Index, plan: set<Assignment>) {
    forall a :: a in plan ==> KnownReferences(x, a)
  }

  ghost predicate AllInWindow(s: Snapshot, plan: set<Assignment>) {
    forall a :: a in plan ==> InPlanningWindow(s, a)
  }

  ghost predicate AllEligible(x: Index, plan: set<Assignment>) {
    forall a :: a in plan ==> EligibleMachine(x, a)
  }

  ghost predicate AllPredecessorsMet(x: Index, plan: set<Assignment>) {
    forall a :: a in plan ==> PredecessorsMet(x, plan, a)
  }

  ghost predicate AllAttended(x: Index, plan: set<Assignment>) {
    forall a :: a in plan ==> Attended(x, a)
  }

  ghost predicate AllSkilled(x: Index, plan: set<Assignment>) {
    forall a :: a in plan ==> Skilled(x, a)
  }

  /** The rules on one assignment's own operation or request. */
  predicate Obeys(x: Index, a: Assignment, rule: Code) {
    OperationRules(x, a, rule) && MaintenanceRules(x, a, rule)
  }

  /** The codes that stand for a rule on one assignment. */
  predicate IsRule(c: Code) {
    || c.BlockedOperation? || c.JobRelease? || c.OperationDuration?
    || c.MaintenanceDuration? || c.MaintenanceStartWindow? || c.MaintenanceStatus?
  }

  ghost predicate AllObey(x: Index, plan: set<Assignment>, rule: Code) {
    forall a :: a in plan ==> Obeys(x, a, rule)
  }

  ghost predicate OperationsCovered(x: Index, plan: set<Assignment>) {
    forall id :: id in x.operations ==> OperationCovered(plan, x.operations[id].1)
  }

  ghost predicate RequestsCovered(x: Index, plan: set<Assignment>) {
    forall id :: id in x.requests ==> RequestCovered(plan, x.requests[id])
  }

  ghost predicate ReservationsKept(s: Snapshot, plan: set<Assignment>) {
    forall a :: a in CurrentAssignments(s) && a.Retained() ==> a in plan
  }

  predicate SameContext(s: Snapshot, plan: Plan) {
    plan.snapshotId == s.id && plan.schedule.factoryId == s.factoryId
  }

  /** The clause of the strict profile that the violation code `c` stands for. */
  ghost predicate Clause(c: Code, s: Snapshot, x: Index, plan: Plan) {
    var active := ActivePart(plan.schedule.assignments);
    match c
    case UnknownReference => SameContext(s, plan) && AllKnown(x, active)
    case PlanningWindow => plan.schedule.window == s.window && AllInWindow(s, active)
    case MachineEligibility => AllEligible(x, active)
    case MachineOverlap => MachinesExclusive(active)
    case Precedence => AllPredecessorsMet(x, active)
    case TechnicianAvailability => AllAttended(x, active) && TechniciansExclusive(x, active)
    case SkillAdequacy => AllSkilled(x, active)
    case OperationCoverage => OperationsCovered(x, active)
    case MaintenanceCoverage => RequestsCovered(x, active)
    case ImmutableReservation => ReservationsKept(s, active)
    case _ => AllObey(x, active, c)
  }

  ghost predicate Holds(c: Code, s: Snapshot, plan: Plan) {
    Clause(c, s, IndexOf(s), plan)
  }

  ghost predicate StrictValid(s: Snapshot, plan: Plan) {
    forall c :: Holds(c, s, plan)
  }

  /** `a` is under way at the instant `t`. */
  predicate Busy(a: Assignment, t: Time) { a.start <= t < a.end }

  /** At every instant a machine runs at most one assignment, a technician at most one. */
  ghost predicate ResourcesExclusive(s: Snapshot, plan: set<Assignment>) {
    && (forall a, b, t :: a in plan && b in plan && a.machineId == b.machineId && Busy(a, t) && Busy(b, t) ==> a == b)
    && (forall a, b, t, k :: a in plan && b in plan && k in a.Team() && k in b.Team() && Busy(a, t) && Busy(b, t)
          ==> a == b)
  }

  /** Every unfinished operation is produced by exactly one assignment of its own job on an eligible machine. */
  ghost predicate ScheduledOnce(s: Snapshot, plan: set<Assignment>) {
    forall j, o :: HasOperation(s, j, o) && !o.status.Completed? ==> ProducedExactlyOnce(plan, j, o)
  }

  /** Unfinished operations, each a predecessor of the next. */
  ghost predicate Chain(x: Index, ids: seq<Id>) {
    && (forall i :: 0 <= i < |ids| ==> ids[i] in x.operations && !x.operations[ids[i]].1.status.Completed?)
    && (forall i :: 0 <= i < |ids| - 1 ==> ids[i] in x.operations[ids[i + 1]].1.predecessors)
  }

  lemma OverlapAtInstant(a: Assignment, b: Assignment, t: Time)
    requires Busy(a, t) && Busy(b, t)
    ensures !Disjoint(a, b)
  {
  }

  lemma StrictValidMeansExclusive(s: Snapshot, plan: Plan)
    requires StrictValid(s, plan)
    ensures ResourcesExclusive(s, ActivePart(plan.schedule.assignments))
  {
    var active := ActivePart(plan.schedule.assignments);
    assert Holds(MachineOverlap, s, plan) && Holds(TechnicianAvailability, s, plan) && Holds(UnknownReference, s, plan);
    forall a, b, t | a in active && b in active && a.machineId == b.machineId && Busy(a, t) && Busy(b, t)
      ensures a == b
    {
      OverlapAtInstant(a, b, t);
    }
    forall a, b, t, k | a in active && b in active && k in a.Team() && k in b.Team() && Busy(a, t) && Busy(b, t)
      ensures a == b
    {
      OverlapAtInstant(a, b, t);
      assert KnownReferences(IndexOf(s), a);
    }
  }

  /** Exactly one assignment of the plan produces the operation, for its own job. */
  ghost predicate ProducedExactlyOnce(plan: set<Assignment>, j: Job, o: Operation) {
    exists a :: a in plan && a.work == Production(j.id, o.id) && forall b :: b in plan && b.Produces(o.id) ==> b == a
  }

  lemma CoveredMeansProducedOnce(x: Index, plan: set<Assignment>, j: Job, o: Operation)
    requires o.id in x.operations && x.operations[o.id] == (j, o) && !o.status.Completed?
    requires AllKnown(x, plan) && OperationCovered(plan, o)
    ensures ProducedExactlyOnce(plan, j, o)
  {
    var produces := (a: Assignment) => a.Produces(o.id);
    assert AtLeastOne(plan, produces) && AtMostOne(plan, produces);
    var a :| a in plan && produces(a);
    assert KnownReferences(x, a);
    assert forall b :: b in plan && b.Produces(o.id) ==> produces(b);
  }

  lemma OperationIsIndexed(s: Snapshot, j: Job, o: Operation)
    requires UniqueIds(s) && HasOperation(s, j, o)
    ensures o.id in IndexOf(s).operations && IndexOf(s).operations[o.id] == (j, o)
  {
    IndexIsExact(s);
  }

  lemma StrictValidCovers(s: Snapshot, plan: Plan)
    requires StrictValid(s, plan)
    ensures OperationsCovered(IndexOf(s), ActivePart(plan.schedule.assignments))
    ensures AllKnown(IndexOf(s), ActivePart(plan.schedule.assignments))
  {
    hide IndexOf, ActivePart, OperationsCovered, AllKnown;
    assert Holds(OperationCoverage, s, plan) && Holds(UnknownReference, s, plan);
  }

  lemma StrictValidMeansScheduledOnce(s: Snapshot, plan: Plan)
    requires UniqueIds(s) && StrictValid(s, plan)
    ensures ScheduledOnce(s, ActivePart(plan.schedule.assignments))
  {
    hide StrictValid, UniqueIds, IndexOf, ActivePart, AllKnown, OperationCovered, ProducedExactlyOnce, HasOperation;
    StrictValidCovers(s, plan);
    var active, x := ActivePart(plan.schedule.assignments), IndexOf(s);
    forall j, o | HasOperation(s, j, o) && !o.status.Completed? ensures ProducedExactlyOnce(active, j, o) {
      OperationIsIndexed(s, j, o);
      CoveredMeansProducedOnce(x, active, j, o);
    }
  }

  /** A strict-valid plan finishes an unfinished predecessor of `a` in time. */
  lemma PredecessorFinishes(s: Snapshot, plan: Plan, a: Assignment, p: Id) returns (b: Assignment)
    requires StrictValid(s, plan)
    requires a in ActivePart(plan.schedule.assignments)
    requires a.work.Production? && a.work.operationId in IndexOf(s).operations
    requires p in IndexOf(s).operations[a.work.operationId].1.predecessors
    requires p in IndexOf(s).operations && !IndexOf(s).operations[p].1.status.Completed?
    ensures b in ActivePart(plan.schedule.assignments) && b.Produces(p) && b.end <= a.start
  {
    var active := ActivePart(plan.schedule.assignments);
    assert Holds(Precedence, s, plan);
    assert PredecessorsMet(IndexOf(s), active, a);
    assert Finishes(active, p, a);
    b :| b in active && b.Produces(p) && b.end <= a.start;
  }

  lemma ProducedOnce(s: Snapshot, plan: Plan, id: Id, a: Assignment, b: Assignment)
    requires StrictValid(s, plan) && id in IndexOf(s).operations
    requires a in ActivePart(plan.schedule.assignments) && a.Produces(id)
    requires b in ActivePart(plan.schedule.assignments) && b.Produces(id)
    ensures a == b
  {
    var o := IndexOf(s).operations[id].1;
    var produces := (x: Assignment) => x.Produces(o.id);
    assert Holds(OperationCoverage, s, plan);
    assert OperationCovered(ActivePart(plan.schedule.assignments), o);
    assert AtMostOne(ActivePart(plan.schedule.assignments), produces);
    assert produces(a) && produces(b);
  }

  lemma MaintainedOnce(s: Snapshot, plan: Plan, id: Id, a: Assignment, b: Assignment)
    requires StrictValid(s, plan) && id in IndexOf(s).requests
    requires a in ActivePart(plan.schedule.assignments) && a.Maintains(id)
    requires b in ActivePart(plan.schedule.assignments) && b.Maintains(id)
    ensures a == b
  {
    var r := IndexOf(s).requests[id];
    var maintains := (x: Assignment) => x.Maintains(r.id);
    assert Holds(MaintenanceCoverage, s, plan);
    assert RequestCovered(ActivePart(plan.schedule.assignments), r);
    assert AtMostOne(ActivePart(plan.schedule.assignments), maintains);
    assert maintains(a) && maintains(b);
  }

  /** Along any chain of unfinished predecessors the first operation ends before the last one starts. */
  lemma {:induction false} StrictValidMeansChainsInOrder(
    s: Snapshot, plan: Plan, ids: seq<Id>, first: Assignment, last: Assignment)
    requires StrictValid(s, plan)
    requires forall a :: a in plan.schedule.assignments ==> a.start < a.end
    requires |ids| >= 2 && Chain(IndexOf(s), ids)
    requires first in ActivePart(plan.schedule.assignments) && first.Produces(ids[0])
    requires last in ActivePart(plan.schedule.assignments) && last.Produces(ids[|ids| - 1])
    ensures first.end <= last.start
    decreases |ids|
  {
    var n := |ids| - 1;
    assert ids[n - 1] in IndexOf(s).operations[ids[n]].1.predecessors;
    var b := PredecessorFinishes(s, plan, last, ids[n - 1]);
    if n == 1 {
      ProducedOnce(s, plan, ids[0], first, b);
    } else {
      ChainPrefix(IndexOf(s), ids);
      StrictValidMeansChainsInOrder(s, plan, ids[..n], first, b);
    }
  }

  lemma ChainPrefix(x: Index, ids: seq<Id>)
    requires |ids| >= 1 && Chain(x, ids)
    ensures Chain(x, ids[..|ids| - 1])
  {
    var prefix := ids[..|ids| - 1];
    assert forall i :: 0 <= i < |prefix| ==> prefix[i] == ids[i];
  }
}
