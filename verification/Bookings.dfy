/** The invariant of plan construction: a growing list of bookings that the judge could already accept in part. */
module Bookings {
  import opened Collections
  import opened Plant
  import opened Judge
  import opened Slots
  import opened Teams

  /** The booking alone is acceptable, leaving only the presence of its team open. */
  ghost predicate Sound(s: Snapshot, x: Index, a: Assignment) {
    && a.start < a.end && Distinct(a.Team()) && !a.status.Cancelled?
    && KnownReferences(x, a) && InPlanningWindow(s, a) && EligibleMachine(x, a) && Skilled(x, a)
    && (forall rule :: Obeys(x, a, rule))
    && IdMatchesWork(a)
  }

  /** A stable identity made from an operation or request belongs to a booking for it. */
  predicate IdMatchesWork(a: Assignment) {
    && (a.id.ForOperation? ==> a.Produces(a.id.operationId))
    && (a.id.ForRequest? ==> a.Maintains(a.id.requestId))
  }

  /** Two bookings can stand in one plan. */
  ghost predicate Fit(a: Assignment, b: Assignment) {
    && (a.machineId == b.machineId ==> Disjoint(a, b))
    && (forall t :: t in a.Team() && t in b.Team() ==> Disjoint(a, b))
    && (a.work.Production? ==> !b.Produces(a.work.operationId))
    && (a.work.Maintenance? ==> !b.Maintains(a.work.requestId))
  }

  ghost predicate Admissible(s: Snapshot, x: Index, bookings: seq<Assignment>) {
    && DistinctIds(bookings)
    && (forall a :: a in bookings ==> Sound(s, x, a))
    && (forall a, b :: a in bookings && b in bookings && a != b ==> Fit(a, b))
  }

  lemma FitIsSymmetric(a: Assignment, b: Assignment)
    requires Fit(a, b)
    ensures Fit(b, a)
  {
    assert Disjoint(a, b) <==> Disjoint(b, a);
  }

  lemma MorePlansMeetMore(x: Index, plan: set<Assignment>, larger: set<Assignment>, a: Assignment)
    requires plan <= larger && PredecessorsMet(x, plan, a)
    ensures PredecessorsMet(x, larger, a)
  {
    forall p | Finishes(plan, p, a) ensures Finishes(larger, p, a) {
      var b :| b in plan && b.Produces(p) && b.end <= a.start;
      assert b in larger;
    }
  }

  /** Appending a sound booking that fits all others keeps the list admissible. */
  lemma BookingExtends(s: Snapshot, x: Index, bookings: seq<Assignment>, a: Assignment)
    requires Admissible(s, x, bookings) && Sound(s, x, a)
    requires forall b :: b in bookings ==> Fit(a, b) && b.id != a.id
    ensures Admissible(s, x, bookings + [a])
  {
    var next := bookings + [a];
    assert forall b :: b in next <==> b in bookings || b == a;
    forall b, c | b in next && c in next && b != c ensures Fit(b, c) {
      if c == a { FitIsSymmetric(a, b); }
    }
  }

  function RetainedOf(xs: seq<Assignment>): (r: seq<Assignment>)
    ensures forall a :: a in r <==> a in xs && a.Retained()
  {
    if xs == [] then []
    else
      assert xs == [xs[0]] + xs[1..];
      (if xs[0].Retained() then [xs[0]] else []) + RetainedOf(xs[1..])
  }

  /** Locked, running and completed rows of the current schedule. */
  function Reservations(s: Snapshot): seq<Assignment> {
    RetainedOf(CurrentAssignments(s))
  }

  /** Taken alone the reservations are sound, fit each other, and find their teams on shift. */
  ghost predicate FitReservations(s: Snapshot) {
    && Admissible(s, IndexOf(s), Reservations(s))
    && forall a :: a in Reservations(s) ==> Attended(IndexOf(s), a)
  }

  /** Every reserved row has its unfinished predecessors reserved, and ended in time. */
  ghost predicate PredecessorClosed(s: Snapshot) {
    AllPredecessorsMet(IndexOf(s), Elements(Reservations(s)))
  }

  /** The reservations alone pass the judge, coverage aside. */
  ghost predicate CleanReservations(s: Snapshot) {
    FitReservations(s) && PredecessorClosed(s)
  }

  lemma {:induction false} RetainedStayDistinct(xs: seq<Assignment>)
    requires DistinctIds(xs)
    ensures DistinctIds(RetainedOf(xs))
  {
    if xs != [] {
      RetainedStayDistinct(xs[1..]);
      forall a | a in RetainedOf(xs[1..]) ensures a.id != xs[0].id {
        var k :| 0 <= k < |xs[1..]| && xs[1..][k] == a;
        assert xs[k + 1] == a;
      }
    }
  }

  /** What the judge accepts it accepts row by row. */
  lemma ValidRowIsSound(s: Snapshot, plan: Plan, a: Assignment)
    requires StrictValid(s, plan) && a in ActivePart(plan.schedule.assignments) && IdMatchesWork(a)
    requires a.start < a.end && Distinct(a.Team())
    ensures Sound(s, IndexOf(s), a) && Attended(IndexOf(s), a)
  {
    hide IndexOf;
    assert Holds(UnknownReference, s, plan) && Holds(PlanningWindow, s, plan) && Holds(MachineEligibility, s, plan);
    assert Holds(TechnicianAvailability, s, plan) && Holds(SkillAdequacy, s, plan);
    forall rule ensures Obeys(IndexOf(s), a, rule) {
      if IsRule(rule) { assert Holds(rule, s, plan); }
    }
  }

  lemma ValidRowsFit(s: Snapshot, plan: Plan, a: Assignment, b: Assignment)
    requires StrictValid(s, plan) && a != b
    requires a in ActivePart(plan.schedule.assignments) && b in ActivePart(plan.schedule.assignments)
    ensures Fit(a, b)
  {
    hide IndexOf;
    assert Holds(UnknownReference, s, plan) && Holds(MachineOverlap, s, plan) && Holds(TechnicianAvailability, s, plan);
    assert KnownReferences(IndexOf(s), a);
    if a.work.Production? && b.Produces(a.work.operationId) {
      ProducedOnce(s, plan, a.work.operationId, a, b);
    }
    if a.work.Maintenance? && b.Maintains(a.work.requestId) {
      MaintainedOnce(s, plan, a.work.requestId, a, b);
    }
  }

  /** If the reservations do not fit, no plan whatever passes the strict judge. */
  lemma UnfitReservationsAreUnsatisfiable(s: Snapshot, plan: Plan)
    requires WellFormed(s) && (forall a :: a in Reservations(s) ==> IdMatchesWork(a))
    requires !FitReservations(s)
    ensures !StrictValid(s, plan)
  {
    if StrictValid(s, plan) {
      assert Holds(ImmutableReservation, s, plan);
      RetainedStayDistinct(CurrentAssignments(s));
      forall a | a in Reservations(s) ensures Sound(s, IndexOf(s), a) && Attended(IndexOf(s), a) {
        assert ValidAssignment(s, a);
        ValidRowIsSound(s, plan, a);
      }
      forall a, b | a in Reservations(s) && b in Reservations(s) && a != b ensures Fit(a, b) {
        ValidRowsFit(s, plan, a, b);
      }
    }
  }

  /** Every reserved row starts after its predecessors in the plan. */
  ghost predicate ReservedInOrder(s: Snapshot, x: Index, plan: set<Assignment>) {
    forall a :: a in Reservations(s) ==> PredecessorsMet(x, plan, a)
  }

  function ShiftOf(x: Index, technicianId: Id): seq<Window> {
    if technicianId in x.technicians then x.technicians[technicianId].availability else []
  }

  function ShiftsOf(x: Index, team: seq<Id>): (shifts: seq<seq<Window>>)
    ensures |shifts| == |team| && forall i :: 0 <= i < |team| ==> shifts[i] == ShiftOf(x, team[i])
  {
    seq(|team|, i requires 0 <= i < |team| => ShiftOf(x, team[i]))
  }

  ghost predicate TeamCompatible(x: Index, r: Request, team: seq<Id>) {
    Compatible(ShiftsOf(x, team), r.Duration())
  }

  /** Every team the planner may choose has shifts for which the joint search is right. */
  ghost predicate TeamsCompatible(s: Snapshot, x: Index) {
    forall r, team :: MayServe(s, x, r, team) ==> TeamCompatible(x, r, team)
  }

  /** Technicians are found in the index under their own identifiers. */
  ghost predicate PeopleIndexed(s: Snapshot, x: Index) {
    && DistinctPeople(s.technicians)
    && forall t :: t in s.technicians ==> t.id in x.technicians && x.technicians[t.id] == t
  }

  /** An active request that no reservation holds: the planner has to find a team for it. */
  ghost predicate ToServe(s: Snapshot, x: Index, r: Request) {
    && r in s.requests && r.Active() && r.machineId in x.machines
    && !(exists a :: a in Reservations(s) && a.Maintains(r.id))
  }

  /** `team` is one the planner may send to the request `r`. */
  ghost predicate MayServe(s: Snapshot, x: Index, r: Request, team: seq<Id>) {
    ToServe(s, x, r) && MinimalTeam(s, r, x.machines[r.machineId].family, team)
  }

  /** Some on-duty technician has every skill the request needs. */
  ghost predicate SoloCapable(s: Snapshot, r: Request, family: Id) {
    exists t :: t in OnDutyTechnicians(s) && Covers({t}, r, family)
  }

  lemma SoloTeam(s: Snapshot, r: Request, family: Id, team: seq<Id>)
    requires SoloCapable(s, r, family) && MinimalTeam(s, r, family, team)
    ensures |team| == 1
  {
    var t :| t in OnDutyTechnicians(s) && Covers({t}, r, family);
    assert CoveringCrew(s, r, family, {t});
  }

  lemma TeamIsKnown(s: Snapshot, x: Index, team: seq<Id>)
    requires Named(s, team) && PeopleIndexed(s, x)
    ensures forall t :: t in team ==> t in x.technicians
  {
  }

  /** If each request can be served by one technician, no team has two members and all shifts are compatible. */
  lemma SoloTeamsAreCompatible(s: Snapshot, x: Index)
    requires forall r :: ToServe(s, x, r) ==> SoloCapable(s, r, x.machines[r.machineId].family)
    ensures TeamsCompatible(s, x)
  {
    forall r, team | MayServe(s, x, r, team) ensures TeamCompatible(x, r, team) {
      SoloTeam(s, r, x.machines[r.machineId].family, team);
      NestedShiftsAreCompatible(ShiftsOf(x, team), r.Duration());
    }
  }

  /** No plan satisfies the strict judge when a locked row is cancelled: it is demanded and dropped. */
  lemma LockedCancelledRowIsUnsatisfiable(s: Snapshot, row: Assignment, plan: Plan)
    requires row in CurrentAssignments(s) && row.locked && row.status.Cancelled?
    ensures !StrictValid(s, plan)
  {
    assert !ReservationsKept(s, ActivePart(plan.schedule.assignments));
    assert !Holds(ImmutableReservation, s, plan);
  }

  ghost predicate TeamsAttended(x: Index, bookings: seq<Assignment>) {
    forall a :: a in bookings ==> Attended(x, a)
  }

  ghost predicate OperationsDone(x: Index, bookings: seq<Assignment>) {
    forall id :: id in x.operations && !x.operations[id].1.status.Completed? ==>
      exists a :: a in bookings && a.Produces(id)
  }

  ghost predicate RequestsDone(x: Index, bookings: seq<Assignment>) {
    forall id :: id in x.requests && x.requests[id].Active() ==> exists a :: a in bookings && a.Maintains(id)
  }

  /** A complete admissible list meets every clause, given the presence of teams and the order of predecessors. */
  lemma CompletePlanHolds(s: Snapshot, x: Index, schedule: Schedule, bookings: seq<Assignment>, c: Code)
    requires Admissible(s, x, bookings) && OperationsDone(x, bookings) && RequestsDone(x, bookings)
    requires forall id :: id in x.operations ==> x.operations[id].1.id == id
    requires forall id :: id in x.requests ==> x.requests[id].id == id
    requires forall a :: a in Reservations(s) ==> a in bookings
    requires schedule.factoryId == s.factoryId && schedule.window == s.window
    requires forall a :: a in schedule.assignments <==> a in bookings
    ensures c == TechnicianAvailability ==> TechniciansExclusive(x, ActivePart(schedule.assignments))
    ensures (c.TechnicianAvailability? && !TeamsAttended(x, bookings))
            || (c.Precedence? && !AllPredecessorsMet(x, Elements(bookings)))
            || Clause(c, s, x, Plan(s.id, schedule))
  {
    var active := ActivePart(schedule.assignments);
    assert active == Elements(bookings) by {
      assert forall a :: a in bookings ==> Sound(s, x, a);
    }
    match c {
      case OperationCoverage => OperationsAreCovered(x, bookings);
      case MaintenanceCoverage => RequestsAreCovered(x, bookings);
      case _ =>
    }
  }

  lemma OperationsAreCovered(x: Index, bookings: seq<Assignment>)
    requires OperationsDone(x, bookings)
    requires forall id :: id in x.operations ==> x.operations[id].1.id == id
    requires forall a, b :: a in bookings && b in bookings && a != b ==> Fit(a, b)
    ensures OperationsCovered(x, Elements(bookings))
  {
    forall id | id in x.operations ensures OperationCovered(Elements(bookings), x.operations[id].1) {
      var produces := (a: Assignment) => a.Produces(id);
      if !x.operations[id].1.status.Completed? {
        var a :| a in bookings && a.Produces(id);
        assert a in Elements(bookings) && produces(a);
      }
    }
  }

  lemma RequestsAreCovered(x: Index, bookings: seq<Assignment>)
    requires RequestsDone(x, bookings)
    requires forall id :: id in x.requests ==> x.requests[id].id == id
    requires forall a, b :: a in bookings && b in bookings && a != b ==> Fit(a, b)
    ensures RequestsCovered(x, Elements(bookings))
  {
    forall id | id in x.requests ensures RequestCovered(Elements(bookings), x.requests[id]) {
      var maintains := (a: Assignment) => a.Maintains(id);
      if x.requests[id].Active() {
        var a :| a in bookings && a.Maintains(id);
        assert a in Elements(bookings) && maintains(a);
      }
    }
  }
}
