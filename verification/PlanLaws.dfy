/** What a built plan contains, and when the planner's refusals are true, in terms of the plant. */
module PlanLaws {
  import opened Collections
  import opened Plant
  import opened Judge
  import opened Slots
  import opened Teams
  import opened Bookings
  import opened Greedy
  import opened Scheduler
  import ScoreLaws
  import FloorLaws

  // Built plans ---------------------------------------------------------------------------------

  /** The row stands in the current schedule and may not be touched. */
  predicate Standing(s: Snapshot, a: Assignment) {
    s.current.Some? && a in s.current.value.assignments && !FloorLaws.Free(a)
  }

  /** A row of the planner's own, under the identity of its work. */
  predicate Proposal(strategy: Strategy, a: Assignment) {
    && a.status == Proposed && !a.locked
    && match a.work
       case Production(_, o) => a.id == ForOperation(strategy, o)
       case Maintenance(r, _) => a.id == ForRequest(strategy, r)
       case BlockedTime => false
  }

  lemma ReservationsStand(s: Snapshot, a: Assignment)
    ensures a in Reservations(s) <==> Standing(s, a)
  {
  }

  /** The schedule is the next revision and lists its rows by start and end. */
  lemma ScheduleIsBookings(s: Snapshot, bookings: seq<Assignment>, i: nat, k: nat)
    ensures var schedule := ScheduleOf(s, bookings);
            && schedule.factoryId == s.factoryId && schedule.window == s.window
            && schedule.revision == (if s.current.Some? then s.current.value.revision + 1 else 1)
            && multiset(schedule.assignments) == multiset(bookings)
            && (i < k < |schedule.assignments| ==>
                  var a, b := schedule.assignments[i], schedule.assignments[k];
                  a.start <= b.start && (a.start == b.start ==> a.end <= b.end))
  {
    hide Sorted;
    SortedIsSorted(bookings, ByTime);
    var rows := Sorted(bookings, ByTime);
    if i < k < |rows| { assert ByTime(rows[i], rows[k]); }
  }

  lemma RowsAreBookings(s: Snapshot, bookings: seq<Assignment>)
    ensures forall a :: a in ScheduleOf(s, bookings).assignments <==> a in bookings
  {
    hide Sorted;
    SameMembers(Sorted(bookings, ByTime), bookings);
  }

  /**
   A built plan makes every operation that is not completed, serves every open request, mandatory or
   not, and keeps every standing row; what it adds are proposals.
   */
  lemma BuiltPlanIsComplete(s: Snapshot, strategy: Strategy, bookings: seq<Assignment>, schedule: Schedule)
    requires UniqueIds(s) && Planned(s, IndexOf(s), strategy, bookings, Built(schedule))
    ensures forall j, o :: j in s.jobs && o in j.operations ==>
              && o.status != OperationStatus.Blocked
              && (o.status == OperationStatus.Completed
                  || exists a :: a in schedule.assignments && FloorLaws.Makes(a, o.id))
    ensures forall r :: r in s.requests && r.status in {Open, RequestStatus.Scheduled, InProgress} ==>
              exists a :: a in schedule.assignments && FloorLaws.Mends(a, r.id)
    ensures forall a :: Standing(s, a) ==> a in schedule.assignments
    ensures forall a :: a in schedule.assignments ==> Standing(s, a) || Proposal(strategy, a)
  {
    hide Admissible, ScheduleOf, Reservations, Run, IndexOf, UniqueIds, Orphaned;
    FloorLaws.TablesOfSnapshot(s);
    RowsAreBookings(s, bookings);
    RunKeeps(s, IndexOf(s), strategy, bookings);
    forall r | r in s.requests && r.status in {Open, RequestStatus.Scheduled, InProgress}
      ensures exists a :: a in schedule.assignments && FloorLaws.Mends(a, r.id)
    {
      var a :| a in bookings && a.Maintains(r.id);
      assert FloorLaws.Mends(a, r.id);
    }
    forall j, o | j in s.jobs && o in j.operations && o.status != OperationStatus.Completed
      ensures exists a :: a in schedule.assignments && FloorLaws.Makes(a, o.id)
    {
      var a :| a in bookings && a.Produces(o.id);
      assert FloorLaws.Makes(a, o.id);
    }
  }

  lemma RunKeeps(s: Snapshot, x: Index, strategy: Strategy, bookings: seq<Assignment>)
    requires Run(s, x, strategy, Reservations(s), bookings)
    ensures forall a :: Standing(s, a) ==> a in bookings
    ensures forall a :: a in bookings ==> Standing(s, a) || Proposal(strategy, a)
  {
    hide InTurn, IsLeast, Soonest, ReadyAt;
    var reserved := Reservations(s);
    forall a | Standing(s, a) ensures a in bookings {
      ReservationsStand(s, a);
      var i :| 0 <= i < |reserved| && reserved[i] == a;
      assert bookings[i] == a;
    }
    forall a | a in bookings ensures Standing(s, a) || Proposal(strategy, a) {
      var i :| 0 <= i < |bookings| && bookings[i] == a;
      if i < |reserved| {
        assert reserved[i] == a && a in reserved;
        ReservationsStand(s, a);
      } else {
        assert Chosen(s, x, strategy, bookings[..i], a);
      }
    }
  }

  // Refusals ------------------------------------------------------------------------------------

  /** A refused blocked operation is blocked in the snapshot. */
  lemma BlockedIsTrue(s: Snapshot, strategy: Strategy, bookings: seq<Assignment>, locked: set<Id>, id: Id)
    requires UniqueIds(s) && Justified(s, IndexOf(s), strategy, bookings, locked, Refusal.Blocked(id))
    ensures exists j, o :: j in s.jobs && o in j.operations && o.id == id && o.status == OperationStatus.Blocked
  {
    hide IndexOf, UniqueIds;
    FloorLaws.TablesOfSnapshot(s);
    var (j, o) := IndexOf(s).operations[id];
    assert j in s.jobs && o in j.operations;
  }

  /** The operation's step `p` is completed, and no standing row shows when. */
  ghost predicate EndUnknown(s: Snapshot, p: Id) {
    && (exists j, o :: j in s.jobs && o in j.operations && o.id == p && o.status == OperationStatus.Completed)
    && forall a :: Standing(s, a) ==> !FloorLaws.Makes(a, p)
  }

  /** An operation refused for its predecessors is open, and one of them ended at no known time. */
  lemma NoPredecessorIsTrue(s: Snapshot, strategy: Strategy, bookings: seq<Assignment>, id: Id)
    requires UniqueIds(s)
    requires Justified(s, IndexOf(s), strategy, bookings, ProducedIds(Reservations(s)), NoPredecessor(id))
    ensures exists j, o, p ::
              && j in s.jobs && o in j.operations && o.id == id && o.status != OperationStatus.Completed
              && p in o.predecessors && EndUnknown(s, p)
  {
    hide IndexOf, UniqueIds, Reservations;
    var x := IndexOf(s);
    FloorLaws.TablesOfSnapshot(s);
    var (j, o) := x.operations[id];
    var p :| p in o.predecessors && Lost(x, ProducedIds(Reservations(s)), p);
    var (k, q) := x.operations[p];
    assert k in s.jobs && q in k.operations && q.id == p;
    forall a | Standing(s, a) ensures !FloorLaws.Makes(a, p) {
      ReservationsStand(s, a);
      assert a.work.Production? ==> a.work.operationId in ProducedIds(Reservations(s));
    }
    assert j in s.jobs && o in j.operations && EndUnknown(s, p);
  }

  /** An operation refused for want of a slot could start nowhere. */
  lemma NoMachineSlotIsTrue(
    s: Snapshot, x: Index, strategy: Strategy, bookings: seq<Assignment>, locked: set<Id>, id: Id,
    option: MachineOption, u: Time)
    requires Justified(s, x, strategy, bookings, locked, NoMachineSlot(id))
    ensures var (job, o) := x.operations[id]; !ScoreLaws.CanRun(s, x, bookings, job, o, option, u)
  {
    var (job, o) := x.operations[id];
    var earliest :| ReadyAt(bookings, job, o, earliest) && NoSlot(s, x, bookings, o, earliest);
    assert option in o.options ==> OptionSlots(s, x, bookings, option, earliest, None);
    assert ScoreLaws.CanRun(s, x, bookings, job, o, option, u) ==>
      Free(OnMachine(bookings, option.machineId), u, option.minutes * MINUTE);
  }

  /**
   A request refused for want of a slot is open and stands nowhere, and no minimal team could serve
   it in its range.
   */
  lemma NoMaintenanceSlotIsTrue(
    s: Snapshot, x: Index, strategy: Strategy, bookings: seq<Assignment>, locked: set<Id>, id: Id, team: seq<Id>,
    bound: Time, u: Time)
    requires Justified(s, x, strategy, bookings, locked, NoMaintenanceSlot(id))
    ensures var r := x.requests[id];
            && r in s.requests && r.status in {Open, RequestStatus.Scheduled, InProgress}
            && (forall a :: Standing(s, a) ==> !FloorLaws.Mends(a, r.id))
            && (r.machineId in x.machines && MinimalTeam(s, r, x.machines[r.machineId].family, team)
                && ScoreLaws.IsFirstStart(s, r, strategy, bound) && bound <= u && ScoreLaws.StartsInTime(s, r, u)
                ==> !ScoreLaws.CanServe(x, bookings, r, team, u))
  {
    hide ScoreLaws.IsFirstStart, ScoreLaws.CanServe, MinimalTeam, Reservations;
    var r := x.requests[id];
    forall a | Standing(s, a) ensures !FloorLaws.Mends(a, r.id) { ReservationsStand(s, a); }
    if r.machineId in x.machines && MinimalTeam(s, r, x.machines[r.machineId].family, team)
       && ScoreLaws.IsFirstStart(s, r, strategy, bound) && bound <= u && ScoreLaws.StartsInTime(s, r, u) {
      ScoreLaws.FirstStartIsUnique(s, r, strategy, bound);
      ScoreLaws.LastStart(s, r, u);
      assert forall t :: TeamSlotOf(s, x, bookings, r, strategy, team) == Some(t) ==>
        Offers(s, x, bookings, r, strategy, team, t);
      TeamStartIsLowerBound(Sharing(bookings, r.machineId, team), ShiftsOf(x, team), bound, LatestStart(s, r),
                            r.Duration());
      ServiceMeansFeasible(x, bookings, r, team, u);
    }
  }

  lemma ServiceMeansFeasible(x: Index, bookings: seq<Assignment>, r: Request, team: seq<Id>, u: Time)
    ensures ScoreLaws.CanServe(x, bookings, r, team, u) ==>
              JointlyFeasible(Sharing(bookings, r.machineId, team), ShiftsOf(x, team), u, r.Duration())
  {
    if ScoreLaws.CanServe(x, bookings, r, team, u) { ScoreLaws.ServiceIsFeasible(x, bookings, r, team, u); }
  }
}
