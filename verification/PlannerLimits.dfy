/**
 Where planner and judge part: incompatible shifts make the planner send a team that the judge
 finds absent, and a completed predecessor without reservation makes the planner refuse what
 the judge would accept.
 */
module PlannerLimits {
  import opened Collections
  import opened Plant
  import opened Judge
  import opened Slots
  import opened Teams
  import opened Bookings
  import opened Greedy
  import opened Scheduler

  /** Technician `i` has the `i`-th shift and is the only one with skill `i`. */
  function Crewman(shifts: seq<seq<Window>>, i: nat): Technician
    requires i < |shifts|
  {
    Technician(i, TechnicianStatus.Available, shifts[i], [Skill(i, 1, {1}, {1})])
  }

  function CrewOfShifts(shifts: seq<seq<Window>>): (r: seq<Technician>)
    ensures |r| == |shifts| && forall i :: 0 <= i < |r| ==> r[i] == Crewman(shifts, i)
  {
    seq(|shifts|, i requires 0 <= i < |shifts| => Crewman(shifts, i))
  }

  function UpTo(n: nat): (r: seq<Id>)
    ensures |r| == n && forall i :: 0 <= i < n ==> r[i] == i
  {
    seq(n, i => i)
  }

  /** One mandatory request that needs every technician, open from `from`. */
  function CrewRequest(shifts: seq<seq<Window>>, minutes: int, from: Time): Request {
    Request(1, 1, 1, RequestStatus.Open, from, None, minutes, UpTo(|shifts|), 1, true)
  }

  /** A plant with one machine, that request, and room for starts in [from, latest]. */
  function CrewSnapshot(shifts: seq<seq<Window>>, minutes: int, from: Time, latest: Time): Snapshot {
    Snapshot(1, 1, Window(from, latest + minutes * MINUTE), [Machine(1, 1, MachineStatus.Idle, {1})], [],
             CrewOfShifts(shifts), map[], [CrewRequest(shifts, minutes, from)], None)
  }

  ghost predicate ProperShifts(shifts: seq<seq<Window>>, minutes: int) {
    minutes >= 1 && shifts != [] && forall shift, w :: shift in shifts && w in shift ==> w.start < w.end
  }

  /** A start from which the pass over the shifts leaves somebody behind. */
  ghost predicate LeavesBehind(shifts: seq<seq<Window>>, minutes: int, from: Time, latest: Time) {
    && ProperShifts(shifts, minutes)
    && Pass(shifts, from, minutes * MINUTE) == Some(latest)
    && !AllInShift(shifts, latest, minutes * MINUTE)
  }

  lemma LeftLater(shifts: seq<seq<Window>>, minutes: int, from: Time, latest: Time)
    requires LeavesBehind(shifts, minutes, from, latest)
    ensures ProperShifts(shifts, minutes) && from <= latest
  {
  }

  lemma WhoIsLeft(shifts: seq<seq<Window>>, minutes: int, from: Time, latest: Time) returns (i: nat)
    requires LeavesBehind(shifts, minutes, from, latest)
    ensures i < |shifts| && !InShift(shifts[i], latest, minutes * MINUTE)
  {
    var shift :| shift in shifts && !InShift(shift, latest, minutes * MINUTE);
    i :| 0 <= i < |shifts| && shifts[i] == shift;
  }

  lemma CrewSnapshotIsClean(shifts: seq<seq<Window>>, minutes: int, from: Time, latest: Time)
    requires ProperShifts(shifts, minutes) && from <= latest
    ensures var s := CrewSnapshot(shifts, minutes, from, latest);
            WellFormed(s) && CleanReservations(s) && Reservations(s) == []
  {
    var s, r := CrewSnapshot(shifts, minutes, from, latest), CrewRequest(shifts, minutes, from);
    CrewIsWellFormed(shifts, minutes, from, latest);
    assert Elements<Assignment>([]) == {};
  }

  lemma CrewIsWellFormed(shifts: seq<seq<Window>>, minutes: int, from: Time, latest: Time)
    requires ProperShifts(shifts, minutes) && from <= latest
    ensures WellFormed(CrewSnapshot(shifts, minutes, from, latest))
  {
    var s := CrewSnapshot(shifts, minutes, from, latest);
    assert s.machines[0] in s.machines;
    forall t, w | t in s.technicians && w in t.availability ensures w.start < w.end {
      var i :| 0 <= i < |shifts| && s.technicians[i] == t;
      assert shifts[i] in shifts;
    }
  }

  /** Only technician `i` masters skill `i`, so a covering crew is the whole crew. */
  lemma CrewIsIndispensable(shifts: seq<seq<Window>>, minutes: int, from: Time, latest: Time, crew: set<Technician>)
    requires var s := CrewSnapshot(shifts, minutes, from, latest);
             CoveringCrew(s, CrewRequest(shifts, minutes, from), 1, crew)
    ensures crew == Elements(CrewOfShifts(shifts))
  {
    var s, r := CrewSnapshot(shifts, minutes, from, latest), CrewRequest(shifts, minutes, from);
    forall t | t in Elements(CrewOfShifts(shifts)) ensures t in crew {
      var i :| 0 <= i < |shifts| && CrewOfShifts(shifts)[i] == t;
      assert r.requiredSkills[i] in r.requiredSkills;
      var u :| u in crew && Masters(u, i, r, 1);
      assert u in OnDutyTechnicians(s);
      var k :| 0 <= k < |shifts| && CrewOfShifts(shifts)[k] == u;
    }
  }

  lemma WholeCrewCovers(shifts: seq<seq<Window>>, minutes: int, from: Time, latest: Time)
    ensures var s := CrewSnapshot(shifts, minutes, from, latest);
            CoveringCrew(s, CrewRequest(shifts, minutes, from), 1, Elements(CrewOfShifts(shifts)))
  {
    var r := CrewRequest(shifts, minutes, from);
    forall k | k in r.requiredSkills ensures exists t :: t in Elements(CrewOfShifts(shifts)) && Masters(t, k, r, 1) {
      var t := Crewman(shifts, k);
      assert CrewOfShifts(shifts)[k] in CrewOfShifts(shifts) && t.skills[0] in t.skills;
      assert Masters(t, k, r, 1);
    }
  }

  lemma CrewIsDistinct(shifts: seq<seq<Window>>)
    ensures DistinctPeople(CrewOfShifts(shifts)) && Distinct(UpTo(|shifts|))
            && IdsOf(CrewOfShifts(shifts)) == UpTo(|shifts|)
  {
  }

  /** The whole crew in list order is the only minimal team. */
  lemma OnlyMinimalTeam(shifts: seq<seq<Window>>, minutes: int, from: Time, latest: Time, team: seq<Id>)
    requires shifts != []
    ensures var s := CrewSnapshot(shifts, minutes, from, latest);
            MinimalTeam(s, CrewRequest(shifts, minutes, from), 1, team) <==> team == UpTo(|shifts|)
  {
    var s, r, whole := CrewSnapshot(shifts, minutes, from, latest), CrewRequest(shifts, minutes, from), UpTo(|shifts|);
    CrewIsDistinct(shifts);
    WholeTeamIsNamed(shifts, minutes, from, latest);
    if MinimalTeam(s, r, 1, team) {
      CrewIsIndispensable(shifts, minutes, from, latest, Crew(s, team));
      SameCrewSameTeam(s, team, whole);
    }
    if team == whole {
      WholeCrewCovers(shifts, minutes, from, latest);
      forall crew | CoveringCrew(s, r, 1, crew) ensures |team| <= |crew| {
        CrewIsIndispensable(shifts, minutes, from, latest, crew);
        DistinctCount(CrewOfShifts(shifts));
      }
    }
  }

  lemma WholeTeamIsNamed(shifts: seq<seq<Window>>, minutes: int, from: Time, latest: Time)
    ensures var s, whole := CrewSnapshot(shifts, minutes, from, latest), UpTo(|shifts|);
            && Named(s, whole) && Subsequence(whole, IdsOf(s.technicians))
            && Crew(s, whole) == Elements(CrewOfShifts(shifts))
  {
    var s, whole := CrewSnapshot(shifts, minutes, from, latest), UpTo(|shifts|);
    CrewIsDistinct(shifts);
    SubsequenceOfSelf(whole);
    forall id | id in whole ensures exists t :: t in s.technicians && t.id == id {
      assert CrewOfShifts(shifts)[id] in s.technicians;
    }
    CrewOfGroup(s, CrewOfShifts(shifts));
  }

  lemma {:induction false} DistinctCount<T>(xs: seq<T>)
    requires Distinct(xs)
    ensures |Elements(xs)| == |xs|
  {
    if xs != [] {
      DistinctCount(xs[1..]);
      assert xs == [xs[0]] + xs[1..] && xs[0] !in xs[1..];
      assert Elements(xs) == {xs[0]} + Elements(xs[1..]);
    }
  }

  lemma CrewShifts(shifts: seq<seq<Window>>, minutes: int, from: Time, latest: Time)
    requires ProperShifts(shifts, minutes) && from <= latest
    ensures ShiftsOf(IndexOf(CrewSnapshot(shifts, minutes, from, latest)), UpTo(|shifts|)) == shifts
  {
    var s := CrewSnapshot(shifts, minutes, from, latest);
    CrewIsWellFormed(shifts, minutes, from, latest);
    IndexIsExact(s);
    forall i | 0 <= i < |shifts| ensures ShiftOf(IndexOf(s), i) == shifts[i] {
      assert s.technicians[i] in s.technicians;
    }
  }

  /** On empty calendars that team is offered the start `latest`, and nobody else anything. */
  lemma CrewOffer(
    shifts: seq<seq<Window>>, minutes: int, from: Time, latest: Time, strategy: Strategy, team: seq<Id>, start: Time)
    requires LeavesBehind(shifts, minutes, from, latest) && !strategy.Balanced?
    ensures var s := CrewSnapshot(shifts, minutes, from, latest);
            Offers(s, IndexOf(s), [], CrewRequest(shifts, minutes, from), strategy, team, start) <==>
              team == UpTo(|shifts|) && start == latest
  {
    var s, r := CrewSnapshot(shifts, minutes, from, latest), CrewRequest(shifts, minutes, from);
    OnlyMinimalTeam(shifts, minutes, from, latest, team);
    CrewShifts(shifts, minutes, from, latest);
    assert s.machines[0] in s.machines;
    PassIsLowerBound(shifts, from, minutes * MINUTE);
  }

  lemma CrewIndex(shifts: seq<seq<Window>>, minutes: int, from: Time, latest: Time)
    requires ProperShifts(shifts, minutes) && from <= latest
    ensures var x := IndexOf(CrewSnapshot(shifts, minutes, from, latest));
            && x.operations == map[]
            && (forall id :: id in x.requests <==> id == 1)
            && x.requests[1] == CrewRequest(shifts, minutes, from)
  {
    var s := CrewSnapshot(shifts, minutes, from, latest);
    CrewIsWellFormed(shifts, minutes, from, latest);
    IndexIsExact(s);
    assert s.requests[0] in s.requests;
  }

  /** The first booking of any run is the request at `latest`, with the whole crew. */
  lemma FirstBooking(
    shifts: seq<seq<Window>>, minutes: int, from: Time, latest: Time, strategy: Strategy, a: Assignment)
    requires LeavesBehind(shifts, minutes, from, latest) && !strategy.Balanced?
    requires var s := CrewSnapshot(shifts, minutes, from, latest); Chosen(s, IndexOf(s), strategy, [], a)
    ensures a.Maintains(1) && a.status.Proposed? && a.Team() == UpTo(|shifts|)
    ensures a.start == latest && a.end == latest + minutes * MINUTE
  {
    hide CrewSnapshot, Offers;
    CrewIndex(shifts, minutes, from, latest);
    CrewOffer(shifts, minutes, from, latest, strategy, a.Team(), a.start);
  }

  /** There a member of the team is off shift. */
  lemma CrewBookingIsUnattended(shifts: seq<seq<Window>>, minutes: int, from: Time, latest: Time, a: Assignment)
    requires LeavesBehind(shifts, minutes, from, latest) && a.Team() == UpTo(|shifts|)
    requires a.start == latest && a.end == latest + minutes * MINUTE
    ensures !Attended(IndexOf(CrewSnapshot(shifts, minutes, from, latest)), a)
  {
    hide CrewSnapshot;
    var x := IndexOf(CrewSnapshot(shifts, minutes, from, latest));
    var i := WhoIsLeft(shifts, minutes, from, latest);
    CrewMemberIsKnown(shifts, minutes, from, latest, i);
    assert UpTo(|shifts|)[i] in a.Team();
    assert !Present(x.technicians[i], a);
  }

  lemma CrewMemberIsKnown(shifts: seq<seq<Window>>, minutes: int, from: Time, latest: Time, i: nat)
    requires ProperShifts(shifts, minutes) && from <= latest && i < |shifts|
    ensures var x := IndexOf(CrewSnapshot(shifts, minutes, from, latest));
            i in x.technicians && x.technicians[i] == Crewman(shifts, i)
  {
    var s := CrewSnapshot(shifts, minutes, from, latest);
    CrewIsWellFormed(shifts, minutes, from, latest);
    IndexIsExact(s);
    assert s.technicians[i] in s.technicians;
  }

  lemma CrewServesRequest(
    shifts: seq<seq<Window>>, minutes: int, from: Time, latest: Time, strategy: Strategy, bookings: seq<Assignment>)
    requires LeavesBehind(shifts, minutes, from, latest) && !strategy.Balanced? && bookings != []
    requires var s := CrewSnapshot(shifts, minutes, from, latest); Run(s, IndexOf(s), strategy, [], bookings)
    ensures bookings[0].Maintains(1) && bookings[0].status.Proposed?
    ensures !Attended(IndexOf(CrewSnapshot(shifts, minutes, from, latest)), bookings[0])
  {
    hide CrewSnapshot, Chosen, LeavesBehind, Run;
    var s := CrewSnapshot(shifts, minutes, from, latest);
    RunBegins(s, IndexOf(s), strategy, [], bookings);
    FirstBooking(shifts, minutes, from, latest, strategy, bookings[0]);
    CrewBookingIsUnattended(shifts, minutes, from, latest, bookings[0]);
  }

  /** With nothing booked the request is not refused. */
  lemma CrewIsNotRefused(
    shifts: seq<seq<Window>>, minutes: int, from: Time, latest: Time, strategy: Strategy, bookings: seq<Assignment>,
    reason: Refusal)
    requires LeavesBehind(shifts, minutes, from, latest) && !strategy.Balanced?
    requires var s := CrewSnapshot(shifts, minutes, from, latest);
             Run(s, IndexOf(s), strategy, [], bookings)
    ensures var s := CrewSnapshot(shifts, minutes, from, latest);
            !Justified(s, IndexOf(s), strategy, bookings, {}, reason)
  {
    hide CrewSnapshot, LeavesBehind, Run, Offers;
    var s := CrewSnapshot(shifts, minutes, from, latest);
    LeftLater(shifts, minutes, from, latest);
    CrewIndex(shifts, minutes, from, latest);
    if bookings == [] {
      CrewOffer(shifts, minutes, from, latest, strategy, UpTo(|shifts|), latest);
    } else {
      CrewServesRequest(shifts, minutes, from, latest, strategy, bookings);
      assert bookings[0] in bookings;
    }
  }

  /** Whatever the planner answers in time for that plant is a plan the judge rejects. */
  lemma CrewPlanIsInvalid(
    shifts: seq<seq<Window>>, minutes: int, from: Time, latest: Time, strategy: Strategy, bookings: seq<Assignment>,
    outcome: Outcome)
    requires LeavesBehind(shifts, minutes, from, latest) && !strategy.Balanced? && !outcome.TimedOut?
    requires var s := CrewSnapshot(shifts, minutes, from, latest);
             Planned(s, IndexOf(s), strategy, bookings, outcome)
    ensures outcome.Built?
    ensures var s := CrewSnapshot(shifts, minutes, from, latest); !StrictValid(s, Plan(s.id, outcome.schedule))
  {
    hide CrewSnapshot, LeavesBehind, Run, WellFormed, CleanReservations, Admissible, OperationsDone, StrictValid;
    hide Justified, Orphaned;
    var s := CrewSnapshot(shifts, minutes, from, latest);
    LeftLater(shifts, minutes, from, latest);
    CrewSnapshotIsClean(shifts, minutes, from, latest);
    CrewIndex(shifts, minutes, from, latest);
    assert ProducedIds([]) == {};
    if outcome.NoPlan? {
      CrewIsNotRefused(shifts, minutes, from, latest, strategy, bookings, outcome.reason);
      assert false;
    }
    assert IndexOf(s).requests[1].Active();
    assert bookings != [];
    CrewServesRequest(shifts, minutes, from, latest, strategy, bookings);
    assert bookings[0] in bookings;
    PlannedIsValid(s, IndexOf(s), strategy, bookings, outcome.schedule);
  }

  /** Every incompatible crew has such a plant. */
  lemma IncompatibleCrewIsLeftBehind(shifts: seq<seq<Window>>, minutes: int) returns (from: Time, latest: Time)
    requires ProperShifts(shifts, minutes)
    requires !Compatible(shifts, minutes * MINUTE)
    ensures LeavesBehind(shifts, minutes, from, latest)
  {
    from :| from in TestStarts(shifts, minutes * MINUTE) && !JointFrom(shifts, from, minutes * MINUTE);
    latest := Pass(shifts, from, minutes * MINUTE).value;
  }

  /** With compatible shifts the only team of that plant is always on shift. */
  lemma CrewTeamIsCompatible(shifts: seq<seq<Window>>, minutes: int, from: Time, latest: Time)
    requires ProperShifts(shifts, minutes) && from <= latest && Compatible(shifts, minutes * MINUTE)
    ensures var s := CrewSnapshot(shifts, minutes, from, latest); TeamsCompatible(s, IndexOf(s))
  {
    var s := CrewSnapshot(shifts, minutes, from, latest);
    var x := IndexOf(s);
    CrewIndex(shifts, minutes, from, latest);
    CrewShifts(shifts, minutes, from, latest);
    forall r, team | MayServe(s, x, r, team) ensures TeamCompatible(x, r, team) {
      OnlyMinimalTeam(shifts, minutes, from, latest, team);
    }
  }

  lemma NoTeamBeforeItself(team: seq<Id>)
    ensures !TeamBefore(team, team)
  {
    if TeamBefore(team, team) { TeamBeforeAsymmetric(team, team); }
  }

  /** The booking of the whole crew at `latest`. */
  function CrewBooking(shifts: seq<seq<Window>>, minutes: int, latest: Time, strategy: Strategy): Assignment {
    Assignment(ForRequest(strategy, 1), Work.Maintenance(1, UpTo(|shifts|)), Proposed, 1,
               latest, latest + minutes * MINUTE, false)
  }

  lemma CrewBookingIsChosen(shifts: seq<seq<Window>>, minutes: int, from: Time, latest: Time, strategy: Strategy)
    requires LeavesBehind(shifts, minutes, from, latest) && !strategy.Balanced?
    ensures var s, a := CrewSnapshot(shifts, minutes, from, latest), CrewBooking(shifts, minutes, latest, strategy);
            Chosen(s, IndexOf(s), strategy, [], a) && Sound(s, IndexOf(s), a)
  {
    hide CrewSnapshot, Offers, LeavesBehind, Sound;
    var s, r := CrewSnapshot(shifts, minutes, from, latest), CrewRequest(shifts, minutes, from);
    var x, a := IndexOf(s), CrewBooking(shifts, minutes, latest, strategy);
    LeftLater(shifts, minutes, from, latest);
    CrewIndex(shifts, minutes, from, latest);
    forall team, start
      ensures Offers(s, x, [], r, strategy, team, start) <==> team == UpTo(|shifts|) && start == latest
    {
      CrewOffer(shifts, minutes, from, latest, strategy, team, start);
    }
    NoTeamBeforeItself(a.Team());
    assert Soonest(s, x, [], r, strategy, Some(TeamSlot(a.start, a.Team())));
    CrewBookingIsSound(shifts, minutes, from, latest, strategy);
  }

  lemma CrewBookingIsSound(shifts: seq<seq<Window>>, minutes: int, from: Time, latest: Time, strategy: Strategy)
    requires LeavesBehind(shifts, minutes, from, latest) && !strategy.Balanced?
    ensures var s := CrewSnapshot(shifts, minutes, from, latest);
            Sound(s, IndexOf(s), CrewBooking(shifts, minutes, latest, strategy))
  {
    LeftLater(shifts, minutes, from, latest);
    hide CrewSnapshot, LeavesBehind, MinimalTeam, Sound, UpTo, PendingRequest, EarliestStart, LatestStart;
    hide PeopleIndexed;
    hide IndexOf, ProperShifts;
    var s, r := CrewSnapshot(shifts, minutes, from, latest), CrewRequest(shifts, minutes, from);
    CrewTables(shifts, minutes, from, latest);
    CrewRequestFits(shifts, minutes, from, latest, strategy);
    OnlyMinimalTeam(shifts, minutes, from, latest, UpTo(|shifts|));
    MaintenanceIsSound(s, IndexOf(s), r, strategy, UpTo(|shifts|), CrewBooking(shifts, minutes, latest, strategy));
  }

  lemma CrewTables(shifts: seq<seq<Window>>, minutes: int, from: Time, latest: Time)
    requires ProperShifts(shifts, minutes) && from <= latest
    ensures var s := CrewSnapshot(shifts, minutes, from, latest);
            PeopleIndexed(s, IndexOf(s)) && 1 in IndexOf(s).machines && IndexOf(s).machines[1].family == 1
  {
    var s := CrewSnapshot(shifts, minutes, from, latest);
    CrewIsWellFormed(shifts, minutes, from, latest);
    IndexOfCrew(s);
  }

  /** The request is pending, and `latest` lies in its range. */
  lemma CrewRequestFits(shifts: seq<seq<Window>>, minutes: int, from: Time, latest: Time, strategy: Strategy)
    requires ProperShifts(shifts, minutes) && from <= latest && !strategy.Balanced?
    ensures var s, r := CrewSnapshot(shifts, minutes, from, latest), CrewRequest(shifts, minutes, from);
            && PendingRequest(IndexOf(s), r)
            && EarliestStart(s, r, strategy) <= latest <= LatestStart(s, r)
  {
    CrewTables(shifts, minutes, from, latest);
    CrewIndex(shifts, minutes, from, latest);
    hide IndexOf, PeopleIndexed;
    assert |CrewRequest(shifts, minutes, from).requiredSkills| == |shifts|;
  }

  lemma IndexOfCrew(s: Snapshot)
    requires WellFormed(s) && |s.machines| == 1
    ensures PeopleIndexed(s, IndexOf(s)) && s.machines[0].id in IndexOf(s).machines
    ensures IndexOf(s).machines[s.machines[0].id] == s.machines[0]
  {
    IndexIsExact(s);
    assert s.machines[0] in s.machines;
  }

  lemma OneMaintenanceIsAdmissible(s: Snapshot, x: Index, a: Assignment)
    requires Sound(s, x, a) && a.work.Maintenance?
    ensures Admissible(s, x, [a])
  {
    hide Sound;
    assert forall b :: b in [a] ==> b == a;
  }

  lemma NothingElseToDo(x: Index, a: Assignment)
    requires x.operations == map[] && (forall id :: id in x.requests <==> id == 1) && a.Maintains(1)
    ensures OperationsDone(x, [a]) && RequestsDone(x, [a]) && NothingBlocked(x)
    ensures forall id, locked :: !Orphaned(x, locked, id)
  {
    assert a in [a];
  }

  /** The planner can get to the end there. */
  lemma CrewPlanExists(shifts: seq<seq<Window>>, minutes: int, from: Time, latest: Time, strategy: Strategy)
    requires LeavesBehind(shifts, minutes, from, latest) && !strategy.Balanced?
    ensures var s := CrewSnapshot(shifts, minutes, from, latest);
            var bookings := [CrewBooking(shifts, minutes, latest, strategy)];
            Planned(s, IndexOf(s), strategy, bookings, Built(ScheduleOf(s, bookings)))
  {
    hide Chosen, Sound, LeavesBehind, WellFormed, CrewSnapshot, Run, Admissible, OperationsDone, RequestsDone;
    hide NothingBlocked;
    hide Orphaned, CleanReservations;
    var s, a := CrewSnapshot(shifts, minutes, from, latest), CrewBooking(shifts, minutes, latest, strategy);
    LeftLater(shifts, minutes, from, latest);
    CrewSnapshotIsClean(shifts, minutes, from, latest);
    CrewIndex(shifts, minutes, from, latest);
    CrewBookingIsChosen(shifts, minutes, from, latest, strategy);
    RunOfOne(s, IndexOf(s), strategy, [], a);
    OneMaintenanceIsAdmissible(s, IndexOf(s), a);
    NothingElseToDo(IndexOf(s), a);
    assert [] + [a] == [a];
  }

  /** Every plan built for the crew, whatever the time of the request, passes the judge. */
  ghost predicate ServedWell(shifts: seq<seq<Window>>, minutes: int) {
    forall from, latest, strategy, bookings, schedule ::
      var s := CrewSnapshot(shifts, minutes, from, latest);
      from <= latest && Planned(s, IndexOf(s), strategy, bookings, Built(schedule)) ==>
        StrictValid(s, Plan(s.id, schedule))
  }

  /** The finite test of the shifts is exact for the plans of a crew. */
  lemma CrewIsServedWellExactlyWhenCompatible(shifts: seq<seq<Window>>, minutes: int)
    requires ProperShifts(shifts, minutes)
    ensures ServedWell(shifts, minutes) <==> Compatible(shifts, minutes * MINUTE)
  {
    hide CrewSnapshot, Planned, StrictValid, WellFormed, CleanReservations, LeavesBehind, Compatible, TeamsCompatible;
    if Compatible(shifts, minutes * MINUTE) {
      forall from, latest, strategy, bookings, schedule |
        var s := CrewSnapshot(shifts, minutes, from, latest);
        from <= latest && Planned(s, IndexOf(s), strategy, bookings, Built(schedule))
        ensures var s := CrewSnapshot(shifts, minutes, from, latest); StrictValid(s, Plan(s.id, schedule))
      {
        var s := CrewSnapshot(shifts, minutes, from, latest);
        CrewSnapshotIsClean(shifts, minutes, from, latest);
        CrewTeamIsCompatible(shifts, minutes, from, latest);
        PlannedIsValid(s, IndexOf(s), strategy, bookings, schedule);
      }
    } else {
      var from, latest := IncompatibleCrewIsLeftBehind(shifts, minutes);
      var s := CrewSnapshot(shifts, minutes, from, latest);
      var bookings := [CrewBooking(shifts, minutes, latest, ProductionPriority)];
      LeftLater(shifts, minutes, from, latest);
      CrewPlanExists(shifts, minutes, from, latest, ProductionPriority);
      CrewPlanIsInvalid(shifts, minutes, from, latest, ProductionPriority, bookings, Built(ScheduleOf(s, bookings)));
    }
  }

  /** A test start from which somebody is left behind. */
  method FindBehind(shifts: seq<seq<Window>>, minutes: int) returns (from: Time, latest: Time)
    requires ProperShifts(shifts, minutes) && !Compatible(shifts, minutes * MINUTE)
    ensures LeavesBehind(shifts, minutes, from, latest)
  {
    from :| from in TestStarts(shifts, minutes * MINUTE) && !JointFrom(shifts, from, minutes * MINUTE);
    latest := Pass(shifts, from, minutes * MINUTE).value;
  }

  /** The planner at work for a crew whose shifts are incompatible: in time it answers with an invalid plan. */
  method PlanForCrew(shifts: seq<seq<Window>>, minutes: int, strategy: Strategy)
    returns (s: Snapshot, outcome: Outcome)
    requires ProperShifts(shifts, minutes)
    requires !Compatible(shifts, minutes * MINUTE) && !strategy.Balanced?
    ensures WellFormed(s) && CleanReservations(s) && |s.requests| == 1 && s.requests[0].minutes == minutes
    ensures forall i :: 0 <= i < |shifts| ==> |s.technicians| == |shifts| && s.technicians[i].availability == shifts[i]
    ensures outcome.TimedOut? || (outcome.Built? && !StrictValid(s, Plan(s.id, outcome.schedule)))
  {
    hide WellFormed, CleanReservations, FitReservations, StrictValid, LeavesBehind, Compatible, Planned, AlmostValid;
    hide TeamsCompatible, PredecessorClosed;
    var from, latest := FindBehind(shifts, minutes);
    LeftLater(shifts, minutes, from, latest);
    s := CrewSnapshot(shifts, minutes, from, latest);
    CrewSnapshotIsClean(shifts, minutes, from, latest);
    var scheduler := new DeterministicScheduler(s);
    outcome := scheduler.Build(strategy);
    if !outcome.TimedOut? {
      CrewPlanIsInvalid(shifts, minutes, from, latest, strategy, scheduler.assignments, outcome);
    }
  }

  /** Available in minutes [0, 4) and [8, 12), and in [5, 9): such a pair is not served well for four minutes. */
  lemma LateOpeningBreaksPlans()
    ensures !ServedWell([[Minutes(0, 4), Minutes(8, 12)], [Minutes(5, 9)]], 4)
  {
    LaterMemberBreaksEarlierShift();
    CrewIsServedWellExactlyWhenCompatible([[Minutes(0, 4), Minutes(8, 12)], [Minutes(5, 9)]], 4);
  }

  function FinishedStep(): Operation { Operation(1, 0, 1, OperationStatus.Completed, [], [MachineOption(1, 10)]) }

  function NextStep(): Operation { Operation(2, 1, 1, OperationStatus.Pending, [1], [MachineOption(1, 10)]) }

  function HalfDoneJob(): Job { Job(1, 0, 1, [FinishedStep(), NextStep()]) }

  /** One machine and one job whose first step is completed, without a row of the current schedule to show for it. */
  function HalfDoneSnapshot(): Snapshot {
    var machine := Machine(1, 1, MachineStatus.Idle, {1});
    Snapshot(1, 1, Window(0, 60 * MINUTE), [machine], [HalfDoneJob()], [], map[], [], None)
  }

  function NextStepRow(): Assignment {
    Assignment(External(1), Production(1, 2), Proposed, 1, 0, 10 * MINUTE, false)
  }

  function NextStepPlan(): Plan {
    Plan(1, Schedule(1, 1, Window(0, 60 * MINUTE), [NextStepRow()]))
  }

  lemma OnlyTwoSteps(j: Job, o: Operation)
    ensures HasOperation(HalfDoneSnapshot(), j, o) <==> j == HalfDoneJob() && (o == FinishedStep() || o == NextStep())
  {
    var s := HalfDoneSnapshot();
    assert s.jobs[0] in s.jobs;
    assert HalfDoneJob().operations[0] == FinishedStep() && HalfDoneJob().operations[1] == NextStep();
  }

  lemma HalfDoneIsUnique()
    ensures UniqueIds(HalfDoneSnapshot())
  {
    forall j, o, k, p | HasOperation(HalfDoneSnapshot(), j, o) && HasOperation(HalfDoneSnapshot(), k, p) && o.id == p.id
      ensures j == k && o == p
    {
      OnlyTwoSteps(j, o);
      OnlyTwoSteps(k, p);
    }
  }

  /** What the tables of that snapshot hold. */
  ghost predicate HalfDoneTables(x: Index) {
    && x.requests == map[] && x.technicians == map[]
    && 1 in x.machines && x.machines[1] == Machine(1, 1, MachineStatus.Idle, {1})
    && (forall id :: id in x.operations <==> id == 1 || id == 2)
    && x.operations[1] == (HalfDoneJob(), FinishedStep()) && x.operations[2] == (HalfDoneJob(), NextStep())
  }

  lemma HalfDoneIndex()
    ensures HalfDoneTables(IndexOf(HalfDoneSnapshot()))
  {
    hide UniqueIds;
    var s := HalfDoneSnapshot();
    HalfDoneIsUnique();
    IndexIsExact(s);
    assert s.machines[0] in s.machines;
    OnlyTwoSteps(HalfDoneJob(), FinishedStep());
    OnlyTwoSteps(HalfDoneJob(), NextStep());
    forall id | id in IndexOf(s).operations ensures id == 1 || id == 2 {
      OnlyTwoSteps(IndexOf(s).operations[id].0, IndexOf(s).operations[id].1);
    }
  }

  lemma StepsAreValid(j: Job, o: Operation)
    requires HasOperation(HalfDoneSnapshot(), j, o)
    ensures ValidOperation(HalfDoneSnapshot(), j, o)
  {
    hide IndexOf;
    HalfDoneIndex();
    OnlyTwoSteps(j, o);
    assert HalfDoneJob().operations[0] in HalfDoneJob().operations;
    forall p | p in o.predecessors ensures exists q :: q in j.operations && q.id == p && q.sequence < o.sequence {
      assert FinishedStep() in j.operations && FinishedStep().id == p;
    }
  }

  lemma HalfDoneIsWellFormed()
    ensures WellFormed(HalfDoneSnapshot()) && CleanReservations(HalfDoneSnapshot())
            && Reservations(HalfDoneSnapshot()) == []
  {
    hide UniqueIds, ValidOperation;
    HalfDoneIsUnique();
    forall j, o | HasOperation(HalfDoneSnapshot(), j, o) ensures ValidOperation(HalfDoneSnapshot(), j, o) {
      StepsAreValid(j, o);
    }
    assert Elements<Assignment>([]) == {};
  }

  lemma NextStepIsAnOption()
    ensures NextStep().options[0] in NextStep().options && 1 in NextStep().predecessors
  {
  }

  lemma NextStepRowIsFine(x: Index)
    requires HalfDoneTables(x)
    ensures var a := NextStepRow();
            KnownReferences(x, a) && EligibleMachine(x, a) && PredecessorsMet(x, {a}, a)
  {
    NextStepIsAnOption();
  }

  lemma NextStepRowObeys(x: Index, rule: Code)
    requires HalfDoneTables(x)
    ensures Obeys(x, NextStepRow(), rule)
  {
  }

  lemma NextStepIsCovered(x: Index)
    requires HalfDoneTables(x)
    ensures OperationsCovered(x, {NextStepRow()})
  {
    var produces := (a: Assignment) => a.Produces(2);
    assert NextStepRow() in {NextStepRow()} && produces(NextStepRow());
    assert OperationCovered({NextStepRow()}, NextStep());
    assert OperationCovered({NextStepRow()}, FinishedStep());
  }

  lemma NextStepClause(c: Code, x: Index)
    requires HalfDoneTables(x)
    ensures Clause(c, HalfDoneSnapshot(), x, NextStepPlan())
  {
    hide HalfDoneTables, KnownReferences, EligibleMachine, PredecessorsMet, Obeys, OperationsCovered;
    assert ActivePart(NextStepPlan().schedule.assignments) == {NextStepRow()} by {
      assert NextStepPlan().schedule.assignments[0] == NextStepRow();
    }
    NextStepRowIsFine(x);
    NextStepRowObeys(x, c);
    NextStepIsCovered(x);
    NoRequests(x);
  }

  lemma NoRequests(x: Index)
    requires HalfDoneTables(x)
    ensures x.requests == map[]
  {
  }

  /** The judge accepts the plan that runs the second step, since the first one is completed. */
  lemma JudgeAcceptsNextStep()
    ensures StrictValid(HalfDoneSnapshot(), NextStepPlan())
  {
    hide HalfDoneSnapshot, Clause, HalfDoneTables, IndexOf;
    HalfDoneIndex();
    forall c ensures Holds(c, HalfDoneSnapshot(), NextStepPlan()) {
      NextStepClause(c, IndexOf(HalfDoneSnapshot()));
    }
  }

  lemma NextStepIsOrphaned(x: Index)
    requires HalfDoneTables(x)
    ensures forall id :: Orphaned(x, {}, id) <==> id == 2
  {
    NextStepIsAnOption();
    assert Lost(x, {}, 1);
  }

  lemma OnlyOrphanIsRefused(s: Snapshot, x: Index, strategy: Strategy, reason: Refusal)
    requires HalfDoneTables(x) && Justified(s, x, strategy, [], {}, reason)
    ensures reason == NoPredecessor(2)
  {
    NextStepIsAnOption();
    NextStepIsOrphaned(x);
  }

  lemma NothingIsChosen(s: Snapshot, x: Index, strategy: Strategy, a: Assignment)
    requires HalfDoneTables(x)
    ensures !Chosen(s, x, strategy, [], a)
  {
    NextStepIsAnOption();
  }

  lemma NothingCanBeBooked(s: Snapshot, x: Index, strategy: Strategy, bookings: seq<Assignment>)
    requires HalfDoneTables(x) && Run(s, x, strategy, [], bookings)
    ensures bookings == []
  {
    hide Run, Chosen, HalfDoneTables;
    if bookings != [] {
      RunBegins(s, x, strategy, [], bookings);
      NothingIsChosen(s, x, strategy, bookings[0]);
    }
  }

  /** The planner finds the step orphaned: its answer, if any in time, is that refusal. */
  lemma PlannerRefusesNextStep(strategy: Strategy, bookings: seq<Assignment>, outcome: Outcome)
    requires Planned(HalfDoneSnapshot(), IndexOf(HalfDoneSnapshot()), strategy, bookings, outcome) && !outcome.TimedOut?
    ensures outcome == NoPlan(NoPredecessor(2))
  {
    hide HalfDoneSnapshot, IndexOf, WellFormed, CleanReservations, Admissible, OperationsDone, RequestsDone, Run;
    hide HalfDoneTables, Justified, Orphaned;
    var s := HalfDoneSnapshot();
    HalfDoneIndex();
    HalfDoneIsWellFormed();
    assert ProducedIds([]) == {};
    NothingCanBeBooked(s, IndexOf(s), strategy, bookings);
    NextStepIsOrphaned(IndexOf(s));
    assert Orphaned(IndexOf(s), ProducedIds(Reservations(s)), 2);
    if outcome.NoPlan? {
      OnlyOrphanIsRefused(s, IndexOf(s), strategy, outcome.reason);
    }
  }

  /** Planner and judge part exactly here: a strict-valid plan exists and the planner refuses. */
  method PlanHalfDoneJob(strategy: Strategy) returns (s: Snapshot, plan: Plan, outcome: Outcome)
    ensures WellFormed(s) && CleanReservations(s) && StrictValid(s, plan)
    ensures outcome.TimedOut? || outcome == NoPlan(NoPredecessor(2))
  {
    hide WellFormed, CleanReservations, StrictValid;
    s, plan := HalfDoneSnapshot(), NextStepPlan();
    HalfDoneIsWellFormed();
    JudgeAcceptsNextStep();
    var scheduler := new DeterministicScheduler(s);
    outcome := scheduler.Build(strategy);
    if !outcome.TimedOut? {
      PlannerRefusesNextStep(strategy, scheduler.assignments, outcome);
    }
  }
}
