/**
 The strict profile once more, said of the entities of the snapshot themselves: of machines,
 jobs, people and requests, of instants and of minutes. The judge's clauses say the same.
 */
module FloorLaws {
  import opened Plant
  import opened Judge

  /** The row counts: it is in the plan and not cancelled. */
  predicate Live(plan: Plan, a: Assignment) {
    a in plan.schedule.assignments && a.status != AssignmentStatus.Cancelled
  }

  /** The row is for operation `o` of job `j`. */
  predicate RowOf(s: Snapshot, a: Assignment, j: Job, o: Operation) {
    a.work.Production? && j in s.jobs && o in j.operations && o.id == a.work.operationId
  }

  /** The row is for request `r`. */
  predicate RowFor(s: Snapshot, a: Assignment, r: Request) {
    a.work.Maintenance? && r in s.requests && r.id == a.work.requestId
  }

  /** The row is on machine `m`. */
  predicate RowOn(s: Snapshot, a: Assignment, m: Machine) { m in s.machines && m.id == a.machineId }

  /** Technician `t` is sent with the row. */
  predicate Sent(s: Snapshot, a: Assignment, t: Technician) {
    a.work.Maintenance? && t in s.technicians && t.id in a.work.technicianIds
  }

  predicate Makes(a: Assignment, operationId: Id) { a.work.Production? && a.work.operationId == operationId }

  predicate Mends(a: Assignment, requestId: Id) { a.work.Maintenance? && a.work.requestId == requestId }

  /** Both rows are under way at some instant. */
  ghost predicate Meet(a: Assignment, b: Assignment) {
    exists t: Time :: UnderWay(a, t) && UnderWay(b, t)
  }

  predicate UnderWay(a: Assignment, t: Time) { a.start <= t && t < a.end }

  ghost predicate KnownToPlant(s: Snapshot, a: Assignment) {
    && (exists m :: m in s.machines && m.id == a.machineId)
    && match a.work
       case Production(jobId, operationId) =>
         exists j, o :: j in s.jobs && o in j.operations && j.id == jobId && o.id == operationId
       case Maintenance(requestId, team) =>
         && (exists r :: r in s.requests && r.id == requestId)
         && (forall k :: k in team ==> exists t :: t in s.technicians && t.id == k)
       case BlockedTime => true
  }

  ghost predicate References(s: Snapshot, plan: Plan) {
    && plan.snapshotId == s.id && plan.schedule.factoryId == s.factoryId
    && forall a :: Live(plan, a) ==> KnownToPlant(s, a)
  }

  ghost predicate Windows(s: Snapshot, plan: Plan) {
    && plan.schedule.window == s.window
    && forall a :: Live(plan, a) ==> s.window.start <= a.start && a.end <= s.window.end
  }

  /** An operation runs on a machine among its options that has the capability and is in service. */
  ghost predicate Machines(s: Snapshot, plan: Plan) {
    forall a :: Live(plan, a) ==> RightMachine(s, a)
  }

  ghost predicate RightMachine(s: Snapshot, a: Assignment) {
    && (forall m, j, o :: RowOn(s, a, m) && RowOf(s, a, j, o) ==> RunsOn(o, m))
    && (forall r :: RowFor(s, a, r) ==> r.machineId == a.machineId)
  }

  predicate RunsOn(o: Operation, m: Machine) {
    && (exists option :: option in o.options && option.machineId == m.id)
    && o.operationType in m.operationTypes
    && m.status in {Idle, MachineStatus.Running, Warning, MachineStatus.Maintenance}
  }

  ghost predicate MachinesApart(plan: Plan) {
    forall a, b :: Live(plan, a) && Live(plan, b) && a != b && a.machineId == b.machineId ==> !Meet(a, b)
  }

  /** Every predecessor is completed, or a row of it ends in time. */
  ghost predicate Order(s: Snapshot, plan: Plan) {
    forall a, j, o, p :: Live(plan, a) && RowOf(s, a, j, o) && p in o.predecessors ==> DoneBefore(s, plan, p, a.start)
  }

  ghost predicate DoneBefore(s: Snapshot, plan: Plan, p: Id, start: Time) {
    || (exists j, o :: j in s.jobs && o in j.operations && o.id == p && o.status == OperationStatus.Completed)
    || (exists b :: Live(plan, b) && Makes(b, p) && b.end <= start)
  }

  /** The technician works at all and has one window for the whole time. */
  predicate AtWork(t: Technician, start: Time, end: Time) {
    && t.status in {Available, TechnicianStatus.Assigned}
    && exists w :: w in t.availability && w.start <= start && end <= w.end
  }

  ghost predicate People(s: Snapshot, plan: Plan) {
    && (forall a, t :: Live(plan, a) && Sent(s, a, t) ==> AtWork(t, a.start, a.end))
    && (forall a, b, t :: Live(plan, a) && Live(plan, b) && a != b && Sent(s, a, t) && Sent(s, b, t) ==> !Meet(a, b))
  }

  /** The technician has a skill of that name, at the level asked for, for the family and the action. */
  predicate Able(t: Technician, name: Id, level: int, family: Id, action: Id) {
    exists skill :: skill in t.skills
      && skill.skillId == name && skill.level >= level && family in skill.families && action in skill.actions
  }

  ghost predicate Skills(s: Snapshot, plan: Plan) {
    forall a, r, m, name :: Live(plan, a) && RowFor(s, a, r) && RowOn(s, a, m) && name in r.requiredSkills ==>
      exists t :: Sent(s, a, t) && Able(t, name, r.minimumLevel, m.family, r.actionType)
  }

  /** What a rule asks of a row for operation `o` of job `j`. */
  predicate OperationRule(c: Code, a: Assignment, j: Job, o: Operation) {
    match c
    case BlockedOperation => o.status != OperationStatus.Blocked
    case JobRelease => j.releaseAt <= a.start
    case OperationDuration =>
      a.status == AssignmentStatus.Completed
      || forall option :: option in o.options && option.machineId == a.machineId ==>
           a.end - a.start == option.minutes * 60_000_000
    case _ => true
  }

  /** What a rule asks of a row for request `r`, unless the row is completed. */
  predicate RequestRule(c: Code, a: Assignment, r: Request) {
    match c
    case MaintenanceDuration => a.end - a.start == r.minutes * 60_000_000
    case MaintenanceStartWindow => r.earliestStart <= a.start && (r.latestStart.None? || a.start <= r.latestStart.value)
    case MaintenanceStatus => r.status in {Open, RequestStatus.Scheduled, InProgress}
    case _ => true
  }

  ghost predicate KeepsRule(c: Code, s: Snapshot, a: Assignment) {
    && (forall j, o :: RowOf(s, a, j, o) ==> OperationRule(c, a, j, o))
    && (a.status != AssignmentStatus.Completed ==> forall r :: RowFor(s, a, r) ==> RequestRule(c, a, r))
  }

  ghost predicate Rules(c: Code, s: Snapshot, plan: Plan) {
    forall a :: Live(plan, a) ==> KeepsRule(c, s, a)
  }

  /** At most one row makes the operation, and one does unless it is completed. */
  ghost predicate MadeOnce(plan: Plan, o: Operation) {
    && (forall a, b :: Live(plan, a) && Live(plan, b) && Makes(a, o.id) && Makes(b, o.id) ==> a == b)
    && (o.status == OperationStatus.Completed || exists a :: Live(plan, a) && Makes(a, o.id))
  }

  /** At most one row serves the request, and one does if it is mandatory and still open. */
  ghost predicate MendedOnce(plan: Plan, r: Request) {
    && (forall a, b :: Live(plan, a) && Live(plan, b) && Mends(a, r.id) && Mends(b, r.id) ==> a == b)
    && (r.mandatory && r.status in {Open, RequestStatus.Scheduled, InProgress} ==>
          exists a :: Live(plan, a) && Mends(a, r.id))
  }

  ghost predicate OperationsOnce(s: Snapshot, plan: Plan) {
    forall j, o :: j in s.jobs && o in j.operations ==> MadeOnce(plan, o)
  }

  ghost predicate RequestsOnce(s: Snapshot, plan: Plan) {
    forall r :: r in s.requests ==> MendedOnce(plan, r)
  }

  /** The planner may move or drop the row. */
  predicate Free(a: Assignment) {
    !a.locked && a.status in {Proposed, Committed, AssignmentStatus.Cancelled}
  }

  /** Locked, running and completed rows of the current schedule stand as they are. */
  ghost predicate Retention(s: Snapshot, plan: Plan) {
    s.current.Some? ==> forall a :: a in s.current.value.assignments ==> Free(a) || Live(plan, a)
  }

  /** The demand that the violation code `c` stands for. */
  ghost predicate Demand(c: Code, s: Snapshot, plan: Plan) {
    match c
    case UnknownReference => References(s, plan)
    case PlanningWindow => Windows(s, plan)
    case MachineEligibility => Machines(s, plan)
    case MachineOverlap => MachinesApart(plan)
    case Precedence => Order(s, plan)
    case TechnicianAvailability => People(s, plan)
    case SkillAdequacy => Skills(s, plan)
    case OperationCoverage => OperationsOnce(s, plan)
    case MaintenanceCoverage => RequestsOnce(s, plan)
    case ImmutableReservation => Retention(s, plan)
    case _ => Rules(c, s, plan)
  }

  // The judge's clauses say the same ------------------------------------------------------------

  /** The tables of the judge are the entities of the snapshot by name. */
  ghost predicate Tables(s: Snapshot, x: Index) {
    && (forall m :: m in s.machines ==> m.id in x.machines && x.machines[m.id] == m)
    && (forall id :: id in x.machines ==> x.machines[id] in s.machines && x.machines[id].id == id)
    && (forall t :: t in s.technicians ==> t.id in x.technicians && x.technicians[t.id] == t)
    && (forall id :: id in x.technicians ==> x.technicians[id] in s.technicians && x.technicians[id].id == id)
    && (forall r :: r in s.requests ==> r.id in x.requests && x.requests[r.id] == r)
    && (forall id :: id in x.requests ==> x.requests[id] in s.requests && x.requests[id].id == id)
    && (forall j, o :: j in s.jobs && o in j.operations ==> o.id in x.operations && x.operations[o.id] == (j, o))
    && (forall id :: id in x.operations ==>
          x.operations[id].0 in s.jobs && x.operations[id].1 in x.operations[id].0.operations
          && x.operations[id].1.id == id)
  }

  lemma TablesOfSnapshot(s: Snapshot)
    requires UniqueIds(s)
    ensures Tables(s, IndexOf(s))
  {
    IndexIsExact(s);
    forall j, o | j in s.jobs && o in j.operations
      ensures o.id in IndexOf(s).operations && IndexOf(s).operations[o.id] == (j, o)
    {
      assert HasOperation(s, j, o);
    }
  }

  lemma LiveIsActive(plan: Plan, a: Assignment)
    ensures Live(plan, a) <==> a in ActivePart(plan.schedule.assignments)
  {
  }

  /** Rows that last some time meet at an instant exactly when their intervals overlap. */
  lemma MeetMeansOverlap(a: Assignment, b: Assignment)
    requires a.start < a.end && b.start < b.end
    ensures Meet(a, b) <==> !Disjoint(a, b)
  {
    if !Disjoint(a, b) {
      var t := if a.start < b.start then b.start else a.start;
      assert UnderWay(a, t) && UnderWay(b, t);
    }
  }

  ghost predicate RowsLast(plan: Plan) {
    forall a :: a in plan.schedule.assignments ==> a.start < a.end
  }

  lemma ReferencesAgree(s: Snapshot, x: Index, plan: Plan)
    requires Tables(s, x)
    ensures References(s, plan) <==> Clause(UnknownReference, s, x, plan)
  {
    forall a ensures KnownToPlant(s, a) <==> KnownReferences(x, a) {
      if KnownReferences(x, a) && a.work.Production? {
        var (j, o) := x.operations[a.work.operationId];
        assert j in s.jobs && o in j.operations;
      }
      if KnownReferences(x, a) && a.work.Maintenance? {
        forall k | k in a.work.technicianIds ensures exists t :: t in s.technicians && t.id == k {
          assert x.technicians[k] in s.technicians;
        }
      }
    }
    forall a ensures Live(plan, a) <==> a in ActivePart(plan.schedule.assignments) {}
  }

  lemma WindowsAgree(s: Snapshot, x: Index, plan: Plan)
    ensures Windows(s, plan) <==> Clause(PlanningWindow, s, x, plan)
  {
    forall a ensures Live(plan, a) <==> a in ActivePart(plan.schedule.assignments) {}
  }

  lemma MachineAgrees(s: Snapshot, x: Index, a: Assignment)
    requires Tables(s, x)
    ensures EligibleMachine(x, a) <==> RightMachine(s, a)
  {
    if EligibleMachine(x, a) {
      forall m, j, o | RowOn(s, a, m) && RowOf(s, a, j, o) ensures RunsOn(o, m) {
        assert x.machines[m.id] == m && x.operations[o.id] == (j, o);
      }
    }
    if RightMachine(s, a) && a.work.Production? && a.machineId in x.machines && a.work.operationId in x.operations {
      var (m, j, o) := (x.machines[a.machineId], x.operations[a.work.operationId].0,
                        x.operations[a.work.operationId].1);
      assert RowOn(s, a, m) && RowOf(s, a, j, o);
    }
    if RightMachine(s, a) && a.work.Maintenance? && a.work.requestId in x.requests {
      assert RowFor(s, a, x.requests[a.work.requestId]);
    }
  }

  lemma MachinesAgree(s: Snapshot, x: Index, plan: Plan)
    requires Tables(s, x)
    ensures Machines(s, plan) <==> Clause(MachineEligibility, s, x, plan)
  {
    hide EligibleMachine, RightMachine, Tables;
    forall a ensures Live(plan, a) <==> a in ActivePart(plan.schedule.assignments) {}
    forall a ensures EligibleMachine(x, a) <==> RightMachine(s, a) { MachineAgrees(s, x, a); }
  }

  lemma OverlapsAgree(s: Snapshot, x: Index, plan: Plan)
    requires RowsLast(plan)
    ensures MachinesApart(plan) <==> Clause(MachineOverlap, s, x, plan)
  {
    hide Disjoint, Meet;
    forall a, b | Live(plan, a) && Live(plan, b) ensures Meet(a, b) <==> !Disjoint(a, b) { MeetMeansOverlap(a, b); }
    forall a ensures Live(plan, a) <==> a in ActivePart(plan.schedule.assignments) {}
  }

  lemma DoneAgrees(s: Snapshot, x: Index, plan: Plan, p: Id, a: Assignment)
    requires Tables(s, x)
    ensures DoneBefore(s, plan, p, a.start) <==>
              (p in x.operations && x.operations[p].1.status.Completed?)
              || Finishes(ActivePart(plan.schedule.assignments), p, a)
  {
    forall b ensures Live(plan, b) <==> b in ActivePart(plan.schedule.assignments) {}
    if p in x.operations && x.operations[p].1.status.Completed? {
      assert x.operations[p].0 in s.jobs && x.operations[p].1 in x.operations[p].0.operations;
    }
    if Finishes(ActivePart(plan.schedule.assignments), p, a) {
      var b :| b in ActivePart(plan.schedule.assignments) && b.Produces(p) && b.end <= a.start;
      assert Live(plan, b) && Makes(b, p);
    }
    if b :| Live(plan, b) && Makes(b, p) && b.end <= a.start {
      assert b in ActivePart(plan.schedule.assignments) && b.Produces(p);
    }
  }

  lemma OrderAgrees(s: Snapshot, x: Index, plan: Plan)
    requires Tables(s, x)
    ensures Order(s, plan) <==> Clause(Precedence, s, x, plan)
  {
    hide DoneBefore, Finishes;
    forall a ensures Live(plan, a) <==> a in ActivePart(plan.schedule.assignments) {}
    forall a: Assignment, p
      ensures DoneBefore(s, plan, p, a.start) <==>
        (p in x.operations && x.operations[p].1.status.Completed?)
        || Finishes(ActivePart(plan.schedule.assignments), p, a)
    {
      DoneAgrees(s, x, plan, p, a);
    }
    if Clause(Precedence, s, x, plan) {
      forall a, j, o, p | Live(plan, a) && RowOf(s, a, j, o) && p in o.predecessors
        ensures DoneBefore(s, plan, p, a.start)
      {
        assert PredecessorsMet(x, ActivePart(plan.schedule.assignments), a);
        assert x.operations[o.id] == (j, o);
      }
    }
    if Order(s, plan) {
      forall a | a in ActivePart(plan.schedule.assignments)
        ensures PredecessorsMet(x, ActivePart(plan.schedule.assignments), a)
      {
        if a.work.Production? && a.work.operationId in x.operations {
          var (j, o) := x.operations[a.work.operationId];
          assert Live(plan, a) && RowOf(s, a, j, o);
        }
      }
    }
  }

  lemma PresenceAgrees(t: Technician, a: Assignment)
    ensures Present(t, a) <==> AtWork(t, a.start, a.end)
  {
  }

  lemma PeopleAgree(s: Snapshot, x: Index, plan: Plan)
    requires Tables(s, x) && RowsLast(plan)
    ensures People(s, plan) <==> Clause(TechnicianAvailability, s, x, plan)
  {
    hide Disjoint, Meet, Present, AtWork;
    forall a, b | Live(plan, a) && Live(plan, b) ensures Meet(a, b) <==> !Disjoint(a, b) { MeetMeansOverlap(a, b); }
    forall a ensures Live(plan, a) <==> a in ActivePart(plan.schedule.assignments) {}
    forall t, a ensures Present(t, a) <==> AtWork(t, a.start, a.end) { PresenceAgrees(t, a); }
    var active := ActivePart(plan.schedule.assignments);
    if People(s, plan) {
      forall a, k | a in active && k in a.Team() && k in x.technicians ensures Present(x.technicians[k], a) {
        assert Live(plan, a) && Sent(s, a, x.technicians[k]);
      }
      forall a, b, k | a in active && b in active && a != b && k in a.Team() && k in b.Team() && k in x.technicians
        ensures Disjoint(a, b)
      {
        assert Sent(s, a, x.technicians[k]) && Sent(s, b, x.technicians[k]) && Live(plan, a) && Live(plan, b);
      }
    }
    if AllAttended(x, active) && TechniciansExclusive(x, active) {
      forall a, t | Live(plan, a) && Sent(s, a, t)
        ensures AtWork(t, a.start, a.end)
      {
        assert Attended(x, a) && t.id in a.Team() && x.technicians[t.id] == t;
      }
      forall a, b, t | Live(plan, a) && Live(plan, b) && a != b && Sent(s, a, t) && Sent(s, b, t)
        ensures !Meet(a, b)
      {
        assert t.id in a.Team() && t.id in b.Team() && t.id in x.technicians;
      }
    }
  }

  lemma AbilityAgrees(t: Technician, name: Id, r: Request, family: Id)
    ensures Masters(t, name, r, family) <==> Able(t, name, r.minimumLevel, family, r.actionType)
  {
  }

  lemma SkillsAgree(s: Snapshot, x: Index, plan: Plan)
    requires Tables(s, x)
    ensures Skills(s, plan) <==> Clause(SkillAdequacy, s, x, plan)
  {
    hide Masters, Able;
    forall a ensures Live(plan, a) <==> a in ActivePart(plan.schedule.assignments) {}
    forall t, name, r, family
      ensures Masters(t, name, r, family) <==> Able(t, name, r.minimumLevel, family, r.actionType)
    {
      AbilityAgrees(t, name, r, family);
    }
    if Skills(s, plan) {
      forall a, name | a in ActivePart(plan.schedule.assignments) && a.work.Maintenance?
        && a.work.requestId in x.requests && a.machineId in x.machines
        && name in x.requests[a.work.requestId].requiredSkills
        ensures Adequate(x, a.work.technicianIds, x.requests[a.work.requestId], x.machines[a.machineId].family, name)
      {
        var r, m := x.requests[a.work.requestId], x.machines[a.machineId];
        assert Live(plan, a) && RowFor(s, a, r) && RowOn(s, a, m);
        var t :| Sent(s, a, t) && Able(t, name, r.minimumLevel, m.family, r.actionType);
        assert t.id in x.technicians && x.technicians[t.id] == t;
      }
    }
    if AllSkilled(x, ActivePart(plan.schedule.assignments)) {
      forall a, r, m, name | Live(plan, a) && RowFor(s, a, r) && RowOn(s, a, m) && name in r.requiredSkills
        ensures exists t :: Sent(s, a, t) && Able(t, name, r.minimumLevel, m.family, r.actionType)
      {
        assert Skilled(x, a) && x.requests[r.id] == r && x.machines[m.id] == m;
        assert Adequate(x, a.work.technicianIds, r, m.family, name);
        var k :| k in a.work.technicianIds && k in x.technicians && Masters(x.technicians[k], name, r, m.family);
        assert Sent(s, a, x.technicians[k]);
      }
    }
  }

  lemma RuleAgrees(c: Code, s: Snapshot, x: Index, a: Assignment)
    requires Tables(s, x) && IsRule(c)
    ensures Obeys(x, a, c) <==> KeepsRule(c, s, a)
  {
    if Obeys(x, a, c) {
      forall j, o | RowOf(s, a, j, o) ensures OperationRule(c, a, j, o) { assert x.operations[o.id] == (j, o); }
      forall r | RowFor(s, a, r) && a.status != AssignmentStatus.Completed ensures RequestRule(c, a, r) {
        assert x.requests[r.id] == r;
      }
    }
    if KeepsRule(c, s, a) && a.work.Production? && a.work.operationId in x.operations {
      assert RowOf(s, a, x.operations[a.work.operationId].0, x.operations[a.work.operationId].1);
    }
    if KeepsRule(c, s, a) && a.work.Maintenance? && a.work.requestId in x.requests {
      assert RowFor(s, a, x.requests[a.work.requestId]);
    }
  }

  lemma RulesAgree(c: Code, s: Snapshot, x: Index, plan: Plan)
    requires Tables(s, x) && IsRule(c)
    ensures Rules(c, s, plan) <==> Clause(c, s, x, plan)
  {
    hide Obeys, KeepsRule, Tables;
    forall a ensures Live(plan, a) <==> a in ActivePart(plan.schedule.assignments) {}
    forall a ensures Obeys(x, a, c) <==> KeepsRule(c, s, a) { RuleAgrees(c, s, x, a); }
  }

  lemma OperationAgrees(plan: Plan, o: Operation)
    ensures OperationCovered(ActivePart(plan.schedule.assignments), o) <==> MadeOnce(plan, o)
  {
    var active := ActivePart(plan.schedule.assignments);
    var produces := (a: Assignment) => a.Produces(o.id);
    forall a ensures Live(plan, a) <==> a in active {}
    assert forall a :: produces(a) <==> Makes(a, o.id);
    assert OperationCovered(active, o) <==>
      AtMostOne(active, produces) && (o.status.Completed? || AtLeastOne(active, produces));
    if a :| Live(plan, a) && Makes(a, o.id) { assert a in active && produces(a); }
  }

  lemma RequestAgrees(plan: Plan, r: Request)
    ensures RequestCovered(ActivePart(plan.schedule.assignments), r) <==> MendedOnce(plan, r)
  {
    var active := ActivePart(plan.schedule.assignments);
    var maintains := (a: Assignment) => a.Maintains(r.id);
    forall a ensures Live(plan, a) <==> a in active {}
    assert forall a :: maintains(a) <==> Mends(a, r.id);
    assert RequestCovered(active, r) <==>
      AtMostOne(active, maintains) && (r.mandatory && r.Active() ==> AtLeastOne(active, maintains));
    if a :| Live(plan, a) && Mends(a, r.id) { assert a in active && maintains(a); }
  }

  lemma CoverageAgrees(s: Snapshot, x: Index, plan: Plan)
    requires Tables(s, x)
    ensures OperationsOnce(s, plan) <==> Clause(OperationCoverage, s, x, plan)
    ensures RequestsOnce(s, plan) <==> Clause(MaintenanceCoverage, s, x, plan)
  {
    hide OperationCovered, RequestCovered, ActivePart, MadeOnce, MendedOnce;
    forall o ensures OperationCovered(ActivePart(plan.schedule.assignments), o) <==> MadeOnce(plan, o) {
      OperationAgrees(plan, o);
    }
    forall r ensures RequestCovered(ActivePart(plan.schedule.assignments), r) <==> MendedOnce(plan, r) {
      RequestAgrees(plan, r);
    }
    if OperationsOnce(s, plan) {
      forall id | id in x.operations ensures MadeOnce(plan, x.operations[id].1) {
        assert x.operations[id].0 in s.jobs && x.operations[id].1 in x.operations[id].0.operations;
      }
    }
    if OperationsCovered(x, ActivePart(plan.schedule.assignments)) {
      forall j, o | j in s.jobs && o in j.operations ensures MadeOnce(plan, o) {
        assert o.id in x.operations && x.operations[o.id].1 == o;
      }
    }
  }

  lemma RetentionAgrees(s: Snapshot, x: Index, plan: Plan)
    ensures Retention(s, plan) <==> Clause(ImmutableReservation, s, x, plan)
  {
    forall a ensures Live(plan, a) <==> a in ActivePart(plan.schedule.assignments) {}
  }

  /** A clause of the judge holds exactly when its demand on the plant is met. */
  lemma ClauseIsDemand(c: Code, s: Snapshot, plan: Plan)
    requires UniqueIds(s) && RowsLast(plan)
    ensures Holds(c, s, plan) <==> Demand(c, s, plan)
  {
    hide Clause, IndexOf, UniqueIds, References, Windows, Machines, MachinesApart, Order, People, Skills;
    hide OperationsOnce;
    hide RequestsOnce, Retention, Rules, Tables, RowsLast;
    var x := IndexOf(s);
    TablesOfSnapshot(s);
    match c
    case UnknownReference => ReferencesAgree(s, x, plan);
    case PlanningWindow => WindowsAgree(s, x, plan);
    case MachineEligibility => MachinesAgree(s, x, plan);
    case MachineOverlap => OverlapsAgree(s, x, plan);
    case Precedence => OrderAgrees(s, x, plan);
    case TechnicianAvailability => PeopleAgree(s, x, plan);
    case SkillAdequacy => SkillsAgree(s, x, plan);
    case OperationCoverage => CoverageAgrees(s, x, plan);
    case MaintenanceCoverage => CoverageAgrees(s, x, plan);
    case ImmutableReservation => RetentionAgrees(s, x, plan);
    case _ => RulesAgree(c, s, x, plan);
  }

  /** Strict validity is feasibility on the floor. */
  lemma StrictValidIsFeasible(s: Snapshot, plan: Plan)
    requires UniqueIds(s) && RowsLast(plan)
    ensures StrictValid(s, plan) <==> forall c :: Demand(c, s, plan)
  {
    hide Holds, Demand;
    forall c ensures Holds(c, s, plan) <==> Demand(c, s, plan) { ClauseIsDemand(c, s, plan); }
  }
}
