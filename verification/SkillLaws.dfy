/** What skill levels mean for teams and plans: who is able, and what a higher demand takes away. */
module SkillLaws {
  import opened Plant
  import opened Judge
  import opened Teams
  import opened FloorLaws
  import opened Collections

  predicate Works(t: Technician) { t.status == Available || t.status == TechnicianStatus.Assigned }

  /** Some member has each required skill at the level asked for, for the family and the action. */
  ghost predicate AbleCrew(r: Request, family: Id, crew: set<Technician>) {
    forall name :: name in r.requiredSkills ==>
      exists t :: t in crew && Able(t, name, r.minimumLevel, family, r.actionType)
  }

  /** A crew covers exactly when it is made of working technicians who between them are able. */
  lemma CoverIsAbility(s: Snapshot, r: Request, family: Id, crew: set<Technician>)
    ensures CoveringCrew(s, r, family, crew) <==>
              (forall t :: t in crew ==> t in s.technicians && Works(t)) && AbleCrew(r, family, crew)
  {
    hide Masters, Able;
    forall t, name ensures Masters(t, name, r, family) <==> Able(t, name, r.minimumLevel, family, r.actionType) {
      AbilityAgrees(t, name, r, family);
    }
    forall t | t in s.technicians ensures t in OnDutyTechnicians(s) <==> Works(t) {}
  }

  /** A listed team has each required skill at its level, and only working members. */
  lemma ListedTeamIsAble(s: Snapshot, r: Request, family: Id, team: seq<Id>, name: Id) returns (t: Technician)
    requires MinimalTeam(s, r, family, team) && name in r.requiredSkills
    ensures t in s.technicians && t.id in team && Works(t) && Able(t, name, r.minimumLevel, family, r.actionType)
  {
    CoverIsAbility(s, r, family, Crew(s, team));
    t :| t in Crew(s, team) && Able(t, name, r.minimumLevel, family, r.actionType);
  }

  /** A team that lacks a required skill at its level is not listed. */
  lemma UnableTeamIsNotListed(s: Snapshot, r: Request, family: Id, team: seq<Id>, teams: seq<seq<Id>>, name: Id)
    requires AllMinimalTeams(s, r, family, teams) && name in r.requiredSkills
    requires forall t :: t in s.technicians && t.id in team ==> !Able(t, name, r.minimumLevel, family, r.actionType)
    ensures team !in teams
  {
    if team in teams {
      var t := ListedTeamIsAble(s, r, family, team, name);
      assert false;
    }
  }

  /** Nobody is listed exactly when the working technicians together are unable. */
  lemma NoTeamExactlyWhenUnable(s: Snapshot, r: Request, family: Id, teams: seq<seq<Id>>)
    requires AllMinimalTeams(s, r, family, teams)
    ensures teams == [] <==> !AbleCrew(r, family, set t | t in s.technicians && Works(t))
  {
    var all := set t | t in s.technicians && Works(t);
    CoverIsAbility(s, r, family, all);
    if AbleCrew(r, family, all) { assert CoveringCrew(s, r, family, all); }
    if teams != [] {
      assert teams[0] in teams && CoveringCrew(s, r, family, Crew(s, teams[0]));
      CoverIsAbility(s, r, family, Crew(s, teams[0]));
      forall name | name in r.requiredSkills
        ensures exists t :: t in all && Able(t, name, r.minimumLevel, family, r.actionType)
      {
        var t :| t in Crew(s, teams[0]) && Able(t, name, r.minimumLevel, family, r.actionType);
        assert t in all;
      }
    }
  }

  // Raising the level ---------------------------------------------------------------------------

  /** The snapshot with the minimum level of request `k` raised. */
  function Raised(s: Snapshot, k: nat, level: int): Snapshot
    requires k < |s.requests|
  {
    s.(requests := s.requests[k := s.requests[k].(minimumLevel := level)])
  }

  lemma RaisedAbility(t: Technician, name: Id, low: int, high: int, family: Id, action: Id)
    requires low <= high && Able(t, name, high, family, action)
    ensures Able(t, name, low, family, action)
  {
  }

  /** A higher level only removes crews. */
  lemma RaisingRemovesCrews(s: Snapshot, r: Request, family: Id, level: int, crew: set<Technician>)
    requires r.minimumLevel <= level && CoveringCrew(s, r.(minimumLevel := level), family, crew)
    ensures CoveringCrew(s, r, family, crew)
  {
    CoverIsAbility(s, r, family, crew);
    CoverIsAbility(s, r.(minimumLevel := level), family, crew);
    forall name | name in r.requiredSkills
      ensures exists t :: t in crew && Able(t, name, r.minimumLevel, family, r.actionType)
    {
      var t :| t in crew && Able(t, name, level, family, r.actionType);
      RaisedAbility(t, name, r.minimumLevel, level, family, r.actionType);
    }
  }

  /** The request of the raised snapshot that request `r` became. */
  function AfterRaise(s: Snapshot, k: nat, level: int, r: Request): Request
    requires k < |s.requests|
  {
    if r == s.requests[k] then r.(minimumLevel := level) else r
  }

  lemma RaisedIsUnique(s: Snapshot, k: nat, level: int)
    requires k < |s.requests| && UniqueIds(s)
    ensures UniqueIds(Raised(s, k, level))
  {
    var t := Raised(s, k, level);
    forall i, j | 0 <= i < j < |t.requests| ensures t.requests[i].id != t.requests[j].id {
      assert s.requests[i].id != s.requests[j].id;
    }
    assert t.machines == s.machines && t.technicians == s.technicians && t.jobs == s.jobs;
    forall j, o ensures HasOperation(t, j, o) <==> HasOperation(s, j, o) {}
  }

  lemma RaisedRequests(s: Snapshot, k: nat, level: int)
    requires k < |s.requests|
    ensures forall r :: r in s.requests ==> AfterRaise(s, k, level, r) in Raised(s, k, level).requests
    ensures forall q :: q in Raised(s, k, level).requests ==> exists r :: r in s.requests && r.id == q.id
  {
    var t := Raised(s, k, level);
    forall r | r in s.requests ensures AfterRaise(s, k, level, r) in t.requests {
      var i := if r == s.requests[k] then k else PositionOf(s.requests, r);
      assert t.requests[i] == AfterRaise(s, k, level, r);
    }
    forall q | q in t.requests ensures exists r :: r in s.requests && r.id == q.id {
      var i :| 0 <= i < |t.requests| && t.requests[i] == q;
      assert s.requests[i] in s.requests && s.requests[i].id == q.id;
    }
  }

  ghost function PositionOf(requests: seq<Request>, r: Request): (i: nat)
    requires r in requests
    ensures i < |requests| && requests[i] == r
  {
    var i :| 0 <= i < |requests| && requests[i] == r;
    i
  }

  lemma SameRows(s: Snapshot, k: nat, level: int)
    requires k < |s.requests|
    ensures forall a, r :: RowFor(s, a, r) ==> RowFor(Raised(s, k, level), a, AfterRaise(s, k, level, r))
    ensures forall a, m :: RowOn(s, a, m) <==> RowOn(Raised(s, k, level), a, m)
    ensures forall a, u :: Sent(s, a, u) <==> Sent(Raised(s, k, level), a, u)
    ensures forall a, j, o :: RowOf(s, a, j, o) <==> RowOf(Raised(s, k, level), a, j, o)
  {
    RaisedRequests(s, k, level);
    hide Raised;
    assert Raised(s, k, level).machines == s.machines && Raised(s, k, level).technicians == s.technicians
           && Raised(s, k, level).jobs == s.jobs by { RaisedFields(s, k, level); }
  }

  lemma RaisedFields(s: Snapshot, k: nat, level: int)
    requires k < |s.requests|
    ensures var t := Raised(s, k, level); s.(requests := t.requests) == t
  {
  }

  lemma RaisedReferences(s: Snapshot, k: nat, level: int, plan: Plan)
    requires k < |s.requests| && References(Raised(s, k, level), plan)
    ensures References(s, plan)
  {
    RaisedRequests(s, k, level);
    RaisedFields(s, k, level);
    hide Raised;
    forall a | Live(plan, a) ensures KnownToPlant(s, a) { assert KnownToPlant(Raised(s, k, level), a); }
  }

  lemma RaisedMachines(s: Snapshot, k: nat, level: int, plan: Plan)
    requires k < |s.requests| && Machines(Raised(s, k, level), plan)
    ensures Machines(s, plan)
  {
    SameRows(s, k, level);
    hide Raised, RowOn, RowOf, RowFor, RunsOn;
    forall a | Live(plan, a) ensures RightMachine(s, a) {
      assert RightMachine(Raised(s, k, level), a);
      forall r | RowFor(s, a, r) ensures r.machineId == a.machineId {
        assert AfterRaise(s, k, level, r).machineId == r.machineId;
      }
    }
  }

  lemma RaisedCoverage(s: Snapshot, k: nat, level: int, plan: Plan)
    requires k < |s.requests| && RequestsOnce(Raised(s, k, level), plan)
    ensures RequestsOnce(s, plan)
  {
    RaisedRequests(s, k, level);
    hide Raised;
    forall r | r in s.requests ensures MendedOnce(plan, r) { assert MendedOnce(plan, AfterRaise(s, k, level, r)); }
  }

  lemma RaisedRules(c: Code, s: Snapshot, k: nat, level: int, plan: Plan)
    requires k < |s.requests| && Rules(c, Raised(s, k, level), plan)
    ensures Rules(c, s, plan)
  {
    SameRows(s, k, level);
    hide Raised, RowOn, RowOf, RowFor, OperationRule;
    forall a | Live(plan, a) ensures KeepsRule(c, s, a) {
      assert KeepsRule(c, Raised(s, k, level), a);
      forall r | RowFor(s, a, r) && a.status != AssignmentStatus.Completed ensures RequestRule(c, a, r) {
        assert RequestRule(c, a, AfterRaise(s, k, level, r));
      }
    }
  }

  lemma RaisedOrder(s: Snapshot, k: nat, level: int, plan: Plan)
    requires k < |s.requests| && Order(Raised(s, k, level), plan)
    ensures Order(s, plan)
  {
    SameRows(s, k, level);
    RaisedFields(s, k, level);
    hide Raised, RowOn, RowOf, RowFor;
    forall p, start ensures DoneBefore(Raised(s, k, level), plan, p, start) ==> DoneBefore(s, plan, p, start) {}
  }

  lemma RaisedPeople(s: Snapshot, k: nat, level: int, plan: Plan)
    requires k < |s.requests| && People(Raised(s, k, level), plan)
    ensures People(s, plan)
  {
    SameRows(s, k, level);
    hide Raised, Sent, AtWork, Meet;
  }

  /** Each demand of the raised snapshot includes that of the snapshot. */
  lemma RaisedDemand(c: Code, s: Snapshot, k: nat, level: int, plan: Plan)
    requires k < |s.requests| && s.requests[k].minimumLevel <= level
    requires Demand(c, Raised(s, k, level), plan)
    ensures Demand(c, s, plan)
  {
    hide References, Machines, Order, People, Skills, RequestsOnce, Rules, MadeOnce, Live;
    RaisedFields(s, k, level);
    match c
    case UnknownReference => RaisedReferences(s, k, level, plan);
    case PlanningWindow =>
    case MachineEligibility => RaisedMachines(s, k, level, plan);
    case MachineOverlap =>
    case Precedence => RaisedOrder(s, k, level, plan);
    case TechnicianAvailability => RaisedPeople(s, k, level, plan);
    case SkillAdequacy => RaisedSkills(s, k, level, plan);
    case OperationCoverage =>
    case MaintenanceCoverage => RaisedCoverage(s, k, level, plan);
    case ImmutableReservation =>
    case _ => RaisedRules(c, s, k, level, plan);
  }

  lemma RaisedSkills(s: Snapshot, k: nat, level: int, plan: Plan)
    requires k < |s.requests| && s.requests[k].minimumLevel <= level
    requires Skills(Raised(s, k, level), plan)
    ensures Skills(s, plan)
  {
    hide Able, RowFor, RowOn, Sent, Raised;
    var t := Raised(s, k, level);
    SameRows(s, k, level);
    forall a, r, m, name | Live(plan, a) && RowFor(s, a, r) && RowOn(s, a, m) && name in r.requiredSkills
      ensures exists u :: Sent(s, a, u) && Able(u, name, r.minimumLevel, m.family, r.actionType)
    {
      var q := AfterRaise(s, k, level, r);
      assert RowFor(t, a, q) && RowOn(t, a, m);
      var u :| Sent(t, a, u) && Able(u, name, q.minimumLevel, m.family, q.actionType);
      RaisedAbility(u, name, r.minimumLevel, q.minimumLevel, m.family, r.actionType);
      assert Sent(s, a, u);
    }
  }

  /** A higher level only removes strict-valid plans. */
  lemma RaisingRemovesPlans(s: Snapshot, k: nat, level: int, plan: Plan)
    requires k < |s.requests| && s.requests[k].minimumLevel <= level && UniqueIds(s) && RowsLast(plan)
    requires StrictValid(Raised(s, k, level), plan)
    ensures StrictValid(s, plan)
  {
    hide Demand, StrictValid, UniqueIds;
    RaisedIsUnique(s, k, level);
    StrictValidIsFeasible(s, plan);
    StrictValidIsFeasible(Raised(s, k, level), plan);
    forall c ensures Demand(c, s, plan) { RaisedDemand(c, s, k, level, plan); }
  }

  // One request for level 4 ---------------------------------------------------------------------

  function Novice(level: int): Technician {
    Technician(1, Available, [Window(0, 60 * MINUTE)], [Skill(7, level, {1}, {1})])
  }

  function LevelFourRequest(): Request { Request(1, 1, 1, Open, 0, None, 4, [7], 4, true) }

  /** One machine, one technician with skill 7 at `level`, one request for it at level 4. */
  function OneSkill(level: int): Snapshot {
    var machine := Machine(1, 1, MachineStatus.Idle, {1});
    Snapshot(1, 1, Window(0, 60 * MINUTE), [machine], [], [Novice(level)], map[], [LevelFourRequest()], None)
  }

  function OneVisit(): Assignment {
    Assignment(External(1), Work.Maintenance(1, [1]), Proposed, 1, 0, 4 * MINUTE, false)
  }

  function VisitPlan(): Plan { Plan(1, Schedule(1, 1, Window(0, 60 * MINUTE), [OneVisit()])) }

  lemma OneSkillMembers(level: int)
    ensures var s := OneSkill(level);
            && (forall m :: m in s.machines <==> m == Machine(1, 1, MachineStatus.Idle, {1}))
            && (forall t :: t in s.technicians <==> t == Novice(level))
            && (forall r :: r in s.requests <==> r == LevelFourRequest())
            && (forall a :: Live(VisitPlan(), a) <==> a == OneVisit())
    ensures WellFormed(OneSkill(level)) && RowsLast(VisitPlan())
  {
    var s := OneSkill(level);
    assert s.machines[0] in s.machines && s.technicians[0] in s.technicians && s.requests[0] in s.requests;
    assert VisitPlan().schedule.assignments[0] in VisitPlan().schedule.assignments;
    OneSkillIsWellFormed(level);
  }

  lemma OneSkillIsWellFormed(level: int)
    ensures WellFormed(OneSkill(level))
  {
    assert OneSkill(level).machines[0] in OneSkill(level).machines;
  }

  lemma NoviceIsAble(level: int)
    ensures Able(Novice(level), 7, 4, 1, 1) <==> level >= 4
  {
    assert Novice(level).skills[0] in Novice(level).skills;
  }

  /** The plan gets the skill code, and no other, exactly when the technician is below the level. */
  lemma LevelDecides(level: int, c: Code)
    ensures WellFormed(OneSkill(level))
    ensures Holds(c, OneSkill(level), VisitPlan()) <==> c != SkillAdequacy || level >= 4
  {
    hide Holds, WellFormed, OneSkill, VisitPlan, Able;
    OneSkillMembers(level);
    ClauseIsDemand(c, OneSkill(level), VisitPlan());
    NoviceIsAble(level);
    LevelDemand(level, c);
  }

  lemma LevelDemand(level: int, c: Code)
    ensures Demand(c, OneSkill(level), VisitPlan()) <==> c != SkillAdequacy || level >= 4
  {
    hide Able;
    OneSkillMembers(level);
    NoviceIsAble(level);
    var s, plan, a, t := OneSkill(level), VisitPlan(), OneVisit(), Novice(level);
    assert 1 in a.work.technicianIds by { assert [1][0] in [1]; }
    assert Sent(s, a, t) && RowFor(s, a, LevelFourRequest()) && RowOn(s, a, Machine(1, 1, MachineStatus.Idle, {1}));
    assert t.availability[0] in t.availability
           && LevelFourRequest().requiredSkills[0] in LevelFourRequest().requiredSkills;
    assert AtWork(t, a.start, a.end);
    assert Mends(a, 1) && Live(plan, a);
  }
}
