/**
 What the judge's precedence check overlooks when an operation has two rows: its dictionary
 keeps the last one, so only the coverage check stands between such a plan and acceptance.
 */
module JudgeLimits {
  import opened Collections
  import opened Plant
  import opened Judge
  import opened Validator

  function Step(id: nat, predecessors: seq<Id>): Operation {
    Operation(id, id, 1, OperationStatus.Pending, predecessors, [MachineOption(id, 10)])
  }

  function TwoStepJob(): Job { Job(1, 0, 1, [Step(1, []), Step(2, [1])]) }

  function Bench(id: Id): Machine { Machine(id, 1, MachineStatus.Idle, {1}) }

  /** Each step has its own machine and takes ten minutes; the second follows the first. */
  function TwoSteps(): Snapshot {
    Snapshot(1, 1, Window(0, 60 * MINUTE), [Bench(1), Bench(2)], [TwoStepJob()], [], map[], [], None)
  }

  function Row(name: Id, step: nat, start: int): Assignment {
    Assignment(External(name), Production(1, step), Proposed, step, start * MINUTE, (start + 10) * MINUTE, false)
  }

  /** The second step runs at minute 0, then the first at minute 10, then the second again at minute 20. */
  function Rows(): seq<Assignment> { [Row(1, 2, 0), Row(2, 1, 10), Row(3, 2, 20)] }

  function CopiedPlan(): Plan { Plan(1, Schedule(1, 1, Window(0, 60 * MINUTE), Rows())) }

  /** What the tables of that snapshot hold. */
  ghost predicate TwoStepTables(x: Index) {
    && x.requests == map[] && x.technicians == map[]
    && 1 in x.machines && x.machines[1] == Bench(1) && 2 in x.machines && x.machines[2] == Bench(2)
    && (forall id :: id in x.operations <==> id == 1 || id == 2)
    && x.operations[1] == (TwoStepJob(), Step(1, [])) && x.operations[2] == (TwoStepJob(), Step(2, [1]))
  }

  lemma OnlyTwoSteps(j: Job, o: Operation)
    ensures HasOperation(TwoSteps(), j, o) <==> j == TwoStepJob() && (o == Step(1, []) || o == Step(2, [1]))
  {
    assert TwoSteps().jobs[0] in TwoSteps().jobs;
    assert TwoStepJob().operations[0] == Step(1, []) && TwoStepJob().operations[1] == Step(2, [1]);
  }

  lemma TwoStepsAreUnique()
    ensures UniqueIds(TwoSteps())
  {
    forall j, o, k, p | HasOperation(TwoSteps(), j, o) && HasOperation(TwoSteps(), k, p) && o.id == p.id
      ensures j == k && o == p
    {
      OnlyTwoSteps(j, o);
      OnlyTwoSteps(k, p);
    }
  }

  lemma TwoStepIndex()
    ensures TwoStepTables(IndexOf(TwoSteps()))
  {
    hide UniqueIds;
    var s := TwoSteps();
    TwoStepsAreUnique();
    IndexIsExact(s);
    assert s.machines[0] in s.machines && s.machines[1] in s.machines;
    OnlyTwoSteps(TwoStepJob(), Step(1, []));
    OnlyTwoSteps(TwoStepJob(), Step(2, [1]));
    forall id | id in IndexOf(s).operations ensures id == 1 || id == 2 {
      OnlyTwoSteps(IndexOf(s).operations[id].0, IndexOf(s).operations[id].1);
    }
  }

  lemma StepsAreValid(j: Job, o: Operation)
    requires HasOperation(TwoSteps(), j, o)
    ensures ValidOperation(TwoSteps(), j, o)
  {
    hide IndexOf;
    TwoStepIndex();
    OnlyTwoSteps(j, o);
    assert TwoStepJob().operations[0] in TwoStepJob().operations;
    forall p | p in o.predecessors ensures exists q :: q in j.operations && q.id == p && q.sequence < o.sequence {
      assert Step(1, []) in j.operations && Step(1, []).id == p;
    }
  }

  lemma TwoStepsAreWellFormed()
    ensures WellFormed(TwoSteps()) && ProperSchedule(CopiedPlan().schedule)
  {
    hide UniqueIds, ValidOperation;
    TwoStepsAreUnique();
    forall j, o | HasOperation(TwoSteps(), j, o) ensures ValidOperation(TwoSteps(), j, o) {
      StepsAreValid(j, o);
    }
  }

  lemma OnlyThreeRows(a: Assignment)
    ensures a in Rows() <==> a == Row(1, 2, 0) || a == Row(2, 1, 10) || a == Row(3, 2, 20)
  {
    assert Rows()[0] in Rows() && Rows()[1] in Rows() && Rows()[2] in Rows();
  }

  /** Row by row nothing is wrong. */
  lemma RowIsFine(x: Index, a: Assignment, rule: Code)
    requires TwoStepTables(x) && a in Rows()
    ensures KnownReferences(x, a) && EligibleMachine(x, a) && InPlanningWindow(TwoSteps(), a) && Obeys(x, a, rule)
  {
    OnlyThreeRows(a);
    assert Step(1, []).options[0] in Step(1, []).options && Step(2, [1]).options[0] in Step(2, [1]).options;
  }

  lemma RowsAreDisjoint()
    ensures MachinesExclusive(Elements(Rows()))
  {
    forall a, b | a in Elements(Rows()) && b in Elements(Rows()) && a != b && a.machineId == b.machineId
      ensures Disjoint(a, b)
    {
      OnlyThreeRows(a);
      OnlyThreeRows(b);
    }
  }

  /** The dictionary keeps the first step and the later row of the second, which are in order. */
  lemma DictionaryKeepsLater(x: Index)
    requires TwoStepTables(x)
    ensures LastAssignments(x, Rows()) == map[1 := Row(2, 1, 10), 2 := Row(3, 2, 20)]
  {
    var xs := Rows();
    assert xs[..3] == xs && xs[..3][..2] == xs[..2] && xs[..2][..1] == xs[..1] && xs[..1][..0] == [];
    assert LastAssignments(x, xs[..1]) == map[2 := Row(1, 2, 0)];
    assert LastAssignments(x, xs[..2]) == map[2 := Row(1, 2, 0), 1 := Row(2, 1, 10)];
  }

  lemma DictionaryIsOrdered(x: Index)
    requires TwoStepTables(x)
    ensures DictionaryOrdered(x, Rows())
  {
    DictionaryKeepsLater(x);
    var production := LastAssignments(x, Rows());
    assert OrderedBy(x, production, 1) && OrderedBy(x, production, 2);
  }

  /** The early copy of the second step has no finished first step before it. */
  lemma CopyIsEarly(x: Index)
    requires TwoStepTables(x)
    ensures !AllPredecessorsMet(x, Elements(Rows()))
  {
    OnlyThreeRows(Row(1, 2, 0));
    assert 1 in Step(2, [1]).predecessors;
    forall b | b in Elements(Rows()) && b.Produces(1) ensures b.end > Row(1, 2, 0).start {
      OnlyThreeRows(b);
    }
    assert !PredecessorsMet(x, Elements(Rows()), Row(1, 2, 0));
  }

  lemma SecondStepIsDoubled(x: Index)
    requires TwoStepTables(x)
    ensures !OperationsCovered(x, Elements(Rows()))
  {
    var produces := (a: Assignment) => a.Produces(2);
    OnlyThreeRows(Row(1, 2, 0));
    OnlyThreeRows(Row(3, 2, 20));
    assert produces(Row(1, 2, 0)) && produces(Row(3, 2, 20));
    assert !OperationCovered(Elements(Rows()), x.operations[2].1);
  }

  lemma NobodyIsInvolved(x: Index, a: Assignment)
    requires TwoStepTables(x) && a in Rows()
    ensures a.Team() == [] && Attended(x, a) && Skilled(x, a) && x.requests == map[]
  {
    OnlyThreeRows(a);
  }

  lemma FoundCode(c: Code, x: Index)
    requires TwoStepTables(x)
    ensures Found(c, TwoSteps(), x, CopiedPlan(), Rows()) <==> c == OperationCoverage
  {
    hide TwoStepTables, KnownReferences, EligibleMachine, InPlanningWindow, Obeys, OperationsCovered, MachinesExclusive;
    hide DictionaryOrdered, Attended, Skilled, Rows;
    RowsAreDisjoint();
    DictionaryIsOrdered(x);
    SecondStepIsDoubled(x);
    forall a | a in Rows()
      ensures KnownReferences(x, a) && EligibleMachine(x, a) && InPlanningWindow(TwoSteps(), a) && Obeys(x, a, c)
      ensures a.Team() == [] && Attended(x, a) && Skilled(x, a)
    {
      RowIsFine(x, a, c);
      NobodyIsInvolved(x, a);
    }
    OnlyThreeRows(Row(1, 2, 0));
    NobodyIsInvolved(x, Row(1, 2, 0));
    RuleCodes(c, x, Rows());
  }

  /**
   A well-formed snapshot and a plan on which the judge's checks find the coverage code and no
   other, although a step runs before its predecessor: without coverage it would be accepted.
   */
  lemma CoverageIsEssentialForPrecedence() returns (s: Snapshot, plan: Plan)
    ensures WellFormed(s) && ProperSchedule(plan.schedule) && DictionaryOrdered(IndexOf(s), plan.schedule.assignments)
    ensures forall c :: Found(c, s, IndexOf(s), plan, plan.schedule.assignments) <==> c == OperationCoverage
    ensures !AllPredecessorsMet(IndexOf(s), Elements(plan.schedule.assignments))
  {
    hide TwoSteps, Found, IndexOf, WellFormed;
    s, plan := TwoSteps(), CopiedPlan();
    TwoStepsAreWellFormed();
    TwoStepIndex();
    DictionaryIsOrdered(IndexOf(s));
    CopyIsEarly(IndexOf(s));
    forall c ensures Found(c, s, IndexOf(s), plan, plan.schedule.assignments) <==> c == OperationCoverage {
      FoundCode(c, IndexOf(s));
    }
  }
}
