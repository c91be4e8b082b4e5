/**
 The strict judge: loops over the active assignments that fill dictionaries and append
 violations to one list, proved to report a code exactly when its clause fails.
 */
module Validator {
  import opened Collections
  import opened Plant
  import opened Judge
  import opened Slots
  import Sweep

  datatype Violation =
    | OnPlan(code: Code)
    | OnAssignment(code: Code, id: AssignmentId)
    | OnPair(code: Code, left: AssignmentId, right: AssignmentId, resource: Id)
    | OnEntity(code: Code, entity: Id)

  function Codes(drafts: seq<Violation>): set<Code> {
    set v | v in drafts :: v.code
  }

  function Failing(c: Code, ok: bool): set<Code> {
    if ok then {} else {c}
  }

  lemma CodesOfAppend(drafts: seq<Violation>, v: Violation)
    ensures Codes(drafts + [v]) == Codes(drafts) + {v.code}
  {
    forall c ensures c in Codes(drafts + [v]) <==> c in Codes(drafts) + {v.code} {
      if c in Codes(drafts) {
        var w :| w in drafts && w.code == c;
        assert w in drafts + [v];
      }
      if c == v.code { assert v in drafts + [v]; }
    }
  }

  ghost predicate AllOk(xs: seq<Assignment>, ok: Assignment -> bool) {
    forall a :: a in xs ==> ok(a)
  }

  lemma AllOkStep(xs: seq<Assignment>, i: nat, ok: Assignment -> bool)
    requires i < |xs|
    ensures AllOk(xs[..i + 1], ok) <==> AllOk(xs[..i], ok) && ok(xs[i])
  {
    assert xs[..i + 1] == xs[..i] + [xs[i]];
  }

  method CheckPlanContext(s: Snapshot, plan: Plan, drafts: seq<Violation>) returns (out: seq<Violation>)
    ensures Codes(out) == Codes(drafts)
              + Failing(UnknownReference, SameContext(s, plan))
  {
    out := drafts;
    if plan.snapshotId != s.id {
      CodesOfAppend(out, OnPlan(UnknownReference));
      out := out + [OnPlan(UnknownReference)];
    }
    if plan.schedule.factoryId != s.factoryId {
      CodesOfAppend(out, OnPlan(UnknownReference));
      out := out + [OnPlan(UnknownReference)];
    }
  }

  method CheckReferences(x: Index, xs: seq<Assignment>, drafts: seq<Violation>) returns (out: seq<Violation>)
    ensures Codes(out) == Codes(drafts) + Failing(UnknownReference, AllKnown(x, Elements(xs)))
  {
    ghost var ok := (a: Assignment) => KnownReferences(x, a);
    out := drafts;
    var i := 0;
    while i < |xs|
      invariant 0 <= i <= |xs|
      invariant Codes(out) == Codes(drafts) + Failing(UnknownReference, AllOk(xs[..i], ok))
    {
      AllOkStep(xs, i, ok);
      var a := xs[i];
      var known := a.machineId in x.machines;
      match a.work {
        case Production(job, operation) =>
          known := known && operation in x.operations && x.operations[operation].0.id == job;
        case Maintenance(request, team) =>
          known := known && request in x.requests && forall t :: t in team ==> t in x.technicians;
        case BlockedTime =>
      }
      if !known {
        CodesOfAppend(out, OnAssignment(UnknownReference, a.id));
        out := out + [OnAssignment(UnknownReference, a.id)];
      }
      i := i + 1;
    }
    assert xs[..i] == xs;
  }

  method CheckPlanningWindow(s: Snapshot, plan: Plan, xs: seq<Assignment>, drafts: seq<Violation>)
    returns (out: seq<Violation>)
    ensures Codes(out) == Codes(drafts)
              + Failing(PlanningWindow, plan.schedule.window == s.window && AllInWindow(s, Elements(xs)))
  {
    ghost var ok := (a: Assignment) => InPlanningWindow(s, a);
    out := drafts;
    if plan.schedule.window != s.window {
      CodesOfAppend(out, OnPlan(PlanningWindow));
      out := out + [OnPlan(PlanningWindow)];
    }
    var i := 0;
    while i < |xs|
      invariant 0 <= i <= |xs|
      invariant Codes(out) == Codes(drafts)
                  + Failing(PlanningWindow, plan.schedule.window == s.window && AllOk(xs[..i], ok))
    {
      AllOkStep(xs, i, ok);
      if xs[i].start < s.window.start || xs[i].end > s.window.end {
        CodesOfAppend(out, OnAssignment(PlanningWindow, xs[i].id));
        out := out + [OnAssignment(PlanningWindow, xs[i].id)];
      }
      i := i + 1;
    }
    assert xs[..i] == xs;
  }

  method CheckMachineEligibility(x: Index, xs: seq<Assignment>, drafts: seq<Violation>)
    returns (out: seq<Violation>)
    ensures Codes(out) == Codes(drafts) + Failing(MachineEligibility, AllEligible(x, Elements(xs)))
  {
    ghost var ok := (a: Assignment) => EligibleMachine(x, a);
    out := drafts;
    var i := 0;
    while i < |xs|
      invariant 0 <= i <= |xs|
      invariant Codes(out) == Codes(drafts) + Failing(MachineEligibility, AllOk(xs[..i], ok))
    {
      AllOkStep(xs, i, ok);
      if !EligibleMachine(x, xs[i]) {
        CodesOfAppend(out, OnAssignment(MachineEligibility, xs[i].id));
        out := out + [OnAssignment(MachineEligibility, xs[i].id)];
      }
      i := i + 1;
    }
    assert xs[..i] == xs;
  }

  /** `groups` files exactly the members of `xs` that `files` relates to a key, each once per key. */
  ghost predicate FiledBy(groups: map<Id, seq<Assignment>>, xs: seq<Assignment>, files: (Assignment, Id) -> bool) {
    && (forall k :: k in groups ==> Distinct(groups[k]) && forall a :: a in groups[k] ==> a in xs && files(a, k))
    && (forall a, k :: a in xs && files(a, k) ==> k in groups && a in groups[k])
  }

  lemma FileOne(groups: map<Id, seq<Assignment>>, xs: seq<Assignment>, a: Assignment, files: (Assignment, Id) -> bool)
    requires FiledBy(groups, xs, files) && forall k :: !files(a, k)
    ensures FiledBy(groups, xs + [a], files)
  {
  }

  lemma FileUnder(
    groups: map<Id, seq<Assignment>>, xs: seq<Assignment>, a: Assignment, key: Id, files: (Assignment, Id) -> bool)
    requires FiledBy(groups, xs, files) && a !in xs && forall k :: files(a, k) <==> k == key
    ensures FiledBy(Filed(groups, key, a), xs + [a], files)
  {
    var next := Filed(groups, key, a);
    forall k | k in next ensures Distinct(next[k]) && forall b :: b in next[k] ==> b in xs + [a] && files(b, k) {
      if k != key { assert next[k] == groups[k]; }
    }
  }

  ghost predicate GroupsExclusive(groups: map<Id, seq<Assignment>>) {
    forall k :: k in groups ==> Sweep.Exclusive(groups[k])
  }

  /** One report per overlapping pair of every group. */
  method SweepGroups(code: Code, groups: map<Id, seq<Assignment>>, drafts: seq<Violation>)
    returns (out: seq<Violation>)
    requires forall k :: k in groups ==> Distinct(groups[k])
    ensures Codes(out) == Codes(drafts) + Failing(code, GroupsExclusive(groups))
  {
    out := drafts;
    var keys := groups.Keys;
    while keys != {}
      invariant keys <= groups.Keys
      invariant Codes(out) == Codes(drafts)
                  + Failing(code, GroupsExclusive(groups - keys))
      decreases keys
    {
      var key := Pick(keys);
      var pairs := Sweep.OverlappingPairs(groups[key]);
      ghost var before := out;
      var i := 0;
      while i < |pairs|
        invariant 0 <= i <= |pairs|
        invariant Codes(out) == Codes(before) + Failing(code, i == 0)
      {
        var v := OnPair(code, pairs[i].0.id, pairs[i].1.id, key);
        CodesOfAppend(out, v);
        out := out + [v];
        i := i + 1;
      }
      assert (groups - (keys - {key})).Keys == (groups - keys).Keys + {key};
      keys := keys - {key};
    }
    assert groups - keys == groups;
  }

  method CheckMachineOverlap(xs: seq<Assignment>, drafts: seq<Violation>) returns (out: seq<Violation>)
    requires DistinctIds(xs)
    ensures Codes(out) == Codes(drafts) + Failing(MachineOverlap, MachinesExclusive(Elements(xs)))
  {
    ghost var files := (a: Assignment, k: Id) => a.machineId == k;
    var groups: map<Id, seq<Assignment>> := map[];
    var i := 0;
    while i < |xs|
      invariant 0 <= i <= |xs|
      invariant FiledBy(groups, xs[..i], files)
    {
      FileUnder(groups, xs[..i], xs[i], xs[i].machineId, files);
      assert xs[..i + 1] == xs[..i] + [xs[i]];
      groups := Filed(groups, xs[i].machineId, xs[i]);
      i := i + 1;
    }
    assert xs[..i] == xs;
    out := SweepGroups(MachineOverlap, groups, drafts);
    MachineGroups(groups, xs);
  }

  lemma MachineGroups(groups: map<Id, seq<Assignment>>, xs: seq<Assignment>)
    requires FiledBy(groups, xs, (a: Assignment, k: Id) => a.machineId == k)
    ensures GroupsExclusive(groups) <==> MachinesExclusive(Elements(xs))
  {
    if GroupsExclusive(groups) {
      forall a, b | a in Elements(xs) && b in Elements(xs) && a != b && a.machineId == b.machineId
        ensures Disjoint(a, b)
      {
        assert a in groups[a.machineId] && b in groups[a.machineId];
        assert Sweep.Exclusive(groups[a.machineId]);
      }
    }
    if MachinesExclusive(Elements(xs)) {
      forall k | k in groups ensures Sweep.Exclusive(groups[k]) {
        forall a, b | a in groups[k] && b in groups[k] && a != b ensures Disjoint(a, b) {
          assert a in Elements(xs) && b in Elements(xs);
        }
      }
    }
  }

  predicate KnownProduction(x: Index, a: Assignment) {
    a.work.Production? && a.work.operationId in x.operations
  }

  /** The precedence dictionary: per known operation, the last of its assignments in list order. */
  function LastAssignments(x: Index, xs: seq<Assignment>): map<Id, Assignment> {
    if xs == [] then map[]
    else
      var n := |xs| - 1;
      if KnownProduction(x, xs[n]) then LastAssignments(x, xs[..n])[xs[n].work.operationId := xs[n]]
      else LastAssignments(x, xs[..n])
  }

  /** `p` is completed, or its kept assignment ends by `start`. */
  predicate DoneBy(x: Index, production: map<Id, Assignment>, p: Id, start: Time) {
    || (p in x.operations && x.operations[p].1.status.Completed?)
    || (p in production && production[p].end <= start)
  }

  ghost predicate OrderedBy(x: Index, production: map<Id, Assignment>, id: Id)
    requires id in x.operations && id in production
  {
    forall p :: p in x.operations[id].1.predecessors ==> DoneBy(x, production, p, production[id].start)
  }

  ghost predicate AllOrdered(x: Index, production: map<Id, Assignment>, ids: set<Id>)
    requires ids <= production.Keys && production.Keys <= x.operations.Keys
  {
    forall id :: id in ids ==> OrderedBy(x, production, id)
  }

  lemma {:induction false} LastAssignmentsKnown(x: Index, xs: seq<Assignment>)
    ensures var production := LastAssignments(x, xs);
            && production.Keys <= x.operations.Keys
            && (forall id :: id in production ==> production[id] in xs && production[id].Produces(id))
            && (forall a :: a in xs && KnownProduction(x, a) ==> a.work.operationId in production)
  {
    if xs != [] {
      var n := |xs| - 1;
      LastAssignmentsKnown(x, xs[..n]);
      assert xs == xs[..n] + [xs[n]];
    }
  }

  lemma OneMoreOrdered(x: Index, production: map<Id, Assignment>, ids: set<Id>, id: Id)
    requires ids + {id} <= production.Keys && production.Keys <= x.operations.Keys
    ensures AllOrdered(x, production, ids + {id}) <==> AllOrdered(x, production, ids) && OrderedBy(x, production, id)
  {
  }

  method KeepLastAssignments(x: Index, xs: seq<Assignment>) returns (production: map<Id, Assignment>)
    ensures production == LastAssignments(x, xs)
  {
    production := map[];
    var i := 0;
    while i < |xs|
      invariant 0 <= i <= |xs|
      invariant production == LastAssignments(x, xs[..i])
    {
      assert xs[..i + 1][..i] == xs[..i];
      if KnownProduction(x, xs[i]) {
        production := production[xs[i].work.operationId := xs[i]];
      }
      i := i + 1;
    }
    assert xs[..i] == xs;
  }

  method CheckPrecedence(x: Index, xs: seq<Assignment>, drafts: seq<Violation>) returns (out: seq<Violation>)
    ensures Codes(out) == Codes(drafts) + Failing(Precedence, DictionaryOrdered(x, xs))
  {
    var production := KeepLastAssignments(x, xs);
    LastAssignmentsKnown(x, xs);
    out := CheckSuccessors(x, production, drafts);
  }

  method CheckSuccessors(x: Index, production: map<Id, Assignment>, drafts: seq<Violation>)
    returns (out: seq<Violation>)
    requires production.Keys <= x.operations.Keys
    ensures Codes(out) == Codes(drafts) + Failing(Precedence, AllOrdered(x, production, production.Keys))
  {
    out := drafts;
    var ids := production.Keys;
    ghost var done: set<Id> := {};
    while ids != {}
      invariant ids + done == production.Keys
      invariant Codes(out) == Codes(drafts) + Failing(Precedence, AllOrdered(x, production, done))
      decreases ids
    {
      var id := Pick(ids);
      out := CheckPredecessors(x, production, id, out);
      OneMoreOrdered(x, production, done, id);
      ids, done := ids - {id}, done + {id};
    }
    assert done == production.Keys;
  }

  method CheckPredecessors(x: Index, production: map<Id, Assignment>, id: Id, drafts: seq<Violation>)
    returns (out: seq<Violation>)
    requires id in production && id in x.operations
    ensures Codes(out) == Codes(drafts) + Failing(Precedence, OrderedBy(x, production, id))
  {
    var operations := x.operations;
    var successor := production[id];
    var predecessors := operations[id].1.predecessors;
    out := drafts;
    var i := 0;
    while i < |predecessors|
      invariant 0 <= i <= |predecessors|
      invariant Codes(out) == Codes(drafts) + Failing(Precedence,
                  forall k :: 0 <= k < i ==> DoneBy(x, production, predecessors[k], successor.start))
    {
      var p := predecessors[i];
      if !(p in operations && operations[p].1.status.Completed?) {
        if p !in production {
          CodesOfAppend(out, OnAssignment(Precedence, successor.id));
          out := out + [OnAssignment(Precedence, successor.id)];
        } else if production[p].end > successor.start {
          CodesOfAppend(out, OnPair(Precedence, production[p].id, successor.id, p));
          out := out + [OnPair(Precedence, production[p].id, successor.id, p)];
        }
      }
      i := i + 1;
    }
  }

  ghost predicate PredecessorsKnown(x: Index) {
    forall id :: id in x.operations ==> forall p :: p in x.operations[id].1.predecessors ==> p in x.operations
  }

  lemma WellFormedPredecessors(s: Snapshot)
    requires WellFormed(s)
    ensures PredecessorsKnown(IndexOf(s))
  {
    var x := IndexOf(s);
    forall id, p | id in x.operations && p in x.operations[id].1.predecessors ensures p in x.operations {
      var (j, o) := x.operations[id];
      assert HasOperation(s, j, o) && ValidOperation(s, j, o);
      var q :| q in j.operations && q.id == p;
      assert HasOperation(s, j, q);
    }
  }

  ghost predicate ProducedOnce(x: Index, xs: seq<Assignment>) {
    forall a, b :: a in xs && b in xs && KnownProduction(x, a) && b.Produces(a.work.operationId) ==> a == b
  }

  /** With at most one assignment per operation the dictionary check is the real precedence clause. */
  lemma DictionaryPrecedence(x: Index, xs: seq<Assignment>)
    requires PredecessorsKnown(x) && ProducedOnce(x, xs)
    ensures DictionaryOrdered(x, xs) <==>
              AllPredecessorsMet(x, Elements(xs))
  {
    LastAssignmentsKnown(x, xs);
    var production := LastAssignments(x, xs);
    forall a | a in xs && KnownProduction(x, a)
      ensures PredecessorsMet(x, Elements(xs), a) <==> OrderedBy(x, production, a.work.operationId)
    {
      DictionaryPredecessors(x, xs, a);
    }
    if AllOrdered(x, production, production.Keys) {
      forall a | a in Elements(xs) ensures PredecessorsMet(x, Elements(xs), a) {
        if KnownProduction(x, a) { assert a.work.operationId in production; }
      }
    }
    if AllPredecessorsMet(x, Elements(xs)) {
      forall id | id in production ensures OrderedBy(x, production, id) {
        assert production[id] in Elements(xs);
      }
    }
  }

  lemma DictionaryPredecessors(x: Index, xs: seq<Assignment>, a: Assignment)
    requires a in xs && KnownProduction(x, a)
    requires PredecessorsKnown(x) && ProducedOnce(x, xs)
    ensures LastAssignments(x, xs).Keys <= x.operations.Keys && a.work.operationId in LastAssignments(x, xs)
    ensures PredecessorsMet(x, Elements(xs), a) <==> OrderedBy(x, LastAssignments(x, xs), a.work.operationId)
  {
    LastAssignmentsKnown(x, xs);
    var production := LastAssignments(x, xs);
    var id := a.work.operationId;
    assert production[id] == a;
    var (j, o) := x.operations[id];
    forall p | p in o.predecessors
      ensures Finishes(Elements(xs), p, a) <==> p in production && production[p].end <= a.start
    {
      assert p in x.operations;
      if Finishes(Elements(xs), p, a) {
        var b :| b in Elements(xs) && b.Produces(p) && b.end <= a.start;
        assert KnownProduction(x, b) && production[p] == b;
      }
      if p in production && production[p].end <= a.start {
        assert production[p] in Elements(xs);
      }
    }
  }

  predicate WorksOn(x: Index, a: Assignment, t: Id) {
    t in a.Team() && t in x.technicians
  }

  predicate PresentIfKnown(x: Index, t: Id, a: Assignment) {
    t in x.technicians ==> Present(x.technicians[t], a)
  }

  /** Every known member of the team must be present for the whole assignment. */
  method CheckPresence(x: Index, a: Assignment, drafts: seq<Violation>) returns (out: seq<Violation>)
    ensures Codes(out) == Codes(drafts) + Failing(TechnicianAvailability, Attended(x, a))
  {
    var team := a.Team();
    out := drafts;
    var i := 0;
    while i < |team|
      invariant 0 <= i <= |team|
      invariant Codes(out) == Codes(drafts) + Failing(TechnicianAvailability,
                  forall k :: 0 <= k < i ==> PresentIfKnown(x, team[k], a))
    {
      if team[i] in x.technicians && !Present(x.technicians[team[i]], a) {
        CodesOfAppend(out, OnAssignment(TechnicianAvailability, a.id));
        out := out + [OnAssignment(TechnicianAvailability, a.id)];
      }
      i := i + 1;
    }
    assert Attended(x, a) <==> forall t :: t in team ==> PresentIfKnown(x, t, a);
  }

  /** `by_technician` so far: members of `xs`, and `a` under the technicians in `filed`. */
  ghost predicate TeamFiled(
    x: Index, groups: map<Id, seq<Assignment>>, xs: seq<Assignment>, a: Assignment, filed: set<Id>)
  {
    FiledBy(groups, xs + [a], (b: Assignment, t: Id) => WorksOn(x, b, t) && (b != a || t in filed))
  }

  lemma FilingStarts(x: Index, a: Assignment, groups: map<Id, seq<Assignment>>, xs: seq<Assignment>)
    requires a !in xs && FiledBy(groups, xs, (b: Assignment, t: Id) => WorksOn(x, b, t))
    ensures TeamFiled(x, groups, xs, a, Elements(a.Team()[..0]))
  {
  }

  lemma FilingEnds(x: Index, a: Assignment, xs: seq<Assignment>)
    ensures forall groups :: TeamFiled(x, groups, xs, a, Elements(a.Team())) ==>
              FiledBy(groups, xs + [a], (b: Assignment, t: Id) => WorksOn(x, b, t))
  {
  }

  method FileTeam(x: Index, a: Assignment, groups: map<Id, seq<Assignment>>, ghost xs: seq<Assignment>)
    returns (next: map<Id, seq<Assignment>>)
    requires a !in xs && Distinct(a.Team())
    requires FiledBy(groups, xs, (b: Assignment, t: Id) => WorksOn(x, b, t))
    ensures FiledBy(next, xs + [a], (b: Assignment, t: Id) => WorksOn(x, b, t))
  {
    var team := a.Team();
    next := groups;
    var i := 0;
    FilingStarts(x, a, groups, xs);
    FilingEnds(x, a, xs);
    hide FiledBy, TeamFiled;
    while i < |team|
      invariant 0 <= i <= |team|
      invariant TeamFiled(x, next, xs, a, Elements(team[..i]))
    {
      assert team[..i + 1] == team[..i] + [team[i]];
      if team[i] in x.technicians {
        FileMember(x, next, xs, a, Elements(team[..i]), team[i]);
        next := Filed(next, team[i], a);
      }
      assert Elements(team[..i + 1]) == Elements(team[..i]) + {team[i]};
      i := i + 1;
    }
    assert team[..i] == team;
  }

  lemma FileMember(
    x: Index, groups: map<Id, seq<Assignment>>, xs: seq<Assignment>, a: Assignment, filed: set<Id>, t: Id)
    requires a !in xs && t !in filed && WorksOn(x, a, t) && TeamFiled(x, groups, xs, a, filed)
    ensures TeamFiled(x, Filed(groups, t, a), xs, a, filed + {t})
  {
    var next := Filed(groups, t, a);
    assert t in groups ==> a !in groups[t];
    forall k | k in next ensures Distinct(next[k])
    {
      if k != t { assert next[k] == groups[k]; }
    }
  }

  method CheckSkills(x: Index, a: Assignment, drafts: seq<Violation>) returns (out: seq<Violation>)
    ensures Codes(out) == Codes(drafts) + Failing(SkillAdequacy, Skilled(x, a))
  {
    out := drafts;
    if !a.work.Maintenance? || a.work.requestId !in x.requests || a.machineId !in x.machines {
      return;
    }
    var r, family := x.requests[a.work.requestId], x.machines[a.machineId].family;
    var i := 0;
    while i < |r.requiredSkills|
      invariant 0 <= i <= |r.requiredSkills|
      invariant Codes(out) == Codes(drafts) + Failing(SkillAdequacy,
                  forall k :: 0 <= k < i ==> Adequate(x, a.work.technicianIds, r, family, r.requiredSkills[k]))
    {
      if !Adequate(x, a.work.technicianIds, r, family, r.requiredSkills[i]) {
        CodesOfAppend(out, OnAssignment(SkillAdequacy, a.id));
        out := out + [OnAssignment(SkillAdequacy, a.id)];
      }
      i := i + 1;
    }
  }

  method CheckTechnicians(x: Index, xs: seq<Assignment>, drafts: seq<Violation>) returns (out: seq<Violation>)
    requires DistinctIds(xs) && forall a :: a in xs ==> Distinct(a.Team())
    ensures Codes(out) == Codes(drafts)
              + Failing(TechnicianAvailability, AllAttended(x, Elements(xs)) && TechniciansExclusive(x, Elements(xs)))
              + Failing(SkillAdequacy, AllSkilled(x, Elements(xs)))
  {
    out := CheckCrews(x, xs, drafts);
    var groups := FileTeams(x, xs);
    out := SweepGroups(TechnicianAvailability, groups, out);
    TechnicianGroups(x, groups, xs);
  }

  method FileTeams(x: Index, xs: seq<Assignment>) returns (groups: map<Id, seq<Assignment>>)
    requires DistinctIds(xs) && forall a :: a in xs ==> Distinct(a.Team())
    ensures FiledBy(groups, xs, (b: Assignment, t: Id) => WorksOn(x, b, t))
  {
    groups := map[];
    var i := 0;
    while i < |xs|
      invariant 0 <= i <= |xs|
      invariant FiledBy(groups, xs[..i], (b: Assignment, t: Id) => WorksOn(x, b, t))
    {
      assert xs[..i + 1] == xs[..i] + [xs[i]];
      groups := FileTeam(x, xs[i], groups, xs[..i]);
      i := i + 1;
    }
    assert xs[..i] == xs;
  }

  method CheckCrews(x: Index, xs: seq<Assignment>, drafts: seq<Violation>) returns (out: seq<Violation>)
    ensures Codes(out) == Codes(drafts) + Failing(TechnicianAvailability, AllAttended(x, Elements(xs)))
              + Failing(SkillAdequacy, AllSkilled(x, Elements(xs)))
  {
    ghost var attended, skilled := (a: Assignment) => Attended(x, a), (a: Assignment) => Skilled(x, a);
    out := drafts;
    var i := 0;
    while i < |xs|
      invariant 0 <= i <= |xs|
      invariant Codes(out) == Codes(drafts) + Failing(TechnicianAvailability, AllOk(xs[..i], attended))
                  + Failing(SkillAdequacy, AllOk(xs[..i], skilled))
    {
      AllOkStep(xs, i, attended);
      AllOkStep(xs, i, skilled);
      out := CheckPresence(x, xs[i], out);
      out := CheckSkills(x, xs[i], out);
      i := i + 1;
    }
    assert xs[..i] == xs;
  }

  lemma TechnicianGroups(x: Index, groups: map<Id, seq<Assignment>>, xs: seq<Assignment>)
    requires FiledBy(groups, xs, (b: Assignment, t: Id) => WorksOn(x, b, t))
    ensures GroupsExclusive(groups) <==> TechniciansExclusive(x, Elements(xs))
  {
    if GroupsExclusive(groups) {
      forall a, b, t | a in Elements(xs) && b in Elements(xs) && a != b && t in a.Team() && t in b.Team()
        && t in x.technicians
        ensures Disjoint(a, b)
      {
        assert WorksOn(x, a, t) && WorksOn(x, b, t);
        assert a in groups[t] && b in groups[t];
        assert Sweep.Exclusive(groups[t]);
      }
    }
    if TechniciansExclusive(x, Elements(xs)) {
      forall k | k in groups ensures Sweep.Exclusive(groups[k]) {
        forall a, b | a in groups[k] && b in groups[k] && a != b ensures Disjoint(a, b) {
          assert a in Elements(xs) && b in Elements(xs) && WorksOn(x, a, k) && WorksOn(x, b, k);
        }
      }
    }
  }

  ghost function RuleBreaks(x: Index, a: Assignment): set<Code> {
    set c: Code | IsRule(c) && !Obeys(x, a, c)
  }

  lemma ProductionBreaks(x: Index, a: Assignment)
    requires a.work.Production?
    ensures RuleBreaks(x, a) == Failing(BlockedOperation, Obeys(x, a, BlockedOperation))
              + Failing(JobRelease, Obeys(x, a, JobRelease))
              + Failing(OperationDuration, Obeys(x, a, OperationDuration))
  {
  }

  lemma MaintenanceBreaks(x: Index, a: Assignment)
    requires a.work.Maintenance?
    ensures RuleBreaks(x, a) == Failing(MaintenanceDuration, Obeys(x, a, MaintenanceDuration))
              + Failing(MaintenanceStartWindow, Obeys(x, a, MaintenanceStartWindow))
              + Failing(MaintenanceStatus, Obeys(x, a, MaintenanceStatus))
  {
  }

  ghost predicate OptionsDistinct(o: Operation) {
    forall i, k :: 0 <= i < k < |o.options| ==> o.options[i].machineId != o.options[k].machineId
  }

  /** `next((o for o in options if o.machine_id == machine_id), None)`. */
  method FindOption(options: seq<MachineOption>, machineId: Id) returns (found: Option<MachineOption>)
    ensures found.Some? ==> found.value in options && found.value.machineId == machineId
    ensures found.None? ==> forall option :: option in options ==> option.machineId != machineId
  {
    var i := 0;
    while i < |options|
      invariant 0 <= i <= |options|
      invariant forall k :: 0 <= k < i ==> options[k].machineId != machineId
    {
      if options[i].machineId == machineId {
        return Some(options[i]);
      }
      i := i + 1;
    }
    found := None;
  }

  lemma ProductionVerdicts(x: Index, a: Assignment, found: Option<MachineOption>)
    requires KnownProduction(x, a) && OptionsDistinct(x.operations[a.work.operationId].1)
    requires found.Some? ==> found.value in x.operations[a.work.operationId].1.options
                             && found.value.machineId == a.machineId
    requires found.None? ==>
               forall option :: option in x.operations[a.work.operationId].1.options ==> option.machineId != a.machineId
    ensures var (job, operation) := x.operations[a.work.operationId];
            && (Obeys(x, a, BlockedOperation) <==> !operation.status.Blocked?)
            && (Obeys(x, a, JobRelease) <==> job.releaseAt <= a.start)
            && (Obeys(x, a, OperationDuration) <==>
                  !(found.Some? && !a.status.Completed? && a.end - a.start != found.value.minutes * MINUTE))
  {
  }

  method CheckProductionRules(x: Index, a: Assignment, drafts: seq<Violation>) returns (out: seq<Violation>)
    requires KnownProduction(x, a) && OptionsDistinct(x.operations[a.work.operationId].1)
    ensures Codes(out) == Codes(drafts) + RuleBreaks(x, a)
  {
    var (job, operation) := x.operations[a.work.operationId];
    out := drafts;
    if operation.status.Blocked? {
      CodesOfAppend(out, OnAssignment(BlockedOperation, a.id));
      out := out + [OnAssignment(BlockedOperation, a.id)];
    }
    if a.start < job.releaseAt {
      CodesOfAppend(out, OnAssignment(JobRelease, a.id));
      out := out + [OnAssignment(JobRelease, a.id)];
    }
    var option := FindOption(operation.options, a.machineId);
    ProductionVerdicts(x, a, option);
    hide Obeys, RuleBreaks, Codes;
    if option.Some? && !a.status.Completed? && a.end - a.start != option.value.minutes * MINUTE {
      CodesOfAppend(out, OnAssignment(OperationDuration, a.id));
      out := out + [OnAssignment(OperationDuration, a.id)];
    }
    ProductionBreaks(x, a);
  }

  lemma MaintenanceVerdicts(x: Index, a: Assignment)
    requires a.work.Maintenance? && a.work.requestId in x.requests
    ensures var r := x.requests[a.work.requestId];
            && (Obeys(x, a, MaintenanceDuration) <==> a.status.Completed? || a.end - a.start == r.Duration())
            && (Obeys(x, a, MaintenanceStartWindow) <==>
                  || a.status.Completed?
                  || (r.earliestStart <= a.start && (r.latestStart.Some? ==> a.start <= r.latestStart.value)))
            && (Obeys(x, a, MaintenanceStatus) <==> a.status.Completed? || r.Active())
  {
  }

  method CheckMaintenanceRules(x: Index, a: Assignment, drafts: seq<Violation>) returns (out: seq<Violation>)
    requires a.work.Maintenance? && a.work.requestId in x.requests
    ensures Codes(out) == Codes(drafts) + RuleBreaks(x, a)
  {
    var r := x.requests[a.work.requestId];
    out := drafts;
    MaintenanceVerdicts(x, a);
    hide Obeys, RuleBreaks, Codes;
    if !a.status.Completed? {
      if a.end - a.start != r.Duration() {
        CodesOfAppend(out, OnAssignment(MaintenanceDuration, a.id));
        out := out + [OnAssignment(MaintenanceDuration, a.id)];
      }
      if a.start < r.earliestStart || (r.latestStart.Some? && a.start > r.latestStart.value) {
        CodesOfAppend(out, OnAssignment(MaintenanceStartWindow, a.id));
        out := out + [OnAssignment(MaintenanceStartWindow, a.id)];
      }
      if !r.Active() {
        CodesOfAppend(out, OnAssignment(MaintenanceStatus, a.id));
        out := out + [OnAssignment(MaintenanceStatus, a.id)];
      }
    }
    MaintenanceBreaks(x, a);
  }

  ghost function AllRuleBreaks(x: Index, xs: seq<Assignment>): set<Code> {
    set a, c | a in xs && c in RuleBreaks(x, a) :: c
  }

  lemma AllRuleBreaksStep(x: Index, xs: seq<Assignment>, i: nat)
    requires i < |xs|
    ensures AllRuleBreaks(x, xs[..i + 1]) == AllRuleBreaks(x, xs[..i]) + RuleBreaks(x, xs[i])
  {
    assert xs[..i + 1] == xs[..i] + [xs[i]];
  }

  method CheckWorkRules(x: Index, xs: seq<Assignment>, drafts: seq<Violation>) returns (out: seq<Violation>)
    requires forall id :: id in x.operations ==> OptionsDistinct(x.operations[id].1)
    ensures Codes(out) == Codes(drafts) + AllRuleBreaks(x, xs)
  {
    out := drafts;
    var i := 0;
    while i < |xs|
      invariant 0 <= i <= |xs|
      invariant Codes(out) == Codes(drafts) + AllRuleBreaks(x, xs[..i])
    {
      AllRuleBreaksStep(x, xs, i);
      var a := xs[i];
      if KnownProduction(x, a) {
        out := CheckProductionRules(x, a, out);
      } else if a.work.Maintenance? && a.work.requestId in x.requests {
        out := CheckMaintenanceRules(x, a, out);
      } else {
        assert RuleBreaks(x, a) == {};
      }
      i := i + 1;
    }
    assert xs[..i] == xs;
  }

  /** `by_operation` and `by_request`. */
  method FileWork(xs: seq<Assignment>)
    returns (byOperation: map<Id, seq<Assignment>>, byRequest: map<Id, seq<Assignment>>)
    requires DistinctIds(xs)
    ensures FiledBy(byOperation, xs, (a: Assignment, id: Id) => a.Produces(id))
    ensures FiledBy(byRequest, xs, (a: Assignment, id: Id) => a.Maintains(id))
  {
    ghost var produces := (a: Assignment, id: Id) => a.Produces(id);
    ghost var maintains := (a: Assignment, id: Id) => a.Maintains(id);
    byOperation, byRequest := map[], map[];
    var i := 0;
    while i < |xs|
      invariant 0 <= i <= |xs|
      invariant FiledBy(byOperation, xs[..i], produces)
      invariant FiledBy(byRequest, xs[..i], maintains)
    {
      assert xs[..i + 1] == xs[..i] + [xs[i]];
      match xs[i].work {
        case Production(_, id) =>
          FileUnder(byOperation, xs[..i], xs[i], id, produces);
          FileOne(byRequest, xs[..i], xs[i], maintains);
          byOperation := Filed(byOperation, id, xs[i]);
        case Maintenance(id, _) =>
          FileUnder(byRequest, xs[..i], xs[i], id, maintains);
          FileOne(byOperation, xs[..i], xs[i], produces);
          byRequest := Filed(byRequest, id, xs[i]);
        case BlockedTime =>
          FileOne(byOperation, xs[..i], xs[i], produces);
          FileOne(byRequest, xs[..i], xs[i], maintains);
      }
      i := i + 1;
    }
    assert xs[..i] == xs;
  }

  function Count(groups: map<Id, seq<Assignment>>, id: Id): nat {
    if id in groups then |groups[id]| else 0
  }

  /** Counting filed assignments decides uniqueness and existence. */
  lemma CountDecides(
    groups: map<Id, seq<Assignment>>, xs: seq<Assignment>, files: (Assignment, Id) -> bool, id: Id,
    pick: Assignment -> bool)
    requires FiledBy(groups, xs, files) && forall a :: pick(a) <==> files(a, id)
    ensures Count(groups, id) > 1 <==> !AtMostOne(Elements(xs), pick)
    ensures Count(groups, id) > 0 <==> AtLeastOne(Elements(xs), pick)
  {
    if Count(groups, id) > 1 {
      var a, b := groups[id][0], groups[id][1];
      assert a in groups[id] && b in groups[id] && a != b;
      assert a in Elements(xs) && b in Elements(xs) && pick(a) && pick(b);
    }
    if Count(groups, id) > 0 {
      assert groups[id][0] in groups[id] && pick(groups[id][0]);
    }
  }

  method CheckOperationCoverage(
    x: Index, groups: map<Id, seq<Assignment>>, ghost xs: seq<Assignment>, drafts: seq<Violation>)
    returns (out: seq<Violation>)
    requires FiledBy(groups, xs, (a: Assignment, id: Id) => a.Produces(id))
    requires forall id :: id in x.operations ==> x.operations[id].1.id == id
    ensures Codes(out) == Codes(drafts) + Failing(OperationCoverage,
              OperationsCovered(x, Elements(xs)))
  {
    out := drafts;
    var ids := x.operations.Keys;
    ghost var done: set<Id> := {};
    while ids != {}
      invariant ids + done == x.operations.Keys
      invariant Codes(out) == Codes(drafts) + Failing(OperationCoverage,
                  forall id :: id in done ==> OperationCovered(Elements(xs), x.operations[id].1))
      decreases ids
    {
      var id := Pick(ids);
      var operation := x.operations[id].1;
      var count := Count(groups, id);
      CountDecides(groups, xs, (a: Assignment, k: Id) => a.Produces(k), id,
                   (a: Assignment) => a.Produces(operation.id));
      if count > 1 || (count == 0 && !operation.status.Completed?) {
        CodesOfAppend(out, OnEntity(OperationCoverage, id));
        out := out + [OnEntity(OperationCoverage, id)];
      }
      ids, done := ids - {id}, done + {id};
    }
    assert done == x.operations.Keys;
  }

  method CheckRequestCoverage(
    x: Index, groups: map<Id, seq<Assignment>>, ghost xs: seq<Assignment>, drafts: seq<Violation>)
    returns (out: seq<Violation>)
    requires FiledBy(groups, xs, (a: Assignment, id: Id) => a.Maintains(id))
    requires forall id :: id in x.requests ==> x.requests[id].id == id
    ensures Codes(out) == Codes(drafts) + Failing(MaintenanceCoverage,
              RequestsCovered(x, Elements(xs)))
  {
    out := drafts;
    var ids := x.requests.Keys;
    ghost var done: set<Id> := {};
    while ids != {}
      invariant ids + done == x.requests.Keys
      invariant Codes(out) == Codes(drafts) + Failing(MaintenanceCoverage,
                  forall id :: id in done ==> RequestCovered(Elements(xs), x.requests[id]))
      decreases ids
    {
      var id := Pick(ids);
      var request := x.requests[id];
      var count := Count(groups, id);
      CountDecides(groups, xs, (a: Assignment, k: Id) => a.Maintains(k), id,
                   (a: Assignment) => a.Maintains(request.id));
      if count > 1 || (count == 0 && request.mandatory && request.Active()) {
        CodesOfAppend(out, OnEntity(MaintenanceCoverage, id));
        out := out + [OnEntity(MaintenanceCoverage, id)];
      }
      ids, done := ids - {id}, done + {id};
    }
    assert done == x.requests.Keys;
  }

  ghost predicate Keeps(xs: seq<Assignment>, original: Assignment) {
    original.Retained() ==> original in xs
  }

  method CheckReservations(s: Snapshot, xs: seq<Assignment>, drafts: seq<Violation>) returns (out: seq<Violation>)
    requires DistinctIds(xs)
    ensures Codes(out) == Codes(drafts) + Failing(ImmutableReservation,
              ReservationsKept(s, Elements(xs)))
  {
    assert forall i, j :: 0 <= i < |xs| && 0 <= j < |xs| && xs[i].id == xs[j].id ==> i == j;
    var byId := map a | a in xs :: a.id := a;
    var current := CurrentAssignments(s);
    out := drafts;
    var i := 0;
    while i < |current|
      invariant 0 <= i <= |current|
      invariant Codes(out) == Codes(drafts) + Failing(ImmutableReservation,
                  forall k :: 0 <= k < i ==> Keeps(xs, current[k]))
    {
      var original := current[i];
      if original.Retained() && !(original.id in byId && byId[original.id] == original) {
        CodesOfAppend(out, OnAssignment(ImmutableReservation, original.id));
        out := out + [OnAssignment(ImmutableReservation, original.id)];
      }
      i := i + 1;
    }
  }

  function Uncancelled(xs: seq<Assignment>): (r: seq<Assignment>)
    ensures forall a :: a in r <==> a in xs && !a.status.Cancelled?
  {
    if xs == [] then []
    else
      assert xs == [xs[0]] + xs[1..];
      (if xs[0].status.Cancelled? then [] else [xs[0]]) + Uncancelled(xs[1..])
  }

  lemma DistinctIdsOfCons(a: Assignment, rest: seq<Assignment>)
    requires DistinctIds(rest) && forall b :: b in rest ==> b.id != a.id
    ensures DistinctIds([a] + rest)
  {
  }

  lemma {:induction false} UncancelledDistinct(xs: seq<Assignment>)
    requires DistinctIds(xs)
    ensures DistinctIds(Uncancelled(xs))
  {
    if xs != [] {
      UncancelledDistinct(xs[1..]);
      var rest := Uncancelled(xs[1..]);
      assert [] + rest == rest;
      forall a | a in rest ensures a.id != xs[0].id {
        assert a in xs[1..];
      }
      DistinctIdsOfCons(xs[0], rest);
    }
  }

  lemma DistinctIdsOfPermutation(xs: seq<Assignment>, ys: seq<Assignment>)
    requires DistinctIds(xs) && multiset(xs) == multiset(ys)
    ensures DistinctIds(ys)
  {
    assert Distinct(xs);
    PermutationKeepsDistinct(xs, ys);
    forall i, j | 0 <= i < j < |ys| ensures ys[i].id != ys[j].id {
      assert ys[i] in xs && ys[j] in xs && ys[i] != ys[j];
    }
  }

  /** What constructing a schedule guarantees about its rows. */
  ghost predicate ProperSchedule(schedule: Schedule) {
    && DistinctIds(schedule.assignments)
    && forall a :: a in schedule.assignments ==> a.start < a.end && Distinct(a.Team())
  }

  /** The active assignments in the order the judge visits them. */
  method ActiveRows(schedule: Schedule) returns (xs: seq<Assignment>)
    requires ProperSchedule(schedule)
    ensures DistinctIds(xs) && Elements(xs) == ActivePart(schedule.assignments)
    ensures forall a :: a in xs ==> Distinct(a.Team())
  {
    var active := Uncancelled(schedule.assignments);
    UncancelledDistinct(schedule.assignments);
    xs := Sorted(active, ByTime);
    DistinctIdsOfPermutation(active, xs);
    SameMembers(active, xs);
  }

  ghost function StrictCodes(s: Snapshot, x: Index, xs: seq<Assignment>): set<Code> {
    AllRuleBreaks(x, xs)
    + Failing(OperationCoverage, OperationsCovered(x, Elements(xs)))
    + Failing(MaintenanceCoverage, RequestsCovered(x, Elements(xs)))
    + Failing(ImmutableReservation, ReservationsKept(s, Elements(xs)))
  }

  method CheckStrictConstraints(s: Snapshot, x: Index, xs: seq<Assignment>, drafts: seq<Violation>)
    returns (out: seq<Violation>)
    requires DistinctIds(xs)
    requires forall id :: id in x.operations ==> OptionsDistinct(x.operations[id].1) && x.operations[id].1.id == id
    requires forall id :: id in x.requests ==> x.requests[id].id == id
    ensures Codes(out) == Codes(drafts) + StrictCodes(s, x, xs)
  {
    out := CheckWorkRules(x, xs, drafts);
    var byOperation, byRequest := FileWork(xs);
    out := CheckOperationCoverage(x, byOperation, xs, out);
    out := CheckRequestCoverage(x, byRequest, xs, out);
    out := CheckReservations(s, xs, out);
  }

  lemma WellFormedOptions(s: Snapshot)
    requires WellFormed(s)
    ensures var x := IndexOf(s);
            && (forall id :: id in x.operations ==> OptionsDistinct(x.operations[id].1) && x.operations[id].1.id == id)
            && (forall id :: id in x.requests ==> x.requests[id].id == id)
  {
    var x := IndexOf(s);
    forall id | id in x.operations ensures OptionsDistinct(x.operations[id].1) && x.operations[id].1.id == id {
      var (j, o) := x.operations[id];
      assert HasOperation(s, j, o) && ValidOperation(s, j, o);
    }
  }

  ghost predicate DictionaryOrdered(x: Index, xs: seq<Assignment>) {
    var production := LastAssignments(x, xs);
    production.Keys <= x.operations.Keys && AllOrdered(x, production, production.Keys)
  }

  /** Does the run of checks over the active list `xs` find the code `c`? */
  ghost predicate Found(c: Code, s: Snapshot, x: Index, plan: Plan, xs: seq<Assignment>) {
    var active := Elements(xs);
    match c
    case UnknownReference => !(SameContext(s, plan) && AllKnown(x, active))
    case PlanningWindow => !(plan.schedule.window == s.window && AllInWindow(s, active))
    case MachineEligibility => !AllEligible(x, active)
    case MachineOverlap => !MachinesExclusive(active)
    case Precedence => !DictionaryOrdered(x, xs)
    case TechnicianAvailability => !(AllAttended(x, active) && TechniciansExclusive(x, active))
    case SkillAdequacy => !AllSkilled(x, active)
    case OperationCoverage => !OperationsCovered(x, active)
    case MaintenanceCoverage => !RequestsCovered(x, active)
    case ImmutableReservation => !ReservationsKept(s, active)
    case _ => c in AllRuleBreaks(x, xs)
  }

  lemma RuleCodes(c: Code, x: Index, xs: seq<Assignment>)
    ensures c in AllRuleBreaks(x, xs) <==> IsRule(c) && !AllObey(x, Elements(xs), c)
  {
    assert c in AllRuleBreaks(x, xs) <==> exists a :: a in xs && c in RuleBreaks(x, a);
    if IsRule(c) && !AllObey(x, Elements(xs), c) {
      var a :| a in Elements(xs) && !Obeys(x, a, c);
      assert a in xs && c in RuleBreaks(x, a);
    }
  }

  lemma FoundExceptPrecedence(c: Code, s: Snapshot, x: Index, plan: Plan, xs: seq<Assignment>)
    requires Elements(xs) == ActivePart(plan.schedule.assignments) && c != Precedence
    ensures Found(c, s, x, plan, xs) <==> !Clause(c, s, x, plan)
  {
    RuleCodes(c, x, xs);
  }

  lemma PrecedenceCode(s: Snapshot, x: Index, plan: Plan, xs: seq<Assignment>)
    requires PredecessorsKnown(x) && forall id :: id in x.operations ==> x.operations[id].1.id == id
    requires Elements(xs) == ActivePart(plan.schedule.assignments) && OperationsCovered(x, Elements(xs))
    ensures Found(Precedence, s, x, plan, xs) <==> !Clause(Precedence, s, x, plan)
  {
    CoverageMeansOnce(x, xs);
    DictionaryPrecedence(x, xs);
  }

  lemma CoverageMeansOnce(x: Index, xs: seq<Assignment>)
    requires OperationsCovered(x, Elements(xs)) && forall id :: id in x.operations ==> x.operations[id].1.id == id
    ensures ProducedOnce(x, xs)
  {
    forall a, b | a in xs && b in xs && KnownProduction(x, a) && b.Produces(a.work.operationId) ensures a == b {
      var o := x.operations[a.work.operationId].1;
      var produces := (c: Assignment) => c.Produces(o.id);
      assert OperationCovered(Elements(xs), o) && AtMostOne(Elements(xs), produces);
      assert produces(a) && produces(b);
    }
  }

  /** A violation code was reported exactly when its clause fails; precedence only under coverage. */
  ghost predicate ExactCodes(s: Snapshot, plan: Plan, codes: set<Code>)
  {
    forall c :: (c == Precedence ==> Holds(OperationCoverage, s, plan)) ==> (c in codes <==> !Holds(c, s, plan))
  }

  lemma FoundIsExact(c: Code, s: Snapshot, x: Index, plan: Plan, xs: seq<Assignment>)
    requires PredecessorsKnown(x) && forall id :: id in x.operations ==> x.operations[id].1.id == id
    requires Elements(xs) == ActivePart(plan.schedule.assignments)
    requires c == Precedence ==> Clause(OperationCoverage, s, x, plan)
    ensures Found(c, s, x, plan, xs) <==> !Clause(c, s, x, plan)
  {
    if c == Precedence {
      PrecedenceCode(s, x, plan, xs);
    } else {
      FoundExceptPrecedence(c, s, x, plan, xs);
    }
  }

  lemma ExactCodesDecide(s: Snapshot, plan: Plan, drafts: seq<Violation>)
    requires ExactCodes(s, plan, Codes(drafts))
    ensures drafts == [] <==> StrictValid(s, plan)
  {
    if drafts != [] {
      var v := drafts[0];
      assert v in drafts && v.code in Codes(drafts);
      assert !Holds(v.code, s, plan) || !Holds(OperationCoverage, s, plan);
    } else {
      forall c ensures Holds(c, s, plan) {
        assert OperationCoverage !in Codes(drafts) && c !in Codes(drafts);
      }
    }
  }

  /** The verdict is VALID exactly when every clause holds, and every code is reported for cause. */
  method Validate(s: Snapshot, plan: Plan) returns (drafts: seq<Violation>)
    requires WellFormed(s) && ProperSchedule(plan.schedule)
    ensures drafts == [] <==> StrictValid(s, plan)
    ensures ExactCodes(s, plan, Codes(drafts))
  {
    var x := IndexOf(s);
    WellFormedOptions(s);
    WellFormedPredecessors(s);
    var xs := ActiveRows(plan.schedule);
    drafts := RunChecks(s, x, plan, xs);
    forall c | c == Precedence ==> Holds(OperationCoverage, s, plan)
      ensures c in Codes(drafts) <==> !Holds(c, s, plan)
    {
      FoundIsExact(c, s, x, plan, xs);
    }
    ExactCodesDecide(s, plan, drafts);
  }

  datatype Group = Rows | Machines | People | Completeness

  function GroupOf(c: Code): Group {
    match c
    case UnknownReference => Rows
    case PlanningWindow => Rows
    case MachineEligibility => Machines
    case MachineOverlap => Machines
    case Precedence => Machines
    case TechnicianAvailability => People
    case SkillAdequacy => People
    case _ => Completeness
  }

  /** The step from `before` to `after` added the codes of `group` that are found, and nothing else. */
  ghost predicate AddsFound(
    before: seq<Violation>, after: seq<Violation>, group: Group, s: Snapshot, x: Index, plan: Plan, xs: seq<Assignment>)
  {
    forall c :: c in Codes(after) <==> (c in Codes(before) || (GroupOf(c) == group && Found(c, s, x, plan, xs)))
  }

  method RunChecks(s: Snapshot, x: Index, plan: Plan, xs: seq<Assignment>) returns (drafts: seq<Violation>)
    requires DistinctIds(xs) && forall a :: a in xs ==> Distinct(a.Team())
    requires forall id :: id in x.operations ==> OptionsDistinct(x.operations[id].1) && x.operations[id].1.id == id
    requires forall id :: id in x.requests ==> x.requests[id].id == id
    ensures forall c :: c in Codes(drafts) <==> Found(c, s, x, plan, xs)
  {
    drafts := CheckRows(s, x, plan, xs);
    drafts := CheckMachines(s, x, plan, xs, drafts);
    drafts := CheckPeople(s, x, plan, xs, drafts);
    drafts := CheckCompleteness(s, x, plan, xs, drafts);
  }

  method CheckRows(s: Snapshot, x: Index, plan: Plan, xs: seq<Assignment>) returns (drafts: seq<Violation>)
    ensures AddsFound([], drafts, Rows, s, x, plan, xs)
  {
    drafts := CheckPlanContext(s, plan, []);
    drafts := CheckReferences(x, xs, drafts);
    drafts := CheckPlanningWindow(s, plan, xs, drafts);
  }

  method CheckMachines(s: Snapshot, x: Index, plan: Plan, xs: seq<Assignment>, drafts: seq<Violation>)
    returns (out: seq<Violation>)
    requires DistinctIds(xs)
    ensures AddsFound(drafts, out, Machines, s, x, plan, xs)
  {
    out := CheckMachineEligibility(x, xs, drafts);
    out := CheckMachineOverlap(xs, out);
    out := CheckPrecedence(x, xs, out);
  }

  method CheckPeople(s: Snapshot, x: Index, plan: Plan, xs: seq<Assignment>, drafts: seq<Violation>)
    returns (out: seq<Violation>)
    requires DistinctIds(xs) && forall a :: a in xs ==> Distinct(a.Team())
    ensures AddsFound(drafts, out, People, s, x, plan, xs)
  {
    out := CheckTechnicians(x, xs, drafts);
  }

  method CheckCompleteness(s: Snapshot, x: Index, plan: Plan, xs: seq<Assignment>, drafts: seq<Violation>)
    returns (out: seq<Violation>)
    requires DistinctIds(xs)
    requires forall id :: id in x.operations ==> OptionsDistinct(x.operations[id].1) && x.operations[id].1.id == id
    requires forall id :: id in x.requests ==> x.requests[id].id == id
    ensures AddsFound(drafts, out, Completeness, s, x, plan, xs)
  {
    hide OptionsDistinct, AllRuleBreaks, OperationsCovered, RequestsCovered, ReservationsKept, AllKnown, AllInWindow;
    hide AllEligible, MachinesExclusive, DictionaryOrdered, AllAttended, TechniciansExclusive, AllSkilled, SameContext;
    out := CheckStrictConstraints(s, x, xs, drafts);
    forall c ensures c in AllRuleBreaks(x, xs) ==> IsRule(c) { RuleCodes(c, x, xs); }
  }
}
