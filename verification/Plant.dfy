/**
 The operations contract: what a factory snapshot and a schedule are.
 Identifiers are integers standing for their rank in the string order; times are
 microseconds; SHA-256 assignment identities are constructors, hence injective.
 */
module Plant {
  import opened Collections

  type Id = int
  type Time = int

  const MINUTE: int := 60_000_000

  datatype Window = Window(start: Time, end: Time)

  datatype MachineStatus = Idle | Running | Warning | Maintenance | Failed | Unavailable
  datatype Machine = Machine(id: Id, family: Id, status: MachineStatus, operationTypes: set<Id>)

  datatype MachineOption = MachineOption(machineId: Id, minutes: int)
  datatype OperationStatus = Pending | Ready | Scheduled | Running | Completed | Blocked
  datatype Operation = Operation(
    id: Id, sequence: nat, operationType: Id, status: OperationStatus,
    predecessors: seq<Id>, options: seq<MachineOption>)
  datatype Job = Job(id: Id, releaseAt: Time, priority: int, operations: seq<Operation>)

  datatype Skill = Skill(skillId: Id, level: int, families: set<Id>, actions: set<Id>)
  datatype TechnicianStatus = Available | Assigned | OffShift | Unavailable
  datatype Technician = Technician(
    id: Id, status: TechnicianStatus, availability: seq<Window>, skills: seq<Skill>)

  datatype RequestStatus = Open | Scheduled | InProgress | Completed | Cancelled
  datatype Request = Request(
    id: Id, machineId: Id, actionType: Id, status: RequestStatus,
    earliestStart: Time, latestStart: Option<Time>, minutes: int,
    requiredSkills: seq<Id>, minimumLevel: int, mandatory: bool)
  {
    /** Neither completed nor cancelled. */
    predicate Active() { !status.Completed? && !status.Cancelled? }

    function Duration(): int { minutes * MINUTE }
  }

  datatype Strategy = ProductionPriority | Balanced | ReliabilityPriority

  /** What an assignment occupies its machine for; the shape rules of the contract are the type. */
  datatype Work =
    | Production(jobId: Id, operationId: Id)
    | Maintenance(requestId: Id, technicianIds: seq<Id>)
    | BlockedTime

  datatype AssignmentId =
    | External(name: Id)
    | ForOperation(strategy: Strategy, operationId: Id)
    | ForRequest(strategy: Strategy, requestId: Id)
  datatype AssignmentStatus = Proposed | Committed | Running | Completed | Cancelled
  datatype Assignment = Assignment(
    id: AssignmentId, work: Work, status: AssignmentStatus, machineId: Id,
    start: Time, end: Time, locked: bool)
  {
    predicate Retained() { locked || status.Running? || status.Completed? }

    predicate Produces(operationId: Id) { work.Production? && work.operationId == operationId }

    predicate Maintains(requestId: Id) { work.Maintenance? && work.requestId == requestId }

    function Team(): seq<Id> { if work.Maintenance? then work.technicianIds else [] }
  }

  datatype Schedule = Schedule(factoryId: Id, revision: int, window: Window, assignments: seq<Assignment>)

  datatype Snapshot = Snapshot(
    id: Id, factoryId: Id, window: Window,
    machines: seq<Machine>, jobs: seq<Job>, technicians: seq<Technician>,
    health: map<Id, real>, requests: seq<Request>, current: Option<Schedule>)

  /** Half-open intervals [start, end) and [other.start, other.end) meet. */
  predicate Overlaps(start: Time, end: Time, other: Assignment) {
    start < other.end && other.start < end
  }

  ghost predicate HasOperation(s: Snapshot, j: Job, o: Operation) {
    j in s.jobs && o in j.operations
  }

  ghost predicate UniqueIds(s: Snapshot) {
    && (forall i, j :: 0 <= i < j < |s.machines| ==> s.machines[i].id != s.machines[j].id)
    && (forall i, j :: 0 <= i < j < |s.technicians| ==> s.technicians[i].id != s.technicians[j].id)
    && (forall i, j :: 0 <= i < j < |s.requests| ==> s.requests[i].id != s.requests[j].id)
    && (forall i, j :: 0 <= i < j < |s.jobs| ==> s.jobs[i].id != s.jobs[j].id)
    && (forall job :: job in s.jobs ==> forall i, j ::
          0 <= i < j < |job.operations| ==> job.operations[i].id != job.operations[j].id)
    && (forall j, o, k, p :: HasOperation(s, j, o) && HasOperation(s, k, p) && o.id == p.id ==> j == k && o == p)
  }

  /** Dictionaries keyed by identifier, as a dict comprehension builds them: a repeated key keeps its last value. */
  function MachineTable(machines: seq<Machine>): (table: map<Id, Machine>)
    ensures forall v :: v in machines ==> v.id in table
    ensures forall id :: id in table ==> table[id] in machines && table[id].id == id
  {
    if machines == [] then map[]
    else
      var n := |machines| - 1;
      assert machines == machines[..n] + [machines[n]];
      MachineTable(machines[..n])[machines[n].id := machines[n]]
  }

  function TechnicianTable(technicians: seq<Technician>): (table: map<Id, Technician>)
    ensures forall v :: v in technicians ==> v.id in table
    ensures forall id :: id in table ==> table[id] in technicians && table[id].id == id
  {
    if technicians == [] then map[]
    else
      var n := |technicians| - 1;
      assert technicians == technicians[..n] + [technicians[n]];
      TechnicianTable(technicians[..n])[technicians[n].id := technicians[n]]
  }

  function RequestTable(requests: seq<Request>): (table: map<Id, Request>)
    ensures forall v :: v in requests ==> v.id in table
    ensures forall id :: id in table ==> table[id] in requests && table[id].id == id
  {
    if requests == [] then map[]
    else
      var n := |requests| - 1;
      assert requests == requests[..n] + [requests[n]];
      RequestTable(requests[..n])[requests[n].id := requests[n]]
  }

  function JobTable(job: Job, operations: seq<Operation>): (table: map<Id, (Job, Operation)>)
    ensures forall o :: o in operations ==> o.id in table
    ensures forall id :: id in table ==> table[id].0 == job && table[id].1 in operations && table[id].1.id == id
  {
    if operations == [] then map[]
    else
      var n := |operations| - 1;
      assert operations == operations[..n] + [operations[n]];
      JobTable(job, operations[..n])[operations[n].id := (job, operations[n])]
  }

  function OperationTable(jobs: seq<Job>): (table: map<Id, (Job, Operation)>)
    ensures forall j, o :: j in jobs && o in j.operations ==> o.id in table
    ensures forall id :: id in table ==>
              table[id].0 in jobs && table[id].1 in table[id].0.operations && table[id].1.id == id
  {
    if jobs == [] then map[]
    else
      var n := |jobs| - 1;
      assert jobs == jobs[..n] + [jobs[n]];
      OperationTable(jobs[..n]) + JobTable(jobs[n], jobs[n].operations)
  }

  /** The dictionaries a judge or planner builds once from a snapshot. */
  datatype Index = Index(
    machines: map<Id, Machine>, operations: map<Id, (Job, Operation)>,
    technicians: map<Id, Technician>, requests: map<Id, Request>)

  function IndexOf(s: Snapshot): Index {
    Index(MachineTable(s.machines), OperationTable(s.jobs), TechnicianTable(s.technicians), RequestTable(s.requests))
  }

  lemma MachinesAreExact(machines: seq<Machine>)
    requires forall i, j :: 0 <= i < j < |machines| ==> machines[i].id != machines[j].id
    ensures forall m :: m in machines ==> m.id in MachineTable(machines) && MachineTable(machines)[m.id] == m
  {
    hide MachineTable;
  }

  lemma TechniciansAreExact(technicians: seq<Technician>)
    requires forall i, j :: 0 <= i < j < |technicians| ==> technicians[i].id != technicians[j].id
    ensures forall t :: t in technicians ==>
              t.id in TechnicianTable(technicians) && TechnicianTable(technicians)[t.id] == t
  {
    hide TechnicianTable;
  }

  lemma RequestsAreExact(requests: seq<Request>)
    requires forall i, j :: 0 <= i < j < |requests| ==> requests[i].id != requests[j].id
    ensures forall r :: r in requests ==> r.id in RequestTable(requests) && RequestTable(requests)[r.id] == r
  {
    hide RequestTable;
  }

  lemma OperationsAreExact(s: Snapshot)
    requires UniqueIds(s)
    ensures var table := OperationTable(s.jobs);
            forall j, o :: HasOperation(s, j, o) ==> o.id in table && table[o.id] == (j, o)
  {
    hide OperationTable;
    var table := OperationTable(s.jobs);
    forall j, o | HasOperation(s, j, o) ensures o.id in table && table[o.id] == (j, o) {
      assert HasOperation(s, table[o.id].0, table[o.id].1);
    }
  }

  /** With unique identifiers every entity is found under its own. */
  lemma IndexIsExact(s: Snapshot)
    requires UniqueIds(s)
    ensures var x := IndexOf(s);
            && (forall m :: m in s.machines ==> m.id in x.machines && x.machines[m.id] == m)
            && (forall t :: t in s.technicians ==> t.id in x.technicians && x.technicians[t.id] == t)
            && (forall r :: r in s.requests ==> r.id in x.requests && x.requests[r.id] == r)
            && (forall j, o :: HasOperation(s, j, o) ==> o.id in x.operations && x.operations[o.id] == (j, o))
  {
    MachinesAreExact(s.machines);
    TechniciansAreExact(s.technicians);
    RequestsAreExact(s.requests);
    OperationsAreExact(s);
    hide UniqueIds, MachineTable, TechnicianTable, RequestTable, OperationTable;
  }

  ghost predicate ValidOperation(s: Snapshot, j: Job, o: Operation) {
    var machines := IndexOf(s).machines;
    && o.options != []
    && (forall i, k :: 0 <= i < k < |o.options| ==> o.options[i].machineId != o.options[k].machineId)
    && (forall opt :: opt in o.options ==>
          && opt.minutes >= 1
          && opt.machineId in machines
          && o.operationType in machines[opt.machineId].operationTypes)
    && (forall p :: p in o.predecessors ==>
          exists q :: q in j.operations && q.id == p && q.sequence < o.sequence)
  }

  ghost predicate ValidRequest(s: Snapshot, r: Request) {
    && r.machineId in IndexOf(s).machines
    && r.minutes >= 1
    && r.requiredSkills != []
    && (r.latestStart.Some? ==> r.earliestStart <= r.latestStart.value)
  }

  ghost predicate ValidAssignment(s: Snapshot, a: Assignment) {
    && a.start < a.end
    && s.window.start <= a.start && a.end <= s.window.end
    && a.machineId in IndexOf(s).machines
    && match a.work {
         case Production(j, o) => o in IndexOf(s).operations && IndexOf(s).operations[o].0.id == j
         case Maintenance(r, team) =>
           && r in IndexOf(s).requests
           && team != [] && Distinct(team)
           && forall t :: t in team ==> t in IndexOf(s).technicians
         case BlockedTime => true
       }
  }

  /** Assignment identifiers of one schedule are distinct, position by position. */
  ghost predicate DistinctIds(xs: seq<Assignment>) {
    forall i, j :: 0 <= i < j < |xs| ==> xs[i].id != xs[j].id
  }

  /** What parsing a snapshot guarantees about its cross references. */
  ghost predicate WellFormed(s: Snapshot) {
    && UniqueIds(s)
    && s.window.start < s.window.end
    && (forall m :: m in s.machines ==> m.operationTypes != {})
    && (forall j :: j in s.jobs ==> j.operations != [])
    && (forall j, o :: HasOperation(s, j, o) ==> ValidOperation(s, j, o))
    && (forall r :: r in s.requests ==> ValidRequest(s, r))
    && (forall t :: t in s.technicians ==> forall w :: w in t.availability ==> w.start < w.end)
    && (s.current.Some? ==>
          && s.current.value.factoryId == s.factoryId
          && s.current.value.window == s.window
          && DistinctIds(s.current.value.assignments)
          && forall a :: a in s.current.value.assignments ==> ValidAssignment(s, a))
  }

  function CurrentAssignments(s: Snapshot): seq<Assignment> {
    if s.current.Some? then s.current.value.assignments else []
  }

  predicate Qualifies(skill: Skill, r: Request, family: Id) {
    && skill.level >= r.minimumLevel
    && family in skill.families
    && r.actionType in skill.actions
  }

  predicate OnDuty(t: Technician) {
    !t.status.OffShift? && !t.status.Unavailable?
  }

  /** Technician `t` can exercise skill `skillId` at the level, family and action `r` asks for. */
  predicate Masters(t: Technician, skillId: Id, r: Request, family: Id) {
    exists skill :: skill in t.skills && skill.skillId == skillId && Qualifies(skill, r, family)
  }

  predicate Contains(w: Window, start: Time, end: Time) {
    w.start <= start && end <= w.end
  }
}
