/**
 Greedy plan construction under the strict profile. The scheduler appends bookings to a
 list and to the calendars of their machine and technicians; every booking keeps the list
 admissible, so what the builder returns the judge accepts.
 */
module Scheduler {
  import opened Collections
  import opened Plant
  import opened Judge
  import opened Slots
  import opened Teams
  import opened Bookings
  import opened Greedy
  import opened Validator

  datatype Refusal =
    | Blocked(operationId: Id)
    | NoPredecessor(operationId: Id)
    | NoMachineSlot(operationId: Id)
    | NoMaintenanceSlot(requestId: Id)

  /** The planner's reason for a refusal is true of the bookings made so far. */
  ghost predicate Justified(
    s: Snapshot, x: Index, strategy: Strategy, bookings: seq<Assignment>, locked: set<Id>, reason: Refusal)
  {
    match reason
    case Blocked(id) => id in x.operations && x.operations[id].1.status.Blocked?
    case NoPredecessor(id) => Orphaned(x, locked, id)
    case NoMachineSlot(id) =>
      && id in x.operations && id !in locked && !x.operations[id].1.status.Completed? && id !in ProducedIds(bookings)
      && Stuck(s, x, bookings, x.operations[id].0, x.operations[id].1)
    case NoMaintenanceSlot(id) =>
      && id in x.requests && ToServe(s, x, x.requests[id]) && id !in MaintainedIds(bookings)
      && Soonest(s, x, bookings, x.requests[id], strategy, None)
  }

  ghost predicate NothingBlocked(x: Index) {
    forall id :: id in x.operations ==> !x.operations[id].1.status.Blocked?
  }

  datatype Outcome = TimedOut | NoPlan(reason: Refusal) | Built(schedule: Schedule)

  /** What one scheduling step reports. */
  datatype Step = Expired | Refused(reason: Refusal) | Proceed

  class DeterministicScheduler {
    const s: Snapshot
    const x: Index
    var assignments: seq<Assignment>
    var machineCalendar: map<Id, seq<Assignment>>
    var technicianCalendar: map<Id, seq<Assignment>>

    /** Calendars hold exactly the bookings of their machine or technician. */
    ghost predicate Valid()
      reads this
    {
      && machineCalendar.Keys == x.machines.Keys
      && technicianCalendar.Keys == x.technicians.Keys
      && (forall m, a :: m in machineCalendar ==> (a in machineCalendar[m] <==> a in assignments && a.machineId == m))
      && (forall t, a :: t in technicianCalendar ==>
            (a in technicianCalendar[t] <==> a in assignments && t in a.Team()))
    }

    constructor (snapshot: Snapshot)
      requires WellFormed(snapshot)
      ensures Valid() && s == snapshot && x == IndexOf(snapshot) && assignments == []
    {
      s, x := snapshot, IndexOf(snapshot);
      assignments := [];
      machineCalendar := map id | id in IndexOf(snapshot).machines :: [];
      technicianCalendar := map id | id in IndexOf(snapshot).technicians :: [];
    }

    /** Append to the list, to the machine's calendar and to every team member's calendar. */
    method Book(a: Assignment)
      requires Valid() && KnownReferences(x, a)
      modifies this
      ensures Valid() && assignments == old(assignments) + [a]
    {
      assignments := assignments + [a];
      machineCalendar := Filed(machineCalendar, a.machineId, a);
      FileTeamCalendars(a, old(assignments));
    }

    /** The booking goes to the calendar of each member of its team. */
    method FileTeamCalendars(a: Assignment, ghost before: seq<Assignment>)
      requires technicianCalendar.Keys == x.technicians.Keys && forall t :: t in a.Team() ==> t in x.technicians
      requires forall t, b :: t in technicianCalendar ==> (b in technicianCalendar[t] <==> b in before && t in b.Team())
      modifies this`technicianCalendar
      ensures technicianCalendar.Keys == x.technicians.Keys
      ensures forall t, b :: t in technicianCalendar ==>
                (b in technicianCalendar[t] <==> (b in before || b == a) && t in b.Team())
    {
      var team := a.Team();
      var i := 0;
      while i < |team|
        invariant 0 <= i <= |team|
        invariant technicianCalendar.Keys == x.technicians.Keys
        invariant forall t, b :: t in technicianCalendar ==>
                    (b in technicianCalendar[t] <==> (b in before && t in b.Team()) || (b == a && t in team[..i]))
      {
        assert team[..i + 1] == team[..i] + [team[i]];
        technicianCalendar := Filed(technicianCalendar, team[i], a);
        i := i + 1;
      }
      assert team[..i] == team;
    }

    /** The earliest free slot of one option's machine; an unusable machine offers none. */
    method FindMachineSlot(option: MachineOption, earliest: Time) returns (slot: Option<Time>)
      requires Valid() && option.machineId in x.machines && option.minutes >= 1
      requires forall a :: a in assignments ==> a.start < a.end
      ensures OptionSlots(s, x, assignments, option, earliest, slot)
    {
      if !Usable(x.machines[option.machineId]) {
        return None;
      }
      var duration := option.minutes * MINUTE;
      var calendar := machineCalendar[option.machineId];
      slot := FindSlot(calendar, Max(earliest, s.window.start), duration, s.window.end);
      SameEntriesSameSlot(calendar, OnMachine(assignments, option.machineId), Max(earliest, s.window.start), duration,
                          s.window.end - duration, slot);
    }

    /** The machine slot with the lowest (score, machine, start) among the operation's usable options. */
    method ChooseMachine(o: Operation, earliest: Time, strategy: Strategy) returns (choice: Option<Choice>)
      requires Valid()
               && (forall option :: option in o.options ==> option.machineId in x.machines && option.minutes >= 1)
      requires forall a :: a in assignments ==> a.start < a.end
      ensures choice.None? ==> NoSlot(s, x, assignments, o, earliest)
      ensures choice.Some? ==> IsLeast(s, x, assignments, o, earliest, strategy, choice.value)
    {
      var choices: seq<Choice> := [];
      var i := 0;
      while i < |o.options|
        invariant 0 <= i <= |o.options|
        invariant OffersOf(s, x, assignments, o, o.options[..i], earliest, strategy, choices)
      {
        var option := o.options[i];
        var slot := FindMachineSlot(option, earliest);
        OffersGrow(s, x, assignments, o, i, earliest, strategy, choices, slot);
        if slot.Some? {
          var end := slot.value + option.minutes * MINUTE;
          var score := Score(s, strategy, o.id, option.machineId, end);
          choices := choices + [Choice(score, option.machineId, slot.value, end)];
        }
        i := i + 1;
      }
      assert o.options[..i] == o.options;
      choice := if choices == [] then None else Some(BestChoice(choices));
    }

    /** `completion` maps exactly the produced operations to the end of their booking. */
    ghost predicate Completions(completion: map<Id, Time>)
      reads this
    {
      && (forall a :: a in assignments && a.work.Production? ==> a.work.operationId in completion)
      && (forall id :: id in completion ==> exists a :: a in assignments && a.Produces(id) && a.end == completion[id])
    }

    /** Production so far: only retained operations and those in `done` are booked, and `done` is served. */
    ghost predicate Progress(completion: map<Id, Time>, locked: set<Id>, done: set<Id>)
      reads this
    {
      Completions(completion) && Tracked(completion, locked, done)
    }

    /** The part of it that reads the completion times only. */
    ghost predicate Tracked(completion: map<Id, Time>, locked: set<Id>, done: set<Id>) {
      && locked <= completion.Keys
      && (forall id :: id in completion ==>
            id in locked || (id in done && id in x.operations && !x.operations[id].1.status.Completed?))
      && (forall id :: id in done && id in x.operations ==> !x.operations[id].1.status.Blocked?)
      && (forall id :: id in done && id in x.operations && !x.operations[id].1.status.Completed? ==>
            id in completion && (id in locked || forall p :: p in x.operations[id].1.predecessors ==> p in completion))
    }

    ghost predicate Ready()
      reads this
    {
      Valid() && Admissible(s, x, assignments)
    }

    /** `start` is free on the machine, so a production booking there fits all others. */
    lemma ProductionFits(a: Assignment, duration: int)
      requires Valid() && a.work.Production? && a.machineId in machineCalendar && a.end == a.start + duration
      requires Free(machineCalendar[a.machineId], a.start, duration)
      requires forall b :: b in assignments ==> !b.Produces(a.work.operationId)
      ensures forall b :: b in assignments ==> Fit(a, b)
    {
    }

    predicate KnownId(o: Operation) {
      o.id in x.operations && x.operations[o.id].1 == o
    }

    /** A booking and its end keep the completion times those of the bookings. */
    lemma CompletionsGrow(before: seq<Assignment>, completion: map<Id, Time>, a: Assignment, id: Id)
      requires assignments == before + [a] && a.Produces(id)
      requires forall b :: b in before && b.work.Production? ==> b.work.operationId in completion
      requires forall k :: k in completion ==> exists b :: b in before && b.Produces(k) && b.end == completion[k]
      ensures Completions(completion[id := a.end])
    {
      var next := completion[id := a.end];
      forall k | k in next ensures exists b :: b in assignments && b.Produces(k) && b.end == next[k] {
        if k == id {
          assert a in assignments;
        } else {
          var b :| b in before && b.Produces(k) && b.end == completion[k];
          assert b in assignments;
        }
      }
    }

    /** Book a production slot and note its completion. */
    method BookProduction(
      a: Assignment, o: Operation, completion: map<Id, Time>, ghost locked: set<Id>, ghost done: set<Id>)
      returns (next: map<Id, Time>)
      requires Ready() && Progress(completion, locked, done) && Sound(s, x, a) && a.Produces(o.id)
      requires forall b :: b in assignments ==> Fit(a, b) && b.id != a.id
      requires KnownId(o) && !o.status.Completed? && !o.status.Blocked?
      requires forall p :: p in o.predecessors ==> p in completion
      modifies this
      ensures Ready() && assignments == old(assignments) + [a]
      ensures Progress(next, locked, done + {o.id})
    {
      hide Admissible, Sound, Fit, Tracked, KnownId;
      SoundIsKnown(s, x, a);
      BookingExtends(s, x, assignments, a);
      Book(a);
      next := completion[o.id := a.end];
      hide Valid;
      CompletionsGrow(old(assignments), completion, a, o.id);
      TrackedGrows(completion, locked, done, o, a.end);
    }

    lemma TrackedGrows(completion: map<Id, Time>, locked: set<Id>, done: set<Id>, o: Operation, end: Time)
      requires Tracked(completion, locked, done) && KnownId(o) && !o.status.Completed? && !o.status.Blocked?
      requires forall p :: p in o.predecessors ==> p in completion
      ensures Tracked(completion[o.id := end], locked, done + {o.id})
    {
    }

    lemma OneProducer(a: Assignment, b: Assignment)
      requires Ready() && a in assignments && b in assignments
      requires b.work.Production? && a.Produces(b.work.operationId)
      ensures a == b
    {
      hide Valid, Sound;
      assert a != b ==> Fit(a, b);
    }

    /** The bound computed from the completion times is the one of the rule. */
    lemma BoundIsReady(job: Job, o: Operation, completion: map<Id, Time>, ends: seq<Time>)
      requires Ready() && Completions(completion)
      requires ends == EndsOf(o.predecessors, completion) && |ends| == |o.predecessors|
      ensures ReadyAt(assignments, job, o, LatestOf(job.releaseAt, ends))
    {
      hide Ready;
      var earliest := LatestOf(job.releaseAt, ends);
      forall b | b in assignments && b.work.Production? && b.work.operationId in o.predecessors
        ensures b.end <= earliest
      {
        var a :| a in assignments && a.Produces(b.work.operationId) && a.end == completion[b.work.operationId];
        OneProducer(a, b);
      }
      if earliest != job.releaseAt {
        var p := EndsArePredecessors(o.predecessors, completion, earliest);
        assert exists b :: b in assignments && b.Produces(p) && b.end == completion[p];
      }
    }

    /** The booking for an operation whose predecessors are all completed in the plan. */
    method PlaceOperation(job: Job, o: Operation, strategy: Strategy, completion: map<Id, Time>, ends: seq<Time>)
      returns (a: Option<Assignment>)
      requires Ready() && KnownOperation(x, job, o) && Completions(completion) && o.id !in completion
      requires !o.status.Blocked? && !o.status.Completed?
      requires ends == EndsOf(o.predecessors, completion) && |ends| == |o.predecessors|
      ensures a.Some? ==> Sound(s, x, a.value) && a.value.Produces(o.id)
      ensures a.Some? ==> forall b :: b in assignments ==> Fit(a.value, b) && b.id != a.value.id
      ensures a.Some? ==> Chosen(s, x, strategy, assignments, a.value)
      ensures a.None? ==> Stuck(s, x, assignments, job, o)
    {
      hide Admissible, IsLeast, NoSlot, ReadyAt, EndsOf, Sound, Fit, IsBestPlace, Usable, Completions;
      AdmissibleFacts(s, x, assignments);
      var earliest := LatestOf(job.releaseAt, ends);
      BoundIsReady(job, o, completion, ends);
      NotYetProduced(o, completion);
      var choice := ChooseMachine(o, earliest, strategy);
      if choice.None? {
        return None;
      }
      var c := choice.value;
      var booking := Assignment(
        ForOperation(strategy, o.id), Production(job.id, o.id), Proposed, c.machineId, c.start, c.end, false);
      LeastPlaceIsSound(job, o, strategy, earliest, c, booking);
      a := Some(booking);
    }

    lemma NotYetProduced(o: Operation, completion: map<Id, Time>)
      requires Completions(completion) && o.id !in completion
      ensures forall b :: b in assignments ==> !b.Produces(o.id)
    {
    }

    /** The least choice makes a sound booking that fits all others and is the rule's. */
    lemma LeastPlaceIsSound(job: Job, o: Operation, strategy: Strategy, earliest: Time, c: Choice, booking: Assignment)
      requires Ready() && KnownOperation(x, job, o) && !o.status.Blocked? && !o.status.Completed?
      requires forall b :: b in assignments ==> !b.Produces(o.id) && IdMatchesWork(b)
      requires ReadyAt(assignments, job, o, earliest) && IsLeast(s, x, assignments, o, earliest, strategy, c)
      requires booking == Assignment(ForOperation(strategy, o.id), Production(job.id, o.id), Proposed, c.machineId,
                                     c.start, c.end, false)
      ensures Sound(s, x, booking) && Chosen(s, x, strategy, assignments, booking)
      ensures forall b :: b in assignments ==> Fit(booking, b) && b.id != booking.id
    {
      hide Admissible;
      var option :| option in o.options && IsChoice(s, x, assignments, o, option, earliest, strategy, c);
      assert IsBestPlace(s, x, assignments, job, o, strategy, booking);
      hide IsLeast, KnownOperation;
      ChoiceIsFree(o, option, earliest, strategy, c);
      KnownOptions(x, job, o);
      ProductionIsSound(s, x, job, o, option, booking);
      ProductionFits(booking, option.minutes * MINUTE);
    }

    lemma ChoiceIsFree(o: Operation, option: MachineOption, earliest: Time, strategy: Strategy, c: Choice)
      requires Valid() && option.machineId in x.machines
      requires IsChoice(s, x, assignments, o, option, earliest, strategy, c)
      ensures Usable(x.machines[option.machineId]) && Free(machineCalendar[option.machineId], c.start, c.end - c.start)
      ensures Max(earliest, s.window.start) <= c.start && c.end <= s.window.end
      ensures c.machineId == option.machineId && c.end == c.start + option.minutes * MINUTE
    {
      var calendar := OnMachine(assignments, option.machineId);
      assert Free(calendar, c.start, c.end - c.start);
      assert forall b :: b in machineCalendar[option.machineId] <==> b in calendar;
    }

    /** Place and book an operation, or leave everything as it is. */
    method ProduceOperation(
      job: Job, o: Operation, strategy: Strategy, completion: map<Id, Time>, ends: seq<Time>,
      ghost locked: set<Id>, ghost done: set<Id>)
      returns (booked: bool, next: map<Id, Time>)
      requires Ready() && KnownOperation(x, job, o) && Progress(completion, locked, done) && o.id !in completion
      requires !o.status.Blocked? && !o.status.Completed?
      requires ends == EndsOf(o.predecessors, completion) && |ends| == |o.predecessors|
      modifies this
      ensures Ready() && Run(s, x, strategy, old(assignments), assignments)
      ensures forall a :: a in Added(old(assignments), assignments) ==> a.Produces(o.id)
      ensures booked ==> Progress(next, locked, done + {o.id})
      ensures !booked ==> assignments == old(assignments) && o.id !in ProducedIds(assignments)
      ensures !booked ==> Stuck(s, x, assignments, job, o)
    {
      var a := PlaceOperation(job, o, strategy, completion, ends);
      if a.None? {
        return false, completion;
      }
      RunOfOne(s, x, strategy, assignments, a.value);
      next := BookProduction(a.value, o, completion, locked, done);
      booked := true;
    }

    /** A served predecessor without completion time is a completed operation without reservation. */
    lemma MissingEndMeansOrphan(o: Operation, completion: map<Id, Time>, locked: set<Id>, done: set<Id>)
      requires Progress(completion, locked, done) && KnownId(o) && o.id !in locked && !o.status.Completed?
      requires forall p :: p in o.predecessors ==> p in done && p in x.operations
      requires |EndsOf(o.predecessors, completion)| != |o.predecessors|
      ensures Orphaned(x, locked, o.id)
    {
      var i :| 0 <= i < |o.predecessors| && o.predecessors[i] !in completion;
      assert o.predecessors[i] in o.predecessors && Lost(x, locked, o.predecessors[i]);
    }

    method ScheduleOperation(
      job: Job, o: Operation, strategy: Strategy, completion: map<Id, Time>, locked: set<Id>, ghost done: set<Id>)
      returns (step: Step, next: map<Id, Time>)
      requires Ready() && KnownOperation(x, job, o) && o.id !in done && Progress(completion, locked, done)
      requires forall p :: p in o.predecessors ==> p in done && p in x.operations
      modifies this
      ensures Ready() && Run(s, x, strategy, old(assignments), assignments)
      ensures forall a :: a in Added(old(assignments), assignments) ==> a.Produces(o.id)
      ensures step.Proceed? ==> Progress(next, locked, done + {o.id})
      ensures step.Refused? ==> Justified(s, x, strategy, assignments, locked, step.reason)
    {
      hide Ready, Stuck, Orphaned;
      next := completion;
      var expired := CheckDeadline();
      if expired {
        return Expired, next;
      }
      if o.status.Blocked? {
        return Refused(Refusal.Blocked(o.id)), next;
      }
      if o.status.Completed? || o.id in locked {
        return Proceed, next;
      }
      var ends := EndsOf(o.predecessors, completion);
      if |ends| != |o.predecessors| {
        MissingEndMeansOrphan(o, completion, locked, done);
        return Refused(NoPredecessor(o.id)), next;
      }
      var booked;
      booked, next := ProduceOperation(job, o, strategy, completion, ends, locked, done);
      step := if booked then Proceed else Refused(NoMachineSlot(o.id));
    }

    /** The first `k` operations of the job, and no others, have been served since `before`. */
    ghost predicate Produced(
      strategy: Strategy, job: Job, operations: seq<Operation>, k: nat, before: seq<Assignment>)
      reads this
    {
      && k <= |operations|
      && Run(s, x, strategy, before, assignments)
      && ForOperations(x, job, operations[..k], Added(before, assignments))
    }

    /** A job's operations in the order they are visited. */
    ghost predicate InSequence(job: Job, operations: seq<Operation>) {
      && SortedBy(operations, BySequence) && Distinct(operations)
      && forall o :: o in operations <==> o in job.operations
    }

    lemma SortedInSequence(job: Job, operations: seq<Operation>)
      requires KnownJob(x, job) && operations == Sorted(job.operations, BySequence)
      ensures InSequence(job, operations)
    {
      SortedIsSorted(job.operations, BySequence);
      PermutationKeepsDistinct(job.operations, operations);
    }

    /** The next operation of the job. */
    method VisitOperation(
      job: Job, operations: seq<Operation>, k: nat, strategy: Strategy, completion: map<Id, Time>, locked: set<Id>,
      ghost done: set<Id>, ghost before: seq<Assignment>)
      returns (step: Step, next: map<Id, Time>)
      requires Ready() && KnownJob(x, job) && InSequence(job, operations) && k < |operations|
      requires Produced(strategy, job, operations, k, before)
      requires Progress(completion, locked, done + IdsOfOperations(operations[..k]))
      requires forall o :: o in job.operations ==> o.id !in done
      modifies this
      ensures Ready() && Produced(strategy, job, operations, k + 1, before)
      ensures step.Proceed? ==> Progress(next, locked, done + IdsOfOperations(operations[..k + 1]))
      ensures step.Refused? ==> Justified(s, x, strategy, assignments, locked, step.reason)
    {
      ghost var served := done + IdsOfOperations(operations[..k]);
      PredecessorsComeFirst(x, job, operations, k);
      IdsOfOneMore(operations, k);
      assert operations[k] in job.operations;
      step, next := ScheduleOperation(job, operations[k], strategy, completion, locked, served);
      OperationInTurn(s, x, strategy, job, operations, k, before, old(assignments), assignments);
      assert served + {operations[k].id} == done + IdsOfOperations(operations[..k + 1]);
    }

    lemma AllOperationsVisited(
      strategy: Strategy, job: Job, operations: seq<Operation>, k: nat, before: seq<Assignment>)
      requires Produced(strategy, job, operations, k, before) && InSequence(job, operations)
      ensures Run(s, x, strategy, before, assignments) && ForJobs(x, [job], Added(before, assignments))
      ensures IdsOfOperations(operations) == IdsOfOperations(job.operations)
    {
    }

    lemma NoneProduced(strategy: Strategy, job: Job, operations: seq<Operation>)
      ensures Produced(strategy, job, operations, 0, assignments) && IdsOfOperations(operations[..0]) == {}
    {
    }

    /** Visit the operations in the given order until one is refused. */
    method VisitOperations(
      job: Job, operations: seq<Operation>, strategy: Strategy, completion: map<Id, Time>, locked: set<Id>,
      ghost done: set<Id>)
      returns (step: Step, next: map<Id, Time>, k: nat)
      requires Ready() && KnownJob(x, job) && InSequence(job, operations)
      requires Progress(completion, locked, done + IdsOfOperations(operations[..0]))
      requires forall o :: o in job.operations ==> o.id !in done
      modifies this
      ensures Ready() && Produced(strategy, job, operations, k, old(assignments))
      ensures step.Proceed? ==> k == |operations| && Progress(next, locked, done + IdsOfOperations(operations[..k]))
      ensures step.Refused? ==> Justified(s, x, strategy, assignments, locked, step.reason)
    {
      hide Produced, Justified, Progress, InSequence, Ready, KnownJob;
      NoneProduced(strategy, job, operations);
      step, next, k := Proceed, completion, 0;
      while k < |operations| && step.Proceed?
        invariant 0 <= k <= |operations|
        invariant Ready() && Produced(strategy, job, operations, k, old(assignments))
        invariant step.Proceed? ==> Progress(next, locked, done + IdsOfOperations(operations[..k]))
        invariant step.Refused? ==> Justified(s, x, strategy, assignments, locked, step.reason)
        decreases |operations| - k
      {
        step, next := VisitOperation(job, operations, k, strategy, next, locked, done, old(assignments));
        k := k + 1;
      }
    }

    /** The operations of one job in sequence order. */
    method ScheduleJob(job: Job, strategy: Strategy, completion: map<Id, Time>, locked: set<Id>, ghost done: set<Id>)
      returns (step: Step, next: map<Id, Time>)
      requires Ready() && Progress(completion, locked, done) && KnownJob(x, job)
      requires forall o :: o in job.operations ==> o.id !in done
      modifies this
      ensures Ready() && Run(s, x, strategy, old(assignments), assignments)
      ensures ForJobs(x, [job], Added(old(assignments), assignments))
      ensures step.Proceed? ==> Progress(next, locked, done + IdsOfOperations(job.operations))
      ensures step.Refused? ==> Justified(s, x, strategy, assignments, locked, step.reason)
    {
      var operations := Sorted(job.operations, BySequence);
      SortedInSequence(job, operations);
      assert done + IdsOfOperations(operations[..0]) == done;
      var k;
      step, next, k := VisitOperations(job, operations, strategy, completion, locked, done);
      AllOperationsVisited(strategy, job, operations, k, old(assignments));
      assert k == |operations| ==> operations[..k] == operations;
    }

    /** Completion times of the operations already booked; those operations are locked. */
    method LockedCompletions() returns (completion: map<Id, Time>)
      requires Ready()
      ensures completion.Keys == ProducedIds(assignments) && Progress(completion, completion.Keys, {})
    {
      assert forall a, b :: a in assignments && b in assignments && a != b ==> Fit(a, b);
      completion := map a | a in assignments && a.work.Production? :: a.work.operationId := a.end;
    }

    /** The next job of the list, none of whose operations was served before. */
    method VisitJob(jobs: seq<Job>, i: nat, strategy: Strategy, completion: map<Id, Time>, locked: set<Id>)
      returns (step: Step, next: map<Id, Time>)
      requires i < |jobs| && DisjointJobs(jobs) && KnownJob(x, jobs[i])
      requires Ready() && Progress(completion, locked, IdsOfJobs(jobs[..i]))
      modifies this
      ensures Ready() && Run(s, x, strategy, old(assignments), assignments)
      ensures ForJobs(x, [jobs[i]], Added(old(assignments), assignments))
      ensures step.Proceed? ==> Progress(next, locked, IdsOfJobs(jobs[..i + 1]))
      ensures step.Refused? ==> Justified(s, x, strategy, assignments, locked, step.reason)
    {
      JobComesOnce(jobs, i);
      step, next := ScheduleJob(jobs[i], strategy, completion, locked, IdsOfJobs(jobs[..i]));
    }

    method ScheduleJobs(jobs: seq<Job>, strategy: Strategy, completion: map<Id, Time>, locked: set<Id>)
      returns (step: Step, next: map<Id, Time>)
      requires Ready() && Progress(completion, locked, {}) && JobsIndexed(x, jobs) && SortedBy(jobs, ByPriority)
      modifies this
      ensures Ready() && Run(s, x, strategy, old(assignments), assignments)
      ensures ForJobs(x, jobs, Added(old(assignments), assignments))
      ensures step.Proceed? ==> Progress(next, locked, IdsOfJobs(jobs))
      ensures step.Refused? ==> Justified(s, x, strategy, assignments, locked, step.reason)
    {
      hide IdsOfJobs, Orphaned, Run, ForJobs, Justified;
      NoJobsNoIds(jobs);
      RunOfNone(s, x, strategy, jobs, assignments);
      next := completion;
      var i := 0;
      while i < |jobs|
        invariant 0 <= i <= |jobs|
        invariant |old(assignments)| <= |assignments|
        invariant Ready() && Run(s, x, strategy, old(assignments), assignments)
        invariant ForJobs(x, jobs[..i], Added(old(assignments), assignments))
        invariant Progress(next, locked, IdsOfJobs(jobs[..i]))
      {
        ghost var before := assignments;
        step, next := VisitJob(jobs, i, strategy, next, locked);
        JobInTurn(s, x, strategy, jobs, i, old(assignments), before, assignments);
        if !step.Proceed? {
          return;
        }
        i := i + 1;
      }
      assert jobs[..i] == jobs;
      step := Proceed;
    }

    method ScheduleProduction(strategy: Strategy) returns (step: Step)
      requires Ready() && JobsIndexed(x, s.jobs)
      modifies this
      ensures Ready() && Run(s, x, strategy, old(assignments), assignments)
      ensures forall a :: a in Added(old(assignments), assignments) ==> a.work.Production?
      ensures step.Proceed? ==> OperationsDone(x, assignments)
      ensures Explained(strategy, step, ProducedIds(old(assignments)))
    {
      var completion := LockedCompletions();
      ghost var locked := completion.Keys;
      var jobs := Sorted(s.jobs, ByPriority);
      SortedIsSorted(s.jobs, ByPriority);
      PermutedJobsIndexed(x, s.jobs, jobs);
      step, completion := ScheduleJobs(jobs, strategy, completion, completion.Keys);
      if step.Proceed? {
        AllServed(completion, locked, IdsOfJobs(jobs));
      }
    }

    /** Everybody's calendar: the machine's and each team member's. */
    method JoinCalendars(machineId: Id, team: seq<Id>) returns (entries: seq<Assignment>)
      requires Valid() && machineId in x.machines && forall t :: t in team ==> t in x.technicians
      ensures forall a :: a in entries <==> a in Sharing(assignments, machineId, team)
    {
      entries := machineCalendar[machineId];
      var i := 0;
      while i < |team|
        invariant 0 <= i <= |team|
        invariant forall a :: a in entries <==> a in assignments && Shares(a, machineId, team[..i])
      {
        var t := team[i];
        assert t in team;
        assert t in technicianCalendar.Keys;
        SharesOneMore(team, i, machineId);
        entries := entries + technicianCalendar[t];
        i := i + 1;
      }
      assert team[..i] == team;
    }

    /** The joint search of one team over the current calendars. */
    method FindMaintenanceSlot(r: Request, strategy: Strategy, team: seq<Id>)
      returns (expired: bool, slot: Option<Time>)
      requires Valid() && r.machineId in x.machines && forall t :: t in team ==> t in x.technicians
      requires forall a :: a in assignments ==> a.start < a.end
      ensures !expired ==> slot == TeamSlotOf(s, x, assignments, r, strategy, team)
    {
      var earliest, latest := EarliestStart(s, r, strategy), LatestStart(s, r);
      var entries := JoinCalendars(r.machineId, team);
      ghost var rounds;
      expired, slot, rounds := FindTeamStart(entries, ShiftsOf(x, team), earliest, latest, r.Duration());
      TeamStartIgnoresOrder(
        entries, Sharing(assignments, r.machineId, team), ShiftsOf(x, team), earliest, latest, r.Duration());
    }

    method ChooseMaintenanceSlot(r: Request, strategy: Strategy) returns (expired: bool, choice: Option<TeamSlot>)
      requires Valid() && PeopleIndexed(s, x)
      requires r.machineId in x.machines && r.requiredSkills != [] && r.minutes >= 1
      requires forall a :: a in assignments ==> a.start < a.end
      ensures !expired ==> Soonest(s, x, assignments, r, strategy, choice)
    {
      var family := x.machines[r.machineId].family;
      var teams: seq<seq<Id>>;
      expired, teams := QualifiedTeams(s, r, family);
      if expired {
        return true, None;
      }
      var slots: seq<TeamSlot> := [];
      var i := 0;
      while i < |teams|
        invariant 0 <= i <= |teams|
        invariant SlotsOf(s, x, assignments, r, strategy, teams[..i], slots)
      {
        assert teams[i] in teams;
        TeamIsKnown(s, x, teams[i]);
        var slot: Option<Time>;
        expired, slot := FindMaintenanceSlot(r, strategy, teams[i]);
        if expired {
          return true, None;
        }
        SlotsGrow(s, x, assignments, r, strategy, teams, i, slots);
        if slot.Some? {
          slots := slots + [TeamSlot(slot.value, teams[i])];
        }
        i := i + 1;
      }
      assert teams[..i] == teams;
      SoonestOfSlots(s, x, assignments, r, strategy, teams, slots);
      choice := if slots == [] then None else Some(SoonestSlot(slots));
    }

    /** The joint start collides with no booking of the machine or the team. */
    lemma MaintenanceFits(r: Request, strategy: Strategy, team: seq<Id>, a: Assignment)
      requires Ready() && PeopleIndexed(s, x) && PendingRequest(x, r)
      requires r.id !in MaintainedIds(assignments)
      requires Offers(s, x, assignments, r, strategy, team, a.start)
      requires a.id == ForRequest(strategy, r.id) && a.work == Work.Maintenance(r.id, team)
      requires a.machineId == r.machineId && a.end == a.start + r.Duration()
      ensures EarliestStart(s, r, strategy) <= a.start <= LatestStart(s, r)
      ensures forall b :: b in assignments ==> Fit(a, b) && b.id != a.id
    {
      var earliest, latest := EarliestStart(s, r, strategy), LatestStart(s, r);
      var shifts := ShiftsOf(x, team);
      var entries := Sharing(assignments, r.machineId, team);
      TeamStartIsLowerBound(entries, shifts, earliest, latest, r.Duration());
      forall b | b in assignments ensures Fit(a, b) && b.id != a.id {
        assert Shares(b, r.machineId, team) ==> b in entries;
        assert Sound(s, x, b);
      }
    }

    /** The booking for a request, not yet entered anywhere. */
    method PlaceRequest(r: Request, strategy: Strategy)
      returns (expired: bool, a: Option<Assignment>)
      requires Ready() && PeopleIndexed(s, x) && PendingRequest(x, r) && ToServe(s, x, r)
      requires r.id !in MaintainedIds(assignments)
      ensures a.Some? ==> Sound(s, x, a.value) && a.value.Maintains(r.id)
      ensures a.Some? ==> forall b :: b in assignments ==> Fit(a.value, b) && b.id != a.value.id
      ensures a.Some? ==> Chosen(s, x, strategy, assignments, a.value)
      ensures !expired && a.None? ==> Soonest(s, x, assignments, r, strategy, None)
    {
      var choice: Option<TeamSlot>;
      expired, choice := ChooseMaintenanceSlot(r, strategy);
      if expired || choice.None? {
        return expired, None;
      }
      var c := choice.value;
      var booking := Assignment(ForRequest(strategy, r.id), Work.Maintenance(r.id, c.team), Proposed, r.machineId,
                                c.start, c.start + r.Duration(), false);
      MaintenanceFits(r, strategy, c.team, booking);
      MaintenanceIsSound(s, x, r, strategy, c.team, booking);
      a := Some(booking);
    }

    method BookRequest(a: Assignment)
      requires Ready() && Sound(s, x, a) && a.work.Maintenance?
      requires forall b :: b in assignments ==> Fit(a, b) && b.id != a.id
      modifies this
      ensures Ready() && assignments == old(assignments) + [a]
    {
      hide Admissible, Sound, Fit, Valid;
      SoundIsKnown(s, x, a);
      BookingExtends(s, x, assignments, a);
      Book(a);
    }

    method ScheduleRequest(r: Request, strategy: Strategy)
      returns (step: Step, ghost booked: Option<Assignment>)
      requires Ready() && PeopleIndexed(s, x) && PendingRequest(x, r) && ToServe(s, x, r)
      requires r.id !in MaintainedIds(assignments)
      modifies this
      ensures Ready()
      ensures step.Proceed? ==> MaintainedIds(assignments) == MaintainedIds(old(assignments)) + {r.id}
      ensures if step.Proceed? then booked.Some? && assignments == old(assignments) + [booked.value]
                                    && booked.value.Maintains(r.id)
                                    && Chosen(s, x, strategy, old(assignments), booked.value)
              else assignments == old(assignments) && (step.Refused? ==> step.reason == NoMaintenanceSlot(r.id))
      ensures step.Refused? ==> Soonest(s, x, assignments, r, strategy, None)
    {
      hide Ready, PeopleIndexed, PendingRequest, ToServe, MaintainedIds, Soonest, Chosen, Sound, Fit;
      booked := None;
      var expired := CheckDeadline();
      if expired {
        return Expired, None;
      }
      var a: Option<Assignment>;
      expired, a := PlaceRequest(r, strategy);
      if expired {
        return Expired, None;
      }
      if a.None? {
        return Refused(NoMaintenanceSlot(r.id)), None;
      }
      MaintainedOneMore(assignments, a.value);
      BookRequest(a.value);
      return Proceed, a;
    }

    /** The requests are to be served and none of them is booked yet. */
    ghost predicate Waiting(requests: seq<Request>, bookings: seq<Assignment>) {
      forall r :: r in requests ==> PendingRequest(x, r) && ToServe(s, x, r) && r.id !in MaintainedIds(bookings)
    }

    /** The first `n` requests, and no others, have been served since `before`. */
    ghost predicate Served(strategy: Strategy, requests: seq<Request>, n: nat, before: seq<Assignment>)
      reads this
    {
      && n <= |requests|
      && Run(s, x, strategy, before, assignments)
      && ForRequests(x, requests[..n], Added(before, assignments))
      && MaintainedIds(assignments) == MaintainedIds(before) + IdsOfRequests(requests[..n])
    }

    lemma NoneServed(strategy: Strategy, requests: seq<Request>)
      ensures Served(strategy, requests, 0, assignments)
    {
    }

    lemma AllRequestsVisited(strategy: Strategy, requests: seq<Request>, n: nat, before: seq<Assignment>)
      requires Served(strategy, requests, n, before)
      ensures Run(s, x, strategy, before, assignments) && MaintainedIds(before) <= MaintainedIds(assignments)
      ensures forall a :: a in Added(before, assignments) ==> a.work.Maintenance?
      ensures n == |requests| ==> IdsOfRequests(requests) <= MaintainedIds(assignments)
    {
      if n == |requests| { assert requests[..n] == requests; }
    }

    /** The next request of the list. */
    method VisitRequest(
      requests: seq<Request>, i: nat, strategy: Strategy, ghost before: seq<Assignment>)
      returns (step: Step)
      requires Ready() && PeopleIndexed(s, x) && i < |requests| && Served(strategy, requests, i, before)
      requires DistinctRequests(requests) && Waiting(requests, before) && ByUrgencySorted(s, requests)
      modifies this
      ensures Ready() && Served(strategy, requests, if step.Proceed? then i + 1 else i, before)
      ensures step.Refused? ==> step.reason == NoMaintenanceSlot(requests[i].id)
                                && requests[i].id !in MaintainedIds(assignments)
                                && Soonest(s, x, assignments, requests[i], strategy, None)
    {
      ghost var booked;
      NotYetMaintained(requests, i);
      step, booked := ScheduleRequest(requests[i], strategy);
      if step.Proceed? {
        RequestInTurn(s, x, strategy, requests, i, before, old(assignments), booked.value);
      }
    }

    method ScheduleMaintenance(requests: seq<Request>, strategy: Strategy, ghost locked: set<Id>)
      returns (step: Step)
      requires Ready() && PeopleIndexed(s, x)
      requires DistinctRequests(requests) && Waiting(requests, assignments) && ByUrgencySorted(s, requests)
      modifies this
      ensures Ready() && Run(s, x, strategy, old(assignments), assignments)
      ensures forall a :: a in Added(old(assignments), assignments) ==> a.work.Maintenance?
      ensures step.Proceed? ==> IdsOfRequests(requests) <= MaintainedIds(assignments)
      ensures MaintainedIds(old(assignments)) <= MaintainedIds(assignments)
      ensures step.Refused? ==>
                step.reason.NoMaintenanceSlot? && Justified(s, x, strategy, assignments, locked, step.reason)
    {
      hide Served, ToServe, Soonest, Ready, Run, PeopleIndexed, IdsOfRequests, MaintainedIds;
      NoneServed(strategy, requests);
      var i := 0;
      while i < |requests|
        invariant 0 <= i <= |requests|
        invariant Ready() && Served(strategy, requests, i, old(assignments))
      {
        step := VisitRequest(requests, i, strategy, old(assignments));
        if !step.Proceed? {
          AllRequestsVisited(strategy, requests, i, old(assignments));
          return;
        }
        i := i + 1;
      }
      AllRequestsVisited(strategy, requests, i, old(assignments));
      step := Proceed;
    }

    /** Enter the reservations first; they occupy calendars but are never moved. */
    method SeedCalendars(reservations: seq<Assignment>)
      requires Valid() && assignments == [] && AllKnown(x, Elements(reservations))
      modifies this
      ensures Valid() && assignments == reservations
    {
      var i := 0;
      while i < |reservations|
        invariant 0 <= i <= |reservations|
        invariant Valid() && assignments == reservations[..i]
      {
        assert reservations[i] in Elements(reservations);
        Book(reservations[i]);
        assert reservations[..i + 1] == reservations[..i] + [reservations[i]];
        i := i + 1;
      }
      assert reservations[..i] == reservations;
    }

    /** A refusal is justified; success means no operation is orphaned and none blocked. */
    ghost predicate Explained(strategy: Strategy, step: Step, locked: set<Id>)
      reads this
    {
      match step
      case Expired => true
      case Refused(reason) => Justified(s, x, strategy, assignments, locked, reason)
      case Proceed => NothingBlocked(x) && forall id :: !Orphaned(x, locked, id)
    }

    method ProductionFirst(requests: seq<Request>, strategy: Strategy) returns (step: Step)
      requires Ready() && JobsIndexed(x, s.jobs) && PeopleIndexed(s, x) && strategy.ProductionPriority?
      requires DistinctRequests(requests) && Waiting(requests, assignments) && ByUrgencySorted(s, requests)
      modifies this
      ensures Ready() && Run(s, x, strategy, old(assignments), assignments)
      ensures step.Proceed? ==> OperationsDone(x, assignments) && IdsOfRequests(requests) <= MaintainedIds(assignments)
      ensures Explained(strategy, step, ProducedIds(old(assignments)))
    {
      step := ScheduleProduction(strategy);
      ghost var produced := assignments;
      if !step.Proceed? {
        return;
      }
      SameMaintenance(old(assignments), produced);
      step := ScheduleMaintenance(requests, strategy, ProducedIds(old(assignments)));
      DoneStaysDone(x, produced, assignments);
      PhasesInTurn(s, x, strategy, old(assignments), produced, assignments);
    }

    method MaintenanceFirst(requests: seq<Request>, strategy: Strategy) returns (step: Step)
      requires Ready() && JobsIndexed(x, s.jobs) && PeopleIndexed(s, x) && !strategy.ProductionPriority?
      requires DistinctRequests(requests) && Waiting(requests, assignments) && ByUrgencySorted(s, requests)
      modifies this
      ensures Ready() && Run(s, x, strategy, old(assignments), assignments)
      ensures step.Proceed? ==> OperationsDone(x, assignments) && IdsOfRequests(requests) <= MaintainedIds(assignments)
      ensures Explained(strategy, step, ProducedIds(old(assignments)))
    {
      step := ScheduleMaintenance(requests, strategy, ProducedIds(old(assignments)));
      if !step.Proceed? {
        return;
      }
      ghost var maintained := assignments;
      SameProduction(old(assignments), maintained);
      step := ScheduleProduction(strategy);
      MaintainedGrows(maintained, assignments);
      PhasesInTurn(s, x, strategy, old(assignments), maintained, assignments);
    }

    /** Both phases in the order of the strategy. */
    method Serve(requests: seq<Request>, strategy: Strategy) returns (step: Step)
      requires Ready() && JobsIndexed(x, s.jobs) && PeopleIndexed(s, x)
      requires DistinctRequests(requests) && Waiting(requests, assignments) && ByUrgencySorted(s, requests)
      modifies this
      ensures Ready() && Run(s, x, strategy, old(assignments), assignments)
      ensures step.Proceed? ==> OperationsDone(x, assignments) && IdsOfRequests(requests) <= MaintainedIds(assignments)
      ensures Explained(strategy, step, ProducedIds(old(assignments)))
    {
      if strategy.ProductionPriority? {
        step := ProductionFirst(requests, strategy);
      } else {
        step := MaintenanceFirst(requests, strategy);
      }
    }

    /** The requests to plan, most urgent first. */
    method UrgentRequests() returns (requests: seq<Request>)
      requires WellFormed(s) && x == IndexOf(s) && assignments == Reservations(s)
      ensures DistinctRequests(requests) && Waiting(requests, assignments) && ByUrgencySorted(s, requests)
      ensures PeopleIndexed(s, x)
      ensures forall id :: id in x.requests && x.requests[id].Active() ==>
                x.requests[id] in requests || id in MaintainedIds(assignments)
    {
      var urgency := (a, b) => ByUrgency(s, a, b);
      requests := Sorted(PendingRequests(s.requests, assignments), urgency);
      SortedIsSorted(PendingRequests(s.requests, assignments), urgency);
      PendingRequestsAreKnown(s, x, assignments, requests);
    }

    /**
     What is built follows the greedy rule booking by booking and meets every clause of the
     strict judge, save the presence of teams with incompatible shifts and the precedence of
     reserved rows that are not closed under predecessors; every refusal is justified.
     */
    method Build(strategy: Strategy) returns (outcome: Outcome)
      requires Valid() && assignments == [] && WellFormed(s) && x == IndexOf(s) && FitReservations(s)
      modifies this
      ensures !outcome.TimedOut? ==> Planned(s, x, strategy, assignments, outcome)
      ensures outcome.Built? ==> ProperSchedule(outcome.schedule)
      ensures outcome.Built? ==> AlmostValid(s, Plan(s.id, outcome.schedule))
      ensures outcome.Built? && PredecessorClosed(s) ==> Holds(Precedence, s, Plan(s.id, outcome.schedule))
      ensures outcome.Built? && TeamsCompatible(s, x) ==>
                (StrictValid(s, Plan(s.id, outcome.schedule)) <==> Holds(Precedence, s, Plan(s.id, outcome.schedule)))
    {
      hide WellFormed, FitReservations, Admissible, Valid, Run, Justified, Orphaned, NothingBlocked, OperationsDone;
      hide RequestsDone, AlmostValid, StrictValid, TeamsCompatible, Waiting, JobsIndexed, PeopleIndexed, Holds;
      hide PredecessorClosed;
      var expired := CheckDeadline();
      if expired {
        return TimedOut;
      }
      ReservationsAreKnown(s);
      SeedCalendars(Reservations(s));
      var requests := UrgentRequests();
      WellFormedJobs(s);
      var step := Serve(requests, strategy);
      match step {
        case Expired => return TimedOut;
        case Refused(reason) => return NoPlan(reason);
        case Proceed =>
          MaintainedGrows(Reservations(s), assignments);
          AllRequestsServed(x, requests, assignments);
          outcome := Built(ScheduleOf(s, assignments));
          PlannedIsValid(s, x, strategy, assignments, outcome.schedule);
      }
    }

    lemma AllServed(completion: map<Id, Time>, locked: set<Id>, done: set<Id>)
      requires Progress(completion, locked, done) && x.operations.Keys <= done
      ensures OperationsDone(x, assignments) && NothingBlocked(x)
      ensures forall id :: !Orphaned(x, locked, id)
    {
      forall id | id in x.operations && !x.operations[id].1.status.Completed?
        ensures exists a :: a in assignments && a.Produces(id)
      {
        assert id in completion;
      }
    }
  }

  /** The schedule made of a list of bookings. */
  function ScheduleOf(s: Snapshot, bookings: seq<Assignment>): Schedule {
    var revision := if s.current.Some? then s.current.value.revision else 0;
    Schedule(s.factoryId, revision + 1, s.window, Sorted(bookings, ByTime))
  }

  /** What the builder has done when it does not time out: a greedy run from the reservations, complete if built. */
  ghost predicate Planned(s: Snapshot, x: Index, strategy: Strategy, bookings: seq<Assignment>, outcome: Outcome) {
    && Admissible(s, x, bookings) && Run(s, x, strategy, Reservations(s), bookings)
    && match outcome
       case TimedOut => true
       case NoPlan(reason) => Justified(s, x, strategy, bookings, ProducedIds(Reservations(s)), reason)
       case Built(schedule) =>
         && schedule == ScheduleOf(s, bookings)
         && OperationsDone(x, bookings) && RequestsDone(x, bookings)
         && NothingBlocked(x) && forall id :: !Orphaned(x, ProducedIds(Reservations(s)), id)
  }

  /**
   A planned schedule passes the judge exactly when its teams are on shift and its reserved rows
   start after their predecessors; compatible shifts give the one, closed reservations the other.
   */
  lemma PlannedIsValid(s: Snapshot, x: Index, strategy: Strategy, bookings: seq<Assignment>, schedule: Schedule)
    requires WellFormed(s) && x == IndexOf(s) && FitReservations(s)
    requires Planned(s, x, strategy, bookings, Built(schedule))
    ensures ProperSchedule(schedule) && AlmostValid(s, Plan(s.id, schedule))
    ensures StrictValid(s, Plan(s.id, schedule)) <==>
              TeamsAttended(x, bookings) && ReservedInOrder(s, x, Elements(bookings))
    ensures Holds(Precedence, s, Plan(s.id, schedule)) <==> ReservedInOrder(s, x, Elements(bookings))
    ensures PredecessorClosed(s) ==> ReservedInOrder(s, x, Elements(bookings))
    ensures TeamsCompatible(s, x) ==> TeamsAttended(x, bookings)
  {
    hide WellFormed, AlmostValid, TeamsCompatible, Admissible, ReservedInOrder, StrictValid, PredecessorClosed;
    hide TeamsAttended, Holds;
    assert forall a :: a in Reservations(s) ==> a in bookings;
    RunOrdersReserved(s, x, strategy, bookings);
    BuiltPlanHolds(s, x, schedule, bookings);
    if TeamsCompatible(s, x) {
      ReservationsAreKnown(s);
      RunIsAttended(s, x, strategy, bookings);
    }
  }

  /** Bookings whose second part is in order are in order when the first part is. */
  lemma InOrderByParts(x: Index, base: seq<Assignment>, added: seq<Assignment>)
    requires forall a :: a in added ==> PredecessorsMet(x, Elements(base + added), a)
    ensures AllPredecessorsMet(x, Elements(base + added)) <==>
              forall a :: a in base ==> PredecessorsMet(x, Elements(base + added), a)
  {
    hide PredecessorsMet;
    assert forall a :: a in Elements(base + added) <==> a in base || a in added;
  }

  lemma MoreBookingsMeetMore(x: Index, base: seq<Assignment>, added: seq<Assignment>)
    requires AllPredecessorsMet(x, Elements(base))
    ensures forall a :: a in base ==> PredecessorsMet(x, Elements(base + added), a)
  {
    hide PredecessorsMet;
    assert Elements(base) <= Elements(base + added);
    forall a | a in base ensures PredecessorsMet(x, Elements(base + added), a) {
      MorePlansMeetMore(x, Elements(base), Elements(base + added), a);
    }
  }

  /** In a run only reserved rows can start before their predecessors end, and closed ones do not. */
  lemma RunOrdersReserved(s: Snapshot, x: Index, strategy: Strategy, bookings: seq<Assignment>)
    requires x == IndexOf(s) && Run(s, x, strategy, Reservations(s), bookings)
    ensures AllPredecessorsMet(x, Elements(bookings)) <==> ReservedInOrder(s, x, Elements(bookings))
    ensures PredecessorClosed(s) ==> ReservedInOrder(s, x, Elements(bookings))
  {
    hide PredecessorsMet, AllPredecessorsMet, Run, Added, IndexOf;
    RunExtends(s, x, strategy, Reservations(s), bookings);
    RunMeetsPredecessors(s, x, strategy, Reservations(s), bookings);
    var added := Added(Reservations(s), bookings);
    InOrderByParts(x, Reservations(s), added);
    if PredecessorClosed(s) {
      MoreBookingsMeetMore(x, Reservations(s), added);
    }
  }

  lemma SoundIsKnown(s: Snapshot, x: Index, a: Assignment)
    requires Sound(s, x, a)
    ensures KnownReferences(x, a)
  {
  }

  /** What admissible bookings are used for. */
  lemma AdmissibleFacts(s: Snapshot, x: Index, bookings: seq<Assignment>)
    requires Admissible(s, x, bookings)
    ensures forall b :: b in bookings ==> b.start < b.end && IdMatchesWork(b)
  {
    assert forall b :: b in bookings ==> Sound(s, x, b);
  }

  lemma MaintainedOneMore(bookings: seq<Assignment>, a: Assignment)
    requires a.work.Maintenance?
    ensures MaintainedIds(bookings + [a]) == MaintainedIds(bookings) + {a.work.requestId}
  {
  }

  lemma ReservationsAreKnown(s: Snapshot)
    requires FitReservations(s)
    ensures Admissible(s, IndexOf(s), Reservations(s)) && AllKnown(IndexOf(s), Elements(Reservations(s)))
    ensures TeamsAttended(IndexOf(s), Reservations(s))
  {
    assert forall a :: a in Reservations(s) ==> Sound(s, IndexOf(s), a);
  }

  ghost function ProducedIds(bookings: seq<Assignment>): set<Id> {
    set a | a in bookings && a.work.Production? :: a.work.operationId
  }

  ghost function MaintainedIds(bookings: seq<Assignment>): set<Id> {
    set a | a in bookings && a.work.Maintenance? :: a.work.requestId
  }

  lemma MaintainedGrows(fewer: seq<Assignment>, more: seq<Assignment>)
    requires forall a :: a in fewer ==> a in more
    ensures MaintainedIds(fewer) <= MaintainedIds(more)
  {
  }

  lemma SameProduction(fewer: seq<Assignment>, more: seq<Assignment>)
    requires fewer <= more && forall a :: a in more ==> a in fewer || a.work.Maintenance?
    ensures ProducedIds(fewer) == ProducedIds(more)
  {
    assert forall a :: a in fewer ==> a in more;
  }

  lemma SameMaintenance(fewer: seq<Assignment>, more: seq<Assignment>)
    requires fewer <= more && forall a :: a in more ==> a in fewer || a.work.Production?
    ensures MaintainedIds(fewer) == MaintainedIds(more)
  {
    assert forall a :: a in fewer ==> a in more;
  }

  ghost function IdsOfRequests(requests: seq<Request>): set<Id> {
    set r | r in requests :: r.id
  }

  lemma NotYetMaintained(requests: seq<Request>, i: nat)
    requires i < |requests| && DistinctRequests(requests)
    ensures requests[i].id !in IdsOfRequests(requests[..i])
    ensures IdsOfRequests(requests[..i + 1]) == IdsOfRequests(requests[..i]) + {requests[i].id}
  {
    assert requests[..i + 1] == requests[..i] + [requests[i]];
    forall r | r in requests[..i] ensures r.id != requests[i].id {
      var k :| 0 <= k < i && requests[k] == r;
    }
  }

  ghost function IdsOfJobs(jobs: seq<Job>): set<Id> {
    set j, o | j in jobs && o in j.operations :: o.id
  }

  /** No operation identifier occurs in two of the jobs. */
  ghost predicate DisjointJobs(jobs: seq<Job>) {
    && Distinct(jobs)
    && forall j, k, o, p :: j in jobs && k in jobs && j != k && o in j.operations && p in k.operations ==> o.id != p.id
  }

  lemma NoJobsNoIds(jobs: seq<Job>)
    ensures IdsOfJobs(jobs[..0]) == {}
  {
  }

  lemma JobComesOnce(jobs: seq<Job>, i: nat)
    requires i < |jobs| && DisjointJobs(jobs)
    ensures forall o :: o in jobs[i].operations ==> o.id !in IdsOfJobs(jobs[..i])
    ensures IdsOfJobs(jobs[..i + 1]) == IdsOfJobs(jobs[..i]) + IdsOfOperations(jobs[i].operations)
  {
    assert jobs[..i + 1] == jobs[..i] + [jobs[i]];
    forall j | j in jobs[..i] ensures j in jobs && j != jobs[i] {
      var k :| 0 <= k < i && jobs[k] == j;
    }
  }

  /** Every operation of the index belongs to exactly one of the jobs, each well ordered. */
  ghost predicate JobsIndexed(x: Index, jobs: seq<Job>) {
    && DisjointJobs(jobs)
    && (forall j :: j in jobs ==> KnownJob(x, j))
    && x.operations.Keys <= IdsOfJobs(jobs)
  }

  lemma PermutedJobsIndexed(x: Index, jobs: seq<Job>, others: seq<Job>)
    requires JobsIndexed(x, jobs) && multiset(jobs) == multiset(others)
    ensures JobsIndexed(x, others)
  {
    PermutationKeepsDistinct(jobs, others);
    assert IdsOfJobs(jobs) == IdsOfJobs(others);
  }

  lemma WellFormedJobs(s: Snapshot)
    requires WellFormed(s)
    ensures JobsIndexed(IndexOf(s), s.jobs)
  {
    forall j | j in s.jobs ensures KnownJob(IndexOf(s), j) { WellFormedJob(s, j); }
    forall j, k, o, p | j in s.jobs && k in s.jobs && j != k && o in j.operations && p in k.operations
      ensures o.id != p.id
    {
      assert HasOperation(s, j, o) && HasOperation(s, k, p);
    }
    assert Distinct(s.jobs);
    AllJobsVisited(s, s.jobs);
  }

  lemma AllJobsVisited(s: Snapshot, jobs: seq<Job>)
    requires forall j :: j in jobs <==> j in s.jobs
    ensures IndexOf(s).operations.Keys <= IdsOfJobs(jobs)
  {
    forall id | id in IndexOf(s).operations ensures id in IdsOfJobs(jobs) {
      var (j, o) := IndexOf(s).operations[id];
      assert HasOperation(s, j, o);
    }
  }

  ghost function IdsOfOperations(operations: seq<Operation>): set<Id> {
    set o | o in operations :: o.id
  }

  lemma IdsOfOneMore(operations: seq<Operation>, k: nat)
    requires k < |operations|
    ensures IdsOfOperations(operations[..k + 1]) == IdsOfOperations(operations[..k]) + {operations[k].id}
  {
    assert operations[..k + 1] == operations[..k] + [operations[k]];
  }

  /** A job whose operations are known, identified, and ordered after their predecessors. */
  ghost predicate KnownJob(x: Index, job: Job) {
    && Distinct(job.operations)
    && (forall o :: o in job.operations ==> KnownOperation(x, job, o))
    && (forall o, p :: o in job.operations && p in o.predecessors ==>
          exists q :: q in job.operations && q.id == p && q.sequence < o.sequence)
  }

  lemma WellFormedJob(s: Snapshot, job: Job)
    requires WellFormed(s) && job in s.jobs
    ensures KnownJob(IndexOf(s), job)
  {
    forall o | o in job.operations
      ensures KnownOperation(IndexOf(s), job, o)
      ensures forall p :: p in o.predecessors ==>
                exists q :: q in job.operations && q.id == p && q.sequence < o.sequence
    {
      assert HasOperation(s, job, o);
      WellFormedOperation(s, job, o);
      assert ValidOperation(s, job, o);
    }
  }

  /** In sequence order every predecessor has been visited, and the operation itself has not. */
  lemma PredecessorsComeFirst(x: Index, job: Job, operations: seq<Operation>, k: nat)
    requires KnownJob(x, job) && k < |operations|
    requires forall o :: o in operations <==> o in job.operations
    requires SortedBy(operations, BySequence) && Distinct(operations)
    ensures operations[k].id !in IdsOfOperations(operations[..k])
    ensures forall p :: p in operations[k].predecessors ==> p in IdsOfOperations(operations[..k]) && p in x.operations
  {
    forall o | o in operations[..k] ensures o.id != operations[k].id {
      assert o in job.operations && operations[k] in job.operations;
    }
    forall p | p in operations[k].predecessors ensures p in IdsOfOperations(operations[..k]) && p in x.operations {
      var q :| q in job.operations && q.id == p && q.sequence < operations[k].sequence;
      var i :| 0 <= i < |operations| && operations[i] == q;
      assert i < k;
      assert operations[i] in operations[..k];
      assert KnownOperation(x, job, q);
    }
  }

  /** Active requests without a reservation. */
  function PendingRequests(requests: seq<Request>, reservations: seq<Assignment>): (r: seq<Request>)
    ensures forall q :: q in r <==> q in requests && q.Active() && !(exists a :: a in reservations && a.Maintains(q.id))
  {
    if requests == [] then []
    else
      assert requests == [requests[0]] + requests[1..];
      var rest := PendingRequests(requests[1..], reservations);
      if requests[0].Active() && !(exists a :: a in reservations && a.Maintains(requests[0].id))
        then [requests[0]] + rest
      else rest
  }

  ghost predicate DistinctRequests(requests: seq<Request>) {
    forall i, k :: 0 <= i < k < |requests| ==> requests[i].id != requests[k].id
  }

  lemma {:induction false} PendingRequestsDistinct(requests: seq<Request>, reservations: seq<Assignment>)
    requires DistinctRequests(requests)
    ensures DistinctRequests(PendingRequests(requests, reservations))
  {
    if requests != [] {
      PendingRequestsDistinct(requests[1..], reservations);
      var rest := PendingRequests(requests[1..], reservations);
      forall q | q in rest ensures q.id != requests[0].id {
        assert q in requests[1..];
      }
      assert DistinctRequests([requests[0]] + rest);
    }
  }

  lemma PermutedRequestsDistinct(xs: seq<Request>, ys: seq<Request>)
    requires DistinctRequests(xs) && multiset(xs) == multiset(ys)
    ensures DistinctRequests(ys) && forall r :: r in xs <==> r in ys
  {
    assert Distinct(xs);
    PermutationKeepsDistinct(xs, ys);
    forall i, k | 0 <= i < k < |ys| ensures ys[i].id != ys[k].id {
      assert ys[i] in xs && ys[k] in xs && ys[i] != ys[k];
    }
  }

  lemma PendingRequestsAreKnown(s: Snapshot, x: Index, reservations: seq<Assignment>, requests: seq<Request>)
    requires WellFormed(s) && x == IndexOf(s)
    requires multiset(requests) == multiset(PendingRequests(s.requests, reservations))
    ensures forall r :: r in requests ==> PendingRequest(x, r) && r in s.requests
    ensures reservations == Reservations(s) ==> forall r :: r in requests ==> ToServe(s, x, r)
    ensures DistinctRequests(requests) && PeopleIndexed(s, x)
    ensures forall r :: r in requests ==> r.id !in MaintainedIds(reservations)
    ensures forall id :: id in x.requests && x.requests[id].Active() ==>
              x.requests[id] in requests || id in MaintainedIds(reservations)
  {
    IndexIsExact(s);
    PendingRequestsDistinct(s.requests, reservations);
    PermutedRequestsDistinct(PendingRequests(s.requests, reservations), requests);
    forall r | r in requests ensures PendingRequest(x, r) && r in s.requests {
      assert r in PendingRequests(s.requests, reservations) && ValidRequest(s, r);
    }
  }

  lemma AllRequestsServed(x: Index, requests: seq<Request>, bookings: seq<Assignment>)
    requires IdsOfRequests(requests) <= MaintainedIds(bookings)
    requires forall id :: id in x.requests ==> x.requests[id].id == id
    requires forall id :: id in x.requests && x.requests[id].Active() ==>
               x.requests[id] in requests || id in MaintainedIds(bookings)
    ensures RequestsDone(x, bookings)
  {
    forall id | id in x.requests && x.requests[id].Active() ensures exists a :: a in bookings && a.Maintains(id) {
      assert x.requests[id] in requests ==> id in IdsOfRequests(requests);
      assert id in MaintainedIds(bookings);
    }
  }

  lemma DoneStaysDone(x: Index, fewer: seq<Assignment>, more: seq<Assignment>)
    requires OperationsDone(x, fewer) && fewer <= more
    ensures OperationsDone(x, more)
  {
    assert forall a :: a in fewer ==> a in more;
    forall id | id in x.operations && !x.operations[id].1.status.Completed?
      ensures exists a :: a in more && a.Produces(id)
    {
      var a :| a in fewer && a.Produces(id);
      assert a in more;
    }
  }

  /** Every clause but the presence of teams and precedence. */
  ghost predicate AlmostValid(s: Snapshot, plan: Plan) {
    && (forall c: Code :: !c.TechnicianAvailability? && !c.Precedence? ==> Holds(c, s, plan))
    && TechniciansExclusive(IndexOf(s), ActivePart(plan.schedule.assignments))
  }

  lemma BuiltPlanHolds(s: Snapshot, x: Index, schedule: Schedule, bookings: seq<Assignment>)
    requires x == IndexOf(s) && Admissible(s, x, bookings) && OperationsDone(x, bookings) && RequestsDone(x, bookings)
    requires forall a :: a in Reservations(s) ==> a in bookings
    requires schedule.factoryId == s.factoryId && schedule.window == s.window
    requires multiset(schedule.assignments) == multiset(bookings)
    ensures ProperSchedule(schedule) && AlmostValid(s, Plan(s.id, schedule))
    ensures Holds(Precedence, s, Plan(s.id, schedule)) <==> AllPredecessorsMet(x, Elements(bookings))
    ensures StrictValid(s, Plan(s.id, schedule)) <==>
              TeamsAttended(x, bookings) && AllPredecessorsMet(x, Elements(bookings))
  {
    DistinctIdsOfPermutation(bookings, schedule.assignments);
    SameMembers(schedule.assignments, bookings);
    AllBookingsActive(s, x, schedule, bookings);
    forall c: Code {
      CompletePlanHolds(s, x, schedule, bookings, c);
    }
    CompletePlanHolds(s, x, schedule, bookings, TechnicianAvailability);
    if StrictValid(s, Plan(s.id, schedule)) {
      assert Holds(TechnicianAvailability, s, Plan(s.id, schedule)) && Holds(Precedence, s, Plan(s.id, schedule));
    }
  }

  lemma AllBookingsActive(s: Snapshot, x: Index, schedule: Schedule, bookings: seq<Assignment>)
    requires Admissible(s, x, bookings) && forall a :: a in schedule.assignments <==> a in bookings
    ensures ActivePart(schedule.assignments) == Elements(bookings)
  {
    assert forall a :: a in bookings ==> Sound(s, x, a);
  }

  lemma StartBounds(s: Snapshot, r: Request, strategy: Strategy, start: Time)
    requires EarliestStart(s, r, strategy) <= start <= LatestStart(s, r)
    ensures s.window.start <= start && start + r.Duration() <= s.window.end
    ensures r.earliestStart <= start && (r.latestStart.Some? ==> start <= r.latestStart.value)
  {
  }

  lemma MaintenanceIsSound(s: Snapshot, x: Index, r: Request, strategy: Strategy, team: seq<Id>, a: Assignment)
    requires PeopleIndexed(s, x) && PendingRequest(x, r)
    requires MinimalTeam(s, r, x.machines[r.machineId].family, team)
    requires EarliestStart(s, r, strategy) <= a.start <= LatestStart(s, r)
    requires a == Assignment(ForRequest(strategy, r.id), Work.Maintenance(r.id, team), Proposed, r.machineId,
                             a.start, a.start + r.Duration(), false)
    ensures Sound(s, x, a)
  {
    StartBounds(s, r, strategy, a.start);
    TeamIsKnown(s, x, team);
    TeamIsSkilled(s, x, r, team);
    assert forall rule :: Obeys(x, a, rule);
  }

  lemma TeamIsSkilled(s: Snapshot, x: Index, r: Request, team: seq<Id>)
    requires PeopleIndexed(s, x) && r.machineId in x.machines
    requires MinimalTeam(s, r, x.machines[r.machineId].family, team)
    ensures forall k :: k in r.requiredSkills ==> Adequate(x, team, r, x.machines[r.machineId].family, k)
  {
    var family := x.machines[r.machineId].family;
    forall k | k in r.requiredSkills ensures Adequate(x, team, r, family, k) {
      var t :| t in Crew(s, team) && Masters(t, k, r, family);
      assert t.id in x.technicians && x.technicians[t.id] == t;
    }
  }

  /** A pending operation without reservation waits for a completed one that has none either. */
  ghost predicate Orphaned(x: Index, locked: set<Id>, id: Id) {
    && id in x.operations && id !in locked && !x.operations[id].1.status.Completed?
    && exists p :: p in x.operations[id].1.predecessors && Lost(x, locked, p)
  }

  /** A completed operation of which the plan knows no completion time. */
  predicate Lost(x: Index, locked: set<Id>, p: Id) {
    p in x.operations && p !in locked && x.operations[p].1.status.Completed?
  }

  /** What the snapshot's well-formedness says of one operation. */
  ghost predicate KnownOperation(x: Index, job: Job, o: Operation) {
    && o.id in x.operations && x.operations[o.id] == (job, o)
    && (forall i, k :: 0 <= i < k < |o.options| ==> o.options[i].machineId != o.options[k].machineId)
    && (forall option :: option in o.options ==>
          && option.minutes >= 1 && option.machineId in x.machines
          && o.operationType in x.machines[option.machineId].operationTypes)
  }

  lemma KnownOptions(x: Index, job: Job, o: Operation)
    requires KnownOperation(x, job, o)
    ensures o.id in x.operations && x.operations[o.id] == (job, o)
    ensures forall option :: option in o.options ==> option.machineId in x.machines && option.minutes >= 1
  {
  }

  lemma WellFormedOperation(s: Snapshot, job: Job, o: Operation)
    requires WellFormed(s) && HasOperation(s, job, o)
    ensures KnownOperation(IndexOf(s), job, o)
  {
    IndexIsExact(s);
    assert ValidOperation(s, job, o);
  }

  /** The completion times of the predecessors that have one. */
  function EndsOf(ids: seq<Id>, completion: map<Id, Time>): (ends: seq<Time>)
    ensures |ends| <= |ids|
    ensures |ends| == |ids| <==> AllIn(ids, completion)
    ensures forall id :: id in ids && id in completion ==> completion[id] in ends
  {
    if ids == [] then []
    else
      var rest := EndsOf(ids[1..], completion);
      assert ids == [ids[0]] + ids[1..];
      if ids[0] in completion then [completion[ids[0]]] + rest else rest
  }

  predicate AllIn(ids: seq<Id>, completion: map<Id, Time>) {
    forall i :: 0 <= i < |ids| ==> ids[i] in completion
  }

  lemma {:induction false} EndsArePredecessors(ids: seq<Id>, completion: map<Id, Time>, end: Time) returns (id: Id)
    requires end in EndsOf(ids, completion)
    ensures id in ids && id in completion && completion[id] == end
  {
    assert ids == [ids[0]] + ids[1..];
    if ids[0] in completion && completion[ids[0]] == end {
      id := ids[0];
    } else {
      id := EndsArePredecessors(ids[1..], completion, end);
    }
  }

  function LatestOf(first: Time, rest: seq<Time>): (r: Time)
    decreases |rest|
    ensures first <= r && forall t :: t in rest ==> t <= r
    ensures r == first || r in rest
  {
    if rest == [] then first
    else
      assert rest == [rest[0]] + rest[1..];
      LatestOf(Max(first, rest[0]), rest[1..])
  }

  lemma ProductionIsSound(s: Snapshot, x: Index, job: Job, o: Operation, option: MachineOption, a: Assignment)
    requires KnownOperation(x, job, o)
    requires option in o.options && !o.status.Blocked? && a.work == Production(job.id, o.id)
    requires a.machineId == option.machineId && Usable(x.machines[a.machineId])
    requires a.end == a.start + option.minutes * MINUTE && job.releaseAt <= a.start
    requires s.window.start <= a.start && a.end <= s.window.end
    requires a.id.ForOperation? && a.id.operationId == o.id && a.status.Proposed?
    ensures Sound(s, x, a)
  {
    forall rule ensures Obeys(x, a, rule) {
      assert OperationRules(x, a, rule) by {
        forall other | other in o.options && other.machineId == a.machineId ensures other == option {}
      }
    }
  }
}
