/** The greedy rule determines the plan: complete runs from one list of reservations are equal. */
module GreedyLaws {
  import opened Plant
  import opened Bookings
  import opened Greedy

  /** What a booking serves. */
  datatype Task = Operate(operationId: Id) | Maintain(requestId: Id) | Block

  function TaskOf(a: Assignment): Task {
    match a.work
    case Production(_, o) => Operate(o)
    case Maintenance(r, _) => Maintain(r)
    case BlockedTime => Block
  }

  lemma {:induction false} TeamsAreTotallyOrdered(a: seq<Id>, b: seq<Id>)
    requires !TeamBefore(a, b) && !TeamBefore(b, a)
    ensures a == b
  {
    if a != [] && b != [] {
      TeamsAreTotallyOrdered(a[1..], b[1..]);
      assert a == [a[0]] + a[1..] && b == [b[0]] + b[1..];
    }
  }

  lemma BestPlaceIsUnique(
    s: Snapshot, x: Index, bookings: seq<Assignment>, job: Job, o: Operation, strategy: Strategy,
    a: Assignment, b: Assignment)
    requires IsBestPlace(s, x, bookings, job, o, strategy, a) && IsBestPlace(s, x, bookings, job, o, strategy, b)
    requires forall i, k :: 0 <= i < k < |o.options| ==> o.options[i].machineId != o.options[k].machineId
    ensures a == b
  {
    var early, c :| ReadyAt(bookings, job, o, early) && IsLeast(s, x, bookings, o, early, strategy, c)
      && a == Assignment(ForOperation(strategy, o.id), Production(job.id, o.id), Proposed, c.machineId,
                       c.start, c.end, false);
    var late, d :| ReadyAt(bookings, job, o, late) && IsLeast(s, x, bookings, o, late, strategy, d)
      && b == Assignment(ForOperation(strategy, o.id), Production(job.id, o.id), Proposed, d.machineId,
                       d.start, d.end, false);
    assert early == late;
    LeastIsUnique(s, x, bookings, o, early, strategy, c, d);
  }

  lemma LeastIsUnique(
    s: Snapshot, x: Index, bookings: seq<Assignment>, o: Operation, earliest: Time, strategy: Strategy,
    c: Choice, d: Choice)
    requires IsLeast(s, x, bookings, o, earliest, strategy, c) && IsLeast(s, x, bookings, o, earliest, strategy, d)
    requires forall i, k :: 0 <= i < k < |o.options| ==> o.options[i].machineId != o.options[k].machineId
    ensures c == d
  {
    var option :| option in o.options && IsChoice(s, x, bookings, o, option, earliest, strategy, c);
    var other :| other in o.options && IsChoice(s, x, bookings, o, other, earliest, strategy, d);
    assert !Better(c, d) && !Better(d, c);
    assert option == other;
  }

  lemma OptionsAreDistinct(s: Snapshot, x: Index, id: Id)
    requires WellFormed(s) && x == IndexOf(s) && id in x.operations
    ensures var options := x.operations[id].1.options;
            forall i, k :: 0 <= i < k < |options| ==> options[i].machineId != options[k].machineId
  {
    assert HasOperation(s, x.operations[id].0, x.operations[id].1);
  }

  /** After given bookings the rule leaves one choice for each task. */
  lemma ChosenIsUnique(
    s: Snapshot, x: Index, strategy: Strategy, bookings: seq<Assignment>, a: Assignment, b: Assignment)
    requires WellFormed(s) && x == IndexOf(s)
    requires Chosen(s, x, strategy, bookings, a) && Chosen(s, x, strategy, bookings, b) && TaskOf(a) == TaskOf(b)
    ensures a == b
  {
    hide WellFormed;
    match a.work
    case Production(_, id) =>
      var (job, o) := x.operations[id];
      OptionsAreDistinct(s, x, id);
      BestPlaceIsUnique(s, x, bookings, job, o, strategy, a, b);
    case Maintenance(id, team) =>
      TeamsAreOrdered(team, b.Team());
      hide Offers, TeamBefore, IsBestPlace, IndexOf;
      assert !Sooner(TeamSlot(a.start, a.Team()), TeamSlot(b.start, b.Team()));
      assert !Sooner(TeamSlot(b.start, b.Team()), TeamSlot(a.start, a.Team()));
    case BlockedTime =>
  }

  lemma TeamsAreOrdered(a: seq<Id>, b: seq<Id>)
    ensures TeamBefore(a, b) || TeamBefore(b, a) || a == b
  {
    if !TeamBefore(a, b) && !TeamBefore(b, a) { TeamsAreTotallyOrdered(a, b); }
  }

  lemma JobIsKnownById(s: Snapshot, x: Index, o: Id, p: Id)
    requires WellFormed(s) && x == IndexOf(s) && o in x.operations && p in x.operations
    requires x.operations[o].0.id == x.operations[p].0.id
    ensures x.operations[o].0 == x.operations[p].0
  {
    assert UniqueIds(s);
    hide WellFormed, UniqueIds;
    var j, k := x.operations[o].0, x.operations[p].0;
    assert j in s.jobs && k in s.jobs;
    JobById(s, j, k);
  }

  lemma JobById(s: Snapshot, j: Job, k: Job)
    requires UniqueIds(s) && j in s.jobs && k in s.jobs && j.id == k.id
    ensures j == k
  {
    var a :| 0 <= a < |s.jobs| && s.jobs[a] == j;
    var b :| 0 <= b < |s.jobs| && s.jobs[b] == k;
  }

  /** Two different tasks of the plant have one order. */
  lemma TurnIsStrict(
    s: Snapshot, x: Index, strategy: Strategy, a: Assignment, b: Assignment, c: Assignment, d: Assignment)
    requires WellFormed(s) && x == IndexOf(s)
    requires TaskOf(a) == TaskOf(d) && TaskOf(b) == TaskOf(c)
    requires a.work.Production? ==> a.work.operationId in x.operations
    requires b.work.Production? ==> b.work.operationId in x.operations
    requires a.work.Maintenance? ==> a.work.requestId in x.requests
    requires b.work.Maintenance? ==> b.work.requestId in x.requests
    requires InTurn(s, x, strategy, a, b) && InTurn(s, x, strategy, c, d)
    ensures TaskOf(a) == TaskOf(b)
  {
    hide WellFormed;
    if a.work.Production? && b.work.Production? {
      var (j, o) := x.operations[a.work.operationId];
      var (k, p) := x.operations[b.work.operationId];
      if j.id == k.id {
        JobIsKnownById(s, x, a.work.operationId, b.work.operationId);
        assert o.id == p.id;
      }
    }
  }

  /** All work of the plant: unfinished operations and active requests. */
  ghost predicate Pending(x: Index, task: Task) {
    match task
    case Operate(id) => id in x.operations && !x.operations[id].1.status.Completed?
    case Maintain(id) => id in x.requests && x.requests[id].Active()
    case Block => false
  }

  lemma ChosenIsPending(s: Snapshot, x: Index, strategy: Strategy, bookings: seq<Assignment>, a: Assignment)
    requires Chosen(s, x, strategy, bookings, a)
    ensures Pending(x, TaskOf(a))
  {
  }

  /** A complete list serves each pending task at some position. */
  lemma PendingIsServed(x: Index, bookings: seq<Assignment>, task: Task) returns (m: nat)
    requires OperationsDone(x, bookings) && RequestsDone(x, bookings) && Pending(x, task)
    ensures m < |bookings| && TaskOf(bookings[m]) == task
  {
    var a: Assignment;
    if task.Operate? {
      a :| a in bookings && a.Produces(task.operationId);
    } else {
      a :| a in bookings && a.Maintains(task.requestId);
    }
    m :| 0 <= m < |bookings| && bookings[m] == a;
  }

  lemma ServedOnce(s: Snapshot, x: Index, bookings: seq<Assignment>, i: nat, k: nat)
    requires Admissible(s, x, bookings) && i < |bookings| && k < |bookings|
    requires TaskOf(bookings[i]) == TaskOf(bookings[k]) && TaskOf(bookings[i]) != Block
    ensures i == k
  {
    assert bookings[i] in bookings && bookings[k] in bookings;
    assert bookings[i] == bookings[k] || Fit(bookings[i], bookings[k]);
  }

  /** A complete run from `base` that serves every task once. */
  ghost predicate Complete(
    s: Snapshot, x: Index, strategy: Strategy, base: seq<Assignment>, bookings: seq<Assignment>) {
    && Admissible(s, x, bookings) && Run(s, x, strategy, base, bookings)
    && OperationsDone(x, bookings) && RequestsDone(x, bookings)
  }

  lemma ChoiceAt(s: Snapshot, x: Index, strategy: Strategy, base: seq<Assignment>, xs: seq<Assignment>, n: nat)
    requires Complete(s, x, strategy, base, xs) && |base| <= n < |xs|
    ensures Chosen(s, x, strategy, xs[..n], xs[n]) && Pending(x, TaskOf(xs[n]))
    ensures forall m :: n < m < |xs| ==> InTurn(s, x, strategy, xs[n], xs[m])
  {
    ChosenIsPending(s, x, strategy, xs[..n], xs[n]);
  }

  /** The task that comes next in `xs` comes in `ys` after the common part. */
  lemma ServedLater(
    s: Snapshot, x: Index, strategy: Strategy, base: seq<Assignment>, xs: seq<Assignment>, ys: seq<Assignment>, n: nat)
    returns (m: nat)
    requires Complete(s, x, strategy, base, xs) && Complete(s, x, strategy, base, ys)
    requires |base| <= n < |xs| && n <= |ys| && xs[..n] == ys[..n]
    ensures n <= m < |ys| && TaskOf(ys[m]) == TaskOf(xs[n])
  {
    ChoiceAt(s, x, strategy, base, xs, n);
    m := PendingIsServed(x, ys, TaskOf(xs[n]));
    NotServedBefore(s, x, xs, ys, n, m);
  }

  /** Where one complete run goes on, every other one goes on with the same booking. */
  lemma SameNext(
    s: Snapshot, x: Index, strategy: Strategy, base: seq<Assignment>, xs: seq<Assignment>, ys: seq<Assignment>, n: nat)
    requires WellFormed(s) && x == IndexOf(s)
    requires Complete(s, x, strategy, base, xs) && Complete(s, x, strategy, base, ys)
    requires |base| <= n < |xs| && n <= |ys| && xs[..n] == ys[..n]
    ensures n < |ys| && xs[n] == ys[n]
  {
    hide WellFormed, Complete, Chosen, InTurn;
    var m := ServedLater(s, x, strategy, base, xs, ys, n);
    ChoiceAt(s, x, strategy, base, xs, n);
    ChoiceAt(s, x, strategy, base, ys, n);
    var l := ServedLater(s, x, strategy, base, ys, xs, n);
    if l > n && m > n {
      TurnIsStrict(s, x, strategy, xs[n], xs[l], ys[n], ys[m]);
    }
    ChosenIsUnique(s, x, strategy, xs[..n], xs[n], ys[n]);
  }

  lemma NotServedBefore(s: Snapshot, x: Index, xs: seq<Assignment>, ys: seq<Assignment>, n: nat, m: nat)
    requires Admissible(s, x, xs) && n < |xs| && n <= |ys| && m < |ys| && xs[..n] == ys[..n]
    requires TaskOf(xs[n]) == TaskOf(ys[m]) && TaskOf(xs[n]) != Block
    ensures n <= m
  {
    if m < n {
      assert xs[m] == xs[..n][m] && ys[m] == ys[..n][m];
      ServedOnce(s, x, xs, n, m);
      assert false;
    }
  }

  lemma CompleteExtends(s: Snapshot, x: Index, strategy: Strategy, base: seq<Assignment>, bookings: seq<Assignment>)
    requires Complete(s, x, strategy, base, bookings)
    ensures |base| <= |bookings| && bookings[..|base|] == base
  {
  }

  lemma {:induction false} SamePrefix(
    s: Snapshot, x: Index, strategy: Strategy, base: seq<Assignment>, xs: seq<Assignment>, ys: seq<Assignment>, n: nat)
    requires WellFormed(s) && x == IndexOf(s)
    requires Complete(s, x, strategy, base, xs) && Complete(s, x, strategy, base, ys)
    requires |base| <= n <= |xs|
    ensures n <= |ys| && xs[..n] == ys[..n]
  {
    hide WellFormed, Complete;
    CompleteExtends(s, x, strategy, base, xs);
    CompleteExtends(s, x, strategy, base, ys);
    if n > |base| {
      SamePrefix(s, x, strategy, base, xs, ys, n - 1);
      SameNext(s, x, strategy, base, xs, ys, n - 1);
      assert xs[..n] == xs[..n - 1] + [xs[n - 1]] && ys[..n] == ys[..n - 1] + [ys[n - 1]];
    }
  }

  /** Snapshot, strategy and reservations determine the plan, booking by booking. */
  lemma PlanIsDetermined(
    s: Snapshot, x: Index, strategy: Strategy, base: seq<Assignment>, xs: seq<Assignment>, ys: seq<Assignment>)
    requires WellFormed(s) && x == IndexOf(s)
    requires Complete(s, x, strategy, base, xs) && Complete(s, x, strategy, base, ys)
    ensures xs == ys
  {
    SamePrefix(s, x, strategy, base, xs, ys, |xs|);
    SamePrefix(s, x, strategy, base, ys, xs, |ys|);
    assert xs[..|xs|] == xs && ys[..|ys|] == ys;
  }
}
