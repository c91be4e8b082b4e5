/**
 The work-order service as it runs: each command is one transaction that updates a row and
 inserts completion, event and receipt. The class invariant ties every row to its log.
 */
module WorkOrderStore {
  import opened Collections
  import opened WorkOrderPolicy
  import opened WorkOrders
  import opened WorkOrderRuns
  import opened WorkOrderOrigins

  /** Every row is what its log says, the table's keys are unique, and no row is younger than `now`. */
  ghost predicate Sound(s: Store, now: Time) {
    Consistent(s) && KeysUnique(s) && NotAfter(s, now)
  }

  lemma CreationStaysSound(
    s: Store, directory: Directory, identity: UserId, ops: Operations, d: Draft, id: OrderId, key: Key, at: Time)
    requires Sound(s, at) && id !in s.orders
    ensures Sound(CreatedIn(s, directory, identity, ops, d, id, key, at).0, at)
  {
    hide CreatedIn, Consistent, KeysUnique, NotAfter;
    CreationStaysConsistent(s, CreateStep(directory, identity, ops, d, id, key, at));
    KeysStayUnique(s, CreateStep(directory, identity, ops, d, id, key, at));
  }

  lemma CommandStaysSound(
    s: Store, directory: Directory, identity: UserId, id: OrderId, c: Command, expected: int, key: Key, at: Time)
    requires Sound(s, at)
    ensures Sound(Commanded(s, directory, identity, id, c, expected, key, at).0, at)
  {
    hide Commanded, Consistent, KeysUnique, NotAfter;
    CommandStaysConsistent(s, CommandStep(directory, identity, id, c, expected, key, at));
    KeysStayUnique(s, CommandStep(directory, identity, id, c, expected, key, at));
  }

  class WorkOrderService {
    var orders: map<OrderId, Order>
    var completions: seq<Completion>
    var events: seq<Event>
    var receipts: map<(UserId, Key), Receipt>

    ghost function Contents(): Store
      reads this
    {
      Store(orders, completions, events, receipts)
    }

    ghost predicate Valid(now: Time)
      reads this
    {
      Sound(Contents(), now)
    }

    constructor (now: Time)
      ensures Valid(now)
      ensures Contents() == Store(map[], [], [], map[])
    {
      orders, completions, events, receipts := map[], [], [], map[];
    }

    /** Event and receipt of a write already made to the row. */
    method Record(row: Order, event: Event, actor: UserId, key: Key, request: Request) returns (reply: Reply)
      modifies this`events, this`receipts
      ensures events == old(events) + [event]
      ensures receipts == old(receipts)[(actor, key) := Receipt(request, row)]
      ensures reply == Response(row, false)
    {
      events := events + [event];
      receipts := receipts[(actor, key) := Receipt(request, row)];
      reply := Response(row, false);
    }

    method FindReceipt(user: UserId, key: Key, request: Request) returns (reply: Option<Reply>)
      ensures reply == Replay(Contents(), user, key, request)
    {
      if (user, key) !in receipts {
        return None;
      }
      var r := receipts[(user, key)];
      if r.request != request {
        return Some(Error(KeyReused));
      }
      reply := Some(Response(r.response, true));
    }

    /** Head, commit and assignment of a draft, checked in this order. */
    method FindOrigin(ops: Operations, d: Draft) returns (origin: Decision<Origin>)
      ensures origin == OriginOf(ops, d)
    {
      if !HeadMatches(ops.head, d) { return Refused(SourcePlanChanged); }
      if d.caseId !in ops.commits || !IsSource(ops.commits[d.caseId], d) { return Refused(InvalidSource); }
      var p := ops.commits[d.caseId];
      var found := FindWork(p.assignments, d.assignmentId);
      if found.None? || !IsWork(p, found.value) { return Refused(InvalidSource); }
      var a := found.value;
      origin := Granted(Origin(p.scheduleId, p.scheduleRevision, a.assignmentId, p.snapshotId, a.requestId.value,
                               a.machineId, a.start, a.end));
    }

    method CreateWorkOrder(
      directory: Directory, identity: UserId, ops: Operations, d: Draft, id: OrderId, key: Key, at: Time)
      returns (reply: Reply)
      requires Valid(at) && id !in orders
      modifies this
      ensures Valid(at)
      ensures (Contents(), reply) == CreatedIn(old(Contents()), directory, identity, ops, d, id, key, at)
    {
      hide Sound, Authorize, Replay, OriginOf, HasOrder, HasActiveOrder, Crowded;
      CreationStaysSound(Contents(), directory, identity, ops, d, id, key, at);
      var user := Authorize(directory, identity);
      if user.Refused? { return Error(user.why); }
      if !Manages(user.value.role) { return Error(Forbidden); }
      var replay := FindReceipt(identity, key, CreateOrder(d));
      if replay.Some? { return replay.value; }
      var origin := FindOrigin(ops, d);
      if origin.Refused? { return Error(origin.why); }
      var o := origin.value;
      if HasOrder(orders, o) { return Error(OriginExists); }
      if HasActiveOrder(orders, o) { return Error(ActiveRequestExists); }
      if Crowded(orders, o) && d.overlapReason.None? { return Error(OverlapUnreviewed); }
      var row := NewOrder(id, o, at);
      orders := orders[id := row];
      reply := Record(row, Created(row, identity, at), identity, key, CreateOrder(d));
    }

    method CommandWorkOrder(
      directory: Directory, identity: UserId, id: OrderId, c: Command, expected: int, key: Key, at: Time)
      returns (reply: Reply)
      requires Valid(at)
      modifies this
      ensures Valid(at)
      ensures (Contents(), reply) == Commanded(old(Contents()), directory, identity, id, c, expected, key, at)
    {
      hide Sound, Authorize, Replay, Decide;
      CommandStaysSound(Contents(), directory, identity, id, c, expected, key, at);
      if id !in orders { return Error(NotFound); }
      var user := Authorize(directory, identity);
      if user.Refused? { return Error(user.why); }
      var row := orders[id];
      var problem := RoleProblem(row, user.value, c.Kind());
      if problem.Some? { return Error(problem.value); }
      var request := CommandOrder(id, c, expected);
      var replay := FindReceipt(identity, key, request);
      if replay.Some? { return replay.value; }
      if row.revision != expected { return Error(RevisionConflict); }
      var next := Decide(row, Latest(CompletionsOf(completions, id)), directory, user.value, c, at);
      if next.Refused? { return Error(next.why); }
      if c.Complete? {
        completions := completions + [Completion(id, row.attempt, identity, at, c.outcome)];
      }
      assert completions == old(completions) + Report(id, row, identity, c, at);
      orders := orders[id := next.value];
      reply := Record(next.value, Recorded(next.value, row, identity, c, at), identity, key, request);
    }
  }
}
