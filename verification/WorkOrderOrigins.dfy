/** Where orders come from: laws over runs about published assignments, requests and machine windows. */
module WorkOrderOrigins {
  import opened Collections
  import opened WorkOrderPolicy
  import opened WorkOrders
  import opened WorkOrderRuns
  import WorkOrderFences

  predicate Active(s: Store, id: OrderId) {
    id in s.orders && !Terminal(s.orders[id].status)
  }

  /** The table's unique keys: one order per published assignment, one active order per request of a basis. */
  ghost predicate KeysUnique(s: Store) {
    && (forall a, b :: a in s.orders && b in s.orders ==>
          (s.orders[a].origin.SameAssignment(s.orders[b].origin) <==> a == b))
    && (forall a, b :: Active(s, a) && Active(s, b) && s.orders[a].origin.SameRequest(s.orders[b].origin) ==> a == b)
  }

  /** The creation of the order gave a reason to accept overlaps. */
  ghost predicate Reviewed(steps: seq<Step>, id: OrderId) {
    exists i :: 0 <= i < |steps| && steps[i].CreateStep? && steps[i].id == id && steps[i].draft.overlapReason.Some?
  }

  /** Of two active orders that meet on a machine, one was created with a reason. */
  ghost predicate OverlapsReviewed(s: Store, steps: seq<Step>) {
    forall a, b :: Active(s, a) && Active(s, b) && a != b && s.orders[a].origin.Meets(s.orders[b].origin) ==>
      Reviewed(steps, a) || Reviewed(steps, b)
  }

  /** The order executes an assignment that was published when it was created. */
  ghost predicate Sourced(steps: seq<Step>, row: Order) {
    exists i :: 0 <= i < |steps| && steps[i].CreateStep? && steps[i].id == row.id
      && OriginOf(steps[i].operations, steps[i].draft) == Granted(row.origin)
  }

  lemma DecisionKeepsOrigin(
    row: Order, latest: Option<Completion>, directory: Directory, user: User, c: Command, at: Time)
    requires Decide(row, latest, directory, user, c, at).Granted?
    ensures var next := Decide(row, latest, directory, user, c, at).value;
            next.id == row.id && next.origin == row.origin && !Terminal(row.status)
  {
  }

  lemma CommandKeepsOrigins(s: Store, step: Step)
    requires step.CommandStep?
    ensures var t := Next(s, step).0;
            t == s || (
              && step.id in s.orders && !Terminal(s.orders[step.id].status)
              && step.id in t.orders && t.orders == s.orders[step.id := t.orders[step.id]]
              && t.orders[step.id].id == s.orders[step.id].id && t.orders[step.id].origin == s.orders[step.id].origin)
  {
    hide Decide, Replay;
    if Next(s, step).0 != s {
      DecisionKeepsOrigin(s.orders[step.id], Latest(CompletionsOf(s.completions, step.id)), step.directory,
                          User(step.identity, step.directory[step.identity].role), step.command, step.at);
    }
  }

  /** Orders come and stay with their origin, and what has ended stays ended. */
  lemma OriginsStay(s: Store, step: Step)
    ensures var t := Next(s, step).0;
            forall id :: id in s.orders && !(step.CreateStep? && step.id == id) ==>
              && id in t.orders && t.orders[id].origin == s.orders[id].origin && t.orders[id].id == s.orders[id].id
              && (Terminal(s.orders[id].status) ==> t.orders[id] == s.orders[id])
    ensures step.CommandStep? ==> Next(s, step).0.orders.Keys == s.orders.Keys
  {
    hide Next, OriginOf;
    if step.CommandStep? {
      CommandKeepsOrigins(s, step);
    } else {
      var row := CreationEffect(s, step);
    }
  }

  /** A creation that goes through adds one row, in nobody's way. */
  lemma CreationIsClear(s: Store, step: Step)
    requires step.CreateStep? && step.id !in s.orders && Next(s, step).0 != s
    ensures OriginOf(step.operations, step.draft).Granted?
    ensures var o := OriginOf(step.operations, step.draft).value;
            && Next(s, step).0.orders == s.orders[step.id := NewOrder(step.id, o, step.at)]
            && forall id :: id in s.orders ==>
                 && !s.orders[id].origin.SameAssignment(o)
                 && (Active(s, id) ==> !s.orders[id].origin.SameRequest(o))
                 && (Active(s, id) && s.orders[id].origin.Meets(o) ==> step.draft.overlapReason.Some?)
  {
  }

  lemma KeysStayUnique(s: Store, step: Step)
    requires KeysUnique(s) && (step.CreateStep? ==> step.id !in s.orders)
    ensures KeysUnique(Next(s, step).0)
  {
    hide Next;
    OriginsStay(s, step);
    if step.CreateStep? && Next(s, step).0 != s {
      CreationIsClear(s, step);
    }
  }

  lemma ReviewsStay(steps: seq<Step>, step: Step, id: OrderId)
    ensures Reviewed(steps, id) ==> Reviewed(steps + [step], id)
    ensures step.CreateStep? && step.id == id && step.draft.overlapReason.Some? ==> Reviewed(steps + [step], id)
  {
    var more := steps + [step];
    if Reviewed(steps, id) {
      var i :| 0 <= i < |steps| && steps[i].CreateStep? && steps[i].id == id && steps[i].draft.overlapReason.Some?;
      assert more[i] == steps[i];
    }
    assert more[|steps|] == step;
  }

  lemma OverlapsStayReviewed(s: Store, steps: seq<Step>, step: Step)
    requires OverlapsReviewed(s, steps) && (step.CreateStep? ==> step.id !in s.orders)
    ensures OverlapsReviewed(Next(s, step).0, steps + [step])
  {
    hide Next, Reviewed;
    var t := Next(s, step).0;
    OriginsStay(s, step);
    if step.CreateStep? && t != s {
      CreationIsClear(s, step);
    }
    forall a, b | Active(t, a) && Active(t, b) && a != b && t.orders[a].origin.Meets(t.orders[b].origin)
      ensures Reviewed(steps + [step], a) || Reviewed(steps + [step], b)
    {
      ReviewsStay(steps, step, a);
      ReviewsStay(steps, step, b);
    }
  }

  lemma SourcesStay(s: Store, steps: seq<Step>, step: Step, id: OrderId)
    requires id in s.orders ==> Sourced(steps, s.orders[id])
    requires (step.CreateStep? ==> step.id !in s.orders) && id in Next(s, step).0.orders
    ensures Sourced(steps + [step], Next(s, step).0.orders[id])
  {
    hide Next;
    var t, more := Next(s, step).0, steps + [step];
    OriginsStay(s, step);
    assert more[|steps|] == step;
    if id in s.orders {
      var i :| 0 <= i < |steps| && steps[i].CreateStep? && steps[i].id == s.orders[id].id
        && OriginOf(steps[i].operations, steps[i].draft) == Granted(s.orders[id].origin);
      assert more[i] == steps[i];
    } else {
      CreationIsClear(s, step);
    }
  }

  /**
   In every reachable store: one order per published assignment, at most one active order per
   basis snapshot and request, no unreviewed overlap of active orders on a machine, and every
   order executes an assignment of a commit that was the published head at its creation.
   */
  lemma {:induction false} OriginsAreUnique(steps: seq<Step>)
    requires Clocked(steps)
    ensures KeysUnique(Run(steps)) && OverlapsReviewed(Run(steps), steps)
    ensures forall id :: id in Run(steps).orders ==> Sourced(steps, Run(steps).orders[id])
  {
    hide Next, KeysUnique, OverlapsReviewed, Sourced;
    if steps == [] {
      NothingIsUnique(steps);
    } else {
      var n := |steps| - 1;
      OriginsAreUnique(steps[..n]);
      assert steps == steps[..n] + [steps[n]];
      KeysStayUnique(Run(steps[..n]), steps[n]);
      OverlapsStayReviewed(Run(steps[..n]), steps[..n], steps[n]);
      forall id | id in Run(steps).orders ensures Sourced(steps, Run(steps).orders[id]) {
        SourcesStay(Run(steps[..n]), steps[..n], steps[n], id);
      }
    }
  }

  lemma NothingIsUnique(steps: seq<Step>)
    requires steps == []
    ensures KeysUnique(Run(steps)) && OverlapsReviewed(Run(steps), steps) && Run(steps).orders == map[]
  {
  }

  // When an order may be created ----------------------------------------------------------------

  /** `o` is a maintenance assignment of the published plan that the draft names, and still to be done. */
  ghost predicate Executable(ops: Operations, d: Draft, o: Origin) {
    && ops.head.Some? && d.caseId in ops.commits
    && var h, p := ops.head.value, ops.commits[d.caseId];
       && h.revision == d.headRevision && h.snapshotId == d.snapshotId && h.planVersion == d.planVersion
       && h.scheduleId == Some(d.scheduleId) && h.scheduleRevision == Some(d.scheduleRevision)
       && p.scheduleId == d.scheduleId && p.scheduleRevision == d.scheduleRevision
       && p.scheduleHash == d.scheduleHash && p.planVersion == d.planVersion
       && p.live && p.committed && p.intact
       && o.scheduleId == d.scheduleId && o.scheduleRevision == d.scheduleRevision && o.assignmentId == d.assignmentId
       && o.snapshotId == p.snapshotId
       && o.requestId in p.requestMachines && p.requestMachines[o.requestId] == o.machineId && o.machineId in p.machines
       && PlannedWork(d.assignmentId, true, false, Some(o.requestId), o.machineId, o.plannedStart, o.plannedEnd)
          in p.assignments
  }

  /** No order has the assignment, no active one the request, and none in the way goes unreviewed. */
  ghost predicate Free(s: Store, d: Draft, o: Origin) {
    forall id :: id in s.orders ==>
      var q, active := s.orders[id].origin, s.orders[id].status !in {Closed, Cancelled};
      && !(q.scheduleId == o.scheduleId && q.scheduleRevision == o.scheduleRevision
           && q.assignmentId == o.assignmentId)
      && (active ==> q.snapshotId != o.snapshotId || q.requestId != o.requestId)
      && (active && q.machineId == o.machineId && q.plannedStart < o.plannedEnd && o.plannedStart < q.plannedEnd ==>
            d.overlapReason.Some?)
  }

  /** A schedule lists each assignment once. */
  ghost predicate ListedOnce(ops: Operations, d: Draft) {
    d.caseId in ops.commits ==>
      var works := ops.commits[d.caseId].assignments;
      forall a, b :: a in works && b in works && a.assignmentId == b.assignmentId ==> a == b
  }

  lemma OriginIsExact(ops: Operations, d: Draft, o: Origin)
    requires ListedOnce(ops, d)
    ensures OriginOf(ops, d) == Granted(o) <==> Executable(ops, d, o)
  {
  }

  lemma FreedomIsExact(s: Store, d: Draft, o: Origin)
    ensures OriginProblem(s.orders, o, d.overlapReason).None? <==> Free(s, d, o)
  {
  }

  /** Under an unused key an order is created exactly by a manager, for a free assignment of the published plan. */
  lemma CreationIsExact(s: Store, step: Step, o: Origin)
    requires step.CreateStep? && (step.identity, step.key) !in s.receipts
    requires ListedOnce(step.operations, step.draft) && Executable(step.operations, step.draft, o)
    ensures Next(s, step).0 != s <==>
              && WorkOrderFences.MayWrite(step.directory, step.identity)
              && step.directory[step.identity].role in {Admin, Engineer}
              && Free(s, step.draft, o)
    ensures Next(s, step).0 != s ==>
              && Next(s, step).1.Response? && !Next(s, step).1.replayed
              && Next(s, step).0.orders == s.orders[step.id := Next(s, step).1.order]
              && Next(s, step).1.order == Order(
                   step.id, Unassigned, 1, 1, None, None, None, None, None, None, None, o, step.at, step.at)
    ensures Next(s, step).0 == s ==> Next(s, step).1.Error?
  {
    hide Authorize, OriginOf, OriginProblem, Executable, Free;
    WorkOrderFences.AuthorizationIsExact(step.directory, step.identity);
    OriginIsExact(step.operations, step.draft, o);
    FreedomIsExact(s, step.draft, o);
    assert Next(s, step).0 != s ==> Next(s, step).0.receipts != s.receipts;
  }

  /** Without such an assignment nothing is created. */
  lemma NothingElseIsCreated(s: Store, step: Step)
    requires step.CreateStep? && ListedOnce(step.operations, step.draft) && Next(s, step).0 != s
    ensures exists o :: Executable(step.operations, step.draft, o)
  {
    hide Authorize, OriginProblem, Executable;
    OriginIsExact(step.operations, step.draft, OriginOf(step.operations, step.draft).value);
  }
}
