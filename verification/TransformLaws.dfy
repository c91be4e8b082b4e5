/** What the transformation promises: overrides commute, and outages and deferrals only shrink. */
module TransformLaws {
  import opened Collections
  import opened Plant
  import opened Slots
  import opened Judge
  import opened Transform

  /** Both orders are refused, or both end in the same draft. */
  ghost predicate SameEnd(a: Result, b: Result) {
    a.Rejected? == b.Rejected? && (a.Transformed? ==> a == b)
  }

  function Then(r: Result, o: Override): Result {
    if r.Rejected? then r else Apply(r.draft, o)
  }

  lemma {:induction false} TechnicianKeepsPlace(xs: seq<Technician>, ys: seq<Technician>, id: Id)
    requires |xs| == |ys| && forall k :: 0 <= k < |xs| ==> xs[k].id == ys[k].id
    ensures FindTechnician(xs, id) == FindTechnician(ys, id)
  {
    if xs != [] { TechnicianKeepsPlace(xs[1..], ys[1..], id); }
  }

  lemma {:induction false} RequestKeepsPlace(xs: seq<Request>, ys: seq<Request>, id: Id)
    requires |xs| == |ys| && forall k :: 0 <= k < |xs| ==> xs[k].id == ys[k].id
    ensures FindRequest(xs, id) == FindRequest(ys, id)
  {
    if xs != [] { RequestKeepsPlace(xs[1..], ys[1..], id); }
  }

  /** The `k`-th technician with the outage cut out, all others untouched. */
  function CutAt(xs: seq<Technician>, k: nat, o: Override): seq<Technician>
    requires k < |xs| && o.TechnicianUnavailable?
  {
    xs[k := Cut(xs[k], o.start, o.end)]
  }

  lemma OutagesCommute(d: Draft, a: Override, b: Override)
    requires a.TechnicianUnavailable? && b.TechnicianUnavailable? && a.target != b.target
    ensures SameEnd(Then(ApplyOutage(d, a), b), Then(ApplyOutage(d, b), a))
  {
    var xs := d.snapshot.technicians;
    var i, j := FindTechnician(xs, a.target), FindTechnician(xs, b.target);
    if i.Some? && j.Some? {
      var ys, zs := CutAt(xs, i.value, a), CutAt(xs, j.value, b);
      TechnicianKeepsPlace(xs, ys, b.target);
      TechnicianKeepsPlace(xs, zs, a.target);
      assert CutAt(ys, j.value, b) == CutAt(zs, i.value, a);
    } else if i.Some? {
      TechnicianKeepsPlace(xs, CutAt(xs, i.value, a), b.target);
    } else if j.Some? {
      TechnicianKeepsPlace(xs, CutAt(xs, j.value, b), a.target);
    }
  }

  /** A deferral and a new duration of one request do not see each other. */
  lemma EditsAreIndependent(w: Window, r: Request, a: Override, b: Override)
    requires Rank(a) != Rank(b)
    ensures Problem(w, Edited(r, b), a) == Problem(w, r, a)
    ensures Conflict(Edited(r, b), a) == Conflict(r, a)
    ensures Edited(Edited(r, a), b) == Edited(Edited(r, b), a)
  {
  }

  /** Request `i` of the draft edited, its conflict noted. */
  function EditAt(d: Draft, i: nat, o: Override): Draft
    requires i < |d.snapshot.requests|
  {
    var s := d.snapshot;
    Draft(s.(requests := s.requests[i := Edited(s.requests[i], o)]), d.conflicts + Conflict(s.requests[i], o))
  }

  lemma EditsCommute(d: Draft, i: nat, j: nat, a: Override, b: Override)
    requires i < |d.snapshot.requests| && j < |d.snapshot.requests|
    requires i == j ==> Rank(a) != Rank(b)
    ensures EditAt(EditAt(d, i, a), j, b) == EditAt(EditAt(d, j, b), i, a)
  {
    var xs, w := d.snapshot.requests, d.snapshot.window;
    if i == j {
      EditsAreIndependent(w, xs[i], a, b);
      EditsAreIndependent(w, xs[i], b, a);
    }
    assert EditAt(EditAt(d, i, a), j, b).snapshot.requests == EditAt(EditAt(d, j, b), i, a).snapshot.requests;
    assert EditAt(EditAt(d, i, a), j, b).conflicts == EditAt(EditAt(d, j, b), i, a).conflicts;
  }

  /** After any edit under another key, `o` still meets its request and the same checks. */
  lemma EditKeepsChecks(d: Draft, i: nat, a: Override, o: Override)
    requires i < |d.snapshot.requests| && d.snapshot.requests[i].id == a.target
    requires !o.TechnicianUnavailable? && !SameKey(a, o)
    ensures var j := FindRequest(d.snapshot.requests, o.target);
            ApplyToRequest(EditAt(d, i, a), o) ==
              if j.None? then Rejected(UnknownTarget(o.target))
              else if Problem(d.snapshot.window, d.snapshot.requests[j.value], o).Some?
                then Rejected(Problem(d.snapshot.window, d.snapshot.requests[j.value], o).value)
              else Transformed(EditAt(EditAt(d, i, a), j.value, o))
  {
    RequestKeepsPlace(d.snapshot.requests, EditAt(d, i, a).snapshot.requests, o.target);
    if Rank(a) != Rank(o) {
      EditsAreIndependent(d.snapshot.window, d.snapshot.requests[i], o, a);
    }
  }

  lemma RequestEditsCommute(d: Draft, a: Override, b: Override)
    requires !a.TechnicianUnavailable? && !b.TechnicianUnavailable? && !SameKey(a, b)
    ensures SameEnd(Then(ApplyToRequest(d, a), b), Then(ApplyToRequest(d, b), a))
  {
    var xs := d.snapshot.requests;
    var i, j := FindRequest(xs, a.target), FindRequest(xs, b.target);
    if i.Some? { EditKeepsChecks(d, i.value, a, b); }
    if j.Some? { EditKeepsChecks(d, j.value, b, a); }
    if i.Some? && j.Some? { EditsCommute(d, i.value, j.value, a, b); }
  }

  /** Two overrides with different keys may be applied in either order. */
  lemma OverridesCommute(d: Draft, a: Override, b: Override)
    requires !SameKey(a, b)
    ensures SameEnd(Then(Apply(d, a), b), Then(Apply(d, b), a))
  {
    if a.TechnicianUnavailable? && b.TechnicianUnavailable? {
      OutagesCommute(d, a, b);
    } else if !a.TechnicianUnavailable? && !b.TechnicianUnavailable? {
      RequestEditsCommute(d, a, b);
    }
  }

  /** What request validation demands: one override per type and target. */
  ghost predicate OnePerKey(overrides: seq<Override>) {
    Distinct(overrides) && forall a, b :: a in overrides && b in overrides && SameKey(a, b) ==> a == b
  }

  lemma TwoSteps(d: Draft, a: Override, b: Override, rest: seq<Override>)
    ensures ApplyAll(d, [a, b] + rest) ==
              var r := Then(Apply(d, a), b); if r.Rejected? then r else ApplyAll(r.draft, rest)
  {
    assert ([a, b] + rest)[1..] == [b] + rest;
    assert ([b] + rest)[1..] == rest;
  }

  /** Pulling the k-th override to the front changes nothing. */
  lemma {:induction false} PullToFront(d: Draft, xs: seq<Override>, k: nat)
    requires k < |xs| && OnePerKey(xs)
    ensures SameEnd(ApplyAll(d, xs), ApplyAll(d, [xs[k]] + xs[..k] + xs[k + 1..]))
    decreases k
  {
    if k == 0 {
      assert [xs[0]] + xs[..0] + xs[1..] == xs;
    } else {
      var a, b, rest := xs[0], xs[k], xs[1..k] + xs[k + 1..];
      assert a != b && a in xs && b in xs;
      var tail := xs[1..];
      assert tail[..k - 1] == xs[1..k] && tail[k..] == xs[k + 1..];
      var front := [tail[k - 1]] + tail[..k - 1] + tail[k..];
      assert front == [b] + rest;
      assert [a] + front == [a, b] + rest && ([a] + front)[1..] == front;
      assert [b] + xs[..k] + xs[k + 1..] == [b, a] + rest;
      if Apply(d, a).Transformed? {
        PullToFront(Apply(d, a).draft, tail, k - 1);
      }
      OverridesCommute(d, a, b);
      TwoSteps(d, a, b, rest);
      TwoSteps(d, b, a, rest);
    }
  }

  lemma PermutationKeepsOnePerKey(xs: seq<Override>, ys: seq<Override>)
    requires OnePerKey(xs) && multiset(xs) == multiset(ys)
    ensures OnePerKey(ys) && forall x :: x in xs <==> x in ys
  {
    PermutationKeepsDistinct(xs, ys);
  }

  /** Any order of the same overrides is refused alike, or ends in the same snapshot and conflicts. */
  lemma {:induction false} OrderIsIrrelevant(d: Draft, xs: seq<Override>, ys: seq<Override>)
    requires OnePerKey(xs) && multiset(xs) == multiset(ys)
    ensures SameEnd(ApplyAll(d, xs), ApplyAll(d, ys))
    decreases |xs|
  {
    if xs != [] {
      PermutationKeepsOnePerKey(xs, ys);
      assert xs[0] in xs && xs[0] in ys;
      var k :| 0 <= k < |ys| && ys[k] == xs[0];
      var rest := ys[..k] + ys[k + 1..];
      DropFromBoth(xs, ys, k);
      PullToFront(d, ys, k);
      assert [ys[k]] + ys[..k] + ys[k + 1..] == [ys[k]] + rest && ([ys[k]] + rest)[1..] == rest;
      if Apply(d, xs[0]).Transformed? {
        OrderIsIrrelevant(Apply(d, xs[0]).draft, xs[1..], rest);
      }
    }
  }

  /** Sorting first is therefore only a normal form. */
  lemma SubmissionOrderIsIrrelevant(s: Snapshot, xs: seq<Override>, ys: seq<Override>)
    requires OnePerKey(xs) && multiset(xs) == multiset(ys)
    ensures SameEnd(ApplyAll(Draft(s, {}), Sorted(xs, ByKey)), ApplyAll(Draft(s, {}), Sorted(ys, ByKey)))
    ensures SameEnd(ApplyAll(Draft(s, {}), Sorted(xs, ByKey)), ApplyAll(Draft(s, {}), xs))
  {
    var sorted := Sorted(xs, ByKey);
    PermutationKeepsOnePerKey(xs, sorted);
    OrderIsIrrelevant(Draft(s, {}), sorted, Sorted(ys, ByKey));
    OrderIsIrrelevant(Draft(s, {}), sorted, xs);
  }

  // Shrinking ------------------------------------------------------------------------------

  predicate SameButLater(after: Request, before: Request) {
    after.(earliestStart := before.earliestStart) == before && after.earliestStart >= before.earliestStart
  }

  ghost predicate SameButAbsent(after: Technician, before: Technician) {
    after.(availability := before.availability) == before && ShiftWithin(after.availability, before.availability)
  }

  /** `after` differs from `before` only by shorter shifts and later earliest starts. */
  ghost predicate Tighter(after: Snapshot, before: Snapshot) {
    && after.(technicians := before.technicians, requests := before.requests) == before
    && |after.technicians| == |before.technicians|
    && |after.requests| == |before.requests|
    && (forall k :: 0 <= k < |after.technicians| ==> SameButAbsent(after.technicians[k], before.technicians[k]))
    && (forall k :: 0 <= k < |after.requests| ==> SameButLater(after.requests[k], before.requests[k]))
  }

  lemma {:induction false} SubtractShrinks(windows: seq<Window>, start: Time, end: Time)
    ensures ShiftWithin(Subtract(windows, start, end), windows)
  {
    if windows != [] {
      var n := |windows| - 1;
      assert windows == windows[..n] + [windows[n]];
      SubtractShrinks(windows[..n], start, end);
      assert windows[n] in windows;
    }
  }

  lemma ApplyTightens(d: Draft, o: Override)
    requires !o.MaintenanceDuration? && Apply(d, o).Transformed?
    ensures Tighter(Apply(d, o).draft.snapshot, d.snapshot)
  {
    if o.TechnicianUnavailable? {
      var t := d.snapshot.technicians[FindTechnician(d.snapshot.technicians, o.target).value];
      SubtractShrinks(t.availability, o.start, o.end);
    }
  }

  lemma TighterIsTransitive(a: Snapshot, b: Snapshot, c: Snapshot)
    requires Tighter(a, b) && Tighter(b, c)
    ensures Tighter(a, c)
  {
    forall k | 0 <= k < |a.technicians| ensures SameButAbsent(a.technicians[k], c.technicians[k]) {
      assert SameButAbsent(a.technicians[k], b.technicians[k]) && SameButAbsent(b.technicians[k], c.technicians[k]);
    }
    forall k | 0 <= k < |a.requests| ensures SameButLater(a.requests[k], c.requests[k]) {
      assert SameButLater(a.requests[k], b.requests[k]) && SameButLater(b.requests[k], c.requests[k]);
    }
  }

  lemma {:induction false} ApplyAllTightens(d: Draft, overrides: seq<Override>)
    requires forall o :: o in overrides ==> !o.MaintenanceDuration?
    requires ApplyAll(d, overrides).Transformed?
    ensures Tighter(ApplyAll(d, overrides).draft.snapshot, d.snapshot)
    decreases |overrides|
  {
    if overrides != [] {
      ApplyTightens(d, overrides[0]);
      ApplyAllTightens(Apply(d, overrides[0]).draft, overrides[1..]);
      TighterIsTransitive(ApplyAll(d, overrides).draft.snapshot, Apply(d, overrides[0]).draft.snapshot, d.snapshot);
    }
  }

  lemma {:induction false} TechnicianTablesMatch(xs: seq<Technician>, ys: seq<Technician>)
    requires |xs| == |ys| && forall k :: 0 <= k < |xs| ==> SameButAbsent(xs[k], ys[k])
    ensures TechnicianTable(xs).Keys == TechnicianTable(ys).Keys
    ensures forall id :: id in TechnicianTable(xs) ==> SameButAbsent(TechnicianTable(xs)[id], TechnicianTable(ys)[id])
  {
    if xs != [] { TechnicianTablesMatch(xs[..|xs| - 1], ys[..|ys| - 1]); }
  }

  lemma {:induction false} RequestTablesMatch(xs: seq<Request>, ys: seq<Request>)
    requires |xs| == |ys| && forall k :: 0 <= k < |xs| ==> SameButLater(xs[k], ys[k])
    ensures RequestTable(xs).Keys == RequestTable(ys).Keys
    ensures forall id :: id in RequestTable(xs) ==> SameButLater(RequestTable(xs)[id], RequestTable(ys)[id])
  {
    if xs != [] { RequestTablesMatch(xs[..|xs| - 1], ys[..|ys| - 1]); }
  }

  ghost predicate TighterIndex(after: Index, before: Index) {
    && after.machines == before.machines
    && after.operations == before.operations
    && after.technicians.Keys == before.technicians.Keys
    && after.requests.Keys == before.requests.Keys
    && (forall id :: id in after.technicians ==> SameButAbsent(after.technicians[id], before.technicians[id]))
    && (forall id :: id in after.requests ==> SameButLater(after.requests[id], before.requests[id]))
  }

  lemma PresentBefore(after: Technician, before: Technician, a: Assignment)
    requires SameButAbsent(after, before) && Present(after, a)
    ensures Present(before, a)
  {
    var w :| w in after.availability && Contains(w, a.start, a.end);
    var v :| v in before.availability && v.start <= w.start && w.end <= v.end;
    assert Contains(v, a.start, a.end);
  }

  lemma AttendedBefore(after: Index, before: Index, a: Assignment)
    requires TighterIndex(after, before) && Attended(after, a)
    ensures Attended(before, a)
  {
    forall t | t in a.Team() && t in before.technicians ensures Present(before.technicians[t], a) {
      PresentBefore(after.technicians[t], before.technicians[t], a);
    }
  }

  lemma SkilledBefore(after: Index, before: Index, a: Assignment)
    requires TighterIndex(after, before) && Skilled(after, a)
    ensures Skilled(before, a)
  {
    if a.work.Maintenance? && a.work.requestId in before.requests && a.machineId in before.machines {
      var team, r, q := a.work.technicianIds, before.requests[a.work.requestId], after.requests[a.work.requestId];
      var family := before.machines[a.machineId].family;
      assert SameButLater(q, r);
      forall k | k in r.requiredSkills ensures Adequate(before, team, r, family, k) {
        assert Adequate(after, team, q, family, k);
        var t :| t in team && t in after.technicians && Masters(after.technicians[t], k, q, family);
        assert SameButAbsent(after.technicians[t], before.technicians[t]);
        assert Masters(before.technicians[t], k, r, family);
      }
    }
  }

  lemma ObeysBefore(after: Index, before: Index, a: Assignment, rule: Code)
    requires TighterIndex(after, before) && Obeys(after, a, rule)
    ensures Obeys(before, a, rule)
  {
    if a.work.Maintenance? && a.work.requestId in before.requests {
      assert SameButLater(after.requests[a.work.requestId], before.requests[a.work.requestId]);
    }
  }

  lemma RequestCoveredBefore(after: Index, before: Index, plan: set<Assignment>, id: Id)
    requires TighterIndex(after, before) && id in after.requests && RequestCovered(plan, after.requests[id])
    ensures RequestCovered(plan, before.requests[id])
  {
    assert SameButLater(after.requests[id], before.requests[id]);
  }

  lemma ClauseBefore(c: Code, after: Snapshot, before: Snapshot, x: Index, y: Index, plan: Plan)
    requires Tighter(after, before) && TighterIndex(x, y) && Clause(c, after, x, plan)
    ensures Clause(c, before, y, plan)
  {
    var active := ActivePart(plan.schedule.assignments);
    match c
    case UnknownReference | PlanningWindow | MachineOverlap | Precedence | OperationCoverage | ImmutableReservation =>
    case MachineEligibility =>
      forall a | a in active ensures EligibleMachine(y, a) {
        assert EligibleMachine(x, a);
        if a.work.Maintenance? && a.work.requestId in y.requests {
          assert SameButLater(x.requests[a.work.requestId], y.requests[a.work.requestId]);
        }
      }
    case TechnicianAvailability =>
      forall a | a in active ensures Attended(y, a) { AttendedBefore(x, y, a); }
    case SkillAdequacy =>
      forall a | a in active ensures Skilled(y, a) { SkilledBefore(x, y, a); }
    case MaintenanceCoverage =>
      forall id | id in y.requests ensures RequestCovered(active, y.requests[id]) {
        RequestCoveredBefore(x, y, active, id);
      }
    case _ =>
      forall a | a in active ensures Obeys(y, a, c) { ObeysBefore(x, y, a, c); }
  }

  /** A plan strict-valid on the tighter snapshot is strict-valid on the looser one. */
  lemma TighteningKeepsValidPlansValid(after: Snapshot, before: Snapshot, plan: Plan)
    requires Tighter(after, before) && StrictValid(after, plan)
    ensures StrictValid(before, plan)
  {
    TechnicianTablesMatch(after.technicians, before.technicians);
    RequestTablesMatch(after.requests, before.requests);
    forall c ensures Holds(c, before, plan) {
      assert Holds(c, after, plan);
      ClauseBefore(c, after, before, IndexOf(after), IndexOf(before), plan);
    }
  }

  /** Outages and deferrals only shrink the set of strict-valid plans. */
  lemma OutagesAndDeferralsOnlyShrink(s: Snapshot, overrides: seq<Override>, plan: Plan)
    requires forall o :: o in overrides ==> !o.MaintenanceDuration?
    requires var e := EffectiveOf(ApplyAll(Draft(s, {}), overrides));
             e.Effective? && e.snapshot.Some? && StrictValid(e.snapshot.value, plan)
    ensures StrictValid(s, plan)
  {
    ApplyAllTightens(Draft(s, {}), overrides);
    TighteningKeepsValidPlansValid(ApplyAll(Draft(s, {}), overrides).draft.snapshot, s, plan);
  }

  /** A live start bound is a deferral: accepted alike, with the same snapshot. */
  lemma BoundIsDeferral(s: Snapshot, conflicts: set<Id>, b: Bound)
    ensures var deferred := Apply(Draft(s, conflicts), DeferMaintenance(b.target, b.earliestStart));
            && (Bounded(s, b).Some? <==> deferred.Transformed?)
            && (Bounded(s, b).Some? ==> Bounded(s, b).value == deferred.draft.snapshot)
  {
  }

  lemma {:induction false} BoundAllTightens(s: Snapshot, bounds: seq<Bound>)
    requires BoundAll(s, bounds).Some?
    ensures Tighter(BoundAll(s, bounds).value, s)
    decreases |bounds|
  {
    if bounds != [] {
      var next := Bounded(s, bounds[0]).value;
      BoundIsDeferral(s, {}, bounds[0]);
      ApplyTightens(Draft(s, {}), DeferMaintenance(bounds[0].target, bounds[0].earliestStart));
      BoundAllTightens(next, bounds[1..]);
      TighterIsTransitive(BoundAll(next, bounds[1..]).value, next, s);
    }
  }

  lemma LiveBoundsOnlyShrink(s: Snapshot, bounds: seq<Bound>, plan: Plan)
    requires BoundAll(s, bounds).Some? && StrictValid(BoundAll(s, bounds).value, plan)
    ensures StrictValid(s, plan)
  {
    BoundAllTightens(s, bounds);
    TighteningKeepsValidPlansValid(BoundAll(s, bounds).value, s, plan);
  }

  // The effective snapshot parses --------------------------------------------------------------

  /** What parsing an override guarantees. */
  predicate LegalOverride(o: Override) {
    && (o.TechnicianUnavailable? ==> o.start < o.end)
    && (o.MaintenanceDuration? ==> o.minutes >= 1)
  }

  ghost predicate Reshift(after: Technician, before: Technician) {
    after.(availability := before.availability) == before && forall w :: w in after.availability ==> w.start < w.end
  }

  predicate Retimed(after: Request, before: Request, conflicts: set<Id>) {
    && after.(earliestStart := before.earliestStart, minutes := before.minutes) == before
    && after.minutes >= 1
    && (after.latestStart.Some? && after.earliestStart > after.latestStart.value ==> after.id in conflicts)
  }

  /** Only shifts, durations and earliest starts differ, and every crossed latest start is a recorded conflict. */
  ghost predicate Reshaped(d: Draft, before: Snapshot) {
    var after := d.snapshot;
    && after.(technicians := before.technicians, requests := before.requests) == before
    && |after.technicians| == |before.technicians|
    && |after.requests| == |before.requests|
    && (forall k :: 0 <= k < |after.technicians| ==> Reshift(after.technicians[k], before.technicians[k]))
    && (forall k :: 0 <= k < |after.requests| ==> Retimed(after.requests[k], before.requests[k], d.conflicts))
  }

  lemma {:induction false} SubtractKeepsWindowsNonEmpty(windows: seq<Window>, start: Time, end: Time)
    requires forall w :: w in windows ==> w.start < w.end
    ensures forall w :: w in Subtract(windows, start, end) ==> w.start < w.end
  {
    if windows != [] {
      SubtractKeepsWindowsNonEmpty(windows[..|windows| - 1], start, end);
    }
  }

  lemma ApplyReshapes(d: Draft, o: Override, before: Snapshot)
    requires Reshaped(d, before) && LegalOverride(o) && Apply(d, o).Transformed?
    ensures Reshaped(Apply(d, o).draft, before)
  {
    if o.TechnicianUnavailable? {
      var k := FindTechnician(d.snapshot.technicians, o.target).value;
      assert Reshift(d.snapshot.technicians[k], before.technicians[k]);
      SubtractKeepsWindowsNonEmpty(d.snapshot.technicians[k].availability, o.start, o.end);
    } else {
      var k := FindRequest(d.snapshot.requests, o.target).value;
      assert Retimed(d.snapshot.requests[k], before.requests[k], d.conflicts);
    }
  }

  lemma {:induction false} ApplyAllReshapes(d: Draft, overrides: seq<Override>, before: Snapshot)
    requires Reshaped(d, before) && ApplyAll(d, overrides).Transformed?
    requires forall o :: o in overrides ==> LegalOverride(o)
    ensures Reshaped(ApplyAll(d, overrides).draft, before)
    decreases |overrides|
  {
    if overrides != [] {
      ApplyReshapes(d, overrides[0], before);
      ApplyAllReshapes(Apply(d, overrides[0]).draft, overrides[1..], before);
    }
  }

  lemma {:induction false} TechnicianKeysMatch(xs: seq<Technician>, ys: seq<Technician>)
    requires |xs| == |ys| && forall k :: 0 <= k < |xs| ==> xs[k].id == ys[k].id
    ensures TechnicianTable(xs).Keys == TechnicianTable(ys).Keys
  {
    if xs != [] { TechnicianKeysMatch(xs[..|xs| - 1], ys[..|ys| - 1]); }
  }

  lemma {:induction false} RequestKeysMatch(xs: seq<Request>, ys: seq<Request>)
    requires |xs| == |ys| && forall k :: 0 <= k < |xs| ==> xs[k].id == ys[k].id
    ensures RequestTable(xs).Keys == RequestTable(ys).Keys
  {
    if xs != [] { RequestKeysMatch(xs[..|xs| - 1], ys[..|ys| - 1]); }
  }

  lemma ReshapedKeepsUniqueIds(d: Draft, before: Snapshot)
    requires UniqueIds(before) && Reshaped(d, before)
    ensures UniqueIds(d.snapshot)
    ensures forall j, o :: HasOperation(d.snapshot, j, o) <==> HasOperation(before, j, o)
  {
    var after := d.snapshot;
    forall i, j | 0 <= i < j < |after.technicians| ensures after.technicians[i].id != after.technicians[j].id {
      assert Reshift(after.technicians[i], before.technicians[i])
             && Reshift(after.technicians[j], before.technicians[j]);
    }
    forall i, j | 0 <= i < j < |after.requests| ensures after.requests[i].id != after.requests[j].id {
      assert Retimed(after.requests[i], before.requests[i], d.conflicts);
      assert Retimed(after.requests[j], before.requests[j], d.conflicts);
    }
    forall j, o, k, p | HasOperation(after, j, o) && HasOperation(after, k, p) && o.id == p.id
      ensures j == k && o == p
    {
      assert HasOperation(before, j, o) && HasOperation(before, k, p);
    }
  }

  lemma ReshapedKeepsRequestsValid(d: Draft, before: Snapshot, r: Request)
    requires WellFormed(before) && Reshaped(d, before) && d.conflicts == {}
    requires r in d.snapshot.requests
    ensures ValidRequest(d.snapshot, r)
  {
    var k :| 0 <= k < |d.snapshot.requests| && d.snapshot.requests[k] == r;
    assert Retimed(r, before.requests[k], d.conflicts) && ValidRequest(before, before.requests[k]);
  }

  lemma ReshapedKeepsTables(d: Draft, before: Snapshot)
    requires Reshaped(d, before)
    ensures IndexOf(d.snapshot).machines == IndexOf(before).machines
    ensures IndexOf(d.snapshot).operations == IndexOf(before).operations
    ensures IndexOf(d.snapshot).technicians.Keys == IndexOf(before).technicians.Keys
    ensures IndexOf(d.snapshot).requests.Keys == IndexOf(before).requests.Keys
  {
    TechnicianKeysMatch(d.snapshot.technicians, before.technicians);
    RequestKeysMatch(d.snapshot.requests, before.requests);
  }

  lemma ReshapedKeepsWorkValid(d: Draft, before: Snapshot)
    requires Reshaped(d, before)
    ensures forall j, o :: ValidOperation(before, j, o) ==> ValidOperation(d.snapshot, j, o)
    ensures forall a :: ValidAssignment(before, a) ==> ValidAssignment(d.snapshot, a)
  {
    ReshapedKeepsTables(d, before);
    assert d.snapshot.window == before.window;
    hide Reshaped, IndexOf;
  }

  lemma ReshapedIsWellFormed(d: Draft, before: Snapshot)
    requires WellFormed(before) && Reshaped(d, before) && d.conflicts == {}
    ensures WellFormed(d.snapshot)
  {
    ReshapedKeepsUniqueIds(d, before);
    ReshapedKeepsWorkValid(d, before);
    forall r | r in d.snapshot.requests ensures ValidRequest(d.snapshot, r) {
      ReshapedKeepsRequestsValid(d, before, r);
    }
    forall t | t in d.snapshot.technicians ensures forall w :: w in t.availability ==> w.start < w.end {
      var k :| 0 <= k < |d.snapshot.technicians| && d.snapshot.technicians[k] == t;
      assert Reshift(t, before.technicians[k]);
    }
  }

  /** Without a conflict the effective snapshot always parses; the model's last check never fires. */
  lemma EffectiveSnapshotIsWellFormed(s: Snapshot, overrides: seq<Override>)
    requires WellFormed(s) && forall o :: o in overrides ==> LegalOverride(o)
    requires var e := EffectiveOf(ApplyAll(Draft(s, {}), overrides)); e.Effective? && e.snapshot.Some?
    ensures WellFormed(EffectiveOf(ApplyAll(Draft(s, {}), overrides)).snapshot.value)
  {
    UntouchedIsReshaped(s);
    ApplyAllReshapes(Draft(s, {}), overrides, s);
    ReshapedIsWellFormed(ApplyAll(Draft(s, {}), overrides).draft, s);
  }

  lemma UntouchedIsReshaped(s: Snapshot)
    requires WellFormed(s)
    ensures Reshaped(Draft(s, {}), s)
  {
    forall k | 0 <= k < |s.requests| ensures Retimed(s.requests[k], s.requests[k], {}) {
      assert ValidRequest(s, s.requests[k]);
    }
  }

  /** Bounds in turn only move earliest starts; `after` remembers which latest starts were crossed on the way. */
  lemma {:induction false} BoundAllReshapes(d: Draft, bounds: seq<Bound>, before: Snapshot) returns (after: Draft)
    requires Reshaped(d, before) && BoundAll(d.snapshot, bounds).Some?
    ensures after.snapshot == BoundAll(d.snapshot, bounds).value && Reshaped(after, before)
    decreases |bounds|
  {
    if bounds == [] {
      after := d;
    } else {
      hide Reshaped;
      BoundIsDeferral(d.snapshot, d.conflicts, bounds[0]);
      var deferral := DeferMaintenance(bounds[0].target, bounds[0].earliestStart);
      ApplyReshapes(d, deferral, before);
      after := BoundAllReshapes(Apply(d, deferral).draft, bounds[1..], before);
    }
  }

  /** Of a well-formed snapshot with its bounds, parsing refuses exactly a lower start above the upper one. */
  lemma BoundedSnapshotIsWellFormed(s: Snapshot, bounds: seq<Bound>)
    requires WellFormed(s) && BoundAll(s, bounds).Some?
    ensures WellFormed(BoundAll(s, bounds).value) <==> StartsConsistent(BoundAll(s, bounds).value)
  {
    UntouchedIsReshaped(s);
    var d := BoundAllReshapes(Draft(s, {}), bounds, s);
    if StartsConsistent(d.snapshot) {
      ReshapedIsConsistent(d, s);
      ReshapedIsWellFormed(Draft(d.snapshot, {}), s);
    }
    if WellFormed(d.snapshot) {
      ValidRequestsStartInTime(d.snapshot);
    }
  }

  lemma ReshapedIsConsistent(d: Draft, before: Snapshot)
    requires Reshaped(d, before) && StartsConsistent(d.snapshot)
    ensures Reshaped(Draft(d.snapshot, {}), before)
  {
    forall k | 0 <= k < |d.snapshot.requests| ensures Retimed(d.snapshot.requests[k], before.requests[k], {}) {
      assert Retimed(d.snapshot.requests[k], before.requests[k], d.conflicts);
    }
  }

  lemma ValidRequestsStartInTime(s: Snapshot)
    requires WellFormed(s)
    ensures StartsConsistent(s)
  {
    forall r | r in s.requests ensures ValidRequest(s, r) {}
  }
}
