/** What a set of overrides does to each request and each technician of a snapshot. */
module OverrideLaws {
  import opened Collections
  import opened Plant
  import opened Slots
  import opened Transform
  import opened TransformLaws

  /** Identifiers tell requests and technicians apart, and shifts are not empty. */
  ghost predicate Keyed(s: Snapshot) {
    && (forall i, j :: 0 <= i < j < |s.requests| ==> s.requests[i].id != s.requests[j].id)
    && (forall i, j :: 0 <= i < j < |s.technicians| ==> s.technicians[i].id != s.technicians[j].id)
    && (forall k, w :: 0 <= k < |s.technicians| && w in s.technicians[k].availability ==> w.start < w.end)
  }

  ghost predicate IsOpen(s: Snapshot, r: Request) {
    r in s.requests && r.status != RequestStatus.Completed && r.status != RequestStatus.Cancelled
  }

  /** The override has a target it may change, and stays inside the window. */
  ghost predicate Acceptable(s: Snapshot, o: Override) {
    match o
    case TechnicianUnavailable(id, start, end) =>
      (exists t :: t in s.technicians && t.id == id) && s.window.start <= start && end <= s.window.end
    case DeferMaintenance(id, start) =>
      (exists r :: IsOpen(s, r) && r.id == id && r.earliestStart <= start) && s.window.start <= start < s.window.end
    case MaintenanceDuration(id, _) => exists r :: IsOpen(s, r) && r.id == id
  }

  /** The request with its deferral and its new duration, if any. */
  ghost predicate Edits(overrides: seq<Override>, before: Request, after: Request) {
    && after == before.(earliestStart := after.earliestStart, minutes := after.minutes)
    && (forall e :: DeferMaintenance(before.id, e) in overrides ==> after.earliestStart == e)
    && ((forall e :: DeferMaintenance(before.id, e) !in overrides) ==> after.earliestStart == before.earliestStart)
    && (forall m :: MaintenanceDuration(before.id, m) in overrides ==> after.minutes == m)
    && ((forall m :: MaintenanceDuration(before.id, m) !in overrides) ==> after.minutes == before.minutes)
  }

  /** The technician is on one shift throughout [from, to). */
  ghost predicate OnShift(t: Technician, from: Time, to: Time) {
    exists w :: w in t.availability && w.start <= from && to <= w.end
  }

  /** No outage of the technician meets [from, to). */
  ghost predicate Spared(overrides: seq<Override>, id: Id, from: Time, to: Time) {
    forall start, end :: TechnicianUnavailable(id, start, end) in overrides ==> to <= start || end <= from
  }

  /** The technician with the outages cut out of the shifts. */
  ghost predicate Cuts(overrides: seq<Override>, before: Technician, after: Technician) {
    && after == before.(availability := after.availability)
    && forall from, to :: from < to ==>
         (OnShift(after, from, to) <==> OnShift(before, from, to) && Spared(overrides, before.id, from, to))
  }

  /** Snapshot `t` is `s` with all overrides, and with nothing else changed. */
  ghost predicate Overridden(s: Snapshot, overrides: seq<Override>, t: Snapshot) {
    && t == s.(technicians := t.technicians, requests := t.requests)
    && |t.requests| == |s.requests| && |t.technicians| == |s.technicians|
    && (forall k :: 0 <= k < |s.requests| ==> Edits(overrides, s.requests[k], t.requests[k]))
    && (forall k :: 0 <= k < |s.technicians| ==> Cuts(overrides, s.technicians[k], t.technicians[k]))
  }

  /** A deferral of the request passes its latest start. */
  ghost predicate TooLate(s: Snapshot, overrides: seq<Override>, id: Id) {
    exists k, e :: 0 <= k < |s.requests| && s.requests[k].id == id && DeferMaintenance(id, e) in overrides
                   && s.requests[k].latestStart.Some? && e > s.requests[k].latestStart.value
  }

  lemma RequestPlace(s: Snapshot, id: Id, k: nat)
    requires Keyed(s) && k < |s.requests| && s.requests[k].id == id
    ensures FindRequest(s.requests, id) == Some(k)
  {
  }

  lemma TechnicianPlace(s: Snapshot, id: Id, k: nat)
    requires Keyed(s) && k < |s.technicians| && s.technicians[k].id == id
    ensures FindTechnician(s.technicians, id) == Some(k)
  {
  }

  lemma OutageIsAcceptable(d: Draft, o: Override)
    requires Keyed(d.snapshot) && o.TechnicianUnavailable?
    ensures Apply(d, o).Transformed? <==> Acceptable(d.snapshot, o)
  {
  }

  lemma EditIsAcceptable(d: Draft, o: Override)
    requires Keyed(d.snapshot) && !o.TechnicianUnavailable?
    ensures Apply(d, o).Transformed? <==> Acceptable(d.snapshot, o)
  {
    var s := d.snapshot;
    forall k | 0 <= k < |s.requests| && s.requests[k].id == o.target
      ensures FindRequest(s.requests, o.target) == Some(k)
    {
      RequestPlace(s, o.target, k);
    }
  }

  /** One override is accepted exactly when it is acceptable. */
  lemma OverrideIsAcceptable(d: Draft, o: Override)
    requires Keyed(d.snapshot)
    ensures Apply(d, o).Transformed? <==> Acceptable(d.snapshot, o)
  {
    if o.TechnicianUnavailable? { OutageIsAcceptable(d, o); } else { EditIsAcceptable(d, o); }
  }

  lemma CutIsExact(t: Technician, o: Override)
    requires o.TechnicianUnavailable? && o.start < o.end && o.target == t.id
    requires forall w :: w in t.availability ==> w.start < w.end
    ensures Cuts([o], t, Cut(t, o.start, o.end))
    ensures forall w :: w in Cut(t, o.start, o.end).availability ==> w.start < w.end
  {
    var after := Cut(t, o.start, o.end);
    forall from, to | from < to
      ensures OnShift(after, from, to) <==> OnShift(t, from, to) && Spared([o], t.id, from, to)
    {
      SubtractIsExact(t.availability, o.start, o.end, from, to);
      assert OnShift(t, from, to) <==> exists w :: w in t.availability && Contains(w, from, to);
      assert OnShift(after, from, to) <==>
             exists w :: w in Subtract(t.availability, o.start, o.end) && Contains(w, from, to);
      assert o in [o];
    }
    SubtractKeepsWindowsNonEmpty(t.availability, o.start, o.end);
  }

  lemma Untouched(o: Override, r: Request, t: Technician)
    ensures o.TechnicianUnavailable? || o.target != r.id ==> Edits([o], r, r)
    ensures !o.TechnicianUnavailable? || o.target != t.id ==> Cuts([o], t, t)
  {
  }

  lemma OutageOverrides(d: Draft, o: Override)
    requires Keyed(d.snapshot) && o.TechnicianUnavailable? && o.start < o.end && Apply(d, o).Transformed?
    ensures var after := Apply(d, o).draft;
            && Overridden(d.snapshot, [o], after.snapshot) && Keyed(after.snapshot)
            && after.conflicts == d.conflicts
  {
    hide Edits, Cuts;
    var s, t := d.snapshot, Apply(d, o).draft.snapshot;
    var i := FindTechnician(s.technicians, o.target).value;
    CutIsExact(s.technicians[i], o);
    forall k | 0 <= k < |s.requests| ensures Edits([o], s.requests[k], t.requests[k]) {
      Untouched(o, s.requests[k], s.technicians[i]);
    }
    forall k | 0 <= k < |s.technicians| ensures Cuts([o], s.technicians[k], t.technicians[k]) {
      if k != i { NotTarget(o, s.technicians[k]); }
    }
  }

  lemma NotTarget(o: Override, t: Technician)
    requires !o.TechnicianUnavailable? || o.target != t.id
    ensures Cuts([o], t, t)
  {
  }

  lemma EditOverrides(d: Draft, o: Override)
    requires Keyed(d.snapshot) && !o.TechnicianUnavailable? && Apply(d, o).Transformed?
    ensures var after := Apply(d, o).draft;
            && Overridden(d.snapshot, [o], after.snapshot) && Keyed(after.snapshot)
            && forall id :: id in after.conflicts <==> id in d.conflicts || TooLate(d.snapshot, [o], id)
  {
    hide Cuts;
    var s, t := d.snapshot, Apply(d, o).draft.snapshot;
    var i := FindRequest(s.requests, o.target).value;
    forall k | 0 <= k < |s.technicians| ensures Cuts([o], s.technicians[k], t.technicians[k]) {
      NotTarget(o, s.technicians[k]);
    }
    assert o in [o];
  }

  /** One override changes its target as it says, and nothing else. */
  lemma OverrideActs(d: Draft, o: Override)
    requires Keyed(d.snapshot) && LegalOverride(o) && Apply(d, o).Transformed?
    ensures var after := Apply(d, o).draft;
            && Overridden(d.snapshot, [o], after.snapshot) && Keyed(after.snapshot)
            && forall id :: id in after.conflicts <==> id in d.conflicts || TooLate(d.snapshot, [o], id)
  {
    hide Overridden, Keyed, Apply;
    if o.TechnicianUnavailable? { OutageOverrides(d, o); } else { EditOverrides(d, o); }
  }

  // All together --------------------------------------------------------------------------------

  lemma EditsCompose(o: Override, rest: seq<Override>, a: Request, b: Request, c: Request)
    requires OnePerKey([o] + rest) && Edits([o], a, b) && Edits(rest, b, c)
    ensures Edits([o] + rest, a, c)
  {
    var all := [o] + rest;
    assert forall p :: p in all <==> p == o || p in rest;
    assert all[0] == o && all[1..] == rest;
    forall e | DeferMaintenance(a.id, e) in all ensures c.earliestStart == e {
      if o == DeferMaintenance(a.id, e) {
        forall f ensures DeferMaintenance(b.id, f) !in rest { OthersDiffer(o, rest, DeferMaintenance(b.id, f)); }
      }
    }
    forall m | MaintenanceDuration(a.id, m) in all ensures c.minutes == m {
      if o == MaintenanceDuration(a.id, m) {
        forall n ensures MaintenanceDuration(b.id, n) !in rest { OthersDiffer(o, rest, MaintenanceDuration(b.id, n)); }
      }
    }
  }

  lemma OthersDiffer(o: Override, rest: seq<Override>, p: Override)
    requires OnePerKey([o] + rest) && SameKey(o, p)
    ensures p !in rest
  {
    var all := [o] + rest;
    forall k | 0 <= k < |rest| ensures rest[k] != p {
      assert all[0] == o && all[k + 1] == rest[k];
      assert all[0] in all && all[k + 1] in all;
    }
  }

  lemma CutsCompose(o: Override, rest: seq<Override>, a: Technician, b: Technician, c: Technician)
    requires Cuts([o], a, b) && Cuts(rest, b, c)
    ensures Cuts([o] + rest, a, c)
  {
    hide OnShift;
    assert forall p :: p in [o] + rest <==> p == o || p in rest;
    forall from, to | from < to
      ensures OnShift(c, from, to) <==> OnShift(a, from, to) && Spared([o] + rest, a.id, from, to)
    {
      assert Spared([o] + rest, a.id, from, to) <==> Spared([o], a.id, from, to) && Spared(rest, a.id, from, to);
    }
  }

  lemma OverridesCompose(o: Override, rest: seq<Override>, s: Snapshot, t: Snapshot, u: Snapshot)
    requires OnePerKey([o] + rest) && Overridden(s, [o], t) && Overridden(t, rest, u)
    ensures Overridden(s, [o] + rest, u)
    ensures forall id :: TooLate(s, [o] + rest, id) <==> TooLate(s, [o], id) || TooLate(t, rest, id)
  {
    hide Edits, Cuts, OnePerKey;
    forall k | 0 <= k < |s.requests| ensures Edits([o] + rest, s.requests[k], u.requests[k]) {
      EditsCompose(o, rest, s.requests[k], t.requests[k], u.requests[k]);
    }
    forall k | 0 <= k < |s.technicians| ensures Cuts([o] + rest, s.technicians[k], u.technicians[k]) {
      CutsCompose(o, rest, s.technicians[k], t.technicians[k], u.technicians[k]);
    }
    LatenessComposes(o, rest, s, t);
  }

  lemma LatenessComposes(o: Override, rest: seq<Override>, s: Snapshot, t: Snapshot)
    requires Overridden(s, [o], t)
    ensures forall id :: TooLate(s, [o] + rest, id) <==> TooLate(s, [o], id) || TooLate(t, rest, id)
  {
    hide Cuts;
    forall k | 0 <= k < |s.requests|
      ensures t.requests[k].id == s.requests[k].id && t.requests[k].latestStart == s.requests[k].latestStart
    {
      assert Edits([o], s.requests[k], t.requests[k]);
    }
    hide Edits, Overridden;
    assert forall p :: p in [o] + rest <==> p == o || p in rest;
  }

  /** An override with another key is as acceptable after `o` as before. */
  lemma AcceptableLater(s: Snapshot, o: Override, t: Snapshot, p: Override)
    requires Overridden(s, [o], t) && !SameKey(o, p)
    ensures Acceptable(s, p) <==> Acceptable(t, p)
  {
    hide OnShift, Spared;
    forall k | 0 <= k < |s.requests|
      ensures t.requests[k].id == s.requests[k].id && t.requests[k].status == s.requests[k].status
      ensures p.DeferMaintenance? && p.target == s.requests[k].id ==>
                t.requests[k].earliestStart == s.requests[k].earliestStart
    {
      assert Edits([o], s.requests[k], t.requests[k]);
    }
    forall k | 0 <= k < |s.technicians| ensures t.technicians[k].id == s.technicians[k].id {
      assert Cuts([o], s.technicians[k], t.technicians[k]);
    }
    hide Overridden, Edits, Cuts;
    TargetsByPlace(s, p);
    TargetsByPlace(t, p);
  }

  /** Acceptability, by places in the tables. */
  ghost predicate AcceptableAt(s: Snapshot, o: Override, k: int) {
    match o
    case TechnicianUnavailable(id, start, end) =>
      0 <= k < |s.technicians| && s.technicians[k].id == id && s.window.start <= start && end <= s.window.end
    case DeferMaintenance(id, start) =>
      && 0 <= k < |s.requests| && s.requests[k].id == id && s.requests[k].earliestStart <= start
      && s.requests[k].status != RequestStatus.Completed && s.requests[k].status != RequestStatus.Cancelled
      && s.window.start <= start < s.window.end
    case MaintenanceDuration(id, _) =>
      && 0 <= k < |s.requests| && s.requests[k].id == id
      && s.requests[k].status != RequestStatus.Completed && s.requests[k].status != RequestStatus.Cancelled
  }

  lemma TargetsByPlace(s: Snapshot, o: Override)
    ensures Acceptable(s, o) <==> exists k :: AcceptableAt(s, o, k)
  {
    if Acceptable(s, o) {
      if o.TechnicianUnavailable? {
        var t :| t in s.technicians && t.id == o.target;
        var k :| 0 <= k < |s.technicians| && s.technicians[k] == t;
        assert AcceptableAt(s, o, k);
      } else {
        var r :| IsOpen(s, r) && r.id == o.target && (o.DeferMaintenance? ==> r.earliestStart <= o.earliestStart);
        var k :| 0 <= k < |s.requests| && s.requests[k] == r;
        assert AcceptableAt(s, o, k);
      }
    }
    if k :| AcceptableAt(s, o, k) {
      if !o.TechnicianUnavailable? { assert IsOpen(s, s.requests[k]); }
    }
  }

  /**
   Overrides with different keys act together on the baseline: they are accepted exactly when each
   is acceptable there, and then every request and technician shows exactly its own.
   */
  lemma {:induction false} OverridesActTogether(d: Draft, overrides: seq<Override>)
    requires Keyed(d.snapshot) && OnePerKey(overrides) && forall o :: o in overrides ==> LegalOverride(o)
    ensures ApplyAll(d, overrides).Transformed? <==> forall o :: o in overrides ==> Acceptable(d.snapshot, o)
    ensures ApplyAll(d, overrides).Transformed? ==>
              var after := ApplyAll(d, overrides).draft;
              && Overridden(d.snapshot, overrides, after.snapshot)
              && forall id :: id in after.conflicts <==> id in d.conflicts || TooLate(d.snapshot, overrides, id)
    decreases |overrides|
  {
    hide Keyed, Apply, Acceptable, Overridden, TooLate, LegalOverride;
    if overrides == [] {
      NoOverrides(d.snapshot);
    } else {
      var o, rest := overrides[0], overrides[1..];
      assert overrides == [o] + rest;
      OverrideIsAcceptable(d, o);
      if Apply(d, o).Transformed? {
        var next := Apply(d, o).draft;
        OverrideActs(d, o);
        RestHasOtherKeys(o, rest);
        OverridesActTogether(next, rest);
        forall p | p in rest ensures Acceptable(d.snapshot, p) <==> Acceptable(next.snapshot, p) {
          AcceptableLater(d.snapshot, o, next.snapshot, p);
        }
        if ApplyAll(next, rest).Transformed? {
          OverridesCompose(o, rest, d.snapshot, next.snapshot, ApplyAll(next, rest).draft.snapshot);
        }
      }
    }
  }

  lemma RestHasOtherKeys(o: Override, rest: seq<Override>)
    requires OnePerKey([o] + rest)
    ensures OnePerKey(rest) && forall p :: p in rest ==> !SameKey(o, p)
  {
    var all := [o] + rest;
    assert all[1..] == rest;
    TailStaysDistinct(all);
    forall p | p in rest ensures !SameKey(o, p) {
      if SameKey(o, p) { OthersDiffer(o, rest, p); }
    }
  }

  lemma NoOverrides(s: Snapshot)
    ensures Overridden(s, [], s) && forall id :: !TooLate(s, [], id)
  {
  }

  lemma SomeOf<T>(ids: set<T>) returns (id: T)
    requires ids != {}
    ensures id in ids
  {
    id :| id in ids;
  }

  /** The effective snapshot, whatever the order of submission. */
  lemma EffectiveIsExact(s: Snapshot, overrides: seq<Override>)
    requires Keyed(s) && OnePerKey(overrides) && forall o :: o in overrides ==> LegalOverride(o)
    ensures var e := EffectiveOf(ApplyAll(Draft(s, {}), Sorted(overrides, ByKey)));
            && (e.Failed? <==> exists o :: o in overrides && !Acceptable(s, o))
            && (e.Effective? ==> (e.snapshot.None? <==> exists id :: TooLate(s, overrides, id)))
            && (e.Effective? && e.snapshot.Some? ==> Overridden(s, overrides, e.snapshot.value))
  {
    hide Keyed, Acceptable, LegalOverride, OnePerKey, TooLate, Overridden, ApplyAll, Sorted;
    SubmissionOrderIsIrrelevant(s, overrides, overrides);
    OverridesActTogether(Draft(s, {}), overrides);
    var r := ApplyAll(Draft(s, {}), overrides);
    if r.Transformed? {
      if r.draft.conflicts != {} {
        var id := SomeOf(r.draft.conflicts);
        assert TooLate(s, overrides, id);
      }
    }
  }
}
