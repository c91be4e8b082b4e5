/**
 Scenario overrides applied to a copy of the snapshot: outages cut availability windows,
 deferrals raise a lower bound, durations are replaced.
 */
module Transform {
  import opened Collections
  import opened Plant
  import opened Slots

  datatype Override =
    | DeferMaintenance(target: Id, earliestStart: Time)
    | MaintenanceDuration(target: Id, minutes: int)
    | TechnicianUnavailable(target: Id, start: Time, end: Time)

  /** Override types in the order of their wire names. */
  function Rank(o: Override): int {
    match o
    case DeferMaintenance(_, _) => 0
    case MaintenanceDuration(_, _) => 1
    case TechnicianUnavailable(_, _, _) => 2
  }

  predicate SameKey(a: Override, b: Override) { Rank(a) == Rank(b) && a.target == b.target }

  predicate ByKey(a: Override, b: Override) {
    Rank(a) < Rank(b) || (Rank(a) == Rank(b) && a.target <= b.target)
  }

  datatype Rejection = UnknownTarget(target: Id) | InvalidWindow(target: Id) | InvalidTargetStatus(target: Id)

  /** A snapshot under transformation and the requests whose deferral passes their latest start. */
  datatype Draft = Draft(snapshot: Snapshot, conflicts: set<Id>)

  datatype Result = Rejected(reason: Rejection) | Transformed(draft: Draft)

  /** What remains of the windows when [start, end) is cut out. */
  function Subtract(windows: seq<Window>, start: Time, end: Time): seq<Window> {
    if windows == [] then []
    else
      var n := |windows| - 1;
      Subtract(windows[..n], start, end) + Pieces(windows[n], start, end)
  }

  function Pieces(w: Window, start: Time, end: Time): seq<Window> {
    if w.end <= start || w.start >= end then [w]
    else
      (if w.start < start then [Window(w.start, start)] else [])
      + (if w.end > end then [Window(end, w.end)] else [])
  }

  lemma SubtractNext(windows: seq<Window>, i: nat, start: Time, end: Time)
    requires i < |windows|
    ensures Subtract(windows[..i + 1], start, end) ==
              Subtract(windows[..i], start, end) + Pieces(windows[i], start, end)
  {
    assert windows[..i + 1][..i] == windows[..i];
  }

  /** A window that misses the outage stays; of any other the parts before and after it do. */
  method AppendPieces(before: seq<Window>, w: Window, start: Time, end: Time) returns (after: seq<Window>)
    ensures after == before + Pieces(w, start, end)
  {
    after := before;
    if w.end <= start || w.start >= end {
      return after + [w];
    }
    if w.start < start {
      after := after + [Window(w.start, start)];
    }
    if w.end > end {
      after := after + [Window(end, w.end)];
    }
  }

  method SubtractOutage(windows: seq<Window>, start: Time, end: Time) returns (after: seq<Window>)
    ensures after == Subtract(windows, start, end)
  {
    after := [];
    assert after == Subtract(windows[..0], start, end);
    hide Subtract;
    var i := 0;
    while i < |windows|
      invariant 0 <= i <= |windows|
      invariant after == Subtract(windows[..i], start, end)
    {
      SubtractNext(windows, i, start, end);
      after := AppendPieces(after, windows[i], start, end);
      i := i + 1;
    }
    assert windows[..i] == windows;
  }

  lemma PiecesAreExact(w: Window, start: Time, end: Time, from: Time, to: Time)
    requires w.start < w.end && start < end && from < to
    ensures (exists p :: p in Pieces(w, start, end) && Contains(p, from, to))
              <==> Contains(w, from, to) && (to <= start || end <= from)
    ensures forall p :: p in Pieces(w, start, end) ==> p.start < p.end && w.start <= p.start && p.end <= w.end
  {
    if Contains(w, from, to) && (to <= start || end <= from) {
      if w.end <= start || w.start >= end {
        assert w in Pieces(w, start, end);
      } else if to <= start {
        assert Window(w.start, start) in Pieces(w, start, end);
      } else {
        assert Window(end, w.end) in Pieces(w, start, end);
      }
    }
  }

  /** A booking fits one resulting window exactly when it fitted an original one and misses the outage. */
  lemma {:induction false} SubtractIsExact(windows: seq<Window>, start: Time, end: Time, from: Time, to: Time)
    requires forall w :: w in windows ==> w.start < w.end
    requires start < end && from < to
    ensures (exists p :: p in Subtract(windows, start, end) && Contains(p, from, to)) <==>
              ((exists w :: w in windows && Contains(w, from, to)) && (to <= start || end <= from))
    ensures forall p :: p in Subtract(windows, start, end) ==> p.start < p.end
    ensures ShiftWithin(Subtract(windows, start, end), windows)
  {
    if windows != [] {
      var n := |windows| - 1;
      assert windows == windows[..n] + [windows[n]];
      SubtractIsExact(windows[..n], start, end, from, to);
      PiecesAreExact(windows[n], start, end, from, to);
      var rest, pieces := Subtract(windows[..n], start, end), Pieces(windows[n], start, end);
      assert forall p :: p in Subtract(windows, start, end) <==> p in rest || p in pieces;
      assert windows[n] in windows;
    }
  }

  function FindTechnician(technicians: seq<Technician>, id: Id): (i: Option<nat>)
    ensures i.Some? ==> i.value < |technicians| && technicians[i.value].id == id
    ensures i.None? ==> forall t :: t in technicians ==> t.id != id
  {
    if technicians == [] then None
    else if technicians[0].id == id then Some(0)
    else
      var rest := FindTechnician(technicians[1..], id);
      if rest.None? then None else Some(rest.value + 1)
  }

  function FindRequest(requests: seq<Request>, id: Id): (i: Option<nat>)
    ensures i.Some? ==> i.value < |requests| && requests[i.value].id == id
    ensures i.None? ==> forall r :: r in requests ==> r.id != id
  {
    if requests == [] then None
    else if requests[0].id == id then Some(0)
    else
      var rest := FindRequest(requests[1..], id);
      if rest.None? then None else Some(rest.value + 1)
  }

  /** The checks on an override of request `r`, in order. */
  function Problem(w: Window, r: Request, o: Override): Option<Rejection> {
    if !r.Active() then Some(InvalidTargetStatus(o.target))
    else if o.DeferMaintenance?
            && (o.earliestStart < w.start || o.earliestStart >= w.end || o.earliestStart < r.earliestStart)
      then Some(InvalidWindow(o.target))
    else None
  }

  function Edited(r: Request, o: Override): Request {
    match o
    case DeferMaintenance(_, earliest) => r.(earliestStart := earliest)
    case MaintenanceDuration(_, minutes) => r.(minutes := minutes)
    case TechnicianUnavailable(_, _, _) => r
  }

  /** A deferral beyond the immutable latest start is a conflict. */
  function Conflict(r: Request, o: Override): set<Id> {
    if o.DeferMaintenance? && r.latestStart.Some? && o.earliestStart > r.latestStart.value then {o.target} else {}
  }

  function Cut(t: Technician, start: Time, end: Time): Technician {
    t.(availability := Subtract(t.availability, start, end))
  }

  /** One override: its checks in order, then its effect on the draft. */
  function Apply(d: Draft, o: Override): Result {
    if o.TechnicianUnavailable? then ApplyOutage(d, o) else ApplyToRequest(d, o)
  }

  function ApplyOutage(d: Draft, o: Override): Result
    requires o.TechnicianUnavailable?
  {
    var s := d.snapshot;
    var i := FindTechnician(s.technicians, o.target);
    if i.None? then Rejected(UnknownTarget(o.target))
    else if o.start < s.window.start || o.end > s.window.end then Rejected(InvalidWindow(o.target))
    else
      var cut := Cut(s.technicians[i.value], o.start, o.end);
      Transformed(d.(snapshot := s.(technicians := s.technicians[i.value := cut])))
  }

  function ApplyToRequest(d: Draft, o: Override): Result {
    var s := d.snapshot;
    var i := FindRequest(s.requests, o.target);
    if i.None? then Rejected(UnknownTarget(o.target))
    else
      var r := s.requests[i.value];
      var problem := Problem(s.window, r, o);
      if problem.Some? then Rejected(problem.value)
      else Transformed(Draft(s.(requests := s.requests[i.value := Edited(r, o)]), d.conflicts + Conflict(r, o)))
  }

  function ApplyAll(d: Draft, overrides: seq<Override>): Result
    decreases |overrides|
  {
    if overrides == [] then Transformed(d)
    else
      var next := Apply(d, overrides[0]);
      if next.Rejected? then next else ApplyAll(next.draft, overrides[1..])
  }

  datatype Effective = Failed(reason: Rejection) | Effective(snapshot: Option<Snapshot>)

  /** No effective snapshot when a deferral contradicts the immutable latest start. */
  function EffectiveOf(r: Result): Effective {
    match r
    case Rejected(reason) => Effective.Failed(reason)
    case Transformed(d) => Effective.Effective(if d.conflicts == {} then Some(d.snapshot) else None)
  }

  method TransformSnapshot(s: Snapshot, overrides: seq<Override>) returns (result: Effective)
    ensures result == EffectiveOf(ApplyAll(Draft(s, {}), Sorted(overrides, ByKey)))
  {
    var ordered := Sorted(overrides, ByKey);
    var draft := Draft(s, {});
    var i := 0;
    while i < |ordered|
      invariant 0 <= i <= |ordered|
      invariant ApplyAll(Draft(s, {}), ordered) == ApplyAll(draft, ordered[i..])
    {
      var next := Apply(draft, ordered[i]);
      assert ordered[i..][1..] == ordered[i + 1..];
      if next.Rejected? {
        return Effective.Failed(next.reason);
      }
      draft := next.draft;
      i := i + 1;
    }
    result := Effective.Effective(if draft.conflicts == {} then Some(draft.snapshot) else None);
  }

  /** A live lower bound on a request's start. */
  datatype Bound = Bound(target: Id, earliestStart: Time)

  function Bounded(s: Snapshot, b: Bound): Option<Snapshot> {
    var i := FindRequest(s.requests, b.target);
    if i.None? || !s.requests[i.value].Active() then None
    else
      var r := s.requests[i.value];
      if !(Max(s.window.start, r.earliestStart) <= b.earliestStart < s.window.end) then None
      else Some(s.(requests := s.requests[i.value := r.(earliestStart := b.earliestStart)]))
  }

  function BoundAll(s: Snapshot, bounds: seq<Bound>): Option<Snapshot>
    decreases |bounds|
  {
    if bounds == [] then Some(s)
    else
      var next := Bounded(s, bounds[0]);
      if next.None? then None else BoundAll(next.value, bounds[1..])
  }

  /** The canonical model refuses a lower start bound above the upper one. */
  predicate StartsConsistent(s: Snapshot) {
    forall r :: r in s.requests && r.latestStart.Some? ==> r.earliestStart <= r.latestStart.value
  }

  method WithStartConstraints(s: Snapshot, bounds: seq<Bound>) returns (result: Option<Snapshot>)
    ensures result == var bounded := BoundAll(s, bounds);
                      if bounded.Some? && StartsConsistent(bounded.value) then bounded else None
  {
    var current := s;
    var i := 0;
    while i < |bounds|
      invariant 0 <= i <= |bounds|
      invariant BoundAll(s, bounds) == BoundAll(current, bounds[i..])
    {
      var next := Bounded(current, bounds[i]);
      assert bounds[i..][1..] == bounds[i + 1..];
      if next.None? {
        return None;
      }
      current := next.value;
      i := i + 1;
    }
    result := if StartsConsistent(current) then Some(current) else None;
  }
}
