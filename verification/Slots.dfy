/**
 Slot search over calendars and shifts: the earliest free machine interval, the earliest
 start inside a shift, and the alternating search of both for a maintenance team.
 */
module Slots {
  import opened Collections
  import opened Plant

  /** Deadline and cancellation polls may fire at any time; nothing else is known of the clock. */
  method CheckDeadline() returns (expired: bool)
  {
    expired := *;
  }

  predicate ByTime(a: Assignment, b: Assignment) {
    a.start < b.start || (a.start == b.start && a.end <= b.end)
  }

  ghost predicate Proper(entries: seq<Assignment>) {
    forall a :: a in entries ==> a.start < a.end
  }

  /** Nothing in `entries` meets [start, start + duration). */
  ghost predicate Free(entries: seq<Assignment>, start: Time, duration: int) {
    forall a :: a in entries ==> !Overlaps(start, start + duration, a)
  }

  /** `slot` is the first free start in [earliest, latest], or None when there is none. */
  ghost predicate IsEarliestFree(
    entries: seq<Assignment>, earliest: Time, duration: int, latest: Time, slot: Option<Time>)
  {
    match slot
    case Some(t) =>
      && earliest <= t <= latest
      && Free(entries, t, duration)
      && forall u :: earliest <= u < t ==> !Free(entries, u, duration)
    case None => forall u :: earliest <= u <= latest ==> !Free(entries, u, duration)
  }

  /** Only the membership of the calendar matters. */
  lemma SameEntriesSameSlot(
    entries: seq<Assignment>, others: seq<Assignment>, earliest: Time, duration: int, latest: Time, slot: Option<Time>)
    requires forall a :: a in entries <==> a in others
    requires IsEarliestFree(entries, earliest, duration, latest, slot)
    ensures IsEarliestFree(others, earliest, duration, latest, slot)
  {
    forall u ensures Free(entries, u, duration) == Free(others, u, duration) {}
  }

  /** Calendar order and overlapping entries cannot influence the answer: there is only one. */
  lemma EarliestFreeIsUnique(
    entries: seq<Assignment>, others: seq<Assignment>, earliest: Time, duration: int, latest: Time,
    slot: Option<Time>, other: Option<Time>)
    requires Elements(entries) == Elements(others)
    requires IsEarliestFree(entries, earliest, duration, latest, slot)
    requires IsEarliestFree(others, earliest, duration, latest, other)
    ensures slot == other
  {
    forall u ensures Free(entries, u, duration) == Free(others, u, duration) {
      assert forall a :: a in entries <==> a in Elements(entries);
      assert forall a :: a in others <==> a in Elements(others);
    }
  }

  /** A start after all earlier entries whose interval ends by the next one is free. */
  lemma GapIsFree(entries: seq<Assignment>, ordered: seq<Assignment>, i: nat, start: Time, duration: int)
    requires SortedBy(ordered, ByTime) && (forall a :: a in entries <==> a in ordered) && i <= |ordered|
    requires forall k :: 0 <= k < i ==> ordered[k].end <= start
    requires i < |ordered| ==> start + duration <= ordered[i].start
    ensures Free(entries, start, duration)
  {
    forall a | a in entries ensures !Overlaps(start, start + duration, a) {
      var k :| 0 <= k < |ordered| && ordered[k] == a;
      if i < k { assert ByTime(ordered[i], ordered[k]); }
    }
  }

  lemma CalendarInOrder(entries: seq<Assignment>)
    ensures SortedBy(Sorted(entries, ByTime), ByTime)
    ensures forall a :: a in entries <==> a in Sorted(entries, ByTime)
  {
    SortedIsSorted(entries, ByTime);
    SameMembers(entries, Sorted(entries, ByTime));
  }

  method FindSlot(entries: seq<Assignment>, earliest: Time, duration: int, limit: Time)
    returns (slot: Option<Time>)
    requires Proper(entries) && duration > 0
    ensures IsEarliestFree(entries, earliest, duration, limit - duration, slot)
  {
    hide Sorted, SortedBy, Free;
    var ordered := Sorted(entries, ByTime);
    CalendarInOrder(entries);
    var start := earliest;
    var i := 0;
    while i < |ordered|
      invariant 0 <= i <= |ordered| && earliest <= start
      invariant forall k :: 0 <= k < i ==> ordered[k].end <= start
      invariant forall u :: earliest <= u < start ==> !Free(entries, u, duration)
    {
      var entry := ordered[i];
      var end := start + duration;
      if end <= entry.start {
        break;
      }
      if Overlaps(start, end, entry) {
        assert entry in entries;
        forall u | start <= u < entry.end ensures !Free(entries, u, duration) {
          ConflictExcludes(entries, start, duration, entry, u);
        }
        start := entry.end;
      }
      i := i + 1;
    }
    GapIsFree(entries, ordered, i, start, duration);
    slot := if start + duration > limit then None else Some(start);
  }

  /** [start, start + duration) lies inside one availability window. */
  predicate InShift(windows: seq<Window>, start: Time, duration: int) {
    exists w :: w in windows && Contains(w, start, start + duration)
  }

  function Earlier(a: Option<Time>, b: Option<Time>): Option<Time> {
    if a.None? then b else if b.None? then a else Some(Min(a.value, b.value))
  }

  /** The earliest start at or after `start` inside a window of the shift. */
  function ShiftStart(windows: seq<Window>, start: Time, duration: int): (r: Option<Time>)
    ensures r.Some? ==> start <= r.value
  {
    if windows == [] then None
    else
      var t := Max(start, windows[0].start);
      Earlier(if t + duration <= windows[0].end then Some(t) else None,
              ShiftStart(windows[1..], start, duration))
  }

  lemma {:induction false} ShiftStartIsEarliest(windows: seq<Window>, start: Time, duration: int)
    ensures match ShiftStart(windows, start, duration)
            case Some(t) => start <= t && InShift(windows, t, duration)
              && forall u :: start <= u < t ==> !InShift(windows, u, duration)
            case None => forall u :: start <= u ==> !InShift(windows, u, duration)
  {
    if windows != [] {
      var rest := windows[1..];
      ShiftStartIsEarliest(rest, start, duration);
      assert windows == [windows[0]] + rest;
      forall u ensures InShift(windows, u, duration)
          <==> Contains(windows[0], u, u + duration) || InShift(rest, u, duration)
      {
        if Contains(windows[0], u, u + duration) { assert windows[0] in windows; }
        if InShift(rest, u, duration) {
          var w :| w in rest && Contains(w, u, u + duration);
          assert w in windows;
        }
      }
    }
  }

  predicate WindowByStart(a: Window, b: Window) { a.start <= b.start }

  /** The first fit in order of window starts is the earliest fit. */
  lemma FirstFitIsEarliest(windows: seq<Window>, i: nat, start: Time, duration: int, u: Time)
    requires i < |windows| && SortedBy(windows, WindowByStart)
    requires forall k :: 0 <= k < i ==> windows[k].end < Max(start, windows[k].start) + duration
    requires start <= u && InShift(windows, u, duration)
    ensures Max(start, windows[i].start) <= u
  {
    var w :| w in windows && Contains(w, u, u + duration);
    var k :| 0 <= k < |windows| && windows[k] == w;
    assert i <= k;
    assert i < k ==> WindowByStart(windows[i], windows[k]);
  }

  lemma ShiftIgnoresOrder(windows: seq<Window>, others: seq<Window>, u: Time, duration: int)
    requires forall w :: w in windows <==> w in others
    ensures InShift(windows, u, duration) <==> InShift(others, u, duration)
  {
  }

  lemma ShiftInOrder(windows: seq<Window>)
    ensures SortedBy(Sorted(windows, WindowByStart), WindowByStart)
    ensures forall w :: w in windows <==> w in Sorted(windows, WindowByStart)
  {
    SortedIsSorted(windows, WindowByStart);
    SameMembers(windows, Sorted(windows, WindowByStart));
  }

  /** First fit over windows sorted by start is the earliest fit over all of them. */
  method AvailabilityStart(windows: seq<Window>, start: Time, duration: int) returns (r: Option<Time>)
    ensures r == ShiftStart(windows, start, duration)
  {
    hide Sorted, SortedBy, ShiftStart;
    var ordered := Sorted(windows, WindowByStart);
    ShiftInOrder(windows);
    ShiftStartIsEarliest(windows, start, duration);
    ghost var earliest := ShiftStart(windows, start, duration);
    if earliest.Some? {
      ShiftIgnoresOrder(windows, ordered, earliest.value, duration);
    }
    var i := 0;
    while i < |ordered|
      invariant 0 <= i <= |ordered|
      invariant forall k :: 0 <= k < i ==> ordered[k].end < Max(start, ordered[k].start) + duration
    {
      var candidate := Max(start, ordered[i].start);
      if candidate + duration <= ordered[i].end {
        assert ordered[i] in windows && Contains(ordered[i], candidate, candidate + duration);
        assert InShift(windows, candidate, duration);
        FirstFitIsEarliest(ordered, i, start, duration, earliest.value);
        return Some(candidate);
      }
      i := i + 1;
    }
    r := None;
  }

  /** Start of a joint search step: each member in turn pushes the start into a shift. */
  function Pass(shifts: seq<seq<Window>>, start: Time, duration: int): (r: Option<Time>)
    ensures r.Some? ==> start <= r.value
  {
    if shifts == [] then Some(start)
    else
      var t := ShiftStart(shifts[0], start, duration);
      if t.None? then None else Pass(shifts[1..], t.value, duration)
  }

  predicate AllInShift(shifts: seq<seq<Window>>, start: Time, duration: int) {
    forall shift :: shift in shifts ==> InShift(shift, start, duration)
  }

  /** One pass never skips a start that suits everybody, and it leaves the last member in shift. */
  lemma {:induction false} PassIsLowerBound(shifts: seq<seq<Window>>, start: Time, duration: int)
    ensures match Pass(shifts, start, duration)
            case Some(t) => start <= t
              && (shifts != [] ==> InShift(shifts[|shifts| - 1], t, duration))
              && forall u :: start <= u < t ==> !AllInShift(shifts, u, duration)
            case None => forall u :: start <= u ==> !AllInShift(shifts, u, duration)
  {
    if shifts != [] {
      ShiftStartIsEarliest(shifts[0], start, duration);
      assert shifts == [shifts[0]] + shifts[1..];
      forall u | AllInShift(shifts, u, duration)
        ensures InShift(shifts[0], u, duration) && AllInShift(shifts[1..], u, duration) {}
      var t := ShiftStart(shifts[0], start, duration);
      if t.Some? {
        PassIsLowerBound(shifts[1..], t.value, duration);
      }
    }
  }

  /** The latest end among the entries that meet [start, end), if any does. */
  function LastConflict(entries: seq<Assignment>, start: Time, end: Time): (r: Option<Time>)
    ensures r.Some? ==> start < r.value
  {
    if entries == [] then None
    else
      var rest := LastConflict(entries[1..], start, end);
      if !Overlaps(start, end, entries[0]) then rest
      else if rest.None? then Some(entries[0].end)
      else Some(Max(entries[0].end, rest.value))
  }

  lemma {:induction false} LastConflictIsLast(entries: seq<Assignment>, start: Time, duration: int)
    ensures match LastConflict(entries, start, start + duration)
            case Some(t) =>
              && (exists a :: a in entries && Overlaps(start, start + duration, a) && a.end == t)
              && forall a :: a in entries && Overlaps(start, start + duration, a) ==> a.end <= t
            case None => Free(entries, start, duration)
  {
    if entries != [] {
      assert entries == [entries[0]] + entries[1..];
      LastConflictIsLast(entries[1..], start, duration);
      var rest := LastConflict(entries[1..], start, start + duration);
      if rest.Some? {
        var a :| a in entries[1..] && Overlaps(start, start + duration, a) && a.end == rest.value;
        assert a in entries;
      }
      assert entries[0] in entries;
    }
  }

  /** How many entries end after `start`: each round of the search lowers it. */
  ghost function Pending(entries: seq<Assignment>, start: Time): (n: nat)
    ensures n <= |entries|
  {
    if entries == [] then 0
    else (if entries[0].end > start then 1 else 0) + Pending(entries[1..], start)
  }

  lemma {:induction false} PendingDrops(entries: seq<Assignment>, start: Time, later: Time)
    requires start <= later
    ensures Pending(entries, later) <= Pending(entries, start)
    ensures (exists a :: a in entries && start < a.end <= later) ==> Pending(entries, later) < Pending(entries, start)
  {
    if entries != [] {
      PendingDrops(entries[1..], start, later);
      assert entries == [entries[0]] + entries[1..];
    }
  }

  /**
   The start the team search settles on: pass over the shifts, and when the interval meets
   booked entries restart after the last of them.
   */
  function TeamStart(
    entries: seq<Assignment>, shifts: seq<seq<Window>>, start: Time, latest: Time, duration: int): Option<Time>
    decreases latest - start
  {
    if start > latest then None
    else
      var t := Pass(shifts, start, duration);
      if t.None? then None
      else
        var conflict := LastConflict(entries, t.value, t.value + duration);
        if conflict.None? then (if t.value <= latest then t else None)
        else TeamStart(entries, shifts, conflict.value, latest, duration)
  }

  /** The order in which calendars were joined cannot influence the search. */
  lemma {:induction false} TeamStartIgnoresOrder(
    entries: seq<Assignment>, others: seq<Assignment>, shifts: seq<seq<Window>>, start: Time, latest: Time,
    duration: int)
    requires forall a :: a in entries <==> a in others
    ensures TeamStart(entries, shifts, start, latest, duration) == TeamStart(others, shifts, start, latest, duration)
    decreases latest - start
  {
    if start <= latest {
      var t := Pass(shifts, start, duration);
      if t.Some? {
        LastConflictIsLast(entries, t.value, duration);
        LastConflictIsLast(others, t.value, duration);
        var conflict := LastConflict(entries, t.value, t.value + duration);
        assert conflict == LastConflict(others, t.value, t.value + duration);
        if conflict.Some? {
          TeamStartIgnoresOrder(entries, others, shifts, conflict.value, latest, duration);
        }
      }
    }
  }

  ghost predicate JointlyFeasible(
    entries: seq<Assignment>, shifts: seq<seq<Window>>, start: Time, duration: int)
  {
    Free(entries, start, duration) && AllInShift(shifts, start, duration)
  }

  /** A conflict at `start` excludes every later start up to the end of the conflicting entry. */
  lemma ConflictExcludes(entries: seq<Assignment>, start: Time, duration: int, conflict: Assignment, u: Time)
    requires conflict in entries && Overlaps(start, start + duration, conflict)
    requires start <= u < conflict.end
    ensures !Free(entries, u, duration)
  {
    assert Overlaps(u, u + duration, conflict);
  }

  /**
   For any team: the start found is in range, collides with nothing and suits the last
   member; no jointly feasible start precedes it; None means that none exists in range.
   */
  lemma {:induction false} TeamStartIsLowerBound(
    entries: seq<Assignment>, shifts: seq<seq<Window>>, start: Time, latest: Time, duration: int)
    ensures match TeamStart(entries, shifts, start, latest, duration)
            case Some(t) => start <= t <= latest
              && Free(entries, t, duration)
              && (shifts != [] ==> InShift(shifts[|shifts| - 1], t, duration))
              && forall u :: start <= u < t ==> !JointlyFeasible(entries, shifts, u, duration)
            case None => forall u :: start <= u <= latest ==> !JointlyFeasible(entries, shifts, u, duration)
    decreases latest - start
  {
    if start <= latest {
      PassIsLowerBound(shifts, start, duration);
      var t := Pass(shifts, start, duration);
      if t.Some? {
        LastConflictIsLast(entries, t.value, duration);
        var conflict := LastConflict(entries, t.value, t.value + duration);
        if conflict.Some? {
          TeamStartIsLowerBound(entries, shifts, conflict.value, latest, duration);
          var last :| last in entries && Overlaps(t.value, t.value + duration, last) && last.end == conflict.value;
          forall u | t.value <= u < conflict.value ensures !JointlyFeasible(entries, shifts, u, duration) {
            ConflictExcludes(entries, t.value, duration, last, u);
          }
        }
      }
    }
  }

  /** A single technician gets the earliest start that is free and inside a shift. */
  lemma SoloStartIsEarliest(
    entries: seq<Assignment>, shift: seq<Window>, start: Time, latest: Time, duration: int)
    ensures match TeamStart(entries, [shift], start, latest, duration)
            case Some(t) => start <= t <= latest
              && JointlyFeasible(entries, [shift], t, duration)
              && forall u :: start <= u < t ==> !JointlyFeasible(entries, [shift], u, duration)
            case None => forall u :: start <= u <= latest ==> !JointlyFeasible(entries, [shift], u, duration)
  {
    TeamStartIsLowerBound(entries, [shift], start, latest, duration);
  }

  /** The pass from `t` ends at a start that suits every member. */
  predicate JointFrom(shifts: seq<seq<Window>>, t: Time, duration: int) {
    Pass(shifts, t, duration).Some? ==> AllInShift(shifts, Pass(shifts, t, duration).value, duration)
  }

  /** The openings and the last starts of all windows of all members. */
  function TestStarts(shifts: seq<seq<Window>>, duration: int): set<Time> {
    (set shift, w | shift in shifts && w in shift :: w.start)
    + (set shift, w | shift in shifts && w in shift :: w.end - duration)
  }

  /** The finite test of a crew: the pass suits everybody from each opening and each last start. */
  predicate Compatible(shifts: seq<seq<Window>>, duration: int) {
    forall t :: t in TestStarts(shifts, duration) ==> JointFrom(shifts, t, duration)
  }

  lemma ShiftStartIsMonotone(windows: seq<Window>, t: Time, u: Time, duration: int)
    requires t <= u && ShiftStart(windows, u, duration).Some?
    ensures ShiftStart(windows, t, duration).Some?
    ensures ShiftStart(windows, t, duration).value <= ShiftStart(windows, u, duration).value
  {
    ShiftStartIsEarliest(windows, t, duration);
    ShiftStartIsEarliest(windows, u, duration);
  }

  lemma {:induction false} PassIsMonotone(shifts: seq<seq<Window>>, t: Time, u: Time, duration: int)
    requires t <= u && Pass(shifts, u, duration).Some?
    ensures Pass(shifts, t, duration).Some?
    ensures Pass(shifts, t, duration).value <= Pass(shifts, u, duration).value
  {
    if shifts != [] {
      ShiftStartIsMonotone(shifts[0], t, u, duration);
      var a, b := ShiftStart(shifts[0], t, duration).value, ShiftStart(shifts[0], u, duration).value;
      PassIsMonotone(shifts[1..], a, b, duration);
    }
  }

  /** A start inside the shift stays; any other moves to the opening of a window that can hold the job. */
  lemma ShiftStartOpens(windows: seq<Window>, t: Time, duration: int) returns (w: Window)
    requires ShiftStart(windows, t, duration).Some?
    ensures w in windows
            && Contains(w, ShiftStart(windows, t, duration).value, ShiftStart(windows, t, duration).value + duration)
    ensures ShiftStart(windows, t, duration).value != t ==> ShiftStart(windows, t, duration).value == w.start
  {
    ShiftStartIsEarliest(windows, t, duration);
    var a := ShiftStart(windows, t, duration).value;
    w :| w in windows && Contains(w, a, a + duration);
    if a != t && a != w.start {
      assert Contains(w, Max(t, w.start), Max(t, w.start) + duration);
      assert InShift(windows, Max(t, w.start), duration);
    }
  }

  lemma StartInShiftStays(windows: seq<Window>, t: Time, duration: int)
    requires InShift(windows, t, duration)
    ensures ShiftStart(windows, t, duration) == Some(t)
  {
    ShiftStartIsEarliest(windows, t, duration);
  }

  /** A pass that moves its start answers the same from some test start on the way. */
  lemma {:induction false} MovedPassHasTestStart(shifts: seq<seq<Window>>, t: Time, duration: int)
    returns (corner: Time)
    requires Pass(shifts, t, duration).Some? && Pass(shifts, t, duration).value != t
    ensures corner in TestStarts(shifts, duration) && t <= corner
    ensures Pass(shifts, corner, duration) == Pass(shifts, t, duration)
  {
    var first, rest := shifts[0], shifts[1..];
    assert shifts == [first] + rest;
    var w := ShiftStartOpens(first, t, duration);
    var a := ShiftStart(first, t, duration).value;
    if a != t {
      corner := a;
      StartInShiftStays(first, a, duration);
    } else {
      corner := MovedPassHasTestStart(rest, t, duration);
      if w.end - duration < corner {
        PassIsMonotone(rest, w.end - duration, corner, duration);
        PassIsMonotone(rest, t, w.end - duration, duration);
        corner := w.end - duration;
      }
      StartInShiftStays(first, corner, duration);
    }
  }

  lemma {:induction false} UnmovedPassIsJoint(shifts: seq<seq<Window>>, t: Time, duration: int)
    requires Pass(shifts, t, duration) == Some(t)
    ensures AllInShift(shifts, t, duration)
  {
    if shifts != [] {
      ShiftStartIsEarliest(shifts[0], t, duration);
      assert shifts == [shifts[0]] + shifts[1..];
      assert ShiftStart(shifts[0], t, duration) == Some(t) by {
        PassIsLowerBound(shifts[1..], ShiftStart(shifts[0], t, duration).value, duration);
      }
      UnmovedPassIsJoint(shifts[1..], t, duration);
    }
  }

  /** Passing the finite test means passing it everywhere. */
  lemma TestStartsSuffice(shifts: seq<seq<Window>>, t: Time, duration: int)
    requires Compatible(shifts, duration)
    ensures JointFrom(shifts, t, duration)
  {
    if Pass(shifts, t, duration) == Some(t) {
      UnmovedPassIsJoint(shifts, t, duration);
    } else if Pass(shifts, t, duration).Some? {
      var corner := MovedPassHasTestStart(shifts, t, duration);
      assert JointFrom(shifts, corner, duration);
    }
  }

  ghost predicate AlwaysJoint(shifts: seq<seq<Window>>, duration: int) {
    forall entries, start, latest :: var t := TeamStart(entries, shifts, start, latest, duration);
      t.Some? ==> JointlyFeasible(entries, shifts, t.value, duration)
  }

  lemma {:induction false} TeamStartPassed(
    entries: seq<Assignment>, shifts: seq<seq<Window>>, start: Time, latest: Time, duration: int) returns (from: Time)
    requires TeamStart(entries, shifts, start, latest, duration).Some?
    ensures Pass(shifts, from, duration) == TeamStart(entries, shifts, start, latest, duration)
    decreases latest - start
  {
    var t := Pass(shifts, start, duration).value;
    var conflict := LastConflict(entries, t, t + duration);
    if conflict.None? {
      from := start;
    } else {
      from := TeamStartPassed(entries, shifts, conflict.value, latest, duration);
    }
  }

  /** The search is right for every calendar and range exactly when the shifts pass the finite test. */
  lemma JointExactlyWhenCompatible(shifts: seq<seq<Window>>, duration: int)
    ensures AlwaysJoint(shifts, duration) <==> Compatible(shifts, duration)
  {
    if AlwaysJoint(shifts, duration) {
      forall t | t in TestStarts(shifts, duration) ensures JointFrom(shifts, t, duration) {
        if Pass(shifts, t, duration).Some? {
          PassIsLowerBound(shifts, t, duration);
          var u := Pass(shifts, t, duration).value;
          assert TeamStart([], shifts, t, u, duration) == Some(u);
          assert JointlyFeasible([], shifts, u, duration);
        }
      }
    }
    if Compatible(shifts, duration) {
      forall entries, start, latest | TeamStart(entries, shifts, start, latest, duration).Some?
        ensures JointlyFeasible(entries, shifts, TeamStart(entries, shifts, start, latest, duration).value, duration)
      {
        TeamStartIsLowerBound(entries, shifts, start, latest, duration);
        var from := TeamStartPassed(entries, shifts, start, latest, duration);
        TestStartsSuffice(shifts, from, duration);
      }
    }
  }

  lemma PassOfPair(first: seq<Window>, second: seq<Window>, t: Time, duration: int)
    ensures Pass([first, second], t, duration) ==
              var a := ShiftStart(first, t, duration);
              if a.None? then None else ShiftStart(second, a.value, duration)
  {
    var shifts := [first, second];
    assert shifts[1..] == [second];
    var a := ShiftStart(first, t, duration);
    if a.Some? {
      var rest := [second];
      assert rest[1..] == [];
      assert Pass(rest, a.value, duration) == ShiftStart(second, a.value, duration);
    }
  }

  predicate LongEnough(w: Window, duration: int) { w.start + duration <= w.end }

  /** An earlier window of the second member takes over whatever starts in `v` before `w` opens. */
  predicate TakenBefore(second: seq<Window>, v: Window, w: Window, duration: int) {
    exists u :: u in second && LongEnough(u, duration) && u.start < w.start && v.end <= u.end
  }

  /**
   Whenever a window of the second member opens too late for a window of the first, the first
   member is on shift again at that opening, or an earlier window of the second comes before it.
   */
  predicate HandsOver(first: seq<Window>, second: seq<Window>, duration: int) {
    forall v, w :: v in first && w in second && LongEnough(v, duration) && LongEnough(w, duration)
      && v.end - duration < w.start
      ==> InShift(first, w.start, duration) || TakenBefore(second, v, w, duration)
  }

  lemma HandsOverLeadsInside(first: seq<Window>, second: seq<Window>, t: Time, duration: int)
    requires HandsOver(first, second, duration)
    requires InShift(first, t, duration) && ShiftStart(second, t, duration).Some?
    ensures InShift(first, ShiftStart(second, t, duration).value, duration)
  {
    hide ShiftStart;
    var v :| v in first && Contains(v, t, t + duration);
    var w := ShiftStartOpens(second, t, duration);
    var b := ShiftStart(second, t, duration).value;
    if b != t && v.end - duration < b && !InShift(first, b, duration) {
      assert LongEnough(v, duration) && LongEnough(w, duration) && TakenBefore(second, v, w, duration);
      hide HandsOver;
      var u :| u in second && LongEnough(u, duration) && u.start < w.start && v.end <= u.end;
      var earlier := Max(t, u.start);
      assert Contains(u, earlier, earlier + duration);
      assert InShift(second, earlier, duration);
      ShiftStartIsEarliest(second, t, duration);
    }
  }

  lemma LateOpeningIsReached(first: seq<Window>, second: seq<Window>, v: Window, w: Window, duration: int)
    requires v in first && w in second && LongEnough(v, duration) && LongEnough(w, duration)
             && v.end - duration < w.start
    requires !TakenBefore(second, v, w, duration)
    ensures Pass([first, second], v.end - duration, duration) == Some(w.start)
  {
    var t := v.end - duration;
    assert Contains(v, t, t + duration) && Contains(w, w.start, w.start + duration);
    StartInShiftStays(first, t, duration);
    ShiftStartIsEarliest(second, t, duration);
    assert InShift(second, w.start, duration);
    var u := ShiftStartOpens(second, t, duration);
    PassOfPair(first, second, t, duration);
  }

  /** Two members: the finite test compares the windows of the one with those of the other. */
  lemma PairCompatibility(first: seq<Window>, second: seq<Window>, duration: int)
    ensures Compatible([first, second], duration) <==> HandsOver(first, second, duration)
  {
    var shifts := [first, second];
    assert first in shifts && second in shifts;
    if Compatible(shifts, duration) {
      forall v, w | v in first && w in second && LongEnough(v, duration) && LongEnough(w, duration)
        && v.end - duration < w.start
        ensures InShift(first, w.start, duration) || TakenBefore(second, v, w, duration)
      {
        if !TakenBefore(second, v, w, duration) {
          LateOpeningIsReached(first, second, v, w, duration);
          TestStartsSuffice(shifts, v.end - duration, duration);
        }
      }
    }
    if HandsOver(first, second, duration) {
      forall t | Pass(shifts, t, duration).Some? ensures JointFrom(shifts, t, duration) {
        PassOfPair(first, second, t, duration);
        ShiftStartIsEarliest(first, t, duration);
        var a := ShiftStart(first, t, duration).value;
        ShiftStartIsEarliest(second, a, duration);
        HandsOverLeadsInside(first, second, a, duration);
      }
    }
  }

  /** Every window of `inner` lies inside a window of `outer`. */
  ghost predicate ShiftWithin(inner: seq<Window>, outer: seq<Window>) {
    forall w :: w in inner ==> exists v :: v in outer && v.start <= w.start && w.end <= v.end
  }

  /** One-member teams, equal shifts, and a last member whose shift all others cover are compatible. */
  lemma NestedShiftsAreCompatible(shifts: seq<seq<Window>>, duration: int)
    requires shifts != [] ==> forall shift :: shift in shifts ==> ShiftWithin(shifts[|shifts| - 1], shift)
    ensures Compatible(shifts, duration)
  {
    hide Pass, TestStarts;
    forall t | Pass(shifts, t, duration).Some? ensures JointFrom(shifts, t, duration) {
      PassIsLowerBound(shifts, t, duration);
      var u := Pass(shifts, t, duration).value;
      forall shift | shift in shifts ensures InShift(shift, u, duration) {
        var w :| w in shifts[|shifts| - 1] && Contains(w, u, u + duration);
        var v :| v in shift && v.start <= w.start && w.end <= v.end;
        assert Contains(v, u, u + duration);
      }
    }
  }

  /** Half-open minutes as an availability window. */
  function Minutes(start: int, end: int): Window { Window(start * MINUTE, end * MINUTE) }

  /**
   Two technicians, the first available in minutes [0, 4) and [8, 12), the second in [5, 9):
   four minutes of work are placed at minute 5, where the first technician is off shift.
   */
  lemma LaterMemberBreaksEarlierShift()
    ensures
      var shifts := [[Minutes(0, 4), Minutes(8, 12)], [Minutes(5, 9)]];
      && TeamStart([], shifts, 0, 20 * MINUTE, 4 * MINUTE) == Some(5 * MINUTE)
      && !InShift(shifts[0], 5 * MINUTE, 4 * MINUTE)
      && !HandsOver(shifts[0], shifts[1], 4 * MINUTE) && !Compatible(shifts, 4 * MINUTE)
  {
    var first, second := [Minutes(0, 4), Minutes(8, 12)], [Minutes(5, 9)];
    var shifts := [first, second];
    assert Minutes(0, 4) in first && Minutes(5, 9) in second;
    assert !HandsOver(first, second, 4 * MINUTE);
    PairCompatibility(first, second, 4 * MINUTE);
    LateOpeningIsReached(first, second, Minutes(0, 4), Minutes(5, 9), 4 * MINUTE);
    assert Pass(shifts, 0, 4 * MINUTE) == Some(5 * MINUTE);
  }

  /** The search loop; it needs at most one round more than there are calendar entries. */
  method FindTeamStart(
    entries: seq<Assignment>, shifts: seq<seq<Window>>, earliest: Time, latest: Time, duration: int)
    returns (expired: bool, slot: Option<Time>, ghost rounds: nat)
    requires Proper(entries)
    ensures !expired ==> slot == TeamStart(entries, shifts, earliest, latest, duration)
    ensures rounds <= |entries| + 1
  {
    var start := earliest;
    rounds := 0;
    while start <= latest
      invariant rounds + Pending(entries, start) <= |entries|
      invariant TeamStart(entries, shifts, start, latest, duration)
             == TeamStart(entries, shifts, earliest, latest, duration)
      decreases latest - start
    {
      ghost var before := start;
      rounds := rounds + 1;
      expired := CheckDeadline();
      if expired {
        return true, None, rounds;
      }
      var i := 0;
      while i < |shifts|
        invariant 0 <= i <= |shifts|
        invariant before <= start
        invariant Pass(shifts[i..], start, duration) == Pass(shifts, before, duration)
      {
        var available := AvailabilityStart(shifts[i], start, duration);
        ShiftStartIsEarliest(shifts[i], start, duration);
        assert shifts[i..][0] == shifts[i] && shifts[i..][1..] == shifts[i + 1..];
        if available.None? {
          return false, None, rounds;
        }
        start := Max(start, available.value);
        i := i + 1;
      }
      var conflict := LastConflict(entries, start, start + duration);
      if conflict.None? {
        return false, if start <= latest then Some(start) else None, rounds;
      }
      LastConflictIsLast(entries, start, duration);
      start := conflict.value;
      PendingDrops(entries, before, start);
    }
    expired, slot := false, None;
  }
}
