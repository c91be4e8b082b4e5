/** The overlap sweep: a start-ordered scan with early exit against the all-pairs definition. */
module Sweep {
  import opened Collections
  import opened Plant
  import opened Judge
  import opened Slots

  /** The members of `rest` that meet `left`, each paired with it. */
  function PairsWith(left: Assignment, rest: seq<Assignment>): seq<(Assignment, Assignment)> {
    if rest == [] then []
    else (if Disjoint(left, rest[0]) then [] else [(left, rest[0])]) + PairsWith(left, rest[1..])
  }

  /** All pairs of positions i < j whose assignments meet. */
  function AllPairs(xs: seq<Assignment>): seq<(Assignment, Assignment)> {
    if xs == [] then [] else PairsWith(xs[0], xs[1..]) + AllPairs(xs[1..])
  }

  lemma {:induction false} PairsWithExact(left: Assignment, rest: seq<Assignment>, p: (Assignment, Assignment))
    ensures p in PairsWith(left, rest) <==> p.0 == left && p.1 in rest && !Disjoint(left, p.1)
  {
    if rest != [] {
      PairsWithExact(left, rest[1..], p);
      assert rest == [rest[0]] + rest[1..];
    }
  }

  /** Two different assignments are listed, in one order, exactly when they meet; none is paired with itself. */
  lemma {:induction false} AllPairsExact(xs: seq<Assignment>, a: Assignment, b: Assignment)
    requires Distinct(xs)
    ensures (a, b) in AllPairs(xs) || (b, a) in AllPairs(xs) <==>
              a in xs && b in xs && a != b && !Disjoint(a, b)
    ensures !((a, b) in AllPairs(xs) && (b, a) in AllPairs(xs))
  {
    if xs != [] {
      var rest := xs[1..];
      assert xs == [xs[0]] + rest && xs[0] !in rest;
      AllPairsExact(rest, a, b);
      PairsWithExact(xs[0], rest, (a, b));
      PairsWithExact(xs[0], rest, (b, a));
    }
  }

  /** The set of conflicting pairs does not depend on the order of the list. */
  lemma AllPairsIgnoreOrder(xs: seq<Assignment>, ys: seq<Assignment>, a: Assignment, b: Assignment)
    requires Distinct(xs) && multiset(xs) == multiset(ys)
    ensures (a, b) in AllPairs(xs) || (b, a) in AllPairs(xs) <==> (a, b) in AllPairs(ys) || (b, a) in AllPairs(ys)
  {
    PermutationKeepsDistinct(xs, ys);
    AllPairsExact(xs, a, b);
    AllPairsExact(ys, a, b);
  }

  /** Once an entry starts at or after the end of `left`, so do all later ones. */
  lemma {:induction false} NoPairsBeyond(left: Assignment, rest: seq<Assignment>)
    requires SortedBy(rest, ByTime)
    requires rest != [] ==> left.end <= rest[0].start
    ensures PairsWith(left, rest) == []
  {
    if rest != [] {
      if |rest| > 1 { assert ByTime(rest[0], rest[1]); }
      NoPairsBeyond(left, rest[1..]);
    }
  }

  lemma {:induction false} PairsWithPrefix(left: Assignment, done: seq<Assignment>, rest: seq<Assignment>)
    ensures PairsWith(left, done + rest) == PairsWith(left, done) + PairsWith(left, rest)
  {
    if done == [] {
      assert done + rest == rest;
    } else {
      assert (done + rest)[0] == done[0] && (done + rest)[1..] == done[1..] + rest;
      PairsWithPrefix(left, done[1..], rest);
    }
  }

  /** The inner scan stops at the first entry that starts at or after the end of `left`. */
  method SweepFrom(left: Assignment, rest: seq<Assignment>) returns (pairs: seq<(Assignment, Assignment)>)
    requires SortedBy(rest, ByTime)
    ensures pairs == PairsWith(left, rest)
  {
    pairs := [];
    var j := 0;
    while j < |rest|
      invariant 0 <= j <= |rest|
      invariant pairs == PairsWith(left, rest[..j])
    {
      var right := rest[j];
      if right.start >= left.end {
        NoPairsBeyond(left, rest[j..]);
        break;
      }
      PairsWithPrefix(left, rest[..j], [right]);
      assert rest[..j + 1] == rest[..j] + [right];
      if left.start < right.end {
        pairs := pairs + [(left, right)];
      }
      j := j + 1;
    }
    PairsWithPrefix(left, rest[..j], rest[j..]);
    assert rest == rest[..j] + rest[j..];
  }

  /** The double loop with its early exit lists exactly the overlapping pairs of the sorted list. */
  method SweepPairs(ordered: seq<Assignment>) returns (pairs: seq<(Assignment, Assignment)>)
    requires SortedBy(ordered, ByTime)
    ensures pairs == AllPairs(ordered)
  {
    pairs := [];
    var i := 0;
    while i < |ordered|
      invariant 0 <= i <= |ordered|
      invariant pairs + AllPairs(ordered[i..]) == AllPairs(ordered)
    {
      assert ordered[i..][0] == ordered[i] && ordered[i..][1..] == ordered[i + 1..];
      var found := SweepFrom(ordered[i], ordered[i + 1..]);
      pairs := pairs + found;
      i := i + 1;
    }
  }

  ghost predicate Exclusive(items: seq<Assignment>) {
    forall a, b :: a in items && b in items && a != b ==> Disjoint(a, b)
  }

  /** The overlapping pairs among assignments given in any order. */
  method OverlappingPairs(items: seq<Assignment>) returns (pairs: seq<(Assignment, Assignment)>)
    requires Distinct(items)
    ensures forall a, b :: (a, b) in pairs || (b, a) in pairs <==>
              a in items && b in items && a != b && !Disjoint(a, b)
    ensures pairs == [] <==> Exclusive(items)
  {
    var ordered := Sorted(items, ByTime);
    SortedIsSorted(items, ByTime);
    PermutationKeepsDistinct(items, ordered);
    pairs := SweepPairs(ordered);
    forall a, b ensures (a, b) in pairs || (b, a) in pairs <==>
        a in items && b in items && a != b && !Disjoint(a, b)
    {
      AllPairsExact(ordered, a, b);
    }
    if pairs != [] {
      var p := pairs[0];
      assert p in pairs && p == (p.0, p.1);
    }
  }
}
