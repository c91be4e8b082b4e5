/** Small containers and list facts shared by every module. */
module Collections {

  datatype Option<+T> = None | Some(value: T)

  function Max(a: int, b: int): int { if a < b then b else a }

  function Min(a: int, b: int): int { if a < b then a else b }

  /** No value occurs at two positions. */
  ghost predicate Distinct<T>(xs: seq<T>) {
    forall i, j :: 0 <= i < j < |xs| ==> xs[i] != xs[j]
  }

  /** `xs` is `ys` with some members left out. */
  ghost predicate Subsequence<T>(xs: seq<T>, ys: seq<T>) {
    if xs == [] then true
    else if ys == [] then false
    else if xs[0] == ys[0] then Subsequence(xs[1..], ys[1..])
    else Subsequence(xs, ys[1..])
  }

  lemma {:induction false} SubsequenceOfDistinct<T>(xs: seq<T>, ys: seq<T>)
    requires Subsequence(xs, ys) && Distinct(ys)
    ensures Distinct(xs) && forall x :: x in xs ==> x in ys
  {
    if xs != [] {
      assert ys == [ys[0]] + ys[1..];
      if xs[0] == ys[0] {
        SubsequenceOfDistinct(xs[1..], ys[1..]);
        assert ys[0] !in ys[1..] && xs[0] !in xs[1..];
        assert xs == [xs[0]] + xs[1..];
      } else {
        SubsequenceOfDistinct(xs, ys[1..]);
      }
    }
  }

  lemma TailStaysDistinct<T>(xs: seq<T>)
    requires xs != [] && Distinct(xs)
    ensures Distinct(xs[1..])
  {
  }

  lemma SubsequenceOfTail<T>(xs: seq<T>, ys: seq<T>)
    requires ys != [] && Distinct(ys) && Subsequence(xs, ys[1..])
    ensures Subsequence(xs, ys)
  {
    SubsequenceOfDistinct(xs, ys[1..]);
    HeadIsMember(xs);
  }

  lemma SubsequenceWithHead<T>(xs: seq<T>, ys: seq<T>)
    requires xs != [] && ys != [] && xs[0] == ys[0] && Subsequence(xs[1..], ys[1..])
    ensures Subsequence(xs, ys)
  {
  }

  lemma HeadIsMember<T>(xs: seq<T>)
    ensures xs != [] ==> xs[0] in xs
  {
  }

  /** A list without repetitions has one subsequence with given members. */
  lemma {:induction false} SubsequenceIsUnique<T>(xs: seq<T>, zs: seq<T>, ys: seq<T>)
    requires Subsequence(xs, ys) && Subsequence(zs, ys) && Distinct(ys)
    requires forall x :: x in xs <==> x in zs
    ensures xs == zs
  {
    HeadIsMember(xs);
    HeadIsMember(zs);
    if xs == [] || zs == [] {
    } else if xs[0] == ys[0] || zs[0] == ys[0] {
      assert ys == [ys[0]] + ys[1..];
      assert xs[0] in zs && zs[0] in xs;
      assert xs[0] == zs[0] by {
        if xs[0] != ys[0] { SubsequenceOfDistinct(xs, ys[1..]); }
        if zs[0] != ys[0] { SubsequenceOfDistinct(zs, ys[1..]); }
      }
      SubsequenceOfDistinct(xs[1..], ys[1..]);
      SubsequenceOfDistinct(zs[1..], ys[1..]);
      assert xs == [xs[0]] + xs[1..] && zs == [zs[0]] + zs[1..];
      forall x ensures x in xs[1..] <==> x in zs[1..] {
        assert ys[0] !in ys[1..];
        assert x in xs[1..] || x in zs[1..] ==> x in xs && x in zs && x != xs[0];
      }
      SubsequenceIsUnique(xs[1..], zs[1..], ys[1..]);
    } else {
      SubsequenceIsUnique(xs, zs, ys[1..]);
    }
  }

  lemma {:induction false} SubsequenceOfSelf<T>(xs: seq<T>)
    ensures Subsequence(xs, xs)
  {
    if xs != [] { SubsequenceOfSelf(xs[1..]); }
  }

  lemma {:induction false} SubsequenceIsTransitive<T>(xs: seq<T>, ys: seq<T>, zs: seq<T>)
    requires Subsequence(xs, ys) && Subsequence(ys, zs) && Distinct(zs)
    ensures Subsequence(xs, zs)
  {
    if xs != [] {
      assert zs == [zs[0]] + zs[1..];
      if ys[0] != zs[0] {
        SubsequenceIsTransitive(xs, ys, zs[1..]);
        SubsequenceOfDistinct(xs, zs[1..]);
        assert xs[0] in zs[1..] && zs[0] !in zs[1..];
      } else if xs[0] == ys[0] {
        SubsequenceIsTransitive(xs[1..], ys[1..], zs[1..]);
      } else {
        SubsequenceIsTransitive(xs, ys[1..], zs[1..]);
      }
    }
  }

  function Elements<T>(xs: seq<T>): set<T> {
    set x | x in xs
  }

  ghost predicate Total<T(!new)>(leq: (T, T) -> bool) {
    && (forall x, y :: leq(x, y) || leq(y, x))
    && (forall x, y, z :: leq(x, y) && leq(y, z) ==> leq(x, z))
  }

  ghost predicate SortedBy<T>(xs: seq<T>, leq: (T, T) -> bool) {
    forall i, j :: 0 <= i < j < |xs| ==> leq(xs[i], xs[j])
  }

  function Insert<T>(x: T, xs: seq<T>, leq: (T, T) -> bool): (r: seq<T>)
    ensures multiset(r) == multiset(xs) + multiset{x}
  {
    if xs == [] then [x]
    else if leq(x, xs[0]) then [x] + xs
    else
      assert xs == [xs[0]] + xs[1..];
      [xs[0]] + Insert(x, xs[1..], leq)
  }

  /** Python's `sorted` with the order `leq`; equal keys keep no particular order. */
  function Sorted<T>(xs: seq<T>, leq: (T, T) -> bool): (r: seq<T>)
    ensures multiset(r) == multiset(xs)
  {
    if xs == [] then []
    else
      assert xs == [xs[0]] + xs[1..];
      Insert(xs[0], Sorted(xs[1..], leq), leq)
  }

  lemma {:induction false} SameMembers<T>(xs: seq<T>, ys: seq<T>)
    requires multiset(xs) == multiset(ys)
    ensures forall x :: x in xs <==> x in ys
    ensures |xs| == |ys|
  {
    forall x ensures x in xs <==> x in ys {
      assert x in xs <==> x in multiset(xs);
      assert x in ys <==> x in multiset(ys);
    }
    assert |multiset(xs)| == |xs| && |multiset(ys)| == |ys|;
  }

  lemma {:induction false} InsertSorts<T(!new)>(x: T, xs: seq<T>, leq: (T, T) -> bool)
    requires Total(leq) && SortedBy(xs, leq)
    ensures SortedBy(Insert(x, xs, leq), leq)
  {
    if xs != [] && !leq(x, xs[0]) {
      InsertSorts(x, xs[1..], leq);
      var r := Insert(x, xs[1..], leq);
      SameMembers(r, xs[1..] + [x]);
      forall k | 0 <= k < |r| ensures leq(xs[0], r[k]) {
        assert r[k] in xs[1..] + [x];
      }
    }
  }

  lemma {:induction false} SortedIsSorted<T(!new)>(xs: seq<T>, leq: (T, T) -> bool)
    requires Total(leq)
    ensures SortedBy(Sorted(xs, leq), leq)
  {
    if xs != [] {
      SortedIsSorted(xs[1..], leq);
      InsertSorts(xs[0], Sorted(xs[1..], leq), leq);
    }
  }

  lemma {:induction false} DistinctMeansOnce<T>(xs: seq<T>)
    requires Distinct(xs)
    ensures forall x :: multiset(xs)[x] <= 1
  {
    if xs != [] {
      DistinctMeansOnce(xs[1..]);
      assert xs == [xs[0]] + xs[1..];
      assert xs[0] !in xs[1..];
    }
  }

  lemma {:induction false} OnceMeansDistinct<T>(xs: seq<T>)
    requires forall x :: multiset(xs)[x] <= 1
    ensures Distinct(xs)
  {
    if xs != [] {
      assert xs == [xs[0]] + xs[1..];
      forall x ensures multiset(xs[1..])[x] <= 1 { assert multiset(xs)[x] <= 1; }
      OnceMeansDistinct(xs[1..]);
      assert multiset(xs)[xs[0]] <= 1;
      assert xs[0] !in multiset(xs[1..]);
      assert xs[0] !in xs[1..];
    }
  }

  /** Reordering keeps a list free of repetitions. */
  lemma {:induction false} PermutationKeepsDistinct<T>(xs: seq<T>, ys: seq<T>)
    requires Distinct(xs) && multiset(xs) == multiset(ys)
    ensures Distinct(ys) && |xs| == |ys| && forall x :: x in xs <==> x in ys
  {
    DistinctMeansOnce(xs);
    OnceMeansDistinct(ys);
    SameMembers(xs, ys);
  }

  /** Two permutations of each other still are after the same value is taken out of both. */
  lemma DropFromBoth<T>(xs: seq<T>, ys: seq<T>, k: nat)
    requires xs != [] && k < |ys| && ys[k] == xs[0] && multiset(xs) == multiset(ys)
    ensures multiset(ys[..k] + ys[k + 1..]) == multiset(xs[1..])
  {
    var rest := ys[..k] + ys[k + 1..];
    assert xs == [xs[0]] + xs[1..];
    assert ys == ys[..k] + [ys[k]] + ys[k + 1..];
    forall v ensures multiset(rest)[v] == multiset(xs[1..])[v] {
      assert multiset(ys)[v] == multiset(rest)[v] + multiset{xs[0]}[v];
      assert multiset(xs)[v] == multiset(xs[1..])[v] + multiset{xs[0]}[v];
    }
  }

  /** The next key of a dictionary walk; which one is left open. */
  method Pick<T(==)>(keys: set<T>) returns (key: T)
    requires keys != {}
    ensures key in keys
  {
    key :| key in keys;
  }

  /** `groups.setdefault(key, []).append(x)`. */
  function Filed<K, V>(groups: map<K, seq<V>>, key: K, x: V): map<K, seq<V>> {
    groups[key := (if key in groups then groups[key] else []) + [x]]
  }
}
