/**
 The stable sort that `sort`, `sort_by` and `sort_unstable` stand for. A comparator returns whether its
 first argument may stand before its second.
 */
module Sorting {
  ghost predicate TotalPreorder<T(!new)>(leq: (T, T) -> bool) {
    && (forall x, y :: leq(x, y) || leq(y, x))
    && (forall x, y, z :: leq(x, y) && leq(y, z) ==> leq(x, z))
  }

  ghost predicate Sorted<T>(leq: (T, T) -> bool, xs: seq<T>) {
    forall i, j | 0 <= i < j < |xs| :: leq(xs[i], xs[j])
  }

  /** No two distinct members of `xs` tie. */
  ghost predicate NoTies<T>(leq: (T, T) -> bool, xs: seq<T>) {
    forall x, y | x in xs && y in xs && leq(x, y) && leq(y, x) :: x == y
  }

  ghost predicate Distinct<T>(xs: seq<T>) {
    forall i, j | 0 <= i < j < |xs| :: xs[i] != xs[j]
  }

  function Insert<T>(leq: (T, T) -> bool, x: T, xs: seq<T>): (r: seq<T>)
    ensures |r| == |xs| + 1
  {
    if xs == [] || leq(x, xs[0]) then [x] + xs else [xs[0]] + Insert(leq, x, xs[1..])
  }

  function Sort<T>(leq: (T, T) -> bool, xs: seq<T>): (r: seq<T>)
    ensures |r| == |xs|
  {
    if xs == [] then [] else Insert(leq, xs[0], Sort(leq, xs[1..]))
  }

  lemma {:induction false} InsertPermutes<T>(leq: (T, T) -> bool, x: T, xs: seq<T>)
    ensures multiset(Insert(leq, x, xs)) == multiset([x] + xs)
  {
    if xs == [] || leq(x, xs[0]) {
    } else {
      InsertPermutes(leq, x, xs[1..]);
      assert xs == [xs[0]] + xs[1..];
    }
  }

  lemma {:induction false} SortPermutes<T>(leq: (T, T) -> bool, xs: seq<T>)
    ensures multiset(Sort(leq, xs)) == multiset(xs)
  {
    if xs != [] {
      SortPermutes(leq, xs[1..]);
      InsertPermutes(leq, xs[0], Sort(leq, xs[1..]));
      assert xs == [xs[0]] + xs[1..];
    }
  }

  lemma SortMember<T>(leq: (T, T) -> bool, xs: seq<T>, x: T)
    ensures x in Sort(leq, xs) <==> x in xs
  {
    SortPermutes(leq, xs);
    assert x in multiset(xs) <==> x in multiset(Sort(leq, xs));
  }

  lemma {:induction false} InsertSorts<T(!new)>(leq: (T, T) -> bool, x: T, xs: seq<T>)
    requires TotalPreorder(leq) && Sorted(leq, xs)
    ensures Sorted(leq, Insert(leq, x, xs))
  {
    if xs == [] || leq(x, xs[0]) {
    } else {
      var tail := Insert(leq, x, xs[1..]);
      InsertSorts(leq, x, xs[1..]);
      InsertPermutes(leq, x, xs[1..]);
      forall y | y in tail ensures leq(xs[0], y) {
        assert y in multiset([x] + xs[1..]);
      }
      assert forall i | 0 <= i < |tail| :: tail[i] in tail;
    }
  }

  lemma {:induction false} SortSorts<T(!new)>(leq: (T, T) -> bool, xs: seq<T>)
    requires TotalPreorder(leq)
    ensures Sorted(leq, Sort(leq, xs))
  {
    if xs != [] {
      SortSorts(leq, xs[1..]);
      InsertSorts(leq, xs[0], Sort(leq, xs[1..]));
    }
  }

  lemma TailPermutes<T>(xs: seq<T>)
    requires xs != []
    ensures multiset(xs[1..]) == multiset(xs) - multiset{xs[0]}
  {
    assert xs == [xs[0]] + xs[1..];
  }

  lemma HeadUnique<T(!new)>(leq: (T, T) -> bool, xs: seq<T>, ys: seq<T>)
    requires Sorted(leq, xs) && Sorted(leq, ys) && NoTies(leq, xs)
    requires multiset(xs) == multiset(ys) && xs != [] && ys != []
    ensures xs[0] == ys[0]
  {
    assert xs[0] in multiset(ys) && ys[0] in multiset(xs);
    var i :| 0 <= i < |ys| && ys[i] == xs[0];
    var j :| 0 <= j < |xs| && xs[j] == ys[0];
    if i != 0 && j != 0 {
      assert leq(xs[0], xs[j]) && leq(ys[0], ys[i]);
    }
  }

  /** Without ties the sorted order of a collection does not depend on how it was listed. */
  lemma {:induction false} SortedUnique<T(!new)>(leq: (T, T) -> bool, xs: seq<T>, ys: seq<T>)
    requires Sorted(leq, xs) && Sorted(leq, ys) && NoTies(leq, xs)
    requires multiset(xs) == multiset(ys)
    ensures xs == ys
  {
    assert |multiset(xs)| == |multiset(ys)|;
    if xs != [] {
      HeadUnique(leq, xs, ys);
      TailPermutes(xs);
      TailPermutes(ys);
      SortedUnique(leq, xs[1..], ys[1..]);
      assert xs == [xs[0]] + xs[1..] && ys == [ys[0]] + ys[1..];
    }
  }

  lemma {:induction false} DistinctCounts<T>(xs: seq<T>, x: T)
    requires Distinct(xs)
    ensures multiset(xs)[x] == if x in xs then 1 else 0
  {
    if xs != [] {
      DistinctCounts(xs[1..], x);
      assert xs == [xs[0]] + xs[1..];
    }
  }

  /** Two duplicate-free lists of the same members are permutations of each other. */
  lemma DistinctPermutes<T>(xs: seq<T>, ys: seq<T>)
    requires Distinct(xs) && Distinct(ys)
    requires forall x :: x in xs <==> x in ys
    ensures multiset(xs) == multiset(ys)
  {
    forall x ensures multiset(xs)[x] == multiset(ys)[x] {
      DistinctCounts(xs, x);
      DistinctCounts(ys, x);
    }
  }

  /** A permutation of a duplicate-free list is duplicate-free. */
  lemma DistinctPreserved<T>(xs: seq<T>, ys: seq<T>)
    requires Distinct(xs) && multiset(xs) == multiset(ys)
    ensures Distinct(ys)
  {
    forall i, j | 0 <= i < j < |ys| ensures ys[i] != ys[j] {
      DistinctCounts(xs, ys[i]);
      assert ys == ys[..j] + ys[j..];
      assert multiset(ys)[ys[i]] == multiset(ys[..j])[ys[i]] + multiset(ys[j..])[ys[i]];
      assert ys[..j][i] == ys[i] && ys[j..][0] == ys[j];
    }
  }

  /** The members of `xs` that tie with `x`, in their order. */
  function Tying<T>(leq: (T, T) -> bool, x: T, xs: seq<T>): seq<T> {
    if xs == [] then []
    else (if leq(x, xs[0]) && leq(xs[0], x) then [xs[0]] else []) + Tying(leq, x, xs[1..])
  }

  lemma {:induction false} InsertIsStable<T(!new)>(leq: (T, T) -> bool, x: T, y: T, ys: seq<T>)
    requires TotalPreorder(leq)
    ensures Tying(leq, x, Insert(leq, y, ys)) == Tying(leq, x, [y] + ys)
  {
    assert ([y] + ys)[1..] == ys;
    if ys != [] && !leq(y, ys[0]) {
      InsertIsStable(leq, x, y, ys[1..]);
      assert ([y] + ys[1..])[1..] == ys[1..];
      assert ([ys[0]] + Insert(leq, y, ys[1..]))[1..] == Insert(leq, y, ys[1..]);
      assert leq(ys[0], y);
    }
  }

  /** The sort is stable: members that tie keep their order. */
  lemma {:induction false} SortIsStable<T(!new)>(leq: (T, T) -> bool, x: T, xs: seq<T>)
    requires TotalPreorder(leq)
    ensures Tying(leq, x, Sort(leq, xs)) == Tying(leq, x, xs)
  {
    if xs != [] {
      SortIsStable(leq, x, xs[1..]);
      InsertIsStable(leq, x, xs[0], Sort(leq, xs[1..]));
      assert ([xs[0]] + Sort(leq, xs[1..]))[1..] == Sort(leq, xs[1..]);
    }
  }
}
