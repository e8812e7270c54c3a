/** Facts about slices that the loops and inductions of several components share. */
module Sequences {
  lemma TakeOneMore<T>(xs: seq<T>, i: nat)
    requires i < |xs|
    ensures xs[..i + 1] == xs[..i] + [xs[i]]
  {
  }

  lemma TakeAll<T>(xs: seq<T>)
    ensures xs[..|xs|] == xs
  {
  }

  lemma Regroup<T>(a: seq<T>, b: seq<T>, c: seq<T>)
    ensures a + b + c == a + (b + c)
  {
  }

  /** A separator that occurs in neither front part fixes where both texts divide. */
  lemma SplitAtFirst<T>(a: seq<T>, x: seq<T>, b: seq<T>, y: seq<T>, separator: T)
    requires a + [separator] + x == b + [separator] + y
    requires separator !in a && separator !in b
    ensures a == b && x == y
  {
    var whole := a + [separator] + x;
    assert whole[|a|] == separator && whole[|b|] == separator;
    assert forall i | 0 <= i < |a| :: whole[i] == a[i] && a[i] in a;
    assert forall i | 0 <= i < |b| :: whole[i] == b[i] && b[i] in b;
    assert |a| == |b|;
    assert a == whole[..|a|] && b == whole[..|b|];
    assert x == whole[|a| + 1..] && y == whole[|b| + 1..];
  }

  /** A separator that occurs in neither back part fixes where both texts divide. */
  lemma SplitAtLast<T>(a: seq<T>, x: seq<T>, b: seq<T>, y: seq<T>, separator: T)
    requires a + [separator] + x == b + [separator] + y
    requires separator !in x && separator !in y
    ensures a == b && x == y
  {
    var whole := a + [separator] + x;
    assert whole[|a|] == separator && whole[|b|] == separator;
    assert forall i | |a| < i < |whole| :: whole[i] == x[i - |a| - 1] && whole[i] in x;
    assert forall i | |b| < i < |whole| :: whole[i] == y[i - |b| - 1] && whole[i] in y;
    assert |a| == |b|;
    assert a == whole[..|a|] && b == whole[..|b|];
    assert x == whole[|a| + 1..] && y == whole[|b| + 1..];
  }

  /** What holds of a list by its first element or by its tail holds by some element. */
  lemma {:induction false} SomeElement<T(!new)>(holds: seq<T> -> bool, first: T -> bool, xs: seq<T>)
    requires !holds([])
    requires forall ys | ys != [] :: holds(ys) <==> first(ys[0]) || holds(ys[1..])
    ensures holds(xs) <==> exists i | 0 <= i < |xs| :: first(xs[i])
  {
    if xs != [] {
      SomeElement(holds, first, xs[1..]);
      if i :| 0 <= i < |xs[1..]| && first(xs[1..][i]) {
        assert first(xs[i + 1]);
      }
      if i :| 0 <= i < |xs| && first(xs[i]) {
        assert i > 0 ==> first(xs[1..][i - 1]);
      }
    }
  }
}
