/** Left folds over sequences, and why a fold whose steps commute does not see the order of its input. */
module Folding {

  function Fold<A, B>(f: (A, B) -> A, init: A, xs: seq<B>): A {
    if xs == [] then init else f(Fold(f, init, xs[..|xs| - 1]), xs[|xs| - 1])
  }

  /** Two consecutive steps may be swapped, whatever state they start from. */
  ghost predicate Commutes<A(!new), B(!new)>(f: (A, B) -> A) {
    forall a, x, y :: f(f(a, x), y) == f(f(a, y), x)
  }

  lemma {:induction false} FoldConcat<A, B>(f: (A, B) -> A, init: A, xs: seq<B>, ys: seq<B>)
    ensures Fold(f, init, xs + ys) == Fold(f, Fold(f, init, xs), ys)
  {
    if ys == [] {
      assert xs + ys == xs;
    } else {
      var n := |ys| - 1;
      assert (xs + ys)[..|xs + ys| - 1] == xs + ys[..n];
      FoldConcat(f, init, xs, ys[..n]);
    }
  }

  /** A step may be taken early: moving one element to the end does not change the fold. */
  lemma {:induction false} FoldMoveLast<A(!new), B(!new)>(f: (A, B) -> A, init: A, xs: seq<B>, x: B, ys: seq<B>)
    requires Commutes(f)
    ensures Fold(f, init, xs + [x] + ys) == Fold(f, init, xs + ys + [x])
  {
    if ys == [] {
      assert xs + [x] + ys == xs + ys + [x];
    } else {
      var n := |ys| - 1;
      var y := ys[n];
      assert xs + [x] + ys == (xs + [x] + ys[..n]) + [y];
      assert xs + ys + [x] == (xs + ys[..n] + [y]) + [x];
      assert (xs + ys[..n] + [y])[..|xs| + n] == xs + ys[..n];
      FoldMoveLast(f, init, xs, x, ys[..n]);
      var a := Fold(f, init, xs + ys[..n]);
      assert Fold(f, init, xs + ys[..n] + [x]) == f(a, x) by {
        assert (xs + ys[..n] + [x])[..|xs| + n] == xs + ys[..n];
      }
      assert f(f(a, x), y) == f(f(a, y), x);
    }
  }

  lemma WithoutOne<T>(xs: seq<T>, k: nat)
    requires k < |xs|
    ensures xs == xs[..k] + [xs[k]] + xs[k + 1..]
    ensures multiset(xs[..k] + xs[k + 1..]) == multiset(xs) - multiset{xs[k]}
  {
    assert xs == xs[..k] + [xs[k]] + xs[k + 1..];
  }

  lemma SomewhereIn<T>(xs: seq<T>, ys: seq<T>) returns (k: nat)
    requires xs != [] && multiset(xs) == multiset(ys)
    ensures k < |ys| && ys[k] == xs[|xs| - 1]
  {
    assert xs[|xs| - 1] in multiset(ys);
    k :| 0 <= k < |ys| && ys[k] == xs[|xs| - 1];
  }

  /** The fold of a commuting step depends on the multiset of its input alone. */
  lemma {:induction false} FoldPermutation<A(!new), B(!new)>(f: (A, B) -> A, init: A, xs: seq<B>, ys: seq<B>)
    requires Commutes(f)
    requires multiset(xs) == multiset(ys)
    ensures Fold(f, init, xs) == Fold(f, init, ys)
    decreases |xs|
  {
    if xs == [] {
      assert |multiset(ys)| == 0;
    } else {
      var n := |xs| - 1;
      var k := SomewhereIn(xs, ys);
      var rest := ys[..k] + ys[k + 1..];
      WithoutOne(xs, n);
      WithoutOne(ys, k);
      assert xs[..n] + xs[n + 1..] == xs[..n];
      FoldPermutation(f, init, xs[..n], rest);
      FoldMoveLast(f, init, ys[..k], ys[k], ys[k + 1..]);
      FoldAppend(f, init, rest, ys[k]);
    }
  }

  /** The elements of xs that satisfy p, in their order. */
  function Filter<T>(p: T -> bool, xs: seq<T>): seq<T> {
    if xs == [] then []
    else
      var front := Filter(p, xs[..|xs| - 1]);
      if p(xs[|xs| - 1]) then front + [xs[|xs| - 1]] else front
  }

  lemma FilterAppend<T>(p: T -> bool, xs: seq<T>, x: T)
    ensures Filter(p, xs + [x]) == if p(x) then Filter(p, xs) + [x] else Filter(p, xs)
  {
    assert (xs + [x])[..|xs|] == xs;
  }

  lemma {:induction false} FilterConcat<T>(p: T -> bool, xs: seq<T>, ys: seq<T>)
    ensures Filter(p, xs + ys) == Filter(p, xs) + Filter(p, ys)
  {
    if ys == [] {
      assert xs + ys == xs;
    } else {
      var n := |ys| - 1;
      assert xs + ys == (xs + ys[..n]) + [ys[n]];
      FilterConcat(p, xs, ys[..n]);
      FilterAppend(p, xs + ys[..n], ys[n]);
    }
  }

  lemma FilterPermutation<T(!new)>(p: T -> bool, xs: seq<T>, ys: seq<T>)
    requires multiset(xs) == multiset(ys)
    ensures multiset(Filter(p, xs)) == multiset(Filter(p, ys))
  {
    var a, b := multiset(Filter(p, xs)), multiset(Filter(p, ys));
    forall t: T ensures a[t] == b[t] {
      FilterCount(p, xs, t);
      FilterCount(p, ys, t);
    }
    assert a == b;
  }

  lemma {:induction false} FilterCount<T>(p: T -> bool, xs: seq<T>, t: T)
    ensures multiset(Filter(p, xs))[t] == if p(t) then multiset(xs)[t] else 0
  {
    if xs == [] {
    } else {
      var n := |xs| - 1;
      FilterCount(p, xs[..n], t);
      assert xs == xs[..n] + [xs[n]];
    }
  }

  lemma {:induction false} FilterAll<T>(p: T -> bool, xs: seq<T>)
    ensures |Filter(p, xs)| <= |xs|
    ensures |Filter(p, xs)| == |xs| <==> forall x :: x in xs ==> p(x)
  {
    if xs == [] {
    } else {
      var n := |xs| - 1;
      FilterAll(p, xs[..n]);
      assert xs == xs[..n] + [xs[n]];
      assert xs[n] in xs;
    }
  }

  lemma {:induction false} FilterEmptyIff<T>(p: T -> bool, xs: seq<T>)
    ensures Filter(p, xs) == [] <==> forall x :: x in xs ==> !p(x)
  {
    if xs == [] {
    } else {
      var n := |xs| - 1;
      FilterEmptyIff(p, xs[..n]);
      assert xs == xs[..n] + [xs[n]];
      assert xs[n] in xs;
    }
  }

  lemma {:induction false} FilterMember<T>(p: T -> bool, xs: seq<T>, x: T)
    ensures x in Filter(p, xs) <==> x in xs && p(x)
  {
    if xs == [] {
    } else {
      var n := |xs| - 1;
      assert xs == xs[..n] + [xs[n]];
      FilterMember(p, xs[..n], x);
    }
  }

  lemma {:induction false} FilterWhole<T>(p: T -> bool, xs: seq<T>)
    requires forall x :: x in xs ==> p(x)
    ensures Filter(p, xs) == xs
  {
    if xs == [] {
    } else {
      var n := |xs| - 1;
      assert xs == xs[..n] + [xs[n]];
      assert xs[n] in xs;
      FilterWhole(p, xs[..n]);
    }
  }

  /** The last n elements, or all of them if there are fewer. */
  function Last<T>(xs: seq<T>, n: nat): seq<T> {
    if |xs| <= n then xs else xs[|xs| - n..]
  }

  lemma LastAppend<T>(xs: seq<T>, x: T, n: nat)
    requires n <= |xs|
    ensures Last(xs + [x], n + 1) == Last(xs, n) + [x]
  {
  }

  lemma FoldAppend<A, B>(f: (A, B) -> A, init: A, xs: seq<B>, x: B)
    ensures Fold(f, init, xs + [x]) == f(Fold(f, init, xs), x)
  {
    assert (xs + [x])[..|xs|] == xs;
  }
}
