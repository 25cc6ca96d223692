/** Totals over sequences, for money, counts and demand, and their algebra. */
module Sums {

  function Sum<T>(xs: seq<T>, f: T -> int): int {
    if xs == [] then 0 else f(xs[0]) + Sum(xs[1..], f)
  }

  lemma Regroup<T>(a: seq<T>, b: seq<T>, c: seq<T>)
    ensures a + (b + c) == (a + b) + c
  {}

  lemma {:induction false} SumConcat<T(!new)>(xs: seq<T>, ys: seq<T>, f: T -> int)
    ensures Sum(xs + ys, f) == Sum(xs, f) + Sum(ys, f)
  {
    if xs == [] {
      assert xs + ys == ys;
    } else {
      assert (xs + ys)[1..] == xs[1..] + ys;
      SumConcat(xs[1..], ys, f);
    }
  }

  lemma SumSnoc<T(!new)>(xs: seq<T>, y: T, f: T -> int)
    ensures Sum(xs + [y], f) == Sum(xs, f) + f(y)
  {
    SumConcat(xs, [y], f);
  }

  /** The total split around position `i`. */
  lemma SumSplit<T(!new)>(xs: seq<T>, i: nat, f: T -> int)
    requires i < |xs|
    ensures Sum(xs, f) == Sum(xs[..i], f) + f(xs[i]) + Sum(xs[i + 1..], f)
  {
    assert xs == xs[..i] + ([xs[i]] + xs[i + 1..]);
    SumConcat(xs[..i], [xs[i]] + xs[i + 1..], f);
  }

  lemma SumUpdate<T(!new)>(xs: seq<T>, i: nat, y: T, f: T -> int)
    requires i < |xs|
    ensures Sum(xs[i := y], f) == Sum(xs, f) - f(xs[i]) + f(y)
  {
    SumSplit(xs, i, f);
    SumSplit(xs[i := y], i, f);
    assert xs[i := y][..i] == xs[..i] && xs[i := y][i + 1..] == xs[i + 1..];
  }

  lemma SumInsert<T(!new)>(xs: seq<T>, i: nat, y: T, f: T -> int)
    requires i <= |xs|
    ensures Sum(xs[..i] + [y] + xs[i..], f) == Sum(xs, f) + f(y)
  {
    SumConcat(xs[..i] + [y], xs[i..], f);
    SumSnoc(xs[..i], y, f);
    SumConcat(xs[..i], xs[i..], f);
    assert xs == xs[..i] + xs[i..];
  }

  lemma SumRemove<T(!new)>(xs: seq<T>, i: nat, f: T -> int)
    requires i < |xs|
    ensures Sum(xs[..i] + xs[i + 1..], f) == Sum(xs, f) - f(xs[i])
  {
    SumSplit(xs, i, f);
    SumConcat(xs[..i], xs[i + 1..], f);
  }

  lemma {:induction false} SumNonNegative<T(!new)>(xs: seq<T>, f: T -> int)
    requires forall x :: x in xs ==> f(x) >= 0
    ensures Sum(xs, f) >= 0
  {
    if xs != [] {
      SumNonNegative(xs[1..], f);
    }
  }

  /** Totals follow term by term from bounds on the terms. */
  lemma {:induction false} SumMonotone<T(!new)>(xs: seq<T>, f: T -> int, g: T -> int)
    requires forall x :: x in xs ==> f(x) <= g(x)
    ensures Sum(xs, f) <= Sum(xs, g)
  {
    if xs != [] {
      SumMonotone(xs[1..], f, g);
    }
  }

  lemma SumAgree<T(!new)>(xs: seq<T>, f: T -> int, g: T -> int)
    requires forall x :: x in xs ==> f(x) == g(x)
    ensures Sum(xs, f) == Sum(xs, g)
  {
    SumMonotone(xs, f, g);
    SumMonotone(xs, g, f);
  }

  lemma {:induction false} SumZero<T(!new)>(xs: seq<T>, f: T -> int)
    requires forall x :: x in xs ==> f(x) == 0
    ensures Sum(xs, f) == 0
  {
    if xs != [] {
      SumZero(xs[1..], f);
    }
  }

  /** A term never exceeds the total of non-negative terms. */
  lemma SumBoundsTerm<T(!new)>(xs: seq<T>, i: nat, f: T -> int)
    requires i < |xs|
    requires forall x :: x in xs ==> f(x) >= 0
    ensures 0 <= f(xs[i]) <= Sum(xs, f)
  {
    SumSplit(xs, i, f);
    SumNonNegative(xs[..i], f);
    SumNonNegative(xs[i + 1..], f);
  }

  lemma FindElement<T>(x: T, ys: seq<T>) returns (i: nat)
    requires x in multiset(ys)
    ensures i < |ys| && ys[i] == x
  {
    i :| 0 <= i < |ys| && ys[i] == x;
  }

  lemma RemoveMultiset<T>(xs: seq<T>, i: nat)
    requires i < |xs|
    ensures multiset(xs[..i] + xs[i + 1..]) == multiset(xs) - multiset{xs[i]}
  {
    assert xs == xs[..i] + [xs[i]] + xs[i + 1..];
  }

  lemma TailMultiset<T>(xs: seq<T>)
    requires xs != []
    ensures multiset(xs[1..]) == multiset(xs) - multiset{xs[0]}
    ensures xs[0] in multiset(xs)
  {
    assert xs == [xs[0]] + xs[1..];
  }

  /** Totals do not depend on storage order. */
  lemma {:induction false} SumPermutation<T(!new)>(xs: seq<T>, ys: seq<T>, f: T -> int)
    requires multiset(xs) == multiset(ys)
    ensures Sum(xs, f) == Sum(ys, f)
  {
    if xs == [] {
      assert |multiset(ys)| == 0;
    } else {
      TailMultiset(xs);
      var i := FindElement(xs[0], ys);
      RemoveMultiset(ys, i);
      SumRemove(ys, i, f);
      SumPermutation(xs[1..], ys[..i] + ys[i + 1..], f);
    }
  }

  // ---------------------------------------------------------------- bags

  /** Everything the elements contribute, with multiplicity. */
  ghost function Collect<T(!new), U>(xs: seq<T>, f: T -> multiset<U>): multiset<U> {
    if xs == [] then multiset{} else f(xs[0]) + Collect(xs[1..], f)
  }

  lemma {:induction false} CollectConcat<T(!new), U>(xs: seq<T>, ys: seq<T>, f: T -> multiset<U>)
    ensures Collect(xs + ys, f) == Collect(xs, f) + Collect(ys, f)
  {
    if xs == [] {
      assert xs + ys == ys;
    } else {
      assert (xs + ys)[1..] == xs[1..] + ys;
      CollectConcat(xs[1..], ys, f);
    }
  }

  lemma CollectSnoc<T(!new), U>(xs: seq<T>, y: T, f: T -> multiset<U>)
    ensures Collect(xs + [y], f) == Collect(xs, f) + f(y)
  {
    CollectConcat(xs, [y], f);
  }

  lemma CollectSplit<T(!new), U>(xs: seq<T>, i: nat, f: T -> multiset<U>)
    requires i < |xs|
    ensures Collect(xs, f) == f(xs[i]) + Collect(xs[..i] + xs[i + 1..], f)
  {
    assert xs == xs[..i] + ([xs[i]] + xs[i + 1..]);
    CollectConcat(xs[..i], [xs[i]] + xs[i + 1..], f);
    CollectConcat(xs[..i], xs[i + 1..], f);
    assert ([xs[i]] + xs[i + 1..])[1..] == xs[i + 1..];
  }

  lemma CollectUpdate<T(!new), U>(xs: seq<T>, i: nat, y: T, f: T -> multiset<U>)
    requires i < |xs|
    ensures Collect(xs[i := y], f) == f(y) + Collect(xs[..i] + xs[i + 1..], f)
  {
    CollectSplit(xs[i := y], i, f);
    assert xs[i := y][..i] == xs[..i] && xs[i := y][i + 1..] == xs[i + 1..];
  }

  lemma CollectInsert<T(!new), U>(xs: seq<T>, i: nat, y: T, f: T -> multiset<U>)
    requires i <= |xs|
    ensures Collect(xs[..i] + [y] + xs[i..], f) == f(y) + Collect(xs, f)
  {
    var zs := xs[..i] + [y] + xs[i..];
    CollectSplit(zs, i, f);
    assert zs[..i] + zs[i + 1..] == xs;
  }

  /** Bags do not depend on storage order. */
  lemma {:induction false} CollectPermutation<T(!new), U>(xs: seq<T>, ys: seq<T>, f: T -> multiset<U>)
    requires multiset(xs) == multiset(ys)
    ensures Collect(xs, f) == Collect(ys, f)
  {
    if xs == [] {
      assert |multiset(ys)| == 0;
    } else {
      TailMultiset(xs);
      var i := FindElement(xs[0], ys);
      RemoveMultiset(ys, i);
      CollectSplit(ys, i, f);
      CollectPermutation(xs[1..], ys[..i] + ys[i + 1..], f);
    }
  }
}
