/** Finite sums over sequences, and the effect of a point update on them. */
module Sums {

  /** The sum of f over all elements of xs. */
  ghost function Sum<T>(xs: seq<T>, f: T -> int): int {
    if xs == [] then 0 else f(xs[0]) + Sum(xs[1..], f)
  }

  lemma {:induction false} SumAppend<T>(xs: seq<T>, ys: seq<T>, f: T -> int)
    ensures Sum(xs + ys, f) == Sum(xs, f) + Sum(ys, f)
  {
    if xs == [] {
      assert xs + ys == ys;
    } else {
      assert (xs + ys)[0] == xs[0];
      assert (xs + ys)[1..] == xs[1..] + ys;
      SumAppend(xs[1..], ys, f);
    }
  }

  lemma {:induction false} SumUpdate<T>(xs: seq<T>, i: nat, y: T, f: T -> int)
    requires i < |xs|
    ensures Sum(xs[i := y], f) == Sum(xs, f) - f(xs[i]) + f(y)
  {
    var ys := xs[i := y];
    if i == 0 {
      assert ys[1..] == xs[1..];
    } else {
      assert ys[1..] == xs[1..][i - 1 := y];
      SumUpdate(xs[1..], i - 1, y, f);
    }
  }

  lemma SumOne<T>(x: T, f: T -> int)
    ensures Sum([x], f) == f(x)
  {
    assert [x][1..] == [];
  }

  /** Taking element i out of xs takes f(xs[i]) out of the sum. */
  lemma SumRemove<T>(xs: seq<T>, i: nat, f: T -> int)
    requires i < |xs|
    ensures Sum(xs[..i] + xs[i + 1..], f) == Sum(xs, f) - f(xs[i])
  {
    assert xs == xs[..i] + ([xs[i]] + xs[i + 1..]);
    SumAppend(xs[..i], [xs[i]] + xs[i + 1..], f);
    SumAppend([xs[i]], xs[i + 1..], f);
    SumOne(xs[i], f);
    SumAppend(xs[..i], xs[i + 1..], f);
  }

  lemma {:induction false} SumNonNegative<T>(xs: seq<T>, f: T -> int)
    requires forall i :: 0 <= i < |xs| ==> f(xs[i]) >= 0
    ensures Sum(xs, f) >= 0
    ensures forall i :: 0 <= i < |xs| ==> f(xs[i]) <= Sum(xs, f)
  {
    if xs != [] {
      SumNonNegative(xs[1..], f);
      forall i | 0 <= i < |xs| ensures f(xs[i]) <= Sum(xs, f) {
        if i > 0 { assert xs[i] == xs[1..][i - 1]; }
      }
    }
  }

  /** If f vanishes everywhere but possibly at i, the sum is f(xs[i]). */
  lemma {:induction false} SumSingle<T>(xs: seq<T>, i: nat, f: T -> int)
    requires i < |xs|
    requires forall j :: 0 <= j < |xs| && j != i ==> f(xs[j]) == 0
    ensures Sum(xs, f) == f(xs[i])
  {
    if i == 0 {
      SumZero(xs[1..], f);
    } else {
      SumSingle(xs[1..], i - 1, f);
    }
  }

  lemma {:induction false} SumZero<T>(xs: seq<T>, f: T -> int)
    requires forall j :: 0 <= j < |xs| ==> f(xs[j]) == 0
    ensures Sum(xs, f) == 0
  {
    if xs != [] { SumZero(xs[1..], f); }
  }

  lemma {:induction false} SumTwo<T>(xs: seq<T>, i: nat, j: nat, f: T -> int)
    requires i < j < |xs| && forall k :: 0 <= k < |xs| ==> f(xs[k]) >= 0
    ensures f(xs[i]) + f(xs[j]) <= Sum(xs, f)
  {
    var rest := xs[1..];
    SumNonNegative(rest, f);
    if i == 0 {
      assert xs[j] == rest[j - 1];
    } else {
      SumTwo(rest, i - 1, j - 1, f);
    }
  }
}
