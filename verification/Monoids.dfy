/** The algebra a reduction operator must obey, and folds over it. */
module Monoids {

  /** A reduction operator with its identity element. `dflt` is the default-constructed value:
      what combining an empty thread-local container yields. */
  datatype Operator<!V> = Operator(op: (V, V) -> V, identity: V, dflt: V)

  /** Marks the instances at which the laws below are used; it keeps them from being applied everywhere. */
  ghost predicate At<V>(a: V, b: V, c: V) { true }

  ghost predicate Lawful<V(!new)>(o: Operator<V>) {
    && (forall a, b, c {:trigger At(a, b, c)} :: o.op(o.op(a, b), c) == o.op(a, o.op(b, c)))
    && (forall a, b, c {:trigger At(a, b, c)} :: o.op(a, b) == o.op(b, a))
    && (forall a, b, c {:trigger At(a, b, c)} :: o.op(o.identity, a) == a)
  }

  lemma Laws<V(!new)>(o: Operator<V>, a: V, b: V, c: V)
    requires Lawful(o)
    ensures o.op(o.op(a, b), c) == o.op(a, o.op(b, c))
    ensures o.op(a, b) == o.op(b, a)
    ensures o.op(o.identity, a) == a == o.op(a, o.identity)
  {
    assert At(a, b, c);
    assert At(a, o.identity, c);
  }

  /** The three ways of moving one operand past another that the proofs use. */
  lemma Shuffle<V(!new)>(o: Operator<V>, a: V, b: V, c: V)
    requires Lawful(o)
    ensures o.op(a, o.op(b, c)) == o.op(b, o.op(a, c)) == o.op(o.op(a, b), c) == o.op(o.op(a, c), b)
  {
    Laws(o, a, b, c);
    Laws(o, b, a, c);
    Laws(o, a, c, b);
    Laws(o, b, c, a);
  }

  /** The reduction of f(x) over all x in xs. */
  ghost function Fold<T, V>(o: Operator<V>, xs: seq<T>, f: T -> V): V {
    if xs == [] then o.identity else o.op(f(xs[0]), Fold(o, xs[1..], f))
  }

  /** k copies of x, combined. */
  ghost function Power<V>(o: Operator<V>, x: V, k: nat): V {
    if k == 0 then o.identity else o.op(x, Power(o, x, k - 1))
  }

  lemma {:induction false} PowerOfIdentity<V(!new)>(o: Operator<V>, k: nat)
    requires Lawful(o)
    ensures Power(o, o.identity, k) == o.identity
  {
    if k > 0 {
      PowerOfIdentity(o, k - 1);
      Laws(o, o.identity, o.identity, o.identity);
    }
  }

  lemma {:induction false} FoldAppend<T, V(!new)>(o: Operator<V>, xs: seq<T>, ys: seq<T>, f: T -> V)
    requires Lawful(o)
    ensures Fold(o, xs + ys, f) == o.op(Fold(o, xs, f), Fold(o, ys, f))
  {
    if xs == [] {
      assert xs + ys == ys;
      Laws(o, Fold(o, ys, f), o.identity, o.identity);
    } else {
      assert (xs + ys)[1..] == xs[1..] + ys;
      FoldAppend(o, xs[1..], ys, f);
      Laws(o, f(xs[0]), Fold(o, xs[1..], f), Fold(o, ys, f));
    }
  }

  lemma FoldOne<T, V(!new)>(o: Operator<V>, x: T, f: T -> V)
    requires Lawful(o)
    ensures Fold(o, [x], f) == f(x)
  {
    Laws(o, f(x), f(x), f(x));
    assert [x][1..] == [];
  }

  /** A fold depends on the values, not on their order. */
  lemma FoldRemove<T, V(!new)>(o: Operator<V>, xs: seq<T>, i: nat, f: T -> V)
    requires Lawful(o) && i < |xs|
    ensures Fold(o, xs, f) == o.op(f(xs[i]), Fold(o, xs[..i] + xs[i + 1..], f))
  {
    assert xs == xs[..i] + ([xs[i]] + xs[i + 1..]);
    FoldAppend(o, xs[..i], [xs[i]] + xs[i + 1..], f);
    FoldAppend(o, [xs[i]], xs[i + 1..], f);
    FoldOne(o, xs[i], f);
    FoldAppend(o, xs[..i], xs[i + 1..], f);
    Shuffle(o, Fold(o, xs[..i], f), f(xs[i]), Fold(o, xs[i + 1..], f));
  }

  /** Replacing x by y at one place, where y contributes what x does and v besides. */
  lemma FoldUpdate<T, V(!new)>(o: Operator<V>, xs: seq<T>, i: nat, y: T, f: T -> V, v: V)
    requires Lawful(o) && i < |xs|
    requires f(y) == o.op(f(xs[i]), v)
    ensures Fold(o, xs[i := y], f) == o.op(Fold(o, xs, f), v)
  {
    var ys := xs[i := y];
    var rest := xs[..i] + xs[i + 1..];
    FoldRemove(o, ys, i, f);
    FoldRemove(o, xs, i, f);
    assert ys[..i] + ys[i + 1..] == rest;
    Shuffle(o, f(xs[i]), v, Fold(o, rest, f));
  }

  lemma {:induction false} FoldOfIdentities<T, V(!new)>(o: Operator<V>, xs: seq<T>, f: T -> V)
    requires Lawful(o)
    requires forall i :: 0 <= i < |xs| ==> f(xs[i]) == o.identity
    ensures Fold(o, xs, f) == o.identity
  {
    if xs != [] {
      FoldOfIdentities(o, xs[1..], f);
      Laws(o, o.identity, o.identity, o.identity);
    }
  }
}
