/** The algebra of in-place Gauss-Jordan inversion over the reals (samples/matrix_inverse/tile.h).
    A T by T matrix is a function of row and column. Step n swaps the roles of x_n and y_n in the
    linear relation y == A x; after all steps the matrix maps y to x. */
module GaussJordan {

  type Matrix = (nat, nat) -> real
  type Vector = nat -> real

  function Abs(r: real): real { if r < 0.0 then -r else r }

  /** Sum of m(i,j) * w(j) over j < k. */
  function RowDot(m: Matrix, i: nat, w: Vector, k: nat): real {
    if k == 0 then 0.0 else RowDot(m, i, w, k - 1) + m(i, k - 1) * w(k - 1)
  }

  /** The same without column n. */
  function SkipDot(m: Matrix, i: nat, w: Vector, n: nat, k: nat): real {
    if k == 0 then 0.0
    else SkipDot(m, i, w, n, k - 1) + if k - 1 == n then 0.0 else m(i, k - 1) * w(k - 1)
  }

  /** The matrix after elimination step n, where r is the inverse of the pivot. */
  function SweepBy(m: Matrix, n: nat, r: real): Matrix {
    (i: nat, j: nat) =>
      if i == n && j == n then r
      else if i == n then m(n, j) * r
      else if j == n then -m(i, n) * r
      else m(i, j) - m(i, n) * (m(n, j) * r)
  }

  function Sweep(m: Matrix, n: nat): Matrix
    requires m(n, n) != 0.0
  {
    SweepBy(m, n, 1.0 / m(n, n))
  }

  /** y == A x. */
  ghost predicate Maps(a: Matrix, T: nat, x: Vector, y: Vector) {
    forall i: nat :: i < T ==> RowDot(a, i, x, T) == y(i)
  }

  /** The right-hand sides of the relation after n steps, and its left-hand side in row i. */
  function Mixed(n: nat, x: Vector, y: Vector): Vector { (j: nat) => if j < n then -y(j) else x(j) }
  function Lhs(n: nat, x: Vector, y: Vector, i: nat): real { if i < n then x(i) else -y(i) }

  ghost predicate RowHolds(m: Matrix, n: nat, T: nat, x: Vector, y: Vector, i: nat) {
    Lhs(n, x, y, i) + RowDot(m, i, Mixed(n, x, y), T) == 0.0
  }

  ghost predicate Relates(m: Matrix, n: nat, T: nat, x: Vector, y: Vector) {
    forall i: nat :: i < T ==> RowHolds(m, n, T, x, y, i)
  }

  lemma {:induction false} SplitDot(m: Matrix, i: nat, w: Vector, n: nat, k: nat)
    ensures RowDot(m, i, w, k) == SkipDot(m, i, w, n, k) + if n < k then m(i, n) * w(n) else 0.0
  {
    if k > 0 { SplitDot(m, i, w, n, k - 1); }
  }

  /** Column n does not matter to SkipDot, nor does w(n). */
  lemma {:induction false} SkipEqual(m: Matrix, i: nat, w: Vector, w': Vector, n: nat, k: nat)
    requires forall j: nat :: j < k && j != n ==> w(j) == w'(j)
    ensures SkipDot(m, i, w, n, k) == SkipDot(m, i, w', n, k)
  {
    if k > 0 { SkipEqual(m, i, w, w', n, k - 1); }
  }

  lemma SkipStep(m: Matrix, i: nat, w: Vector, n: nat, j: nat)
    ensures SkipDot(m, i, w, n, j + 1) == if j == n then SkipDot(m, i, w, n, j)
        else SkipDot(m, i, w, n, j) + m(i, j) * w(j)
  {
  }

  lemma {:induction false} SkipPivotRow(m: Matrix, w: Vector, n: nat, k: nat, r: real)
    ensures SkipDot(SweepBy(m, n, r), n, w, n, k) == SkipDot(m, n, w, n, k) * r
  {
    if k > 0 {
      var j, m' := k - 1, SweepBy(m, n, r);
      SkipPivotRow(m, w, n, j, r);
      SkipStep(m', n, w, n, j);
      SkipStep(m, n, w, n, j);
      if j != n {
        assert m'(n, j) == m(n, j) * r;
        hide SkipDot, SweepBy;
        AddScaled(SkipDot(m', n, w, n, j), SkipDot(m, n, w, n, j), m(n, j), w(j), r);
      }
    }
  }

  /** What step n subtracts, for a coefficient t of column n and an entry e of row n. */
  function Taken(t: real, e: real, r: real): real { t * (e * r) }

  lemma {:induction false} SkipOtherRow(m: Matrix, i: nat, w: Vector, n: nat, k: nat, r: real)
    requires i != n
    ensures SkipDot(SweepBy(m, n, r), i, w, n, k) == SkipDot(m, i, w, n, k) - Taken(m(i, n), SkipDot(m, n, w, n, k), r)
  {
    if k > 0 {
      var j, m' := k - 1, SweepBy(m, n, r);
      SkipOtherRow(m, i, w, n, j, r);
      SkipStep(m', i, w, n, j);
      SkipStep(m, n, w, n, j);
      SkipStep(m, i, w, n, j);
      if j != n {
        assert m'(i, j) == m(i, j) - Taken(m(i, n), m(n, j), r);
        hide SkipDot, SweepBy, Taken;
        AddSwept(SkipDot(m', i, w, n, j), SkipDot(m, i, w, n, j), SkipDot(m, n, w, n, j),
                 m(i, j), m(n, j), w(j), r, m(i, n));
      }
    }
  }

  lemma AddScaled(s: real, d: real, a: real, w: real, r: real)
    requires s == d * r
    ensures s + (a * r) * w == (d + a * w) * r
  {
    assert (a * r) * w == (a * w) * r;
    assert (d + a * w) * r == d * r + (a * w) * r;
  }

  lemma AddSwept(s: real, d: real, e: real, b: real, a: real, w: real, r: real, t: real)
    requires s == d - Taken(t, e, r)
    ensures s + (b - Taken(t, a, r)) * w == (d + b * w) - Taken(t, e + a * w, r)
  {
    AddScaled(e * r, e, a, w, r);
    assert (b - t * (a * r)) * w == b * w - (t * (a * r)) * w;
    assert (t * (a * r)) * w == t * ((a * r) * w);
    assert t * (e * r + (a * r) * w) == t * (e * r) + t * ((a * r) * w);
  }

  /** Solving row n for x_n. */
  lemma PivotRow(p: real, r: real, x: real, y: real, s: real)
    requires p * r == 1.0
    ensures -y + (s + p * x) == 0.0 <==> x + (s * r + r * -y) == 0.0
  {
    if -y + (s + p * x) == 0.0 {
      assert r * (-y + (s + p * x)) == 0.0;
      assert r * (p * x) == (p * r) * x == x;
      assert r * (-y + (s + p * x)) == r * -y + r * s + r * (p * x);
    }
    if x + (s * r + r * -y) == 0.0 {
      assert p * (x + (s * r + r * -y)) == 0.0;
      assert p * (s * r) == (p * r) * s == s;
      assert p * (r * -y) == (p * r) * -y == -y;
      assert p * (x + (s * r + r * -y)) == p * x + p * (s * r) + p * (r * -y);
    }
  }

  /** Substituting the solved row into another one. */
  lemma OtherRow(r: real, x: real, y: real, s: real, t: real, e: real, d: real)
    requires x + (s * r + r * -y) == 0.0
    ensures e + (d + t * x) == 0.0 <==> e + ((d - t * (s * r)) + (-t * r) * -y) == 0.0
  {
    assert x == -(s * r) - r * -y;
    assert t * x == -(t * (s * r)) - t * (r * -y);
    assert (-t * r) * -y == -(t * (r * -y));
  }

  /** Row i of the relation before and after step n, split at column n. */
  lemma RowParts(m: Matrix, n: nat, T: nat, x: Vector, y: Vector, i: nat, r: real)
    requires n < T && i < T
    ensures var w, w' := Mixed(n, x, y), Mixed(n + 1, x, y);
            && RowDot(m, i, w, T) == SkipDot(m, i, w, n, T) + m(i, n) * x(n)
            && RowDot(SweepBy(m, n, r), i, w', T) ==
               (if i == n then SkipDot(m, n, w, n, T) * r + r * -y(n)
                else (SkipDot(m, i, w, n, T) - m(i, n) * (SkipDot(m, n, w, n, T) * r)) + (-m(i, n) * r) * -y(n))
  {
    hide RowDot, SkipDot;
    var w, w', m' := Mixed(n, x, y), Mixed(n + 1, x, y), SweepBy(m, n, r);
    SplitDot(m, i, w, n, T);
    SplitDot(m', i, w', n, T);
    SkipEqual(m', i, w, w', n, T);
    if i == n { SkipPivotRow(m, w, n, T, r); } else { SkipOtherRow(m, i, w, n, T, r); }
    assert m'(i, n) == if i == n then r else -m(i, n) * r;
    assert w'(n) == -y(n) && w(n) == x(n);
  }

  lemma PivotRowSwept(m: Matrix, n: nat, T: nat, x: Vector, y: Vector)
    requires n < T && m(n, n) != 0.0
    ensures RowHolds(m, n, T, x, y, n) <==> RowHolds(Sweep(m, n), n + 1, T, x, y, n)
  {
    hide RowDot, SkipDot, SweepBy, Mixed;
    var r := 1.0 / m(n, n);
    RowParts(m, n, T, x, y, n, r);
    PivotRow(m(n, n), r, x(n), y(n), SkipDot(m, n, Mixed(n, x, y), n, T));
  }

  lemma OtherRowSwept(m: Matrix, n: nat, T: nat, x: Vector, y: Vector, i: nat)
    requires n < T && i < T && i != n && m(n, n) != 0.0
    requires RowHolds(Sweep(m, n), n + 1, T, x, y, n)
    ensures RowHolds(m, n, T, x, y, i) <==> RowHolds(Sweep(m, n), n + 1, T, x, y, i)
  {
    hide RowDot, SkipDot, SweepBy, Mixed;
    var r, w := 1.0 / m(n, n), Mixed(n, x, y);
    RowParts(m, n, T, x, y, n, r);
    RowParts(m, n, T, x, y, i, r);
    OtherRow(r, x(n), y(n), SkipDot(m, n, w, n, T), m(i, n), Lhs(n, x, y, i), SkipDot(m, i, w, n, T));
  }

  /** One elimination step keeps the relation, for all vectors. */
  lemma SweepKeeps(m: Matrix, n: nat, T: nat, x: Vector, y: Vector)
    requires n < T && m(n, n) != 0.0
    ensures Relates(m, n, T, x, y) <==> Relates(Sweep(m, n), n + 1, T, x, y)
  {
    hide RowHolds, Sweep;
    var m', n' := Sweep(m, n), n + 1;
    PivotRowSwept(m, n, T, x, y);
    if Relates(m, n, T, x, y) {
      assert RowHolds(m, n, T, x, y, n);
      forall i: nat | i < T ensures RowHolds(m', n', T, x, y, i) {
        assert RowHolds(m, n, T, x, y, i);
        if i != n { OtherRowSwept(m, n, T, x, y, i); }
      }
    }
    if Relates(m', n', T, x, y) {
      assert RowHolds(m', n', T, x, y, n);
      forall i: nat | i < T ensures RowHolds(m, n, T, x, y, i) {
        assert RowHolds(m', n', T, x, y, i);
        if i != n { OtherRowSwept(m, n, T, x, y, i); }
      }
    }
  }

  /*** all steps ***/

  /** The matrix before step n, and whether steps 0..n-1 found a nonzero pivot. */
  function Stage(a: Matrix, n: nat): Matrix
    requires Pivots(a, n)
    decreases n, 1
  {
    if n == 0 then a else Sweep(Stage(a, n - 1), n - 1)
  }

  predicate Pivots(a: Matrix, n: nat)
    decreases n, 0
  {
    n == 0 || (Pivots(a, n - 1) && Stage(a, n - 1)(n - 1, n - 1) != 0.0)
  }

  lemma {:induction false} RowDotEqual(m: Matrix, i: nat, w: Vector, w': Vector, k: nat)
    requires forall j: nat :: j < k ==> w(j) == w'(j)
    ensures RowDot(m, i, w, k) == RowDot(m, i, w', k)
  {
    if k > 0 { RowDotEqual(m, i, w, w', k - 1); }
  }

  lemma {:induction false} RowDotNegated(m: Matrix, i: nat, w: Vector, w': Vector, k: nat)
    requires forall j: nat :: j < k ==> w'(j) == -w(j)
    ensures RowDot(m, i, w', k) == -RowDot(m, i, w, k)
  {
    if k > 0 {
      RowDotNegated(m, i, w, w', k - 1);
      assert m(i, k - 1) * -w(k - 1) == -(m(i, k - 1) * w(k - 1));
    }
  }

  /** Before step n, the matrix describes the relation y == A x with n variables swapped. */
  lemma {:induction false} StageRelates(a: Matrix, n: nat, T: nat, x: Vector, y: Vector)
    requires n <= T && Pivots(a, n)
    ensures Relates(Stage(a, n), n, T, x, y) <==> Maps(a, T, x, y)
  {
    if n == 0 {
      forall i: nat | i < T ensures RowHolds(a, 0, T, x, y, i) <==> RowDot(a, i, x, T) == y(i) {
        RowDotEqual(a, i, Mixed(0, x, y), x, T);
      }
    } else {
      StageRelates(a, n - 1, T, x, y);
      SweepKeeps(Stage(a, n - 1), n - 1, T, x, y);
    }
  }

  /** After all steps, the matrix maps y to x exactly if A maps x to y. */
  lemma Swapped(a: Matrix, T: nat, x: Vector, y: Vector)
    requires Pivots(a, T)
    ensures Maps(Stage(a, T), T, y, x) <==> Maps(a, T, x, y)
  {
    StageRelates(a, T, T, x, y);
    var b := Stage(a, T);
    forall i: nat | i < T ensures RowHolds(b, T, T, x, y, i) <==> RowDot(b, i, y, T) == x(i) {
      RowDotNegated(b, i, y, Mixed(T, x, y), T);
    }
  }

  /*** the inverse ***/

  function Unit(k: nat): Vector { (j: nat) => if j == k then 1.0 else 0.0 }
  function Column(m: Matrix, k: nat): Vector { (i: nat) => m(i, k) }

  /** Entry (i,k) of the product a b. */
  function Product(a: Matrix, b: Matrix, T: nat, i: nat, k: nat): real { RowDot(a, i, Column(b, k), T) }

  /** Row i of a matrix applied to y + s * v. */
  lemma {:induction false} DotAdds(a: Matrix, i: nat, y: Vector, v: Vector, y': Vector, s: real, k: nat)
    requires forall j: nat :: j < k ==> y'(j) == y(j) + v(j) * s
    ensures RowDot(a, i, y', k) == RowDot(a, i, y, k) + RowDot(a, i, v, k) * s
  {
    if k > 0 {
      var j := k - 1;
      DotAdds(a, i, y, v, y', s, j);
      DistributeDot(a(i, j), y(j), v(j), s, RowDot(a, i, v, j));
    }
  }

  lemma DistributeDot(m: real, y: real, v: real, s: real, d: real)
    ensures m * (y + v * s) == m * y + (m * v) * s
    ensures (d + m * v) * s == d * s + (m * v) * s
  {
    assert m * (v * s) == (m * v) * s;
  }

  /** The first n columns of the product, applied to x: first b, then a. */
  lemma {:induction false} DotComposes(a: Matrix, b: Matrix, c: Matrix, T: nat, i: nat, x: Vector, y: Vector, n: nat)
    requires forall k: nat :: k < n ==> c(i, k) == Product(a, b, T, i, k)
    requires forall j: nat :: j < T ==> y(j) == RowDot(b, j, x, n)
    ensures RowDot(c, i, x, n) == RowDot(a, i, y, T)
  {
    if n == 0 {
      DotZero(a, i, y, T);
    } else {
      var k := n - 1;
      var before: Vector := (j: nat) => RowDot(b, j, x, k);
      DotComposes(a, b, c, T, i, x, before, k);
      DotAdds(a, i, before, Column(b, k), y, x(k), T);
    }
  }

  lemma {:induction false} DotZero(a: Matrix, i: nat, y: Vector, k: nat)
    requires forall j: nat :: j < k ==> y(j) == 0.0
    ensures RowDot(a, i, y, k) == 0.0
  {
    if k > 0 { DotZero(a, i, y, k - 1); }
  }

  /** c has the entries of the product a b. */
  ghost predicate IsProduct(a: Matrix, b: Matrix, c: Matrix, T: nat) {
    forall i: nat, k: nat :: i < T && k < T ==> c(i, k) == Product(a, b, T, i, k)
  }

  /** Multiplication is composition: where b maps x to y, the product a b maps x to what a maps y to. */
  lemma ProductComposes(a: Matrix, b: Matrix, c: Matrix, T: nat, x: Vector, y: Vector, z: Vector)
    requires IsProduct(a, b, c, T) && Maps(b, T, x, y)
    ensures Maps(c, T, x, z) <==> Maps(a, T, y, z)
  {
    forall i: nat | i < T ensures RowDot(c, i, x, T) == RowDot(a, i, y, T) {
      DotComposes(a, b, c, T, i, x, y, T);
    }
  }

  predicate IsIdentityProduct(a: Matrix, b: Matrix, T: nat) {
    forall i: nat, k: nat :: i < T && k < T ==> Product(a, b, T, i, k) == if i == k then 1.0 else 0.0
  }

  lemma {:induction false} DotUnit(m: Matrix, i: nat, k: nat, n: nat)
    ensures RowDot(m, i, Unit(k), n) == if k < n then m(i, k) else 0.0
  {
    if n > 0 { DotUnit(m, i, k, n - 1); }
  }

  /** If b maps y to x exactly when a maps x to y, the two are inverse to each other. */
  lemma InverseFromSwap(a: Matrix, b: Matrix, T: nat)
    requires forall x: Vector, y: Vector :: Maps(b, T, y, x) <==> Maps(a, T, x, y)
    ensures IsIdentityProduct(a, b, T) && IsIdentityProduct(b, a, T)
  {
    forall i: nat, k: nat | i < T && k < T
      ensures Product(a, b, T, i, k) == (if i == k then 1.0 else 0.0)
      ensures Product(b, a, T, i, k) == if i == k then 1.0 else 0.0
    {
      forall j: nat | j < T ensures RowDot(b, j, Unit(k), T) == Column(b, k)(j) { DotUnit(b, j, k, T); }
      assert Maps(b, T, Unit(k), Column(b, k));
      assert Maps(a, T, Column(b, k), Unit(k));
      forall j: nat | j < T ensures RowDot(a, j, Unit(k), T) == Column(a, k)(j) { DotUnit(a, j, k, T); }
      assert Maps(a, T, Unit(k), Column(a, k));
      assert Maps(b, T, Column(a, k), Unit(k));
    }
  }

  /** In-place Gauss-Jordan elimination yields the two-sided inverse, for every tile size. */
  lemma StageInverts(a: Matrix, T: nat)
    requires Pivots(a, T)
    ensures IsIdentityProduct(a, Stage(a, T), T) && IsIdentityProduct(Stage(a, T), a, T)
  {
    forall x: Vector, y: Vector ensures Maps(Stage(a, T), T, y, x) <==> Maps(a, T, x, y) {
      Swapped(a, T, x, y);
    }
    InverseFromSwap(a, Stage(a, T), T);
  }

  /*** which matrices are inverted ***/

  /** The leading k by k submatrix maps only the zero vector to zero. */
  ghost predicate LeadingRegular(a: Matrix, k: nat) {
    forall x: Vector :: Annihilates(a, k, x) ==> Vanishes(x, k)
  }

  predicate Annihilates(a: Matrix, k: nat, x: Vector) { forall i: nat :: i < k ==> RowDot(a, i, x, k) == 0.0 }
  predicate Vanishes(x: Vector, k: nat) { forall i: nat :: i < k ==> x(i) == 0.0 }

  lemma {:induction false} SkipZero(m: Matrix, i: nat, w: Vector, n: nat, k: nat)
    requires forall j: nat :: j < k && j != n ==> w(j) == 0.0
    ensures SkipDot(m, i, w, n, k) == 0.0
  {
    if k > 0 { SkipZero(m, i, w, n, k - 1); }
  }

  /** Step n finds a nonzero pivot exactly if the leading submatrix of order n+1 is regular. */
  lemma PivotNonzeroIff(a: Matrix, n: nat)
    requires Pivots(a, n)
    ensures Stage(a, n)(n, n) != 0.0 <==> LeadingRegular(a, n + 1)
  {
    if Stage(a, n)(n, n) == 0.0 { ZeroPivotSingular(a, n); } else { NonzeroPivotRegular(a, n); }
  }

  /** x solves the first n equations of the leading submatrix of order n + 1 for right-hand sides 0, with x_n = 1. */
  predicate Solves(a: Matrix, n: nat, x: Vector) {
    x(n) == 1.0 && ZeroRows(a, n, n + 1, x)
  }

  predicate ZeroRows(a: Matrix, n: nat, T: nat, x: Vector) { forall i: nat :: i < n ==> RowDot(a, i, x, T) == 0.0 }

  /** The pivot in terms of the input: if the first n pivots are nonzero there is such an x, and the pivot of step n
      is what row n makes of it. */
  lemma PivotIs(a: Matrix, n: nat)
    requires Pivots(a, n)
    ensures exists x: Vector :: Solves(a, n, x)
    ensures forall x: Vector :: Solves(a, n, x) ==> RowDot(a, n, x, n + 1) == Stage(a, n)(n, n)
  {
    var m, T := Stage(a, n), n + 1;
    var x: Vector := (j: nat) => if j == n then 1.0 else -m(j, n);
    var y: Vector := (j: nat) => if j == n then m(n, n) else 0.0;
    forall i: nat | i < T ensures RowHolds(m, n, T, x, y, i) { PivotColumn(m, n, x, y, i); }
    StageRelates(a, n, n + 1, x, y);
    assert Maps(a, n + 1, x, y) && Solves(a, n, x);
    forall x: Vector | Solves(a, n, x) ensures RowDot(a, n, x, n + 1) == m(n, n) { PivotFrom(a, n, x); }
  }

  lemma PivotColumn(m: Matrix, n: nat, x: Vector, y: Vector, i: nat)
    requires forall j: nat :: j < n ==> y(j) == 0.0
    ensures RowDot(m, i, Mixed(n, x, y), n + 1) == m(i, n) * x(n)
  {
    SplitDot(m, i, Mixed(n, x, y), n, n + 1);
    SkipZero(m, i, Mixed(n, x, y), n, n + 1);
  }

  lemma PivotFrom(a: Matrix, n: nat, x: Vector)
    requires Pivots(a, n) && Solves(a, n, x)
    ensures RowDot(a, n, x, n + 1) == Stage(a, n)(n, n)
  {
    var y: Vector := (j: nat) => if j == n then RowDot(a, n, x, n + 1) else 0.0;
    assert Maps(a, n + 1, x, y);
    StageRelates(a, n, n + 1, x, y);
    assert RowHolds(Stage(a, n), n, n + 1, x, y, n);
    PivotColumn(Stage(a, n), n, x, y, n);
  }

  lemma ZeroPivotSingular(a: Matrix, n: nat)
    requires Pivots(a, n) && Stage(a, n)(n, n) == 0.0
    ensures !LeadingRegular(a, n + 1)
  {
    var m, T := Stage(a, n), n + 1;
    var x: Vector := (j: nat) => if j == n then 1.0 else -m(j, n);
    var y: Vector := (j: nat) => 0.0;
    forall i: nat | i < T ensures RowHolds(m, n, T, x, y, i) {
      SplitDot(m, i, Mixed(n, x, y), n, T);
      SkipZero(m, i, Mixed(n, x, y), n, T);
    }
    StageRelates(a, n, T, x, y);
    assert Annihilates(a, T, x) && x(n) != 0.0;
  }

  lemma NonzeroPivotRegular(a: Matrix, n: nat)
    requires Pivots(a, n) && Stage(a, n)(n, n) != 0.0
    ensures LeadingRegular(a, n + 1)
  {
    var m, T := Stage(a, n), n + 1;
    var y: Vector := (j: nat) => 0.0;
    forall x: Vector | Annihilates(a, T, x) ensures Vanishes(x, T) {
      assert Maps(a, T, x, y);
      StageRelates(a, n, T, x, y);
      assert RowHolds(m, n, T, x, y, n);
      forall i: nat | i < T ensures RowHolds(m, n, T, x, y, i) && RowDot(m, i, Mixed(n, x, y), T) == m(i, n) * x(n) {
        SplitDot(m, i, Mixed(n, x, y), n, T);
        SkipZero(m, i, Mixed(n, x, y), n, T);
      }
      assert m(n, n) * x(n) == 0.0;
      assert x(n) == 0.0;
      forall i: nat | i < T ensures x(i) == 0.0 {
        assert RowHolds(m, n, T, x, y, i);
        assert m(i, n) * x(n) == 0.0;
      }
    }
  }

  /** Elimination without pivot search succeeds exactly on the matrices all of whose leading
      submatrices are regular. */
  lemma {:induction false} PivotsIff(a: Matrix, n: nat)
    ensures Pivots(a, n) <==> forall k: nat :: 1 <= k <= n ==> LeadingRegular(a, k)
  {
    if n > 0 {
      PivotsIff(a, n - 1);
      if Pivots(a, n - 1) { PivotNonzeroIff(a, n - 1); }
    }
  }

  /** An invertible matrix on which the first pivot already fails: the exchange of two rows. */
  lemma InvertibleButRejected()
    ensures var a: Matrix := (i: nat, j: nat) => if i + j == 1 then 1.0 else 0.0;
            IsIdentityProduct(a, a, 2) && !Pivots(a, 2)
  {
    var a: Matrix := (i: nat, j: nat) => if i + j == 1 then 1.0 else 0.0;
    assert Stage(a, 0)(0, 0) == 0.0;
    assert !Pivots(a, 1);
    forall i: nat, k: nat | i < 2 && k < 2 ensures Product(a, a, 2, i, k) == if i == k then 1.0 else 0.0 {
      assert RowDot(a, i, Column(a, k), 0) == 0.0;
      assert RowDot(a, i, Column(a, k), 1) == a(i, 0) * a(0, k);
      assert RowDot(a, i, Column(a, k), 2) == a(i, 0) * a(0, k) + a(i, 1) * a(1, k);
    }
  }
}
