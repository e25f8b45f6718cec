/** The tile of the matrix inversion sample: a square matrix in one flat array, inverted in place
    and multiplied (samples/matrix_inverse/tile.h). Entries are real numbers. */
module Tiles {
  import opened GaussJordan

  const MINPIVOT: real := 0.000000000001

  /** The first n pivots are large enough for the code to go on. */
  predicate Accepts(a: Matrix, n: nat)
    ensures Accepts(a, n) ==> Pivots(a, n)
  {
    n == 0 || (Accepts(a, n - 1) && Abs(Stage(a, n - 1)(n - 1, n - 1)) >= MINPIVOT)
  }

  /** The same said of the input alone: for each k < n, row k of a makes at least MINPIVOT, up to the sign, of every x
      with x_k = 1 that the rows before make 0 of, all cut off after column k. */
  lemma {:induction false} AcceptsIff(a: Matrix, n: nat)
    ensures Accepts(a, n) <==>
            forall k: nat, x: Vector :: k < n && Solves(a, k, x) ==> Abs(RowDot(a, k, x, k + 1)) >= MINPIVOT
  {
    if n > 0 {
      AcceptsIff(a, n - 1);
      if Accepts(a, n - 1) { PivotIs(a, n - 1); }
    }
  }

  /** A regular tile that is rejected because it is small. */
  lemma SmallButRegular()
    ensures var a: Matrix := (i: nat, j: nat) => 0.0000000000001;
            LeadingRegular(a, 1) && Pivots(a, 1) && !Accepts(a, 1)
  {
    var a: Matrix := (i: nat, j: nat) => 0.0000000000001;
    assert Stage(a, 0)(0, 0) != 0.0;
    PivotsIff(a, 1);
  }

  /*** identity_check ***/

  /** What identity_check counts: an entry that is not close to 0, nor on the diagonal close to 1. */
  predicate Wrong(m: Matrix, epsilon: real, i: nat, j: nat) {
    !(i == j && Abs(m(i, j) - 1.0) < epsilon) && !(Abs(m(i, j)) < epsilon)
  }

  /** The wrong entries among the first i rows and the first j entries of row i. */
  ghost function WrongBefore(m: Matrix, T: nat, epsilon: real, i: nat, j: nat): set<(nat, nat)> {
    set k: nat, l: nat | k < T && l < T && (k < i || (k == i && l < j)) && Wrong(m, epsilon, k, l) :: (k, l)
  }

  lemma WrongNext(m: Matrix, T: nat, epsilon: real, i: nat, j: nat)
    requires i < T && j < T
    ensures |WrongBefore(m, T, epsilon, i, j + 1)| ==
            |WrongBefore(m, T, epsilon, i, j)| + if Wrong(m, epsilon, i, j) then 1 else 0
  {
    var before := WrongBefore(m, T, epsilon, i, j);
    assert WrongBefore(m, T, epsilon, i, j + 1) == if Wrong(m, epsilon, i, j) then before + {(i, j)} else before;
  }

  lemma WrongRow(m: Matrix, T: nat, epsilon: real, i: nat)
    ensures WrongBefore(m, T, epsilon, i, T) == WrongBefore(m, T, epsilon, i + 1, 0)
    ensures WrongBefore(m, T, epsilon, 0, 0) == {}
  {
  }

  /** identity_check accepts exactly the matrices with off-diagonal entries close to 0 and diagonal entries close to
      1 or to 0; those close to the identity are among them, but so is 0. */
  lemma IdentityCheckIff(m: Matrix, T: nat, epsilon: real)
    ensures |WrongBefore(m, T, epsilon, T, 0)| == 0 <==>
            forall i: nat, j: nat :: i < T && j < T ==>
              Abs(m(i, j)) < epsilon || (i == j && Abs(m(i, j) - 1.0) < epsilon)
    ensures epsilon > 0.0 && (forall i: nat, j: nat :: i < T && j < T ==> m(i, j) == 0.0) ==>
              |WrongBefore(m, T, epsilon, T, 0)| == 0
  {
    var wrong := WrongBefore(m, T, epsilon, T, 0);
    forall i: nat, j: nat | i < T && j < T ensures (i, j) in wrong <==> Wrong(m, epsilon, i, j) {}
    assert |wrong| == 0 <==> wrong == {};
    if e :| e in wrong {
      var (i, j) := e;
      assert Wrong(m, epsilon, i, j);
    } else {
      forall i: nat, j: nat | i < T && j < T
        ensures Abs(m(i, j)) < epsilon || (i == j && Abs(m(i, j) - 1.0) < epsilon)
      {
        assert (i, j) !in wrong;
      }
    }
  }

  lemma IndexInjective(T: nat, i: nat, j: nat, k: nat, l: nat)
    requires i < T && j < T && k < T && l < T
    ensures 0 <= j * T + i < T * T
    ensures j * T + i == l * T + k ==> i == k && j == l
  {
    Rows(T, j, T);
    if j < l { Rows(T, j, l); }
    if l < j { Rows(T, l, j); }
  }

  lemma Rows(T: nat, j: nat, l: nat)
    requires j < l
    ensures 0 <= j * T && j * T + T <= l * T
  {
    assert l * T == j * T + T + (l - j - 1) * T;
  }

  /** Position of row i, column j. */
  function Index(T: nat, i: nat, j: nat): (k: nat)
    requires i < T && j < T
    ensures k < T * T
  {
    IndexInjective(T, i, j, i, j);
    j * T + i
  }

  /** a and b have the same T by T entries. */
  ghost predicate Same(a: Matrix, b: Matrix, T: nat) {
    forall i: nat, j: nat :: i < T && j < T ==> a(i, j) == b(i, j)
  }

  class Tile {
    const size: nat
    const data: array<real>

    ghost predicate Valid() { data.Length == size * size }

    constructor (size: nat)
      ensures Valid() && this.size == size && fresh(data)
    {
      this.size := size;
      data := new real[size * size];
    }

    function Get(i: nat, j: nat): real
      requires Valid() && i < size && j < size
      reads data
    {
      data[Index(size, i, j)]
    }

    /** The entries as a matrix. */
    ghost function View(): (m: Matrix)
      requires Valid()
      reads data
      ensures forall i: nat, j: nat :: i < size && j < size ==> m(i, j) == Get(i, j)
    {
      var T, s := size, data[..];
      (i: nat, j: nat) => if i < T && j < T then s[Index(T, i, j)] else 0.0
    }

    method Set(i: nat, j: nat, d: real)
      requires Valid() && i < size && j < size
      modifies data
      ensures Get(i, j) == d
      ensures forall k: nat, l: nat :: k < size && l < size && (k != i || l != j) ==> Get(k, l) == old(Get(k, l))
    {
      data[Index(size, i, j)] := d;
      forall k: nat, l: nat | k < size && l < size && (k != i || l != j) ensures Get(k, l) == old(Get(k, l)) {
        IndexInjective(size, i, j, k, l);
      }
    }

    /** One round of the loop of inverse_: elimination step n, in place. */
    method Eliminate(n: nat)
      requires Valid() && n < size && Get(n, n) != 0.0
      modifies data
      ensures Same(View(), Sweep(old(View()), n), size)
    {
      ghost var m := View();
      ghost var m' := Sweep(m, n);
      var row := ScaleRow(n, m);
      hide Sweep;
      var i := 0;
      while i < size
        invariant 0 <= i <= size && forall l: nat :: l < size ==> row[l] == m'(n, l)
        invariant forall k: nat, l: nat :: k < size && l < size ==>
                    Get(k, l) == if k < i || k == n then m'(k, l) else m(k, l)
      {
        if i != n { EliminateRow(n, i, row, m); }
        i := i + 1;
      }
    }

    /** Row n divided by the pivot, with the inverse of the pivot in its place. */
    method ScaleRow(n: nat, ghost m: Matrix) returns (row: array<real>)
      requires Valid() && n < size && m(n, n) != 0.0
      requires forall k: nat, l: nat :: k < size && l < size ==> Get(k, l) == m(k, l)
      modifies data
      ensures fresh(row) && row.Length == size && forall l: nat :: l < size ==> row[l] == Sweep(m, n)(n, l)
      ensures forall k: nat, l: nat :: k < size && l < size ==>
                Get(k, l) == if k == n then Sweep(m, n)(n, l) else m(k, l)
    {
      hide Get, Valid, Index, SweepBy;
      var pivotInverse := 1.0 / Get(n, n);
      ghost var m' := Sweep(m, n);
      row := new real[size];
      PivotRowEntry(m, n, n);
      row[n] := pivotInverse;
      Set(n, n, pivotInverse);
      var j := 0;
      while j < size
        invariant 0 <= j <= size
        invariant forall l: nat :: l < size && (l < j || l == n) ==> row[l] == m'(n, l)
        invariant forall k: nat, l: nat :: k < size && l < size ==>
                    Get(k, l) == if k == n && (l < j || l == n) then m'(n, l) else m(k, l)
      {
        if j != n {
          PivotRowEntry(m, n, j);
          row[j] := Get(n, j) * pivotInverse;
          Set(n, j, row[j]);
        }
        j := j + 1;
      }
    }

    /** The inner loop: row i minus a multiple of row n. */
    method EliminateRow(n: nat, i: nat, row: array<real>, ghost m: Matrix)
      requires Valid() && n < size && i < size && i != n && row != data && row.Length == size && m(n, n) != 0.0
      requires forall l: nat :: l < size ==> row[l] == Sweep(m, n)(n, l)
      requires forall l: nat :: l < size ==> Get(i, l) == m(i, l)
      modifies data
      ensures forall k: nat, l: nat :: k < size && l < size ==>
                Get(k, l) == if k == i then Sweep(m, n)(i, l) else old(Get(k, l))
    {
      var tin := Get(i, n);
      Set(i, n, -tin * row[n]);
      var j := 0;
      while j < size
        invariant 0 <= j <= size
        invariant forall k: nat, l: nat :: k < size && l < size ==>
                    Get(k, l) == if k == i then (if l < j || l == n then Sweep(m, n)(i, l) else m(i, l))
                        else old(Get(k, l))
      {
        if j != n { Set(i, j, Get(i, j) - tin * row[j]); }
        j := j + 1;
      }
    }

    /** The same, seen from the matrix the loop started with. */
    method EliminateStage(n: nat, ghost a: Matrix)
      requires Valid() && n < size && Pivots(a, n) && Same(View(), Stage(a, n), size) && Stage(a, n)(n, n) != 0.0
      modifies data
      ensures Same(View(), Stage(a, n + 1), size)
    {
      hide SweepBy;
      ghost var m := View();
      Eliminate(n);
      SweepSame(m, Stage(a, n), n, size);
    }

    /** operator=, an element-wise copy. */
    method CopyFrom(t: Tile)
      requires Valid() && t.Valid() && t.size == size
      modifies data
      ensures data[..] == old(t.data[..])
    {
      if t.data != data {
        var k := 0;
        while k < data.Length
          invariant 0 <= k <= data.Length
          invariant data[..k] == t.data[..k]
          invariant t.data[..] == old(t.data[..])
        {
          data[k] := t.data[k];
          k := k + 1;
        }
        assert data[..k] == data[..] && t.data[..k] == t.data[..];
      }
    }

    /** b = inverse(*this). The result is false where the code gives up because a pivot is too small. */
    method Inverse(b: Tile) returns (ok: bool)
      requires Valid() && b.Valid() && b.size == size && b.data != data
      modifies b.data
      ensures ok <==> Accepts(View(), size)
      ensures ok ==> Same(b.View(), Stage(View(), size), size)
      ensures ok ==> IsIdentityProduct(View(), b.View(), size) && IsIdentityProduct(b.View(), View(), size)
    {
      hide IsIdentityProduct, Sweep, SweepBy, Index;
      b.CopyFrom(this);
      ghost var a := View();
      var n := 0;
      while n < size
        invariant 0 <= n <= size && View() == a
        invariant Accepts(a, n) && Same(b.View(), Stage(a, n), size)
      {
        var pivot := b.Get(n, n);
        assert pivot == b.View()(n, n) == Stage(a, n)(n, n);
        if Abs(pivot) < MINPIVOT {
          RejectsFrom(a, n, size);
          return false;
        }
        b.EliminateStage(n, a);
        n := n + 1;
      }
      StageInverts(a, size);
      ProductSame(a, b.View(), Stage(a, size), size);
      return true;
    }

    /** identity_check: the number of wrong entries. */
    method IdentityCheck(epsilon: real) returns (ecount: nat)
      requires Valid()
      ensures ecount == |WrongBefore(View(), size, epsilon, size, 0)|
    {
      hide WrongBefore;
      ghost var m := View();
      ecount := 0;
      var i := 0;
      WrongRow(m, size, epsilon, 0);
      while i < size
        invariant 0 <= i <= size && ecount == |WrongBefore(m, size, epsilon, i, 0)|
      {
        var j := 0;
        while j < size
          invariant 0 <= j <= size && ecount == |WrongBefore(m, size, epsilon, i, j)|
        {
          var t := Get(i, j);
          WrongNext(m, size, epsilon, i, j);
          if !(i == j && Abs(t - 1.0) < epsilon) && !(Abs(t) < epsilon) { ecount := ecount + 1; }
          j := j + 1;
        }
        WrongRow(m, size, epsilon, i);
        i := i + 1;
      }
    }

    /** c = this * b */
    method Multiply(b: Tile, c: Tile)
      requires Valid() && b.Valid() && c.Valid() && b.size == size == c.size && c.data != data && c.data != b.data
      modifies c.data
      ensures forall i: nat, j: nat :: i < size && j < size ==> c.Get(i, j) == Product(View(), b.View(), size, i, j)
      ensures forall x: Vector, y: Vector, z: Vector :: Maps(b.View(), size, x, y) && Maps(View(), size, y, z) ==>
                Maps(c.View(), size, x, z)
    {
      hide Maps, IsProduct, Index;
      ghost var m, m' := View(), b.View();
      var i := 0;
      while i < size
        invariant 0 <= i <= size && View() == m && b.View() == m'
        invariant forall k: nat, l: nat :: k < i && l < size ==> c.Get(k, l) == Product(m, m', size, k, l)
      {
        var j := 0;
        while j < size
          invariant 0 <= j <= size && View() == m && b.View() == m'
          invariant forall k: nat, l: nat :: k < size && l < size && (k < i || (k == i && l < j)) ==>
                      c.Get(k, l) == Product(m, m', size, k, l)
        {
          var t := 0.0;
          var k := 0;
          while k < size
            invariant 0 <= k <= size && t == RowDot(m, i, Column(m', j), k)
          {
            t := t + Get(i, k) * b.Get(k, j);
            k := k + 1;
          }
          c.Set(i, j, t);
          j := j + 1;
        }
        i := i + 1;
      }
      EntriesCompose(m, m', c.View(), size);
    }
  }

  lemma EntriesCompose(a: Matrix, b: Matrix, c: Matrix, T: nat)
    requires forall i: nat, j: nat :: i < T && j < T ==> c(i, j) == Product(a, b, T, i, j)
    ensures forall x: Vector, y: Vector, z: Vector :: Maps(b, T, x, y) && Maps(a, T, y, z) ==> Maps(c, T, x, z)
  {
    assert IsProduct(a, b, c, T);
    hide IsProduct, Maps;
    forall x: Vector, y: Vector, z: Vector | Maps(b, T, x, y) && Maps(a, T, y, z) ensures Maps(c, T, x, z) {
      ProductComposes(a, b, c, T, x, y, z);
    }
  }

  lemma PivotRowEntry(m: Matrix, n: nat, j: nat)
    requires m(n, n) != 0.0
    ensures Sweep(m, n)(n, j) == if j == n then 1.0 / m(n, n) else m(n, j) * (1.0 / m(n, n))
  {
  }

  lemma SweepSame(m: Matrix, m': Matrix, n: nat, T: nat)
    requires Same(m, m', T) && n < T && m(n, n) != 0.0
    ensures m'(n, n) != 0.0 && Same(Sweep(m, n), Sweep(m', n), T)
  {
  }

  lemma {:induction false} RejectsFrom(a: Matrix, n: nat, T: nat)
    requires n < T && !Accepts(a, n + 1)
    ensures !Accepts(a, T)
  {
    if n + 1 < T { RejectsFrom(a, n, T - 1); }
  }

  lemma {:induction false} DotSame(m: Matrix, m': Matrix, i: nat, w: Vector, w': Vector, k: nat)
    requires forall j: nat :: j < k ==> m(i, j) == m'(i, j) && w(j) == w'(j)
    ensures RowDot(m, i, w, k) == RowDot(m', i, w', k)
  {
    if k > 0 { DotSame(m, m', i, w, w', k - 1); }
  }

  lemma ProductSame(a: Matrix, b: Matrix, b': Matrix, T: nat)
    requires Same(b, b', T)
    requires IsIdentityProduct(a, b', T) && IsIdentityProduct(b', a, T)
    ensures IsIdentityProduct(a, b, T) && IsIdentityProduct(b, a, T)
  {
    forall i: nat, k: nat | i < T && k < T
      ensures Product(a, b, T, i, k) == Product(a, b', T, i, k) && Product(b, a, T, i, k) == Product(b', a, T, i, k)
    {
      DotSame(a, a, i, Column(b, k), Column(b', k), T);
      DotSame(b, b', i, Column(a, k), Column(a, k), T);
    }
  }

  /** Multiplying a tile with its computed inverse gives the identity, on either side. */
  method InverseCheck(a: Tile) returns (ok: bool, left: Tile, right: Tile)
    requires a.Valid()
    ensures ok <==> Accepts(a.View(), a.size)
    ensures left.Valid() && right.Valid() && left.size == right.size == a.size
    ensures ok ==> forall i: nat, j: nat :: i < a.size && j < a.size ==>
              left.Get(i, j) == right.Get(i, j) == if i == j then 1.0 else 0.0
  {
    var b := new Tile(a.size);
    left := new Tile(a.size);
    right := new Tile(a.size);
    ok := a.Inverse(b);
    b.Multiply(a, left);
    a.Multiply(b, right);
  }
}
