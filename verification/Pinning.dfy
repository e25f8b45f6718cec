/** Pinning threads to the processors a process may run on (src/pinning.h). */
module Pinning {
  import opened Division
  import opened Options

  const MX_CPU: nat := 256

  /** The division of C, which rounds toward zero, and its remainder. */
  function Quotient(a: int, b: int): int
    requires b != 0
  {
    if (a < 0) == (b < 0) then Size(a) / Size(b) else -(Size(a) / Size(b))
  }

  function Remainder(a: int, b: int): int
    requires b != 0
  {
    a - b * Quotient(a, b)
  }

  function Size(a: int): nat { if a < 0 then -a else a }

  /** _T2C: position, among the np allowed processors, for thread x with stride hs; None where the code divides
      by zero. */
  function T2C(x: nat, np: nat, hs: int): Option<int>
    requires np > 0
  {
    if hs == 0 || Quotient(np, hs) == 0 then None
    else Some(Remainder(Quotient(x * (np + 1), Quotient(np, hs)), np))
  }

  /** The same for a positive quotient of processors and stride. */
  function Lay(x: nat, np: nat, c: nat): nat
    requires np > 0 && c > 0
  {
    (x * (np + 1) / c) % np
  }

  /** Strides beyond the number of processors divide by zero, negative ones give negative positions. */
  lemma T2CIsLay(x: nat, np: nat, hs: int)
    requires np > 0 && hs != 0
    ensures Size(hs) > np ==> T2C(x, np, hs) == None
    ensures Size(hs) <= np ==>
              && np / Size(hs) > 0
              && T2C(x, np, hs) == Some(if hs > 0 then Lay(x, np, np / hs) else 0 - Lay(x, np, np / Size(hs)))
  {
    var h := Size(hs);
    QuotientSign(np, hs);
    if h > np {
      DivUnique(np, h, 0, np);
    } else {
      DivPositive(np, h);
      var c, a := np / h, x * (np + 1);
      QuotientSign(a, Quotient(np, hs));
      hide Quotient, Remainder;
      QuotientNatural(a, c);
      RemainderOf(a / c, np);
    }
  }

  lemma QuotientSign(a: nat, b: int)
    requires b != 0
    ensures Quotient(a, b) == if b > 0 then a / b else 0 - a / Size(b)
  {
  }

  lemma QuotientNatural(v: nat, c: nat)
    requires c > 0
    ensures v / c >= 0
  {
  }

  lemma RemainderOf(v: nat, np: nat)
    requires np > 0
    ensures Remainder(v, np) == v % np && Remainder(0 - v, np) == 0 - v % np
  {
    var q := v / np;
    assert v == np * q + v % np;
    assert Quotient(v, np) == q && Quotient(0 - v, np) == 0 - q by { QuotientOfNegative(v, np); }
    assert np * (0 - q) == 0 - np * q;
  }

  lemma QuotientOfNegative(v: nat, np: nat)
    requires np > 0
    ensures Quotient(v, np) == v / np && Quotient(0 - v, np) == 0 - v / np
  {
    if v == 0 { DivUnique(0, np, 0, 0); }
  }

  lemma DivPositive(np: nat, hs: nat)
    requires 0 < hs <= np
    ensures np / hs > 0
  {
  }

  lemma DropMultiple(i: nat, np: nat, a: nat)
    requires np > 0
    ensures (i * np + a) % np == a % np
  {
    var q := a / np;
    assert i * np + a == (i + q) * np + a % np by { assert (i + q) * np == i * np + q * np; }
    DivUnique(i * np + a, np, i + q, a % np);
  }

  /** Thread i * c + j is i positions after thread j. */
  lemma LayShifts(i: nat, j: nat, c: nat, np: nat)
    requires np > 0 && c > 0
    ensures Lay(i * c + j, np, c) == (i + j * (np + 1) / c) % np
  {
    var a, v := j * (np + 1), j * (np + 1) / c;
    assert (i * c + j) * (np + 1) == (i * (np + 1)) * c + a by {
      assert (i * c) * (np + 1) == (i * (np + 1)) * c;
    }
    assert (i * (np + 1)) * c + a == (i * (np + 1) + v) * c + a % c by {
      assert (i * (np + 1) + v) * c == (i * (np + 1)) * c + v * c;
    }
    DivUnique((i * c + j) * (np + 1), c, i * (np + 1) + v, a % c);
    assert i * (np + 1) + v == i * np + (i + v);
    DropMultiple(i, np, i + v);
  }

  lemma Split(x: nat, c: nat) returns (i: nat, j: nat)
    requires c > 0
    ensures x == i * c + j && j < c
  {
    i, j := x / c, x % c;
  }

  lemma Below(i: nat, j: nat, c: nat, h: nat)
    requires i * c + j < h * c
    ensures i < h
  {
    if h < i { MulStep(h, i, c); }
  }

  /*** c divides np ***/

  lemma RowStarts(j: nat, c: nat, h: nat, np: nat)
    requires np == h * c && j < c
    ensures j * (np + 1) / c == j * h
  {
    assert j * (h * c) == (j * h) * c;
    DivUnique(j * (np + 1), c, j * h, j);
  }

  /** With np = h * c, thread i * c + j goes to position j * h + i: rows become columns. */
  lemma LayTransposes(i: nat, j: nat, c: nat, h: nat, np: nat)
    requires np == h * c > 0 && i < h && j < c
    ensures j * h + i < np && Lay(i * c + j, np, c) == j * h + i
  {
    hide Lay;
    LayShifts(i, j, c, np);
    RowStarts(j, c, h, np);
    MulStep(j, c, h);
    assert c * h == np;
    DivUnique(j * h + i, np, 0, j * h + i);
  }

  /** ... which is one to one ... */
  lemma DividesOneToOne(x: nat, y: nat, c: nat, h: nat, np: nat)
    requires np == h * c > 0 && x < np && y < np && Lay(x, np, c) == Lay(y, np, c)
    ensures x == y
  {
    hide Lay;
    var i, j := Split(x, c);
    var k, l := Split(y, c);
    Below(i, j, c, h);
    Below(k, l, c, h);
    LayTransposes(i, j, c, h, np);
    LayTransposes(k, l, c, h, np);
    SameParts(j, i, l, k, h);
  }

  lemma SameParts(j: nat, i: nat, l: nat, k: nat, h: nat)
    requires i < h && k < h && j * h + i == l * h + k
    ensures i == k && j == l
  {
    DivUniqueParts(j * h + i, h, j, i, l, k);
  }

  /** ... and onto. */
  lemma DividesOnto(z: nat, c: nat, h: nat, np: nat) returns (x: nat)
    requires np == h * c > 0 && z < np
    ensures x < np && Lay(x, np, c) == z
  {
    hide Lay;
    assert np == c * h;
    var m, n := Split(z, h);
    Below(m, n, h, c);
    MulStep(n, h, c);
    LayTransposes(n, m, c, h, np);
    x := n * c + m;
  }

  /*** c divides np + 1 ***/

  /** With np + 1 = m * c, positions are multiples of m, and c is the inverse of m modulo np. */
  lemma LayMultiplies(x: nat, c: nat, m: nat, np: nat)
    requires np > 0 && np + 1 == m * c && x < np
    ensures Lay(x, np, c) == (x * m) % np
    ensures (c * Lay(x, np, c)) % np == x
    ensures Lay((c * x) % np, np, c) == x
  {
    hide Lay;
    Exact(x, c, m, np);
    Undone(x, c, m, np);
    var y := (x * c) % np;
    Reduced(x * c, np);
    Exact(y, c, m, np);
    Undone(x, m, c, np);
    assert y * m == m * y && c * x == x * c;
  }

  lemma Exact(x: nat, c: nat, m: nat, np: nat)
    requires np > 0 && c > 0 && np + 1 == m * c
    ensures Lay(x, np, c) == (x * m) % np
  {
    assert x * (np + 1) == (x * m) * c;
    DivUnique(x * (np + 1), c, x * m, 0);
  }

  lemma Distribute(c: nat, q: nat, np: nat, r: nat)
    ensures c * (q * np + r) == (c * q) * np + c * r
  {
    assert c * (q * np) == (c * q) * np;
  }

  lemma ReduceFirst(c: nat, a: nat, np: nat)
    requires np > 0
    ensures (c * (a % np)) % np == (c * a) % np
  {
    var q, r := a / np, a % np;
    assert a == q * np + r;
    Distribute(c, q, np, r);
    DropMultiple(c * q, np, c * r);
  }

  lemma Regroup(x: nat, c: nat, m: nat, np: nat)
    requires np + 1 == m * c
    ensures c * (x * m) == x * np + x
  {
    assert c * (x * m) == x * (m * c);
    assert x * (np + 1) == x * np + x;
  }

  /** Multiplying by m, reducing, multiplying by c and reducing again gives x back. */
  lemma Undone(x: nat, c: nat, m: nat, np: nat)
    requires np > 0 && np + 1 == m * c && x < np
    ensures (c * ((x * m) % np)) % np == x
  {
    Regroup(x, c, m, np);
    ReduceFirst(c, x * m, np);
    DropMultiple(x, np, x);
    DivUnique(x, np, 0, x);
  }

  /*** neither ***/

  /** With np = k * c + r and 1 <= r <= c - 2, threads 1 and k * c both go to position k. */
  lemma LayCollides(c: nat, k: nat, r: nat, np: nat)
    requires np == k * c + r && 1 <= r <= c - 2 && k > 0
    ensures 1 < k * c < np && Lay(1, np, c) == Lay(k * c, np, c) == k
  {
    MulStep(0, k, c);
    MulStep(1, c, k);
    assert c * k == k * c;
    DivUnique(np + 1, c, k, r + 1);
    DivUnique(k, np, 0, k);
    LayShifts(k, 0, c, np);
    assert 0 * (np + 1) == 0;
    DivUnique(0, c, 0, 0);
  }

  /*** exactly ***/

  /** Every thread gets a position, from 0 to np - 1, and no two the same. */
  ghost predicate Spread(np: nat, hs: int)
    requires np > 0
  {
    && (forall x: nat :: x < np ==> T2C(x, np, hs).Some? && 0 <= T2C(x, np, hs).value < np)
    && (forall x: nat, y: nat :: x < np && y < np && T2C(x, np, hs) == T2C(y, np, hs) ==> x == y)
  }

  ghost predicate Onto(np: nat, hs: int)
    requires np > 0
  {
    forall z: nat :: z < np ==> Taken(z, np, hs)
  }

  ghost predicate Taken(z: nat, np: nat, hs: int)
    requires np > 0
  {
    exists x: nat :: x < np && T2C(x, np, hs) == Some(z)
  }

  /** What a caller can check before: the quotient of np and hs divides np or np + 1. */
  predicate Fits(np: nat, hs: int)
    requires np > 0
  {
    if 0 < hs <= np then
      var c := np / hs;
      c > 0 && (np % c == 0 || np % c == c - 1)
    else np == 1 && hs == -1
  }

  lemma QuotientPositive(np: nat, c: nat)
    requires np > 0 && 0 < c <= np
    ensures np / c > 0 && np == (np / c) * c + np % c
  {
  }

  lemma QuotientSmaller(np: nat, hs: nat)
    requires 0 < hs <= np
    ensures 0 < np / hs <= np
  {
    DivPositive(np, hs);
    var c := np / hs;
    assert np == c * hs + np % hs;
    if hs > 1 { MulStep(1, hs, c); }
    assert c * hs == hs * c;
  }

  /** Np threads get np different positions if and only if the stride is from 1 to np and np / hs divides np or
      np + 1; then every position has a thread. */
  lemma T2CSpreadIff(np: nat, hs: int)
    requires np > 0 && hs != 0
    ensures Spread(np, hs) <==> Fits(np, hs)
    ensures Fits(np, hs) ==> Onto(np, hs)
    ensures forall x: nat :: x < np ==> (T2C(x, np, hs).None? <==> Size(hs) > np)
    ensures forall x: nat :: x < np && T2C(x, np, hs).Some? ==> T2C(x, np, hs).value < np
  {
    forall x: nat | x < np ensures T2C(x, np, hs).None? <==> Size(hs) > np { T2CIsLay(x, np, hs); }
    if 0 < hs <= np {
      PositiveSpread(np, hs);
    } else {
      hide T2C;
      assert T2C(0, np, hs).None? <==> Size(hs) > np;
      if 0 - np <= hs < 0 { NegativeSpread(np, hs); }
    }
  }

  /** Negative strides give no positive position. */
  lemma NegativeSpread(np: nat, hs: int)
    requires np > 0 && 0 - np <= hs < 0
    ensures forall x: nat :: x < np ==> T2C(x, np, hs).Some? && T2C(x, np, hs).value <= 0
    ensures Spread(np, hs) <==> np == 1
    ensures np == 1 ==> Onto(np, hs)
  {
    hide Lay, T2C;
    forall x: nat | x < np ensures T2C(x, np, hs).Some? && T2C(x, np, hs).value <= 0 { T2CIsLay(x, np, hs); }
    T2CIsLay(0, np, hs);
    assert Lay(0, np, np / Size(hs)) == 0 by { FirstLay(np, np / Size(hs)); }
    if np > 1 {
      assert T2C(1, np, hs).value >= 0 ==> T2C(1, np, hs) == T2C(0, np, hs);
    } else {
      assert Taken(0, np, hs);
    }
  }

  lemma FirstLay(np: nat, c: nat)
    requires np > 0 && c > 0
    ensures Lay(0, np, c) == 0
  {
    assert 0 * (np + 1) == 0;
    DivUnique(0, c, 0, 0);
    DivUnique(0, np, 0, 0);
  }

  lemma PositiveSpread(np: nat, hs: nat)
    requires 0 < hs <= np
    ensures Spread(np, hs) <==> Fits(np, hs)
    ensures Fits(np, hs) ==> Onto(np, hs)
    ensures forall x: nat :: x < np ==> T2C(x, np, hs).Some? && 0 <= T2C(x, np, hs).value < np
  {
    hide Lay, T2C;
    QuotientSmaller(np, hs);
    var c := np / hs;
    QuotientPositive(np, c);
    var k, r := np / c, np % c;
    forall x: nat | x < np ensures T2C(x, np, hs) == Some(Lay(x, np, c)) && Lay(x, np, c) < np {
      T2CIsLay(x, np, hs);
      InRange(x, np, c);
    }
    if r == 0 {
      forall x: nat, y: nat | x < np && y < np && T2C(x, np, hs) == T2C(y, np, hs) ensures x == y {
        DividesOneToOne(x, y, c, k, np);
      }
      forall z: nat | z < np ensures Taken(z, np, hs) {
        var x := DividesOnto(z, c, k, np);
        assert T2C(x, np, hs) == Some(z);
      }
    } else if r == c - 1 {
      assert np + 1 == (k + 1) * c;
      forall x: nat, y: nat | x < np && y < np && T2C(x, np, hs) == T2C(y, np, hs) ensures x == y {
        LayMultiplies(x, c, k + 1, np);
        LayMultiplies(y, c, k + 1, np);
      }
      forall z: nat | z < np ensures Taken(z, np, hs) {
        LayMultiplies(z, c, k + 1, np);
        Reduced(c * z, np);
        assert T2C((c * z) % np, np, hs) == Some(z);
      }
    } else {
      LayCollides(c, k, r, np);
      assert T2C(1, np, hs) == T2C(k * c, np, hs);
    }
  }

  lemma InRange(x: nat, np: nat, c: nat)
    requires np > 0 && c > 0
    ensures Lay(x, np, c) < np
  {
  }

  lemma Reduced(a: nat, np: nat)
    requires np > 0
    ensures 0 <= a % np < np
  {
  }

  /*** the n-th allowed processor ***/

  function CountSet(mask: seq<bool>): nat {
    if mask == [] then 0 else (if mask[0] then 1 else 0) + CountSet(mask[1..])
  }

  lemma {:induction false} CountSnoc(mask: seq<bool>, k: nat)
    requires k < |mask|
    ensures CountSet(mask[..k + 1]) == CountSet(mask[..k]) + if mask[k] then 1 else 0
  {
    if k == 0 {
      assert mask[..0] == [];
      assert mask[..1][1..] == [];
    } else {
      assert mask[..k + 1][1..] == mask[1..][..k];
      assert mask[..k][1..] == mask[1..][..k - 1];
      CountSnoc(mask[1..], k - 1);
    }
  }

  /** cpu is the allowed processor that n allowed ones come before. */
  predicate IsNth(mask: seq<bool>, n: nat, cpu: nat) {
    cpu < |mask| && mask[cpu] && CountSet(mask[..cpu]) == n
  }

  lemma {:induction false} CountMonotone(mask: seq<bool>, j: nat, k: nat)
    requires j <= k <= |mask|
    ensures CountSet(mask[..j]) <= CountSet(mask[..k])
  {
    if j < k {
      CountMonotone(mask, j, k - 1);
      CountSnoc(mask, k - 1);
    }
  }

  lemma NthUnique(mask: seq<bool>, n: nat, m: nat, cpu: nat, cpu': nat)
    requires IsNth(mask, n, cpu) && IsNth(mask, m, cpu')
    ensures n == m <==> cpu == cpu'
  {
    CountSnoc(mask, cpu);
    CountSnoc(mask, cpu');
    if cpu < cpu' { CountMonotone(mask, cpu + 1, cpu'); }
    if cpu' < cpu { CountMonotone(mask, cpu' + 1, cpu); }
  }

  /** The loop of pin_thread on Linux, where n is negative for negative strides. It only looks at the first
      MX_CPU + 1 processors; it finds the n-th allowed one if and only if that is among them, and ends at MX_CPU
      otherwise, or at -1 for a negative n. */
  method FindCpu(mask: seq<bool>, n: int) returns (cpu: int)
    requires |mask| > MX_CPU
    ensures n < 0 ==> cpu == -1
    ensures n >= CountSet(mask[..MX_CPU + 1]) ==> cpu == MX_CPU
    ensures 0 <= n < CountSet(mask[..MX_CPU + 1]) ==> 0 <= cpu <= MX_CPU && IsNth(mask, n, cpu)
  {
    var left, tmp := n, 0;
    assert CountSet(mask[..0]) == 0;
    while left >= 0 && tmp <= MX_CPU
      invariant 0 <= tmp <= MX_CPU + 1 && CountSet(mask[..tmp]) == n - left
      invariant if n < 0 then tmp == 0 else -1 <= left <= n
      invariant n >= 0 && left == -1 ==> tmp > 0 && IsNth(mask, n, tmp - 1)
      decreases MX_CPU + 1 - tmp
    {
      CountSnoc(mask, tmp);
      if mask[tmp] { left := left - 1; }
      tmp := tmp + 1;
    }
    cpu := tmp - 1;
    if n >= 0 && left == -1 { CountMonotone(mask, tmp, MX_CPU + 1); }
  }

  /** Every thread is pinned to an allowed processor, and no two to the same. */
  predicate PinnedApart(mask: seq<bool>, cpus: seq<int>) {
    && (forall x :: 0 <= x < |cpus| ==> 0 <= cpus[x] < |mask| && mask[cpus[x]])
    && (forall x, y :: 0 <= x < y < |cpus| ==> cpus[x] != cpus[y])
  }

  /** As many threads as allowed processors, with any stride but 0, which turns pinning off. The result is None
      where the code divides by zero: if the stride is beyond the number of processors. */
  method Pin(mask: seq<bool>, hs: int) returns (cpus: Option<seq<int>>)
    requires |mask| > MX_CPU && hs != 0
    ensures cpus.None? <==> CountSet(mask) > 0 && Size(hs) > CountSet(mask)
    ensures cpus.Some? ==> |cpus.value| == CountSet(mask)
    ensures cpus.Some? && CountSet(mask) > 0 ==>
              (PinnedApart(mask, cpus.value) <==>
               Fits(CountSet(mask), hs) && CountSet(mask) == CountSet(mask[..MX_CPU + 1]))
  {
    hide T2C, Fits, IsNth, PinnedApart;
    var np := CountSet(mask);
    var all: seq<int> := [];
    if np == 0 { return Some(all); }
    T2CSpreadIff(np, hs);
    if T2C(0, np, hs).None? { return None; }
    ghost var found: nat := CountSet(mask[..MX_CPU + 1]);
    while |all| < np
      invariant |all| <= np
      invariant forall x :: 0 <= x < |all| ==> Placed(mask, T2C(x, np, hs), all[x])
      decreases np - |all|
    {
      var position := T2C(|all|, np, hs);
      var cpu := FindCpu(mask, position.value);
      all := all + [cpu];
    }
    CountAll(mask);
    PinnedApartIff(mask, hs, np, all);
    return Some(all);
  }

  /** Where FindCpu ends. */
  predicate Placed(mask: seq<bool>, position: Option<int>, cpu: int) {
    && |mask| > MX_CPU && position.Some?
    && (position.value < 0 ==> cpu == -1)
    && (position.value >= CountSet(mask[..MX_CPU + 1]) ==> cpu == MX_CPU)
    && (0 <= position.value < CountSet(mask[..MX_CPU + 1]) ==>
          0 <= cpu <= MX_CPU && IsNth(mask, position.value, cpu))
  }

  lemma CountAll(mask: seq<bool>)
    requires |mask| > MX_CPU
    ensures CountSet(mask[..MX_CPU + 1]) <= CountSet(mask)
  {
    CountMonotone(mask, MX_CPU + 1, |mask|);
    assert mask[..|mask|] == mask;
  }

  /** The same position is the same processor. */
  lemma SamePlace(mask: seq<bool>, position: Option<int>, cpu: int, cpu': int)
    requires Placed(mask, position, cpu) && Placed(mask, position, cpu')
    ensures cpu == cpu'
  {
    if 0 <= position.value < CountSet(mask[..MX_CPU + 1]) {
      NthUnique(mask, position.value, position.value, cpu, cpu');
    }
  }

  lemma PinnedApartIff(mask: seq<bool>, hs: int, np: nat, all: seq<int>)
    requires |mask| > MX_CPU && hs != 0 && np > 0 && |all| == np
    requires forall x :: 0 <= x < np ==> Placed(mask, T2C(x, np, hs), all[x])
    requires CountSet(mask[..MX_CPU + 1]) <= np
    ensures PinnedApart(mask, all) <==> Fits(np, hs) && np == CountSet(mask[..MX_CPU + 1])
  {
    hide T2C, Fits, IsNth, CountSet;
    T2CSpreadIff(np, hs);
    if Fits(np, hs) && np == CountSet(mask[..MX_CPU + 1]) {
      ApartIfSpread(mask, hs, np, all);
    } else if !Spread(np, hs) {
      NotApart(mask, hs, np, all);
    } else {
      hide Placed;
      Overflows(mask, hs, np, all);
    }
  }

  lemma ApartIfSpread(mask: seq<bool>, hs: int, np: nat, all: seq<int>)
    requires |mask| > MX_CPU && np > 0 && |all| == np == CountSet(mask[..MX_CPU + 1]) && Spread(np, hs)
    requires forall x :: 0 <= x < np ==> Placed(mask, T2C(x, np, hs), all[x])
    ensures PinnedApart(mask, all)
  {
    hide T2C, CountSet;
    forall x, y | 0 <= x < y < np ensures all[x] != all[y] {
      NthUnique(mask, T2C(x, np, hs).value, T2C(y, np, hs).value, all[x], all[y]);
    }
  }

  lemma NotApart(mask: seq<bool>, hs: int, np: nat, all: seq<int>)
    requires |mask| > MX_CPU && np > 0 && hs != 0 && |all| == np && !Spread(np, hs)
    requires forall x :: 0 <= x < np ==> Placed(mask, T2C(x, np, hs), all[x])
    ensures !PinnedApart(mask, all)
  {
    hide T2C, IsNth, CountSet;
    T2CSpreadIff(np, hs);
    if x: nat :| x < np && !(T2C(x, np, hs).Some? && 0 <= T2C(x, np, hs).value < np) {
      assert Placed(mask, T2C(x, np, hs), all[x]);
      assert all[x] == -1;
    } else {
      var x: nat, y: nat :| x < np && y < np && T2C(x, np, hs) == T2C(y, np, hs) && x != y;
      SamePlace(mask, T2C(x, np, hs), all[x], all[y]);
    }
  }

  /** An allowed processor beyond the first MX_CPU + 1: its thread ends at MX_CPU, which is another one's or not
      allowed. */
  lemma Overflows(mask: seq<bool>, hs: int, np: nat, all: seq<int>)
    requires |mask| > MX_CPU && np > 0 && |all| == np > CountSet(mask[..MX_CPU + 1]) && Onto(np, hs)
    requires forall x :: 0 <= x < np ==> Placed(mask, T2C(x, np, hs), all[x])
    ensures !PinnedApart(mask, all)
  {
    hide T2C;
    var n := CountSet(mask[..MX_CPU + 1]);
    assert Taken(n, np, hs);
    var x: nat :| x < np && T2C(x, np, hs) == Some(n);
    assert Placed(mask, T2C(x, np, hs), all[x]);
    assert all[x] == MX_CPU;
    CountSnoc(mask, MX_CPU);
    if mask[MX_CPU] {
      assert Taken(n - 1, np, hs);
      var y: nat :| y < np && T2C(y, np, hs) == Some(n - 1);
      assert Placed(mask, T2C(y, np, hs), all[y]);
      NthUnique(mask, n - 1, n - 1, MX_CPU, all[y]);
      assert x != y && all[x] == all[y];
    }
  }

  /** find_nth_bit, used on Windows, stops after as many bits as the mask has bytes: 8 for a 64-bit
      mask. It finds the n-th set bit if and only if that is among them, and gives 0 otherwise. */
  method FindNthBit(mask: seq<bool>, n: nat) returns (found: bool, bit: nat)
    requires |mask| == 64
    ensures found <==> n < CountSet(mask[..8])
    ensures found ==> IsNth(mask, n, bit) && bit < 8
    ensures !found ==> forall cpu :: 0 <= cpu < 8 ==> !IsNth(mask, n, cpu)
  {
    var f := 0;
    var i := 0;
    found, bit := false, 0;
    while i < 8
      invariant 0 <= i <= 8 && f == CountSet(mask[..i]) <= n
    {
      CountSnoc(mask, i);
      if mask[i] {
        if f == n {
          CountMonotone(mask, i + 1, 8);
          return true, i;
        }
        f := f + 1;
      }
      i := i + 1;
    }
    forall cpu | 0 <= cpu < 8 ensures !IsNth(mask, n, cpu) {
      CountSnoc(mask, cpu);
      CountMonotone(mask, cpu + 1, 8);
    }
  }
}
