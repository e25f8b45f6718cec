/** Strided ranges, their splitting constructor and iterator, and the recursive splitting done by the
    default partitioner (cnc/internal/strided_range.h, cnc/default_partitioner.h,
    cnc/internal/range_step_instance.h). */
module Ranges {

  /** first, first + step, first + 2 * step, ... below last. */
  datatype Range = Range(first: int, last: int, step: int)

  predicate Ok(r: Range) { r.step > 0 }

  function Elems(r: Range): seq<int>
    requires Ok(r)
    decreases r.last - r.first
  {
    if r.first < r.last then [r.first] + Elems(r.(first := r.first + r.step)) else []
  }

  /** is_divisible */
  predicate Divisible(r: Range) { r.first + r.step < r.last }

  /** The first index of the upper part: the first one not below the middle, but not the very first. */
  function SplitPoint(r: Range): int
    requires Ok(r)
  {
    Climb(r.first + r.step, r.first + (r.last - r.first) / 2, r.step)
  }

  function Climb(tmp: int, m: int, step: int): (c: int)
    requires step > 0
    ensures c >= tmp && c >= m && (c == tmp || c - step < m)
    decreases m - tmp
  {
    if tmp < m then Climb(tmp + step, m, step) else tmp
  }

  function Lower(r: Range): Range requires Ok(r) { r.(last := SplitPoint(r)) }
  function Upper(r: Range): Range requires Ok(r) { r.(first := SplitPoint(r)) }

  lemma {:induction false} ClimbOnGrid(first: int, k: nat, m: int, step: int) returns (k': nat)
    requires step > 0
    ensures k' >= k && Climb(first + k * step, m, step) == first + k' * step
    decreases m - (first + k * step)
  {
    if first + k * step < m {
      assert first + (k + 1) * step == first + k * step + step;
      k' := ClimbOnGrid(first, k + 1, m, step);
    } else {
      k' := k;
    }
  }

  function Times(k: nat, step: int): int { k * step }

  lemma OneLess(k: nat, step: int)
    requires step > 0
    ensures if k == 0 then Times(k, step) == 0 else Times(k - 1, step) == Times(k, step) - step >= 0
  {
  }

  /** Cutting at a grid point cuts the sequence of elements, after k of them. */
  lemma {:induction false} ElemsCut(r: Range, k: nat, c: int)
    requires Ok(r) && c == r.first + Times(k, r.step) && (k == 0 || c - r.step < r.last)
    ensures Elems(r) == Elems(r.(last := c)) + Elems(r.(first := c)) && |Elems(r.(last := c))| == k
    decreases k
  {
    hide Times;
    OneLess(k, r.step);
    if k > 0 {
      var next := r.(first := r.first + r.step);
      ElemsCut(next, k - 1, c);
      assert Elems(r.(last := c)) == [r.first] + Elems(next.(last := c));
    }
  }

  /** The elements of a range: first, first + step and so on, and all of them are below last. */
  lemma {:induction false} ElemsAre(r: Range, k: nat)
    requires Ok(r)
    ensures k < |Elems(r)| <==> r.first + Times(k, r.step) < r.last
    ensures k < |Elems(r)| ==> Elems(r)[k] == r.first + Times(k, r.step)
    decreases k
  {
    hide Times;
    OneLess(k, r.step);
    if k > 0 && r.first < r.last {
      ElemsAre(r.(first := r.first + r.step), k - 1);
    }
  }

  /** The size lies between (last - first) / step and one more. */
  lemma {:induction false} SizeBounds(r: Range)
    requires Ok(r) && r.first < r.last
    ensures (|Elems(r)| - 1) * r.step < r.last - r.first <= |Elems(r)| * r.step
    decreases r.last - r.first
  {
    var next := r.(first := r.first + r.step);
    if next.first < next.last {
      SizeBounds(next);
      assert |Elems(r)| * r.step == |Elems(next)| * r.step + r.step;
      assert (|Elems(r)| - 1) * r.step == (|Elems(next)| - 1) * r.step + r.step;
    } else {
      assert Elems(r) == [r.first];
    }
  }

  lemma Cancel(a: int, b: int, step: int)
    requires step > 0 && a * step < b * step
    ensures a < b
  {
    if a >= b { Monotone(b, a, step); }
  }

  lemma Monotone(a: int, b: int, step: int)
    requires step > 0 && a <= b
    ensures a * step <= b * step
  {
    assert (b - a) * step >= 0;
  }

  /** The split point is k steps from the first index, and at the middle or just above it. */
  lemma SplitSteps(r: Range) returns (k: nat)
    requires Ok(r) && Divisible(r)
    ensures k >= 1 && SplitPoint(r) == r.first + k * r.step < r.last
    ensures k * r.step >= (r.last - r.first) / 2
    ensures k > 1 ==> k * r.step - r.step < (r.last - r.first) / 2
  {
    assert r.first + 1 * r.step == r.first + r.step;
    var d := r.last - r.first;
    k := ClimbOnGrid(r.first, 1, r.first + d / 2, r.step);
    if k > 1 { SplitBelow(d, k, r.step); }
  }

  /** With n elements in all and k in the lower half, the halves differ by at most one. */
  lemma Balanced(d: int, k: int, n: int, step: int)
    requires step > 0 && k >= 1 && n >= 2 && (n - 1) * step < d <= n * step
    requires k * step >= d / 2 && (k > 1 ==> k * step - step < d / 2)
    ensures -1 <= k - (n - k) <= 1
  {
    if k > 1 {
      assert (2 * (k - 1)) * step == 2 * (k * step - step);
      Cancel(2 * (k - 1), n, step);
    }
    assert (2 * k + 1) * step == 2 * (k * step) + step;
    Cancel(n - 1, 2 * k + 1, step);
  }

  /** The splitting constructor cuts a divisible range into two nonempty ranges that together have
      exactly its elements, in order, and whose sizes differ by at most one. */
  lemma SplitExact(r: Range)
    requires Ok(r) && Divisible(r)
    ensures Elems(r) == Elems(Lower(r)) + Elems(Upper(r))
    ensures Elems(Lower(r)) != [] && Elems(Upper(r)) != []
    ensures -1 <= |Elems(Lower(r))| - |Elems(Upper(r))| <= 1
  {
    var k := SplitSteps(r);
    ElemsCut(r, k, SplitPoint(r));
    SizeBounds(r);
    assert Upper(r).first < Upper(r).last;
    hide SplitPoint;
    Balanced(r.last - r.first, k, |Elems(r)|, r.step);
  }

  /** A split point beyond the first step lies below the end. */
  lemma SplitBelow(d: int, k: int, step: int)
    requires step > 0 && k > 1 && k * step - step < d / 2
    ensures k * step < d
  {
    assert k * step >= 2 * step by { assert (k - 2) * step >= 0; }
  }

  /*** recursive splitting ***/

  /** default_partitioner::is_divisible for a range of the given size; grainSize is the template
      argument, grain the effective grain size. */
  predicate Splits(grainSize: int, grain: int, r: Range)
    requires Ok(r)
  {
    (grainSize < 0 || |Elems(r)| > grain) && Divisible(r)
  }

  /** The ranges that are executed without further splitting. */
  function Leaves(grainSize: int, grain: int, r: Range): seq<Range>
    requires Ok(r)
    decreases |Elems(r)|
  {
    if Splits(grainSize, grain, r) then
      SplitExact(r);
      Leaves(grainSize, grain, Lower(r)) + Leaves(grainSize, grain, Upper(r))
    else [r]
  }

  function AllElems(rs: seq<Range>): seq<int>
    requires forall i :: 0 <= i < |rs| ==> Ok(rs[i])
  {
    if rs == [] then [] else Elems(rs[0]) + AllElems(rs[1..])
  }

  lemma {:induction false} AllElemsAppend(xs: seq<Range>, ys: seq<Range>)
    requires forall i :: 0 <= i < |xs| ==> Ok(xs[i])
    requires forall i :: 0 <= i < |ys| ==> Ok(ys[i])
    ensures AllElems(xs + ys) == AllElems(xs) + AllElems(ys)
  {
    if xs == [] {
      assert xs + ys == ys;
    } else {
      assert (xs + ys)[1..] == xs[1..] + ys;
      AllElemsAppend(xs[1..], ys);
    }
  }

  /** Sizes of leaves: not empty, not above the grain, and, if there is more than one, not below half of it. */
  predicate LeafOk(grain: int, leaf: Range, many: bool) {
    && Ok(leaf) && Elems(leaf) != [] && |Elems(leaf)| <= (if grain >= 1 then grain else 1)
    && (many ==> 2 * |Elems(leaf)| >= grain)
  }

  /** The leaves partition the elements of the range, in order; none is empty, none is larger than the
      grain, and none is smaller than half of it unless the range is a leaf itself. */
  lemma {:induction false} LeavesPartition(grainSize: int, grain: int, r: Range)
    requires Ok(r) && (grainSize == 0 ==> grain >= 1) && (grainSize != 0 ==> grain == grainSize)
    ensures var ls := Leaves(grainSize, grain, r);
            && (forall i :: 0 <= i < |ls| ==> Ok(ls[i]))
            && AllElems(ls) == Elems(r)
            && (Elems(r) != [] ==> forall i :: 0 <= i < |ls| ==> LeafOk(grain, ls[i], |ls| > 1))
    decreases |Elems(r)|
  {
    if Splits(grainSize, grain, r) {
      SplitExact(r);
      var lo, up := Lower(r), Upper(r);
      LeavesPartition(grainSize, grain, lo);
      LeavesPartition(grainSize, grain, up);
      AtLeastOne(grainSize, grain, lo);
      AtLeastOne(grainSize, grain, up);
      hide Elems, SplitPoint, AllElems;
      var los, ups := Leaves(grainSize, grain, lo), Leaves(grainSize, grain, up);
      AllElemsAppend(los, ups);
      Half(grainSize, grain, r);
      forall i | 0 <= i < |los| ensures LeafOk(grain, los[i], true) {}
      forall i | 0 <= i < |ups| ensures LeafOk(grain, ups[i], true) {}
    } else {
      assert [r][1..] == [];
      if !Divisible(r) && Elems(r) != [] {
        assert Elems(r) == [r.first] + Elems(r.(first := r.first + r.step));
      }
    }
  }

  /** Each half of a range that is split has at least half a grain of elements. */
  lemma Half(grainSize: int, grain: int, r: Range)
    requires Ok(r) && Splits(grainSize, grain, r) && (grainSize != 0 ==> grain == grainSize)
    ensures 2 * |Elems(Lower(r))| >= grain && 2 * |Elems(Upper(r))| >= grain
  {
    SplitExact(r);
  }

  lemma {:induction false} AtLeastOne(grainSize: int, grain: int, r: Range)
    requires Ok(r)
    ensures |Leaves(grainSize, grain, r)| >= 1
    ensures |Leaves(grainSize, grain, r)| == 1 ==> Leaves(grainSize, grain, r) == [r]
    decreases |Elems(r)|
  {
    if Splits(grainSize, grain, r) {
      SplitExact(r);
      AtLeastOne(grainSize, grain, Lower(r));
      AtLeastOne(grainSize, grain, Upper(r));
    }
  }

  /*** the code ***/

  class StridedRange {
    var start: int
    var last: int
    var step: int
    var size: int

    ghost function View(): Range
      reads this
    {
      Range(start, last, step)
    }

    ghost predicate Valid()
      reads this
    {
      Ok(View()) && size == |Elems(View())|
    }

    constructor (start: int, last: int, step: int)
      requires step > 0
      ensures Valid() && View() == Range(start, last, step)
    {
      this.start, this.last, this.step, size := start, last, step, 0;
      new;
      InitSize();
    }

    method InitSize()
      requires step > 0
      modifies this`size
      ensures size == |Elems(View())|
    {
      size := 0;
      var v := start;
      while v < last
        invariant size + |Elems(Range(v, last, step))| == |Elems(View())|
        decreases last - v
      {
        size := size + 1;
        v := v + step;
      }
    }

    predicate IsDivisible()
      reads this
    {
      start + step < last
    }

    /** The splitting constructor: this range keeps the lower part, the result is the upper part. */
    method Split() returns (upper: StridedRange)
      requires Valid() && Divisible(View())
      modifies this
      ensures Valid() && View() == Lower(old(View()))
      ensures fresh(upper) && upper.Valid() && upper.View() == Upper(old(View()))
      ensures size > 0 && upper.size > 0 && size + upper.size == old(size)
    {
      SplitExact(View());
      var m := start + (last - start) / 2;
      var tmp := start + step;
      while tmp < m
        invariant Climb(tmp, m, step) == SplitPoint(old(View()))
        decreases m - tmp
      {
        tmp := tmp + step;
      }
      upper := new StridedRange(tmp, last, step);
      last := tmp;
      InitSize();
    }

    /** A loop from begin() to end(): the iterator stops at last when it would go beyond. A range that
        ends before it starts has size 0, yet the loop visits its first index once. */
    method Iterate() returns (visited: seq<int>)
      requires Valid()
      ensures visited == if start <= last then Elems(View()) else [start]
      ensures visited == Elems(View()) <==> start <= last
    {
      visited := [];
      var val := start;
      ghost var first := true;
      while val != last
        invariant start <= last ==> val <= last && visited + Elems(Range(val, last, step)) == Elems(View())
        invariant start > last ==> if first then val == start && visited == [] else val == last && visited == [start]
        decreases if val == last then 0 else if val < last then 1 + last - val else 1
      {
        visited := visited + [val];
        val := val + step;
        if val > last { val := last; }
        first := false;
      }
    }

    /** divide_and_originate with a known grain: split off the upper part if the range is divisible. */
    method DivideAndOriginate(p: Partitioner, grain: int, ghost size0: nat)
      returns (more: bool, tail: seq<Range>)
      requires Valid() && size <= size0 && p.threads > 0 && forall s: nat :: p.Grain(s) == grain
      modifies this
      ensures Valid() && size <= old(size) && (more ==> size < old(size))
      ensures Leaves(p.grainSize, grain, old(View())) == Leaves(p.grainSize, grain, View()) + tail
      ensures more == Splits(p.grainSize, grain, View())
      decreases size0, 0, size
    {
      tail := [];
      if (p.grainSize < 0 || size > grain) && IsDivisible() {
        var upper := Split();
        hide Elems, SplitPoint;
        var copy := new Partitioner.Copy(p);
        assert copy.Grain(upper.size) == p.Grain(upper.size) == grain;
        tail := upper.Execute(copy);
      }
      more := (p.grainSize < 0 || size > grain) && IsDivisible();
    }

    /** range_step_instance::execute: split until done; every range split off is executed the same way,
        as a step of its own with a copy of the partitioner. The result lists the leaves. */
    method Execute(p: Partitioner) returns (leaves: seq<Range>)
      requires Valid() && p.threads > 0
      modifies this, p
      ensures leaves == Leaves(p.grainSize, old(p.Grain(size)), old(View()))
      ensures p.grainSize == 0 && old(p.cached) <= 0 && old(size) >= 4 * p.threads ==>
                4 * p.threads <= |leaves| < 16 * p.threads
      decreases size, 1
    {
      hide Elems, Leaves, Splits;
      ghost var grain := p.Grain(size);
      if p.grainSize == 0 && p.cached <= 0 && size >= 4 * p.threads {
        Share(size, p.threads);
        LeavesForThreads(p.threads, grain, View());
      }
      var tail: seq<Range> := [];
      var more := true;
      ghost var started := false;
      ghost var size0 := size;
      while more
        invariant Valid() && size <= size0 && p.threads > 0
        invariant if started then forall s: nat :: p.Grain(s) == grain else p.Grain(size) == grain
        invariant Leaves(p.grainSize, grain, old(View())) == Leaves(p.grainSize, grain, View()) + tail
        invariant !more ==> started && !Splits(p.grainSize, grain, View())
        decreases size, more
      {
        var g := p.GrainSize(size);
        started := true;
        var ranges;
        more, ranges := DivideAndOriginate(p, g, size0);
        tail := ranges + tail;
      }
      Undivided(p.grainSize, grain, View());
      leaves := [Range(start, last, step)] + tail;
    }
  }

  lemma Undivided(grainSize: int, grain: int, r: Range)
    requires Ok(r) && !Splits(grainSize, grain, r)
    ensures Leaves(grainSize, grain, r) == [r]
  {
  }

  /** A quarter of a thread's share. */
  lemma Share(size: nat, threads: int)
    requires threads > 0
    ensures var g := size / threads / 4;
            && 4 * threads * g <= size < 4 * threads * (g + 1)
            && (g >= 1 <==> size >= 4 * threads)
  {
    var each := size / threads;
    var g := each / 4;
    assert size == threads * each + size % threads;
    assert 4 * g <= each <= 4 * g + 3;
    Monotone(4 * g, each, threads);
    Monotone(each, 4 * g + 3, threads);
    assert 4 * threads * g == (4 * g) * threads;
    assert 4 * threads * (g + 1) == (4 * g + 3) * threads + threads;
    if g >= 1 { Monotone(4, each, threads); } else { Monotone(each, 3, threads); }
  }

  /** Enough work for all: leaves of at most and at least half of such a grain are at least 4 and less than 16 for
      each thread. */
  lemma LeavesForThreads(threads: int, grain: int, r: Range)
    requires Ok(r) && threads > 0 && |Elems(r)| >= 4 * threads
    requires grain >= 1 && 4 * threads * grain <= |Elems(r)| < 4 * threads * (grain + 1)
    ensures 4 * threads <= |Leaves(0, grain, r)| < 16 * threads
  {
    var ls := Leaves(0, grain, r);
    LeavesPartition(0, grain, r);
    hide Elems, Leaves, LeafOk;
    LeafSizes(grain, ls, |ls| > 1);
    CountBounds(|ls|, 4 * threads, grain, |Elems(r)|);
  }

  lemma CountBounds(n: nat, t: int, grain: int, size: nat)
    requires grain >= 1 && t >= 1 && t * grain <= size < t * (grain + 1)
    requires size <= n * grain && (n > 1 ==> n * grain <= 2 * size)
    ensures t <= n < 4 * t
  {
    assert (n + 1) * grain == n * grain + grain;
    assert (4 * t) * grain == 4 * (t * grain);
    assert t * (grain + 1) == t * grain + t;
    assert t <= t * grain by { assert t * grain == t + t * (grain - 1) && t * (grain - 1) >= 0; }
    if n < t { Monotone(n + 1, t, grain); }
    if n >= 4 * t { Monotone(4 * t, n, grain); }
  }

  lemma {:induction false} LeafSizes(grain: int, ls: seq<Range>, many: bool)
    requires grain >= 1 && forall i :: 0 <= i < |ls| ==> Ok(ls[i]) && LeafOk(grain, ls[i], many)
    ensures |AllElems(ls)| <= |ls| * grain
    ensures many ==> |ls| * grain <= 2 * |AllElems(ls)|
  {
    if ls != [] {
      LeafSizes(grain, ls[1..], many);
      hide Elems, AllElems;
      assert |ls| * grain == |ls[1..]| * grain + grain;
    }
  }

  /** default_partitioner<grainSize>: with a template argument of 0 the grain is computed from the
      size of the first range that is seen, and kept. */
  class Partitioner {
    const grainSize: int
    const threads: int
    var cached: int

    ghost function Grain(size: nat): int
      requires threads > 0
      reads this
    {
      if grainSize != 0 then grainSize
      else if cached > 0 then cached
      else if size / threads / 4 > 1 then size / threads / 4 else 1
    }

    constructor (grainSize: int, threads: int)
      requires threads > 0
      ensures this.grainSize == grainSize && this.threads == threads && cached == grainSize
    {
      this.grainSize, this.threads, cached := grainSize, threads, grainSize;
    }

    constructor Copy(p: Partitioner)
      ensures grainSize == p.grainSize && threads == p.threads && cached == p.cached
    {
      grainSize, threads, cached := p.grainSize, p.threads, p.cached;
    }

    /** grain_size: whatever the sizes asked for, all calls after the first agree with the first. */
    method GrainSize(size: nat) returns (g: int)
      requires threads > 0
      modifies this
      ensures g == old(Grain(size)) && forall s: nat :: Grain(s) == g
      ensures grainSize == 0 ==> g >= 1
      ensures grainSize != 0 ==> g == grainSize
      ensures grainSize == 0 && old(cached) > 0 ==> g == old(cached)
      ensures grainSize == 0 && old(cached) <= 0 ==>
                if size < 4 * threads then g == 1 else 4 * threads * g <= size < 4 * threads * (g + 1)
    {
      Share(size, threads);
      if grainSize != 0 { return grainSize; }
      if cached <= 0 {
        var share := size / threads / 4;
        cached := if size > 0 then (if 1 > share then 1 else share) else 1;
      }
      return cached;
    }
  }
}
