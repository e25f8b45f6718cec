/** When the replay loop of a range step ends (cnc/internal/range_step.h). The flag that flush_gets looks
    at is not reset between tags or passes, so a run can fail although it misses nothing; such a run
    suspends nothing, and makes the loop repeat. */
module RangeReplay {
  import opened RangeSteps

  /*** balance ***/

  /** w' comes after w: the suspend counter follows the suspends and unsuspends, and nothing is taken back. */
  ghost predicate Later(w: World, w': World) {
    && w'.suspends == w.suspends + (w'.added - w.added) - (w'.woken - w.woken)
    && w'.added >= w.added && w'.woken >= w.woken && w'.clock >= w.clock
    && w.items <= w'.items && (w.flag ==> w'.flag)
    && (w'.flag ==> w.flag || w'.added > w.added)
  }

  lemma {:induction false} OccurAllLater(w: World, es: seq<Event>)
    ensures Later(w, OccurAll(w, es)) && OccurAll(w, es).added == w.added && OccurAll(w, es).clock == w.clock
    decreases |es|
  {
    if es != [] { OccurAllLater(Occur(w, es[0]), es[1..]); }
  }

  lemma TickLater(env: Environment, w: World)
    ensures Later(w, Tick(env, w)) && Tick(env, w).added == w.added && Tick(env, w).flag == w.flag
  {
    OccurAllLater(w, env(w.clock));
  }

  lemma {:induction false} DoLater(env: Environment, w: World, ops: seq<Op>)
    ensures Later(w, Do(env, w, ops).world)
    decreases |ops|
  {
    if ops != [] {
      if ops[0].Flush? {
        DoLater(env, w, ops[1..]);
      } else {
        TickLater(env, w);
        var w1 := Tick(env, w);
        DoLater(env, if ops[0].item in w1.items then w1 else Miss(w1, ops[0].item), ops[1..]);
      }
    }
  }

  /** What a part of a pass, from s to r, adds up to. */
  ghost predicate Adds(s: Loop, r: Loop) {
    && Later(s.world, r.world) && r.world.added - s.world.added >= r.missed
    && (!r.sequential ==> r.replays == r.missed + r.spoiled)
  }

  lemma TagAdds(env: Environment, tags: seq<Tag>, s: Loop, r: Loop, p: nat)
    requires p < |tags| == |r.done| && Adds(s, r)
    ensures Adds(s, RunTag(env, tags, r, p))
  {
    if !r.done[p] { DoLater(env, r.world, tags[p].ops); }
    hide Do;
  }

  lemma {:induction false} PassAdds(env: Environment, tags: seq<Tag>, s: Loop, r: Loop, p: nat)
    requires p <= |tags| == |r.done| && Adds(s, r)
    ensures Adds(s, PassFrom(env, tags, r, p))
    decreases |tags| - p
  {
    hide Adds, RunTag;
    if p < |tags| && p <= r.lastPos {
      TagAdds(env, tags, s, r, p);
      SameLength(env, tags, r, p);
      PassAdds(env, tags, s, RunTag(env, tags, r, p), p + 1);
    }
  }

  /** A pass is repeated exactly if the wakeups that came in and the runs that failed without missing an item
      outnumber the suspends in excess of one per run that missed. */
  lemma RepeatsIff(env: Environment, tags: seq<Tag>, s: Loop)
    requires |tags| == |s.done| && !s.sequential
    ensures var r := Pass(env, tags, s);
            && Later(s.world, r.world) && r.world.added - s.world.added >= r.missed
            && (Repeats(s, r) <==>
                  !r.sequential &&
                  (r.world.woken - s.world.woken) + r.spoiled > (r.world.added - s.world.added) - r.missed)
  {
    PassAdds(env, tags, Fresh(s), Fresh(s), 0);
    TickLater(env, PassFrom(env, tags, Fresh(s), 0).world);
  }

  /*** runs that fail without missing an item ***/

  predicate Flushes(ops: seq<Op>) { ops != [] && (ops[0].Flush? || Flushes(ops[1..])) }

  predicate Gets(ops: seq<Op>) { ops != [] && (!ops[0].Flush? || Gets(ops[1..])) }

  /** A run can be unfinished because of what it misses itself: it has a get, or an unsafe_get before a flush. */
  predicate CanFail(ops: seq<Op>) {
    ops != [] && (ops[0].Get? || (ops[0].UnsafeGet? && Flushes(ops[1..])) || CanFail(ops[1..]))
  }

  /** A run fails without missing an item exactly if it flushes with the flag set before it. */
  lemma {:induction false} SpoiledIff(env: Environment, w: World, ops: seq<Op>)
    ensures var end := Do(env, w, ops);
            end.thrown && end.world.added == w.added <==> Flushes(ops) && w.flag && end.world.added == w.added
    decreases |ops|
  {
    DoLater(env, w, ops);
    if ops != [] {
      if ops[0].Flush? {
        SpoiledIff(env, w, ops[1..]);
      } else {
        TickLater(env, w);
        var w1 := Tick(env, w);
        DoLater(env, if ops[0].item in w1.items then w1 else Miss(w1, ops[0].item), ops[1..]);
        SpoiledIff(env, w1, ops[1..]);
      }
    }
  }

  /** If the flag is not set and the run cannot fail by what it misses itself, it does not fail. */
  lemma {:induction false} CannotFail(env: Environment, w: World, ops: seq<Op>)
    requires !CanFail(ops) && (w.flag ==> !Flushes(ops))
    ensures !Do(env, w, ops).thrown
    ensures !Gets(ops) ==> Do(env, w, ops).world == w
    decreases |ops|
  {
    if ops != [] {
      if ops[0].Flush? {
        CannotFail(env, w, ops[1..]);
      } else {
        var w1 := Tick(env, w);
        CannotFail(env, if ops[0].item in w1.items then w1 else Miss(w1, ops[0].item), ops[1..]);
      }
    }
  }

  /*** ranges for which the loop ends ***/

  /** No tag that is still to be done can be spoiled: it does not flush, or the flag is not set, no earlier tag to be
      done gets anything, and its own runs cannot fail. */
  ghost predicate Safe(tags: seq<Tag>, done: seq<bool>, flag: bool)
    requires |tags| == |done|
  {
    forall q :: 0 <= q < |tags| && !done[q] && Flushes(tags[q].ops) ==>
      !flag && !CanFail(tags[q].ops) && forall p :: 0 <= p < q && !done[p] ==> !Gets(tags[p].ops)
  }

  /** The same in the middle of a pass. */
  ghost predicate SafeFrom(tags: seq<Tag>, r: Loop, p: nat)
    requires |tags| == |r.done|
  {
    && r.spoiled == 0
    && (forall q :: p <= q < |tags| && !r.done[q] && Flushes(tags[q].ops) ==>
          !r.world.flag && !CanFail(tags[q].ops) && forall k :: p <= k < q && !r.done[k] ==> !Gets(tags[k].ops))
    && (forall q :: 0 <= q < p && q < |tags| && !r.done[q] && Flushes(tags[q].ops) ==> r.sequential)
  }

  lemma TagSafe(env: Environment, tags: seq<Tag>, r: Loop, p: nat)
    requires p < |tags| == |r.done| && SafeFrom(tags, r, p)
    ensures |RunTag(env, tags, r, p).done| == |tags| && SafeFrom(tags, RunTag(env, tags, r, p), p + 1)
  {
    var ops := tags[p].ops;
    DoLater(env, r.world, ops);
    SpoiledIff(env, r.world, ops);
    if !CanFail(ops) && (r.world.flag ==> !Flushes(ops)) { CannotFail(env, r.world, ops); }
    NoGets(ops);
    hide Do, Flushes, CanFail, Gets;
  }

  lemma {:induction false} NoGets(ops: seq<Op>)
    ensures !Gets(ops) ==> !CanFail(ops)
  {
    if ops != [] { NoGets(ops[1..]); }
  }

  lemma {:induction false} PassSafe(env: Environment, tags: seq<Tag>, r: Loop, p: nat)
    requires p <= |tags| == |r.done| && SafeFrom(tags, r, p)
    requires forall q :: p <= q < |tags| && r.lastPos < q ==> r.done[q]
    ensures SafeFrom(tags, PassFrom(env, tags, r, p), |tags|)
    decreases |tags| - p
  {
    if p < |tags| && p <= r.lastPos {
      TagSafe(env, tags, r, p);
      hide SafeFrom, Do, OutcomeOf;
      PassSafe(env, tags, RunTag(env, tags, r, p), p + 1);
    }
  }

  /** A pass over a safe range spoils nothing, and leaves it safe. */
  lemma SafeStays(env: Environment, tags: seq<Tag>, s: Loop)
    requires |tags| == |s.done| && CutOk(s) && Safe(tags, s.done, s.world.flag)
    ensures var r := Pass(env, tags, s); r.spoiled == 0 && (!r.sequential ==> Safe(tags, r.done, r.world.flag))
  {
    assert SafeFrom(tags, Fresh(s), 0);
    PassSafe(env, tags, Fresh(s), 0);
  }

  /** The range step is in no group of a present item, and only in groups of items in u. */
  ghost predicate WaitsIn(w: World, u: set<Item>) {
    forall x :: x in w.waits ==> x in u && x !in w.items
  }

  /** From w to w' an item of u was put, or wakeups were used up. */
  ghost predicate Spends(w: World, w': World, u: set<Item>) {
    && WaitsIn(w', u) && w.items <= w'.items
    && (u - w'.items == u - w.items ==> w'.pending == w.pending - (w'.woken - w.woken))
  }

  lemma {:induction false} OccurAllSpends(w: World, es: seq<Event>, u: set<Item>)
    requires WaitsIn(w, u)
    ensures Spends(w, OccurAll(w, es), u)
    decreases |es|
  {
    if es != [] {
      var w1 := Occur(w, es[0]);
      OccurSpends(w, es[0], u);
      OccurAllSpends(w1, es[1..], u);
      SpendsOn(w, w1, OccurAll(w1, es[1..]), u);
    }
  }

  lemma OccurSpends(w: World, e: Event, u: set<Item>)
    requires WaitsIn(w, u)
    ensures Spends(w, Occur(w, e), u)
  {
    if e.Put? && e.item in u && e.item !in w.items {
      assert e.item in u - w.items && e.item !in u - Occur(w, e).items;
    }
  }

  lemma SpendsOn(a: World, b: World, c: World, u: set<Item>)
    requires Spends(a, b, u) && Spends(b, c, u)
    ensures Spends(a, c, u)
  {
    if u - c.items == u - a.items {
      assert u - b.items == u - a.items;
    }
  }

  lemma {:induction false} DoSpends(env: Environment, w: World, ops: seq<Op>, u: set<Item>)
    requires WaitsIn(w, u) && forall i :: 0 <= i < |ops| && !ops[i].Flush? ==> ops[i].item in u
    ensures Spends(w, Do(env, w, ops).world, u)
    decreases |ops|
  {
    if ops != [] {
      if ops[0].Flush? {
        DoSpends(env, w, ops[1..], u);
      } else {
        OccurAllSpends(w, env(w.clock), u);
        var w1, x := Tick(env, w), ops[0].item;
        var w2 := if x in w1.items then w1 else Miss(w1, x);
        assert Spends(w, w2, u);
        DoSpends(env, w2, ops[1..], u);
        SpendsOn(w, w2, Do(env, w2, ops[1..]).world, u);
      }
    }
  }

  /** All items that the tags get. */
  ghost predicate NeedsIn(tags: seq<Tag>, u: set<Item>) {
    forall p, i :: 0 <= p < |tags| && 0 <= i < |tags[p].ops| && !tags[p].ops[i].Flush? ==> tags[p].ops[i].item in u
  }

  lemma {:induction false} PassSpends(env: Environment, tags: seq<Tag>, r: Loop, p: nat, u: set<Item>)
    requires p <= |tags| == |r.done| && WaitsIn(r.world, u) && NeedsIn(tags, u)
    ensures Spends(r.world, PassFrom(env, tags, r, p).world, u)
    decreases |tags| - p
  {
    if p < |tags| && p <= r.lastPos {
      var r1 := RunTag(env, tags, r, p);
      if !r.done[p] { DoSpends(env, r.world, tags[p].ops, u); }
      hide Do, OutcomeOf, Spends;
      PassSpends(env, tags, r1, p + 1, u);
      SpendsOn(r.world, r1.world, PassFrom(env, tags, r1, p + 1).world, u);
    }
  }

  lemma WholePassSpends(env: Environment, tags: seq<Tag>, s: Loop, u: set<Item>)
    requires |tags| == |s.done| && WaitsIn(s.world, u) && NeedsIn(tags, u)
    ensures Spends(s.world, Pass(env, tags, s).world, u)
  {
    PassSpends(env, tags, Fresh(s), 0, u);
    var w := PassFrom(env, tags, Fresh(s), 0).world;
    OccurAllSpends(w, env(w.clock), u);
    SpendsOn(s.world, w, OccurAll(w, env(w.clock)), u);
  }

  /** The loop over a safe range ends, whatever the other threads do: every repeated pass uses up a wakeup, and
      an item is put only once. */
  lemma {:induction false} SafeStops(env: Environment, tags: seq<Tag>, s: Loop, u: set<Item>) returns (n: nat)
    requires |tags| == |s.done| && LogOk(s.done, s.log) && CutOk(s) && !s.sequential
    requires Safe(tags, s.done, s.world.flag) && WaitsIn(s.world, u) && NeedsIn(tags, u)
    ensures StopsWithin(env, tags, s, n)
    decreases |u - s.world.items|, s.world.pending
  {
    var r := Pass(env, tags, s);
    RepeatsIff(env, tags, s);
    SafeStays(env, tags, s);
    WholePassSpends(env, tags, s, u);
    if Repeats(s, r) {
      PassDoes(env, tags, s);
      Fewer(u - r.world.items, u - s.world.items);
      hide Pass, LogOk, CutOk, Safe, WaitsIn;
      n := SafeStops(env, tags, r, u);
      n := n + 1;
    } else {
      n := 0;
    }
  }

  lemma Fewer(a: set<Item>, b: set<Item>)
    requires a <= b
    ensures |a| <= |b| && (a != b ==> |a| < |b|)
  {
    assert b == a + (b - a);
    if a != b { assert b - a != {}; }
  }
}
