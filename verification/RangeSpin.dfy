/** For every range that is not safe there are other threads with which the replay loop never ends
    (cnc/internal/range_step.h); one tag that gets one item and flushes is enough. */
module RangeSpin {
  import opened RangeSteps
  import opened RangeReplay

  ghost predicate Stops(env: Environment, tags: seq<Tag>, s: Loop)
    requires |tags| == |s.done|
  {
    exists n :: StopsWithin(env, tags, s, n)
  }

  /** No step asks to be sequentialized, which would end the loop. */
  predicate Parallel(tags: seq<Tag>) { forall p :: 0 <= p < |tags| ==> !tags[p].sequential }

  /** A state the range step can be in when execute is called: its guard is the only suspend besides its
      memberships and the unsuspends to come, and it is in no group of a present item. */
  ghost predicate Possible(w: World) {
    w.suspends == 1 + |w.waits| + w.pending && forall x :: x in w.waits ==> x !in w.items
  }

  function Items(ops: seq<Op>): seq<Item> {
    if ops == [] then [] else (if ops[0].Flush? then [] else [ops[0].item]) + Items(ops[1..])
  }

  function AllItems(tags: seq<Tag>): seq<Item> {
    if tags == [] then [] else Items(tags[0].ops) + AllItems(tags[1..])
  }

  lemma {:induction false} ItemListed(ops: seq<Op>, i: nat)
    requires i < |ops| && !ops[i].Flush?
    ensures ops[i].item in Items(ops)
  {
    if i > 0 { ItemListed(ops[1..], i - 1); }
  }

  lemma {:induction false} AllListed(tags: seq<Tag>, p: nat, i: nat)
    requires p < |tags| && i < |tags[p].ops| && !tags[p].ops[i].Flush?
    ensures tags[p].ops[i].item in AllItems(tags)
  {
    if p > 0 { AllListed(tags[1..], p - 1, i); } else { ItemListed(tags[0].ops, i); }
  }

  function PutAll(xs: seq<Item>): seq<Event> {
    if xs == [] then [] else [Put(xs[0])] + PutAll(xs[1..])
  }

  function Wakes(n: nat): seq<Event> { seq(n, i => Wake) }

  ghost predicate HasAll(w: World, tags: seq<Tag>) { forall x :: x in AllItems(tags) ==> x in w.items }

  /** Other threads that put all items, and deliver n wakeups, in their turn number t. */
  function Spoiler(tags: seq<Tag>, t: nat, n: nat): Environment {
    (k: nat) => if k == t then PutAll(AllItems(tags)) + Wakes(n) else []
  }

  function Silent(): Environment { (t: nat) => [] }

  /*** once everything is there and the flag is set ***/

  /** Nobody else does anything from now on, all items are there, and tag q will be spoiled. */
  ghost predicate Stuck(env: Environment, tags: seq<Tag>, s: Loop, q: nat) {
    && q < |tags| == |s.done| && !s.done[q] && Flushes(tags[q].ops) && Parallel(tags)
    && s.world.flag && HasAll(s.world, tags)
    && (forall t :: t >= s.world.clock ==> env(t) == [])
    && q <= s.lastPos && !s.sequential
  }

  lemma {:induction false} QuietRun(env: Environment, w: World, ops: seq<Op>)
    requires w.flag && forall t :: t >= w.clock ==> env(t) == []
    requires forall i :: 0 <= i < |ops| && !ops[i].Flush? ==> ops[i].item in w.items
    ensures var end := Do(env, w, ops);
            && end.world == w.(clock := end.world.clock) && end.world.clock >= w.clock
            && (end.thrown <==> Flushes(ops))
    decreases |ops|
  {
    if ops != [] {
      if !ops[0].Flush? {
        var w1 := Tick(env, w);
        assert w1 == w.(clock := w.clock + 1);
        QuietRun(env, w1, ops[1..]);
      }
    }
  }

  /** In the middle of such a pass. */
  ghost predicate StuckAt(env: Environment, tags: seq<Tag>, s: Loop, r: Loop, p: nat, q: nat) {
    && Stuck(env, tags, r, q) && r.lastPos == s.lastPos
    && r.world == s.world.(clock := r.world.clock) && r.world.clock >= s.world.clock
    && (p > q ==> r.replays >= 1 && r.last >= q)
  }

  lemma TagStuck(env: Environment, tags: seq<Tag>, s: Loop, r: Loop, p: nat, q: nat)
    requires p < |tags| && StuckAt(env, tags, s, r, p, q)
    ensures StuckAt(env, tags, s, RunTag(env, tags, r, p), p + 1, q)
  {
    if !r.done[p] {
      forall i | 0 <= i < |tags[p].ops| && !tags[p].ops[i].Flush? ensures tags[p].ops[i].item in r.world.items {
        AllListed(tags, p, i);
      }
      QuietRun(env, r.world, tags[p].ops);
      hide Do, Flushes;
    }
  }

  lemma {:induction false} PassStuck(env: Environment, tags: seq<Tag>, s: Loop, r: Loop, p: nat, q: nat)
    requires p <= |tags| && StuckAt(env, tags, s, r, p, q)
    ensures StuckAt(env, tags, s, PassFrom(env, tags, r, p), |tags|, q)
    decreases |tags| - p
  {
    if p < |tags| && p <= r.lastPos {
      TagStuck(env, tags, s, r, p, q);
      hide StuckAt, RunTag;
      SameLength(env, tags, r, p);
      PassStuck(env, tags, s, RunTag(env, tags, r, p), p + 1, q);
    }
  }

  /** Such a pass is repeated, and the next one is the same. */
  lemma StuckRepeats(env: Environment, tags: seq<Tag>, s: Loop, q: nat)
    requires Stuck(env, tags, s, q)
    ensures Repeats(s, Pass(env, tags, s)) && Stuck(env, tags, Pass(env, tags, s), q)
  {
    PassStuck(env, tags, Fresh(s), Fresh(s), 0, q);
  }

  lemma {:induction false} StuckForever(env: Environment, tags: seq<Tag>, s: Loop, q: nat, n: nat)
    requires Stuck(env, tags, s, q)
    ensures !StopsWithin(env, tags, s, n)
    decreases n
  {
    StuckRepeats(env, tags, s, q);
    if n > 0 { StuckForever(env, tags, Pass(env, tags, s), q, n - 1); }
  }

  /*** a pass in which nobody else does anything and no item is there ***/

  const NOTHING := World({}, multiset{}, 0, 1, false, 0, 0, 0)

  /** Nothing was put, and every suspend is for a missing item of the range. */
  ghost predicate Bare(tags: seq<Tag>, w: World) {
    && w.items == {} && w.pending == 0 && w.woken == 0
    && w.suspends == 1 + |w.waits| && w.added == |w.waits| && (w.flag <==> w.added > 0)
    && forall x :: x in w.waits ==> x in AllItems(tags)
  }

  lemma {:induction false} BareRun(tags: seq<Tag>, w: World, ops: seq<Op>)
    requires Bare(tags, w) && forall i :: 0 <= i < |ops| && !ops[i].Flush? ==> ops[i].item in AllItems(tags)
    ensures var end := Do(Silent(), w, ops);
            && Bare(tags, end.world)
            && (w.flag ==> end.world.flag) && (Gets(ops) ==> end.world.flag)
            && (CanFail(ops) || (w.flag && Flushes(ops)) ==> end.thrown)
    decreases |ops|
  {
    if ops != [] {
      if ops[0].Flush? {
        if !w.flag { BareRun(tags, w, ops[1..]); }
      } else {
        var w1, x := Tick(Silent(), w), ops[0].item;
        assert w1 == w.(clock := w.clock + 1);
        assert ops[0].item in AllItems(tags);
        BareMiss(tags, w1, x);
        if ops[0].UnsafeGet? { BareRun(tags, Miss(w1, x), ops[1..]); }
      }
    }
  }

  lemma BareMiss(tags: seq<Tag>, w: World, x: Item)
    requires Bare(tags, w) && x in AllItems(tags)
    ensures Bare(tags, Miss(w, x)) && Miss(w, x).flag
  {
  }

  /** Tag q flushes, and its own run or a get before it makes that fail. */
  ghost predicate Target(tags: seq<Tag>, done: seq<bool>, q: nat) {
    && q < |tags| == |done| <= INT_MAX && Parallel(tags) && !done[q] && Flushes(tags[q].ops)
    && (CanFail(tags[q].ops) || exists p :: 0 <= p < q && !done[p] && Gets(tags[p].ops))
  }

  /** The bare pass up to position p. */
  ghost predicate BarePass(tags: seq<Tag>, done: seq<bool>, r: Loop, p: nat, q: nat) {
    && |r.done| == |done| == |tags| && q < |tags| && Bare(tags, r.world) && !r.sequential && r.lastPos == INT_MAX
    && (forall k :: p <= k < |tags| ==> r.done[k] == done[k])
    && (forall k :: 0 <= k < p && k < |tags| && !done[k] && Gets(tags[k].ops) ==> r.world.flag)
    && r.replays == r.missed + r.spoiled
    && (p > q ==> r.replays >= 1 && r.last >= q && !r.done[q])
  }

  lemma TagBare(tags: seq<Tag>, done: seq<bool>, r: Loop, p: nat, q: nat)
    requires Target(tags, done, q) && p < |tags| && BarePass(tags, done, r, p, q)
    ensures BarePass(tags, done, RunTag(Silent(), tags, r, p), p + 1, q)
  {
    if !r.done[p] {
      forall i | 0 <= i < |tags[p].ops| && !tags[p].ops[i].Flush? ensures tags[p].ops[i].item in AllItems(tags) {
        AllListed(tags, p, i);
      }
      BareRun(tags, r.world, tags[p].ops);
    }
    hide Do, Bare, Flushes, CanFail, Gets;
  }

  lemma {:induction false} WholeBare(tags: seq<Tag>, done: seq<bool>, r: Loop, p: nat, q: nat)
    requires Target(tags, done, q) && p <= |tags| && BarePass(tags, done, r, p, q)
    ensures BarePass(tags, done, PassFrom(Silent(), tags, r, p), |tags|, q)
    decreases |tags| - p
  {
    if p < |tags| {
      TagBare(tags, done, r, p, q);
      SameLength(Silent(), tags, r, p);
      assert p <= r.lastPos;
      hide BarePass, RunTag;
      WholeBare(tags, done, RunTag(Silent(), tags, r, p), p + 1, q);
    }
  }

  /*** other threads that act after that pass ***/

  /** Two environments that agree up to the end of a run cannot be told apart by it. */
  lemma {:induction false} SameRun(e1: Environment, e2: Environment, w: World, ops: seq<Op>, t: nat)
    requires Do(e1, w, ops).world.clock <= t && forall k :: 0 <= k < t ==> e1(k) == e2(k)
    ensures Do(e2, w, ops) == Do(e1, w, ops)
    decreases |ops|
  {
    if ops != [] {
      if ops[0].Flush? {
        if !w.flag { SameRun(e1, e2, w, ops[1..], t); }
      } else {
        var w1, x := Tick(e1, w), ops[0].item;
        var w2 := if x in w1.items then w1 else Miss(w1, x);
        TickLater(e1, w);
        OccurAllLater(w, e1(w.clock));
        DoLater(e1, w2, ops[1..]);
        assert w.clock < w1.clock == w2.clock;
        if x in w1.items || ops[0].UnsafeGet? { SameRun(e1, e2, w2, ops[1..], t); }
      }
    }
  }

  lemma SameTag(e1: Environment, e2: Environment, tags: seq<Tag>, r: Loop, p: nat, t: nat)
    requires p < |tags| == |r.done| && RunTag(e1, tags, r, p).world.clock <= t
    requires forall k :: 0 <= k < t ==> e1(k) == e2(k)
    ensures RunTag(e2, tags, r, p) == RunTag(e1, tags, r, p)
  {
    if !r.done[p] {
      assert RunTag(e1, tags, r, p).world == Do(e1, r.world, tags[p].ops).world;
      SameRun(e1, e2, r.world, tags[p].ops, t);
      hide Do, OutcomeOf;
    }
  }

  lemma {:induction false} SamePass(e1: Environment, e2: Environment, tags: seq<Tag>, r: Loop, p: nat, t: nat)
    requires p <= |tags| == |r.done| && PassFrom(e1, tags, r, p).world.clock <= t
    requires forall k :: 0 <= k < t ==> e1(k) == e2(k)
    ensures PassFrom(e2, tags, r, p) == PassFrom(e1, tags, r, p)
    decreases |tags| - p
  {
    if p < |tags| && p <= r.lastPos {
      var r1 := RunTag(e1, tags, r, p);
      ClockGrows(e1, tags, r1, p + 1);
      SameTag(e1, e2, tags, r, p, t);
      hide RunTag;
      SamePass(e1, e2, tags, r1, p + 1, t);
    }
  }

  lemma {:induction false} ClockGrows(env: Environment, tags: seq<Tag>, r: Loop, p: nat)
    requires p <= |tags| == |r.done|
    ensures PassFrom(env, tags, r, p).world.clock >= r.world.clock
    decreases |tags| - p
  {
    if p < |tags| && p <= r.lastPos {
      DoLater(env, r.world, tags[p].ops);
      hide Do, OutcomeOf;
      ClockGrows(env, tags, RunTag(env, tags, r, p), p + 1);
    }
  }

  lemma PutOne(w: World, x: Item)
    ensures var w1 := Occur(w, Put(x));
            && w1 == w.(items := w.items + {x}, pending := w1.pending, waits := w1.waits)
            && (x !in w.items ==> w1.pending + |w1.waits| == w.pending + |w.waits|)
            && (x !in w.items ==> forall y :: y in w1.waits <==> y in w.waits && y != x)
            && (x in w.items ==> w1 == w)
  {
    assert x in w.items ==> w.items + {x} == w.items;
    assert w.waits == w.waits[x := 0] + multiset{}[x := w.waits[x]];
  }

  /** Putting all items takes over all memberships ... */
  lemma {:induction false} PutsAll(w: World, xs: seq<Item>, es: seq<Event>, K: nat)
    requires w.pending + |w.waits| == K && forall x :: x in w.waits ==> x in xs && x !in w.items
    ensures OccurAll(w, PutAll(xs) + es) ==
            OccurAll(w.(items := w.items + (set x | x in xs), pending := K, waits := multiset{}), es)
    decreases |xs|
  {
    if xs == [] {
      assert PutAll(xs) + es == es;
      assert w.waits == multiset{};
      assert w.items + (set x | x in xs) == w.items;
    } else {
      var all := PutAll(xs) + es;
      var w1 := Occur(w, Put(xs[0]));
      assert all[0] == Put(xs[0]) && all[1..] == PutAll(xs[1..]) + es;
      PutOne(w, xs[0]);
      assert OccurAll(w, all) == OccurAll(w1, all[1..]);
      hide Occur, OccurAll;
      PutsAll(w1, xs[1..], es, K);
      assert w.items + (set x | x in xs) == w1.items + (set x | x in xs[1..]);
    }
  }

  /** ... and then that many wakeups can be delivered. */
  lemma {:induction false} WakesAll(w: World, n: nat)
    requires n <= w.pending
    ensures OccurAll(w, Wakes(n)) == w.(pending := w.pending - n, suspends := w.suspends - n, woken := w.woken + n)
    decreases n
  {
    if n > 0 {
      assert Wakes(n)[1..] == Wakes(n - 1);
      WakesAll(Occur(w, Wake), n - 1);
    }
  }

  lemma SpoilerActs(tags: seq<Tag>, w: World)
    requires Bare(tags, w)
    ensures var w' := Tick(Spoiler(tags, w.clock, |w.waits|), w);
            && w'.clock == w.clock + 1 && w'.flag == w.flag && w'.added == w.added && HasAll(w', tags)
            && w'.woken == |w.waits| && w'.suspends == 1
  {
    PutsAll(w, AllItems(tags), Wakes(|w.waits|), |w.waits|);
    var w1 := w.(items := w.items + (set x | x in AllItems(tags)), pending := |w.waits|, waits := multiset{});
    WakesAll(w1, |w.waits|);
  }

  /** The world at the end of the bare pass, before the other threads act. */
  function BareEnd(tags: seq<Tag>, done: seq<bool>): World
    requires |tags| == |done|
  {
    PassFrom(Silent(), tags, Fresh(Begin(NOTHING, done, [])), 0).world
  }

  /** Runs are logged, but the log decides nothing. */
  lemma {:induction false} LogIrrelevant(env: Environment, tags: seq<Tag>, r: Loop, r': Loop, p: nat)
    requires p <= |tags| == |r.done| && r' == r.(log := r'.log)
    ensures PassFrom(env, tags, r', p) == PassFrom(env, tags, r, p).(log := PassFrom(env, tags, r', p).log)
    decreases |tags| - p
  {
    if p < |tags| && p <= r.lastPos {
      hide Do, OutcomeOf;
      LogIrrelevant(env, tags, RunTag(env, tags, r, p), RunTag(env, tags, r', p), p + 1);
    }
  }

  function SpoilerOf(tags: seq<Tag>, done: seq<bool>): Environment
    requires |tags| == |done|
  {
    var w := BareEnd(tags, done);
    Spoiler(tags, w.clock, |w.waits|)
  }

  lemma FirstRepeats(tags: seq<Tag>, done: seq<bool>, log: seq<Entry>, q: nat)
    requires Target(tags, done, q)
    ensures var s, env := Begin(NOTHING, done, log), SpoilerOf(tags, done);
            Repeats(s, Pass(env, tags, s)) && Stuck(env, tags, Pass(env, tags, s), q)
  {
    var s, env, w := Begin(NOTHING, done, log), SpoilerOf(tags, done), BareEnd(tags, done);
    var r := PassFrom(Silent(), tags, Fresh(s), 0);
    LogIrrelevant(Silent(), tags, Fresh(Begin(NOTHING, done, [])), Fresh(s), 0);
    assert r.world == w;
    WholeBare(tags, done, Fresh(s), 0, q);
    SamePass(Silent(), env, tags, Fresh(s), 0, w.clock);
    SpoilerActs(tags, w);
    NoGets(tags[q].ops);
    assert w.flag;
    hide PassFrom, Spoiler, SpoilerOf, BareEnd, HasAll, Flushes, Gets, CanFail, Tick, Parallel;
  }

  /** With the flag not set, a tag that flushes, and something to make that fail. */
  lemma Spins(tags: seq<Tag>, done: seq<bool>, log: seq<Entry>, q: nat)
    requires Target(tags, done, q)
    ensures !Stops(SpoilerOf(tags, done), tags, Begin(NOTHING, done, log))
  {
    var s, env := Begin(NOTHING, done, log), SpoilerOf(tags, done);
    FirstRepeats(tags, done, log, q);
    forall n: nat ensures !StopsWithin(env, tags, s, n) {
      if n > 0 { StuckForever(env, tags, Pass(env, tags, s), q, n - 1); }
    }
  }

  /** With the flag set already, a tag that flushes, though all items are there and nobody else does anything. */
  lemma SpinsAtOnce(tags: seq<Tag>, done: seq<bool>, log: seq<Entry>, q: nat) returns (w: World)
    requires q < |tags| == |done| <= INT_MAX && Parallel(tags) && !done[q] && Flushes(tags[q].ops)
    ensures Possible(w) && w.flag && !Stops(Silent(), tags, Begin(w, done, log))
  {
    w := World(set x | x in AllItems(tags), multiset{}, 0, 1, true, 0, 0, 0);
    var s := Begin(w, done, log);
    forall n: nat ensures !StopsWithin(Silent(), tags, s, n) {
      StuckForever(Silent(), tags, s, q, n);
    }
  }

  /** A range that is not safe has other threads that make its loop spin. */
  lemma UnsafeSpins(tags: seq<Tag>, done: seq<bool>, flag: bool, log: seq<Entry>) returns (env: Environment, w: World)
    requires |tags| == |done| <= INT_MAX && Parallel(tags) && !Safe(tags, done, flag)
    ensures Possible(w) && w.flag == flag && !Stops(env, tags, Begin(w, done, log))
  {
    hide Flushes, CanFail, Gets;
    var q: nat :| q < |tags| && !done[q] && Flushes(tags[q].ops) &&
                  (flag || CanFail(tags[q].ops) || exists p :: 0 <= p < q && !done[p] && Gets(tags[p].ops));
    if flag {
      env := Silent();
      w := SpinsAtOnce(tags, done, log, q);
    } else {
      env, w := SpoilerOf(tags, done), NOTHING;
      Spins(tags, done, log, q);
    }
  }

  /** The replay loop ends with all other threads, from all states with this flag, if and only if the range is
      safe: no tag still to be done flushes; or the flag is not set, and of each flushing tag neither the own gets
      can make it fail nor does a tag before it get anything. */
  lemma StopsIff(tags: seq<Tag>, done: seq<bool>, flag: bool, log: seq<Entry>)
    requires |tags| == |done| <= INT_MAX && Parallel(tags) && LogOk(done, log)
    ensures Safe(tags, done, flag) <==>
            forall env: Environment, w: World :: Possible(w) && w.flag == flag ==> Stops(env, tags, Begin(w, done, log))
  {
    if Safe(tags, done, flag) {
      forall env: Environment, w: World | Possible(w) && w.flag == flag ensures Stops(env, tags, Begin(w, done, log)) {
        var u := (set x | x in AllItems(tags)) + set x | x in w.waits;
        forall p, i | 0 <= p < |tags| && 0 <= i < |tags[p].ops| && !tags[p].ops[i].Flush?
          ensures tags[p].ops[i].item in u
        {
          AllListed(tags, p, i);
        }
        var n := SafeStops(env, tags, Begin(w, done, log), u);
      }
    } else {
      var env, w := UnsafeSpins(tags, done, flag, log);
    }
  }

  /** The smallest case: one tag that gets one item, by unsafe_get and flush_gets. The item is put after the first
      pass has missed it, and the loop never ends although the item is there from then on. */
  lemma OneTagSpins(x: Item)
    ensures var tags := [Tag([UnsafeGet(x), Flush], false)];
            && Spoiler(tags, 1, 1)(1) == [Put(x), Wake] && (forall k: nat :: k != 1 ==> Spoiler(tags, 1, 1)(k) == [])
            && !Stops(Spoiler(tags, 1, 1), tags, Begin(NOTHING, [false], []))
  {
    var ops := [UnsafeGet(x), Flush];
    var tags := [Tag(ops, false)];
    OneItem(x);
    assert ops[1..] == [Flush] && Flushes([Flush]);
    OneTagPass(x);
    Spins(tags, [false], [], 0);
  }

  lemma OneItem(x: Item)
    ensures AllItems([Tag([UnsafeGet(x), Flush], false)]) == [x] && PutAll([x]) + Wakes(1) == [Put(x), Wake]
  {
    var ops := [UnsafeGet(x), Flush];
    assert ops[1..] == [Flush] && [Flush][1..] == [];
    assert Items([Flush]) == [];
    assert Items(ops) == [x];
    var tags := [Tag(ops, false)];
    assert tags[1..] == [];
    assert AllItems([]) == [];
    assert [x][1..] == [];
  }

  lemma OneTagPass(x: Item)
    ensures SpoilerOf([Tag([UnsafeGet(x), Flush], false)], [false]) ==
            Spoiler([Tag([UnsafeGet(x), Flush], false)], 1, 1)
  {
    var ops := [UnsafeGet(x), Flush];
    var tags, s := [Tag(ops, false)], Fresh(Begin(NOTHING, [false], []));
    assert ops[1..] == [Flush];
    var w1 := Tick(Silent(), NOTHING);
    assert w1 == NOTHING.(clock := 1);
    assert Do(Silent(), Miss(w1, x), [Flush]) == RunEnd(Miss(w1, x), true);
    assert Do(Silent(), NOTHING, ops) == RunEnd(Miss(w1, x), true);
    var r := RunTag(Silent(), tags, s, 0);
    assert r.world == Miss(w1, x);
    assert PassFrom(Silent(), tags, s, 0) == PassFrom(Silent(), tags, r, 1) == r;
  }
}
