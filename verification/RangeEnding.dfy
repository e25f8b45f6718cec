/** How the replay loop of a range step can fail to end, for all ranges, states and other threads
    (cnc/internal/range_step.h): only by runs that fail without missing an item. */
module RangeEndings {
  import opened RangeSteps
  import opened RangeReplay
  import opened RangeSpin

  /** The state after n passes, as if each was repeated. */
  function Passes(env: Environment, tags: seq<Tag>, s: Loop, n: nat): (r: Loop)
    requires |tags| == |s.done|
    ensures |r.done| == |tags|
    decreases n
  {
    if n == 0 then s else Passes(env, tags, Pass(env, tags, s), n - 1)
  }

  lemma {:induction false} PassesAdd(env: Environment, tags: seq<Tag>, s: Loop, k: nat, n: nat)
    requires |tags| == |s.done|
    ensures Passes(env, tags, Passes(env, tags, s, k), n) == Passes(env, tags, s, k + n)
    decreases k
  {
    if k > 0 { PassesAdd(env, tags, Pass(env, tags, s), k - 1, n); }
  }

  lemma OneMore(env: Environment, tags: seq<Tag>, s: Loop, n: nat)
    requires |tags| == |s.done|
    ensures Passes(env, tags, s, n + 1) == Pass(env, tags, Passes(env, tags, s, n))
  {
    PassesAdd(env, tags, s, n, 1);
  }

  predicate Repeated(env: Environment, tags: seq<Tag>, s: Loop, n: nat)
    requires |tags| == |s.done|
  {
    Repeats(Passes(env, tags, s, n), Passes(env, tags, s, n + 1))
  }

  /** In pass number n no step asks to be sequentialized, and wakeups and runs that failed without missing an item
      outnumber the suspends in excess of one per run that missed. */
  predicate Outnumbered(env: Environment, tags: seq<Tag>, s: Loop, n: nat)
    requires |tags| == |s.done|
  {
    var a, b := Passes(env, tags, s, n), Passes(env, tags, s, n + 1);
    && !b.sequential
    && (b.world.woken - a.world.woken) + b.spoiled > (b.world.added - a.world.added) - b.missed
  }

  lemma {:induction false} StopsAt(env: Environment, tags: seq<Tag>, s: Loop, n: nat)
    requires |tags| == |s.done|
    ensures StopsWithin(env, tags, s, n) <==> exists k: nat :: k <= n && !Repeated(env, tags, s, k)
    decreases n
  {
    hide Pass, Repeats;
    var s1 := Pass(env, tags, s);
    assert Passes(env, tags, s, 1) == s1;
    assert Repeated(env, tags, s, 0) <==> Repeats(s, s1);
    if n > 0 {
      StopsAt(env, tags, s1, n - 1);
      forall k: nat ensures Repeated(env, tags, s1, k) <==> Repeated(env, tags, s, k + 1) {}
      if k: nat :| k <= n && !Repeated(env, tags, s, k) {
        if k > 0 { assert !Repeated(env, tags, s1, k - 1); }
      }
    }
  }

  lemma StopsOrRepeats(env: Environment, tags: seq<Tag>, s: Loop)
    requires |tags| == |s.done|
    ensures Stops(env, tags, s) <==> exists k: nat :: !Repeated(env, tags, s, k)
  {
    hide Repeated;
    forall n: nat ensures StopsWithin(env, tags, s, n) <==> exists k: nat :: k <= n && !Repeated(env, tags, s, k) {
      StopsAt(env, tags, s, n);
    }
    if k: nat :| !Repeated(env, tags, s, k) {
      assert StopsWithin(env, tags, s, k);
    }
  }

  /** Repeated or not, passes use up wakeups, and items are put only once. */
  lemma {:induction false} PassesSpend(env: Environment, tags: seq<Tag>, s: Loop, u: set<Item>, n: nat)
    requires |tags| == |s.done| && WaitsIn(s.world, u) && NeedsIn(tags, u)
    ensures Spends(s.world, Passes(env, tags, s, n).world, u) && s.world.woken <= Passes(env, tags, s, n).world.woken
    decreases n
  {
    if n > 0 {
      var s1 := Pass(env, tags, s);
      WholePassSpends(env, tags, s, u);
      PassLater(env, tags, s);
      PassesSpend(env, tags, s1, u, n - 1);
      hide Pass, WaitsIn;
      SpendsOn(s.world, s1.world, Passes(env, tags, s, n).world, u);
    }
  }

  lemma PassLater(env: Environment, tags: seq<Tag>, s: Loop)
    requires |tags| == |s.done|
    ensures s.world.woken <= Pass(env, tags, s).world.woken
  {
    var s0 := Fresh(s);
    PassAdds(env, tags, s0.(sequential := false), s0, 0);
    TickLater(env, PassFrom(env, tags, s0, 0).world);
  }

  /** From pass k on, no wakeup comes. */
  ghost predicate QuietFrom(env: Environment, tags: seq<Tag>, s: Loop, k: nat)
    requires |tags| == |s.done|
  {
    forall n: nat :: n >= k ==> Passes(env, tags, s, n).world.woken == Passes(env, tags, s, k).world.woken
  }

  /** Wakeups cannot keep the loop going: whatever other threads do, there comes a pass without any after it. */
  lemma {:induction false} WakeupsEnd(env: Environment, tags: seq<Tag>, s: Loop, u: set<Item>) returns (k: nat)
    requires |tags| == |s.done| && WaitsIn(s.world, u) && NeedsIn(tags, u)
    ensures QuietFrom(env, tags, s, k)
    decreases |u - s.world.items|, s.world.pending
  {
    if n: nat :| Passes(env, tags, s, n).world.woken != s.world.woken {
      var s' := Passes(env, tags, s, n);
      PassesSpend(env, tags, s, u, n);
      Fewer(u - s'.world.items, u - s.world.items);
      k := WakeupsEnd(env, tags, s', u);
      forall m: nat ensures Passes(env, tags, s', m) == Passes(env, tags, s, n + m) { PassesAdd(env, tags, s, n, m); }
      forall m: nat | m >= n + k
        ensures Passes(env, tags, s, m).world.woken == Passes(env, tags, s, n + k).world.woken
      {
        assert Passes(env, tags, s', m - n).world.woken == Passes(env, tags, s', k).world.woken;
      }
      k := n + k;
    } else {
      k := 0;
    }
  }

  /** From the pass after k on, every pass has a run that misses nothing and fails by the flag alone. */
  ghost predicate SpoiledFrom(env: Environment, tags: seq<Tag>, s: Loop, k: nat)
    requires |tags| == |s.done|
  {
    forall n: nat :: n > k ==> Passes(env, tags, s, n).spoiled > 0
  }

  /** The loop ends if and only if in some pass a step asks to be sequentialized, or the wakeups and spoiled runs do
      not outnumber the excess suspends. If it does not end, then from some pass on no wakeup comes, and it is
      spoiled runs that keep it going, in every single pass. */
  lemma SpinsIff(env: Environment, tags: seq<Tag>, s: Loop, u: set<Item>)
    requires |tags| == |s.done| && !s.sequential && WaitsIn(s.world, u) && NeedsIn(tags, u)
    ensures Stops(env, tags, s) <==> exists n: nat :: !Outnumbered(env, tags, s, n)
    ensures !Stops(env, tags, s) ==> exists k :: QuietFrom(env, tags, s, k) && SpoiledFrom(env, tags, s, k)
  {
    hide Outnumbered, Repeated, Stops, WaitsIn, NeedsIn;
    StopsOrRepeats(env, tags, s);
    if n: nat :| !Outnumbered(env, tags, s, n) {
      if forall k: nat :: Repeated(env, tags, s, k) { AlwaysOutnumbered(env, tags, s, n); }
    }
    if n: nat :| !Repeated(env, tags, s, n) {
      var m := SomeNot(env, tags, s, n);
    }
    if !Stops(env, tags, s) {
      var k := WakeupsEnd(env, tags, s, u);
      forall n: nat | n > k ensures Passes(env, tags, s, n).spoiled > 0 { SpoiledThen(env, tags, s, k, n - 1); }
      assert SpoiledFrom(env, tags, s, k);
    }
  }

  lemma PassRepeatsIff(env: Environment, tags: seq<Tag>, s: Loop, n: nat)
    requires |tags| == |s.done| && !Passes(env, tags, s, n).sequential
    ensures Repeated(env, tags, s, n) <==> Outnumbered(env, tags, s, n)
    ensures var a, b := Passes(env, tags, s, n), Passes(env, tags, s, n + 1);
            b.world.added - a.world.added >= b.missed
  {
    hide Pass, Repeats, Later;
    OneMore(env, tags, s, n);
    RepeatsIff(env, tags, Passes(env, tags, s, n));
  }

  lemma AlwaysOutnumbered(env: Environment, tags: seq<Tag>, s: Loop, n: nat)
    requires |tags| == |s.done| && !s.sequential && forall k: nat :: Repeated(env, tags, s, k)
    ensures !Passes(env, tags, s, n).sequential && Outnumbered(env, tags, s, n)
  {
    if n > 0 { assert Repeated(env, tags, s, n - 1); }
    PassRepeatsIff(env, tags, s, n);
  }

  lemma SomeNot(env: Environment, tags: seq<Tag>, s: Loop, n: nat) returns (m: nat)
    requires |tags| == |s.done| && !s.sequential && !Repeated(env, tags, s, n)
    ensures !Outnumbered(env, tags, s, m)
  {
    if Passes(env, tags, s, n).sequential {
      m := n - 1;
    } else {
      m := n;
      PassRepeatsIff(env, tags, s, n);
    }
  }

  lemma SpoiledThen(env: Environment, tags: seq<Tag>, s: Loop, k: nat, n: nat)
    requires |tags| == |s.done| && !s.sequential && (forall m: nat :: Repeated(env, tags, s, m))
    requires QuietFrom(env, tags, s, k) && n >= k
    ensures Passes(env, tags, s, n + 1).spoiled > 0
  {
    hide Repeated;
    AlwaysOutnumbered(env, tags, s, n);
    PassRepeatsIff(env, tags, s, n);
    assert Passes(env, tags, s, n + 1).world.woken == Passes(env, tags, s, n).world.woken;
  }
}
