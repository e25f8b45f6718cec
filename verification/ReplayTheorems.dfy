/** What the suspend/replay machine guarantees over whole runs: no step is queued or executed twice
    at a time, no wakeup is lost, quiescence is detected correctly, and the result is determined by
    the program alone, whatever the interleaving. */
module ReplayTheorems {
  import opened Sums
  import opened ReplayModel
  import opened ReplayCounting
  import opened ReplaySafety
  import opened ReplayWaking
  import opened ReplaySteps

  ghost predicate Trace(c: Program, ss: seq<State>, es: seq<Event>, workers: nat) {
    && ValidProgram(c) && |ss| == |es| + 1 && ss[0] == Init(workers)
    && forall i :: 0 <= i < |es| ==> Enabled(c, ss[i], es[i]) && ss[i + 1] == Apply(c, ss[i], es[i])
  }

  lemma {:induction false} RunInv(c: Program, ss: seq<State>, es: seq<Event>, workers: nat, i: nat)
    requires Trace(c, ss, es, workers) && i < |ss|
    ensures Inv(c, ss[i])
  {
    hide Inv, Init, Apply, Enabled;
    if i == 0 {
      InitInv(c, workers);
    } else {
      RunInv(c, ss, es, workers, i - 1);
      assert Enabled(c, ss[i - 1], es[i - 1]);
      StepKeepsInv(c, ss[i - 1], es[i - 1]);
    }
  }

  /** Thread i prepares or executes x. */
  predicate WorksOn(s: State, i: nat, x: Step)
    requires i < |s.threads|
  {
    var f := s.threads[i];
    ((f.Run? || f.Failed? || f.Popped?) && f.step == x) || (SubOf(f).Prep? && SubOf(f).child == x)
  }

  /** At any time, an unfinished step is with at most one thread, or queued at one place, and not
      both; a finished step is with none and not queued: it never runs again. */
  lemma NeverTwice(c: Program, ss: seq<State>, es: seq<Event>, workers: nat, n: nat, x: Step)
    requires Trace(c, ss, es, workers) && n < |ss|
    ensures var s := ss[n];
            && (forall i, j :: 0 <= i < j < |s.threads| ==> !(WorksOn(s, i, x) && WorksOn(s, j, x)))
            && (forall i, j :: 0 <= i < j < |s.queue| ==> !(s.queue[i] == x && s.queue[j] == x))
            && (forall i :: 0 <= i < |s.threads| && WorksOn(s, i, x) ==> x !in s.queue)
            && (x in s.finished ==> x !in s.queue && forall i :: 0 <= i < |s.threads| ==> !WorksOn(s, i, x))
  {
    hide FrameOk, WaitOk, Completed, DependsOk;
    RunInv(c, ss, es, workers, n);
    var s := ss[n];
    assert StepOk(s, x);
    NonNegative(s, x);
    IsStepNonNegative(s.queue, x);
    SumNonNegative(s.threads, FreeOf(x));
    assert forall i :: 0 <= i < |s.threads| && WorksOn(s, i, x) ==>
        GuardOf(x)(s.threads[i]) >= 1 || FreeOf(x)(s.threads[i]) >= 1;
    forall i, j | 0 <= i < j < |s.threads| ensures !(WorksOn(s, i, x) && WorksOn(s, j, x)) {
      SumTwo(s.threads, i, j, GuardOf(x));
      SumTwo(s.threads, i, j, FreeOf(x));
    }
    forall i, j | 0 <= i < j < |s.queue| ensures !(s.queue[i] == x && s.queue[j] == x) {
      SumTwo(s.queue, i, j, IsStep(x));
    }
  }

  /** m_nSuspenders counts memberships and guards, and an unguarded step is queued or scheduled
      exactly if it is in no group: no wakeup is lost and none comes twice. */
  lemma SuspendCount(c: Program, ss: seq<State>, es: seq<Event>, workers: nat, n: nat, x: Step)
    requires Trace(c, ss, es, workers) && n < |ss| && x in ss[n].n && x !in ss[n].finished
    ensures ss[n].n[x] == Guards(ss[n], x) + Members(ss[n], x)
    ensures Guards(ss[n], x) == 0 || Guards(ss[n], x) == 1
    ensures Guards(ss[n], x) == 0 ==> Free(ss[n], x) == if Members(ss[n], x) == 0 then 1 else 0
    ensures Guards(ss[n], x) == 1 ==> Free(ss[n], x) == 0
  {
    RunInv(c, ss, es, workers, n);
    assert StepOk(ss[n], x);
    NonNegative(ss[n], x);
  }

  /** No present item has a suspend group. */
  lemma GroupsAreForAbsentItems(c: Program, ss: seq<State>, es: seq<Event>, workers: nat, n: nat, w: (Tag, Step))
    requires Trace(c, ss, es, workers) && n < |ss| && w in ss[n].waits
    ensures w.0 !in ss[n].items && WaitsFor(c, ss[n], w.1, w.0)
  {
    RunInv(c, ss, es, workers, n);
    var k :| 0 <= k < |ss[n].waits| && ss[n].waits[k] == w;
    assert WaitOk(c, ss[n], ss[n].waits[k]);
  }

  /** Thread i < n is preparing, executing or leaving a step, or is the environment that waits. */
  function Working(s: State, n: nat): set<nat>
    requires n <= |s.threads|
  {
    set i: nat | i < n && !s.threads[i].Idle? && !s.threads[i].Env?
  }

  /** Thread i < n has counted a step that it woke and not queued it yet. */
  function Queueing(s: State, n: nat): set<nat>
    requires n <= |s.threads|
  {
    set i: nat | i < n && SubOf(s.threads[i]).Wake? && SubOf(s.threads[i]).hand.Counted?
  }

  lemma OneThreadMore(s: State, i: nat)
    requires i < |s.threads|
    ensures |Working(s, i + 1)| + |Queueing(s, i + 1)| == |Working(s, i)| + |Queueing(s, i)| + BusyOf()(s.threads[i])
  {
    assert Working(s, i + 1) == Working(s, i) + if i in Working(s, i + 1) then {i} else {};
    assert Queueing(s, i + 1) == Queueing(s, i) + if i in Queueing(s, i + 1) then {i} else {};
  }

  lemma {:induction false} BusyThreads(s: State, n: nat)
    requires n <= |s.threads|
    ensures Sum(s.threads[..n], BusyOf()) == |Working(s, n)| + |Queueing(s, n)|
  {
    if n > 0 {
      var i: nat := n - 1;
      BusyThreads(s, i);
      assert s.threads[..n] == s.threads[..i] + [s.threads[i]];
      SumAppend(s.threads[..i], [s.threads[i]], BusyOf());
      SumOne(s.threads[i], BusyOf());
      hide Sum;
      OneThreadMore(s, i);
    }
  }

  /** m_userStepsInFlight is exactly the number of queued steps, of threads that work on a step (the waiting
      environment counts as one) and of steps counted on their way into the queue. */
  lemma InFlight(c: Program, ss: seq<State>, es: seq<Event>, workers: nat, n: nat)
    requires Trace(c, ss, es, workers) && n < |ss|
    ensures var s := ss[n]; s.inflight == |s.queue| + |Working(s, |s.threads|)| + |Queueing(s, |s.threads|)|
  {
    RunInv(c, ss, es, workers, n);
    BusyThreads(ss[n], |ss[n].threads|);
    assert ss[n].threads[..|ss[n].threads|] == ss[n].threads;
  }

  lemma BusyNonNegative(s: State)
    ensures Sum(s.threads, BusyOf()) >= 0
    ensures forall i :: 0 <= i < |s.threads| ==> 0 <= BusyOf()(s.threads[i]) <= Sum(s.threads, BusyOf())
  {
    SumNonNegative(s.threads, BusyOf());
  }

  /** When the waiter sees a count of one, nothing is queued and no thread does anything. */
  lemma QuietState(c: Program, s: State)
    requires Inv(c, s) && Quiescent(s)
    ensures s.queue == []
    ensures forall i :: 1 <= i < |s.threads| ==> s.threads[i].Idle?
    ensures forall x :: Guards(s, x) == 0 && Free(s, x) == 0 && Members(s, x) == Sum(s.waits, WaitOf(x))
  {
    hide StepOk, FrameOk, WaitOk, Completed, DependsOk;
    BusyNonNegative(s);
    forall i | 1 <= i < |s.threads| ensures s.threads[i].Idle? {
      SumTwo(s.threads, 0, i, BusyOf());
    }
    forall x ensures Guards(s, x) == 0 && Free(s, x) == 0 && Members(s, x) == Sum(s.waits, WaitOf(x)) {
      SumZero(s.threads, GuardOf(x));
      SumZero(s.threads, FreeOf(x));
      SumZero(s.threads, ListOf(x));
    }
  }

  /** At quiescence an unfinished step waits for an absent item. */
  lemma WaitsAtQuiescence(c: Program, s: State, x: Step) returns (t: Tag)
    requires Inv(c, s) && Quiescent(s) && x in s.n && x !in s.finished
    ensures (t, x) in s.waits && t !in s.items && WaitsFor(c, s, x, t)
  {
    hide FrameOk, Completed, DependsOk, WaitsFor;
    QuietState(c, s);
    assert StepOk(s, x);
    NonNegative(s, x);
    if forall k :: 0 <= k < |s.waits| ==> WaitOf(x)(s.waits[k]) == 0 {
      SumZero(s.waits, WaitOf(x));
    }
    var k :| 0 <= k < |s.waits| && WaitOf(x)(s.waits[k]) != 0;
    t := s.waits[k].0;
    assert s.waits[k] == (t, x);
    assert WaitOk(c, s, s.waits[k]);
  }

  /** The wait returns only when nothing can happen any more, and then every step that is not
      finished is in the suspend group of an absent item that it needs. */
  lemma Quiescence(c: Program, ss: seq<State>, es: seq<Event>, workers: nat, n: nat)
    requires Trace(c, ss, es, workers) && n < |ss| && Quiescent(ss[n])
    ensures forall e :: !Enabled(c, ss[n], e)
    ensures forall x :: x in ss[n].n && x !in ss[n].finished ==>
              exists t :: (t, x) in ss[n].waits && t !in ss[n].items && WaitsFor(c, ss[n], x, t)
  {
    hide Inv, WaitsFor;
    RunInv(c, ss, es, workers, n);
    QuietState(c, ss[n]);
    forall x | x in ss[n].n && x !in ss[n].finished
      ensures exists t :: (t, x) in ss[n].waits && t !in ss[n].items && WaitsFor(c, ss[n], x, t)
    {
      var t := WaitsAtQuiescence(c, ss[n], x);
    }
  }

  /** As long as the wait cannot return, some thread can act. */
  lemma NeverStuck(c: Program, ss: seq<State>, es: seq<Event>, workers: nat, n: nat)
    requires Trace(c, ss, es, workers) && n < |ss| && workers >= 1 && !Quiescent(ss[n])
    ensures exists e :: Enabled(c, ss[n], e)
  {
    RunInv(c, ss, es, workers, n);
    ThreadCount(c, ss, es, workers, n);
    var s := ss[n];
    if !s.threads[0].Waiting? {
      assert Enabled(c, s, Go(0));
    } else if i :| 1 <= i < |s.threads| && !s.threads[i].Idle? {
      assert Enabled(c, s, Go(i));
    } else {
      SumSingle(s.threads, 0, BusyOf());
      assert s.queue != [];
      assert Enabled(c, s, Pop(1, 0));
    }
  }

  lemma {:induction false} ThreadCount(c: Program, ss: seq<State>, es: seq<Event>, workers: nat, n: nat)
    requires Trace(c, ss, es, workers) && n < |ss|
    ensures |ss[n].threads| == 1 + workers
  {
    if n > 0 {
      ThreadCount(c, ss, es, workers, n - 1);
      assert Enabled(c, ss[n - 1], es[n - 1]);
      assert ss[n] == Apply(c, ss[n - 1], es[n - 1]);
    }
  }

  /*** determinacy ***/

  /** Event e assigns an item that is there another value. */
  predicate Conflicts(c: Program, s: State, e: Event) {
    && e.Go? && e.i < |s.threads|
    && var f := s.threads[e.i];
       && SubOf(f) == CALM
       && var op := if f.Run? then OpOf(c, f) else if f.Env? && f.pc < |c.script| then c.script[f.pc] else Finish;
          op.Put? && op.tag in s.items && s.items[op.tag] != op.value
  }

  lemma ClashStep(c: Program, s: State, e: Event)
    requires ValidProgram(c) && Enabled(c, s, e)
    ensures Apply(c, s, e).clash <==> s.clash || Conflicts(c, s, e)
  {
    hide Others, Group;
  }

  /** The clash flag means that some item was assigned two different values, and nothing less. */
  lemma {:induction false} ClashIff(c: Program, ss: seq<State>, es: seq<Event>, workers: nat, n: nat)
    requires Trace(c, ss, es, workers) && n < |ss|
    ensures ss[n].clash <==> exists i :: 0 <= i < n && Conflicts(c, ss[i], es[i])
  {
    hide Apply, Enabled, Conflicts;
    if n > 0 {
      ClashIff(c, ss, es, workers, n - 1);
      assert Enabled(c, ss[n - 1], es[n - 1]) && ss[n] == Apply(c, ss[n - 1], es[n - 1]);
      ClashStep(c, ss[n - 1], es[n - 1]);
    }
  }

  /** A step that gets beyond operation k does not end there and finds there what it needs. */
  lemma GetsBeyond(c: Program, s: State, x: Step, k: nat, j: nat)
    requires k < j && Reaches(c, s.items, x, j).Some?
    ensures !Ends(c, s, x, k) && forall t :: Needs(c, s, x, k, t) ==> t in s.items
  {
    ReachesEarlier(c, s.items, x, k + 1, j);
  }

  /** A step that needs an absent item, or has ended, gets no further. */
  lemma NoFurther(c: Program, s: State, x: Step, k: nat, j: nat)
    requires Reaches(c, s.items, x, j).Some?
    requires Ends(c, s, x, k) || exists t :: t !in s.items && Needs(c, s, x, k, t)
    ensures j <= k
  {
    if k < j { GetsBeyond(c, s, x, k, j); }
  }

  /** At quiescence, every put and spawn that a step can get to has happened. */
  lemma OpDone(c: Program, s: State, x: Step, k: nat)
    requires Inv(c, s) && Quiescent(s) && x in s.n && Reaches(c, s.items, x, k).Some?
    requires var op := c.body(x, k, Reaches(c, s.items, x, k).value); op.Put? || op.Spawn?
    ensures Happened(c.body(x, k, Reaches(c, s.items, x, k).value), s)
  {
    hide StepOk, FrameOk, DependsOk, WaitOk, Quiescent;
    if x in s.finished {
      var k' : nat :| At(c, s, x, k') && Ends(c, s, x, k');
      NoFurther(c, s, x, k', k);
      assert k < k' && OpHappened(c, s, x, k);
    } else {
      var t := WaitsAtQuiescence(c, s, x);
      ReachesEarlier(c, s.items, x, 0, k);
      assert t !in c.depends(x);
      var k' : nat :| At(c, s, x, k') && Needs(c, s, x, k', t);
      NoFurther(c, s, x, k', k);
      assert k < k' && OpHappened(c, s, x, k);
    }
  }

  /** b has everything that s has, and s never assigned an item twice with different values. */
  ghost predicate Within(s: State, b: State) {
    Grows(s, b) && !s.clash
  }

  ghost predicate SameData(s: State, s': State) {
    s'.items == s.items && s'.n.Keys == s.n.Keys && s'.clash == s.clash
  }

  /** Suspending and unsuspending change the counters of steps that exist already. */
  lemma SubKeepsData(c: Program, s: State, i: nat)
    requires Inv(c, s) && i < |s.threads| && SubOf(s.threads[i]) != CALM
    ensures SameData(s, SubStep(c, s, i))
  {
    hide FrameOk, WaitOk, Completed, DependsOk;
    match SubOf(s.threads[i]) {
      case Prep(x, _) =>
        assert StepOk(s, x);
        hide StepOk;
        Guarded(s, i, x);
      case Wake(list, hand) =>
        if hand.Nobody? {
          assert StepOk(s, list[0]);
          hide StepOk;
          Listed(s, i, list[0]);
        }
    }
  }

  lemma KnownStep(c: Program, s: State, i: nat)
    requires Inv(c, s) && i < |s.threads| && (s.threads[i].Popped? || s.threads[i].Failed? || s.threads[i].Run?)
    ensures s.threads[i].step in s.n
  {
    hide FrameOk, WaitOk, Completed, DependsOk;
    var f := s.threads[i];
    assert StepOk(s, f.step);
    NonNegative(s, f.step);
    assert GuardOf(f.step)(f) >= 1 || FreeOf(f.step)(f) >= 1;
  }

  /** Only a put or a spawn changes the items, the steps or the clash flag. */
  lemma OnlyOps(c: Program, s: State, e: Event) returns (i: nat, op: Op)
    requires ValidProgram(c) && Inv(c, s) && Enabled(c, s, e) && !SameData(s, Apply(c, s, e))
    ensures AtOp(c, s, i, op)
    ensures match op
            case Put(t, v) => Apply(c, s, e) == DoPut(s, i, t, v)
            case Spawn(x) => Apply(c, s, e) == DoSpawn(s, i, x)
            case _ => false
  {
    hide Inv, DoPut, DoSpawn, SubStep;
    i := e.i;
    var f := s.threads[i];
    op := if f.Run? then OpOf(c, f) else if f.Env? && f.pc < |c.script| then c.script[f.pc] else Finish;
    if SubOf(f) != CALM {
      SubKeepsData(c, s, i);
    } else if f.Popped? || f.Failed? || f.Run? {
      KnownStep(c, s, i);
    }
  }

  /** What one run does stays within what a complete run without clashes has done. */
  lemma StaysWithin(c: Program, s: State, e: Event, b: State)
    requires ValidProgram(c) && Inv(c, s) && Enabled(c, s, e) && Within(s, b)
    requires Inv(c, b) && Quiescent(b) && !b.clash
    ensures Within(Apply(c, s, e), b)
  {
    hide StepOk, WaitOk, DependsOk, Completed, SubStep, Apply;
    var s' := Apply(c, s, e);
    if !SameData(s, s') {
      var i, op := OnlyOps(c, s, e);
      OpWithin(c, s, i, op, b);
    }
  }

  lemma OpWithin(c: Program, s: State, i: nat, op: Op, b: State)
    requires AtOp(c, s, i, op) && Within(s, b) && Inv(c, b) && Quiescent(b) && !b.clash
    ensures Happened(op, b)
  {
    hide StepOk, WaitOk, DependsOk, Completed, Members;
    var f := s.threads[i];
    assert FrameOk(c, s, f) && FrameOk(c, b, b.threads[0]);
    if f.Run? {
      ReachesGrows(c, s, b, f.step, f.k);
      OpDone(c, b, f.step, f.k);
    }
  }

  lemma {:induction false} Contained(c: Program, ss: seq<State>, es: seq<Event>, workers: nat, i: nat, b: State)
    requires Trace(c, ss, es, workers) && i < |ss| && Inv(c, b) && Quiescent(b) && !b.clash
    ensures Within(ss[i], b)
  {
    hide Inv, Apply, Enabled;
    if i > 0 {
      Contained(c, ss, es, workers, i - 1, b);
      RunInv(c, ss, es, workers, i - 1);
      assert Enabled(c, ss[i - 1], es[i - 1]);
      StaysWithin(c, ss[i - 1], es[i - 1], b);
    }
  }

  lemma FinishedToo(c: Program, a: State, b: State, x: Step)
    requires Inv(c, a) && Inv(c, b) && Quiescent(b) && Grows(a, b) && x in a.finished
    ensures x in b.finished
  {
    hide StepOk, FrameOk, DependsOk, WaitOk, Quiescent;
    CompletedGrows(c, a, b, x);
    if x !in b.finished {
      var k: nat :| At(c, b, x, k) && Ends(c, b, x, k);
      var t := WaitsAtQuiescence(c, b, x);
      ReachesEarlier(c, b.items, x, 0, k);
      assert t !in c.depends(x);
      var k' : nat :| At(c, b, x, k') && Needs(c, b, x, k', t);
      NoFurther(c, b, x, k, k');
      NoFurther(c, b, x, k', k);
    }
  }

  /** Determinacy: if one complete run of a program assigns no item two different values, then no run
      of the program does, with any number of threads and any interleaving, and every complete run
      ends with the same items, the same steps created and the same steps finished. */
  lemma Determinacy(c: Program, ss: seq<State>, es: seq<Event>, workers: nat,
                    ss': seq<State>, es': seq<Event>, workers': nat)
    requires Trace(c, ss, es, workers) && Trace(c, ss', es', workers')
    requires Quiescent(ss[|es|]) && Quiescent(ss'[|es'|]) && !ss[|es|].clash
    ensures var a, b := ss'[|es'|], ss[|es|];
            !a.clash && a.items == b.items && a.n.Keys == b.n.Keys && a.finished == b.finished
  {
    hide Inv, Quiescent;
    var a, b := ss'[|es'|], ss[|es|];
    RunInv(c, ss, es, workers, |es|);
    RunInv(c, ss', es', workers', |es'|);
    Contained(c, ss', es', workers', |es'|, b);
    Contained(c, ss, es, workers, |es|, a);
    forall x ensures x in a.finished <==> x in b.finished {
      if x in a.finished { FinishedToo(c, a, b, x); }
      if x in b.finished { FinishedToo(c, b, a, x); }
    }
  }

  /** Also a run that is not complete stays within the result of a complete one. */
  lemma EveryRunWithin(c: Program, ss: seq<State>, es: seq<Event>, workers: nat,
                       ss': seq<State>, es': seq<Event>, workers': nat, i: nat)
    requires Trace(c, ss, es, workers) && Trace(c, ss', es', workers') && i < |ss'|
    requires Quiescent(ss[|es|]) && !ss[|es|].clash
    ensures var a, b := ss'[i], ss[|es|];
            !a.clash && (forall t :: t in a.items ==> t in b.items && a.items[t] == b.items[t]) && a.n.Keys <= b.n.Keys
  {
    hide Inv, Quiescent;
    RunInv(c, ss, es, workers, |es|);
    Contained(c, ss', es', workers', i, ss[|es|]);
  }
}
