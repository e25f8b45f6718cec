/** Every action of every thread keeps the invariant of the suspend/replay machine. */
module ReplaySafety {
  import opened Sums
  import opened ReplayModel
  import opened ReplayCounting

  /** A guarded step is created and unfinished, and no other thread guards it. */
  lemma Guarded(s: State, i: nat, x: Step)
    requires i < |s.threads| && StepOk(s, x) && GuardOf(x)(s.threads[i]) >= 1
    ensures x in s.n && x !in s.finished
    ensures Guards(s, x) == 1 && Free(s, x) == 0 && s.n[x] == 1 + Members(s, x)
    ensures forall j :: 0 <= j < |s.threads| && j != i ==> GuardOf(x)(s.threads[j]) == 0
  {
    NonNegative(s, x);
    forall j | 0 <= j < |s.threads| && j != i ensures GuardOf(x)(s.threads[j]) == 0 {
      GuardUnique(s, i, j, x);
    }
  }

  /** A step about to be executed is created and unfinished, unguarded and in no group. */
  lemma IsFree(s: State, i: nat, x: Step)
    requires i < |s.threads| && StepOk(s, x) && FreeOf(x)(s.threads[i]) >= 1
    ensures x in s.n && x !in s.finished && s.n[x] == 0
    ensures Guards(s, x) == 0 && Free(s, x) == 1 && Members(s, x) == 0
  {
    NonNegative(s, x);
  }

  /** The frame conditions for a step that only changes thread i and the counters of x. */
  lemma OthersKeep(s: State, s': State, i: nat)
    requires i < |s.threads| && s'.finished == s.finished
    requires forall x :: StepOk(s, x)
    requires forall y :: (forall j :: 0 <= j < |s.threads| && j != i ==> GuardOf(y)(s.threads[j]) == 0)
                         || Members(s', y) <= Members(s, y)
    ensures forall j, y :: 0 <= j < |s.threads| && j != i && s.threads[j].Run? && s.threads[j].step == y ==>
              y !in s'.finished && (Members(s, y) == 0 ==> Members(s', y) == 0 || Members(s', y) < 0)
  {
    hide StepOk, Members;
    forall j, y | 0 <= j < |s.threads| && j != i && s.threads[j].Run? && s.threads[j].step == y
      ensures y !in s'.finished && (Members(s, y) == 0 ==> Members(s', y) == 0 || Members(s', y) < 0)
    {
      assert StepOk(s, y);
      assert GuardOf(y)(s.threads[j]) >= 1;
      Guarded(s, j, y);
    }
  }

  /*** scheduling ***/

  lemma PopKeeps(c: Program, s: State, i: nat, j: nat)
    requires ValidProgram(c) && Inv(c, s) && Enabled(c, s, Pop(i, j))
    ensures Inv(c, Apply(c, s, Pop(i, j)))
  {
    var s' := Apply(c, s, Pop(i, j));
    forall x ensures StepOk(s', x) && Members(s', x) == Members(s, x) {
      assert StepOk(s, x);
      FrameChanges(s, i, s'.threads[i], x);
      SumRemove(s.queue, j, IsStep(x));
    }
    FrameChanges(s, i, s'.threads[i], s.queue[j]);
    Quiet(c, s, s', i);
    MovesKeepInv(c, s, s', i);
  }

  /** An action that leaves items, groups and the set of steps alone. */
  lemma Quiet(c: Program, s: State, s': State, i: nat)
    requires Inv(c, s) && i < |s.threads| && |s'.threads| == |s.threads| && s'.threads == s.threads[i := s'.threads[i]]
    requires s'.items == s.items && s'.n.Keys == s.n.Keys && s'.clash == s.clash && s'.finished == s.finished
    requires s'.waits == s.waits && Shape(s')
    requires forall x :: Members(s', x) <= Members(s, x)
    requires forall x, p: nat :: Preparing(s.threads[i], x, p) ==> Preparing(s'.threads[i], x, p) || Served(c, s', x, p)
    ensures Moves(c, s, s', i)
  {
    hide StepOk, FrameOk, Members, WaitsFor;
    OthersKeep(s, s', i);
    forall j, y | 0 <= j < |s.threads| && j != i && s.threads[j].Run? && s.threads[j].step == y
      ensures Members(s, y) == 0 ==> Members(s', y) == 0
    {
      NonNegative(s', y);
    }
    forall w | w in s'.waits ensures w.0 !in s'.items {
      var k :| 0 <= k < |s.waits| && s.waits[k] == w;
      assert WaitOk(c, s, s.waits[k]);
    }
  }

  /** A free step has all its dependencies. */
  lemma FreeDepends(c: Program, s: State, i: nat, x: Step)
    requires Inv(c, s) && i < |s.threads| && FreeOf(x)(s.threads[i]) >= 1
    ensures AllIn(c.depends(x), s.items)
  {
    hide FrameOk, WaitOk, Completed;
    assert StepOk(s, x);
    IsFree(s, i, x);
    NonNegative(s, x);
    assert forall j :: 0 <= j < |s.threads| ==> GuardOf(x)(s.threads[j]) == 0;
    forall p | 0 <= p < |c.depends(x)| ensures c.depends(x)[p] in s.items {
      assert DependsOk(c, s, x, p);
      if c.depends(x)[p] !in s.items { InGroup(s, c.depends(x)[p], x); }
    }
  }

  lemma InGroup(s: State, t: Tag, x: Step)
    requires (t, x) in s.waits
    ensures Members(s, x) >= 1
  {
    var k :| 0 <= k < |s.waits| && s.waits[k] == (t, x);
    SumNonNegative(s.waits, WaitOf(x));
    assert WaitOf(x)(s.waits[k]) == 1;
    ListNonNegative(s, x);
    SumNonNegative(s.threads, ListOf(x));
  }

  lemma GuardKeeps(c: Program, s: State, i: nat)
    requires ValidProgram(c) && Inv(c, s) && i < |s.threads| && s.threads[i].Popped?
    ensures Inv(c, Apply(c, s, Go(i)))
  {
    hide StepOk, WaitOk, Completed, DependsOk, Served, FrameOk, Members, Guards, Free;
    var s', x := Apply(c, s, Go(i)), s.threads[i].step;
    assert StepOk(s, x);
    IsFree(s, i, x);
    FreeDepends(c, s, i, x);
    forall y ensures StepOk(s', y) && Members(s', y) == Members(s, y) {
      assert StepOk(s, y);
      GuardCounts(s, s', i, x, y);
    }
    FrameChanges(s, i, s'.threads[i], x);
    Quiet(c, s, s', i);
    assert FrameOk(c, s', s'.threads[i]) by { Started(c, s', x); }
    MovesKeepInv(c, s, s', i);
  }

  lemma GuardCounts(s: State, s': State, i: nat, x: Step, y: Step)
    requires i < |s.threads| && s.threads[i] == Popped(x) && StepOk(s, x) && StepOk(s, y)
    requires s' == s.(n := s.n[x := Suspends(s, x) + 1], threads := s.threads[i := Run(x, 0, [], 0, [], false, CALM)])
    ensures StepOk(s', y) && Members(s', y) == Members(s, y)
  {
    IsFree(s, i, x);
    FrameChanges(s, i, s'.threads[i], y);
  }

  /** A step at its first operation. */
  lemma Started(c: Program, s: State, x: Step)
    requires x in s.n && x !in s.finished && Members(s, x) == 0 && AllIn(c.depends(x), s.items)
    ensures FrameOk(c, s, Run(x, 0, [], 0, [], false, CALM))
  {
    hide Members;
  }

  lemma FailedKeeps(c: Program, s: State, i: nat)
    requires ValidProgram(c) && Inv(c, s) && i < |s.threads| && s.threads[i].Failed?
    ensures Inv(c, Apply(c, s, Go(i)))
  {
    hide StepOk, WaitOk, Completed, DependsOk, Served, FrameOk, Members, Guards, Free;
    var s', x := Apply(c, s, Go(i)), s.threads[i].step;
    assert StepOk(s, x);
    Guarded(s, i, x);
    forall y ensures StepOk(s', y) && Members(s', y) == Members(s, y) {
      assert StepOk(s, y);
      FailedCounts(s, s', i, x, y);
    }
    FrameChanges(s, i, s'.threads[i], x);
    Quiet(c, s, s', i);
    assert FrameOk(c, s', s'.threads[i]) by { Trivial(c, s', s'.threads[i]); }
    MovesKeepInv(c, s, s', i);
  }

  lemma Trivial(c: Program, s: State, f: Frame)
    requires !f.Run? && !f.Env? && !f.Waiting?
    ensures FrameOk(c, s, f)
  {
  }

  lemma FailedCounts(s: State, s': State, i: nat, x: Step, y: Step)
    requires i < |s.threads| && s.threads[i] == Failed(x) && StepOk(s, x) && StepOk(s, y)
    requires s' == Unsuspend(s, x).(threads := s.threads[i := if Suspends(s, x) == 1 then Popped(x) else Leave])
    ensures StepOk(s', y) && Members(s', y) == Members(s, y)
  {
    Guarded(s, i, x);
    NonNegative(s, x);
    FrameChanges(s, i, s'.threads[i], y);
  }

  /** Changes of a frame that no counter of a step sees. */
  lemma SameCounts(s: State, s': State, i: nat, f: Frame, y: Step)
    requires i < |s.threads| && StepOk(s, y)
    requires s'.threads == s.threads[i := f] && s'.n == s.n && s'.waits == s.waits && s'.finished == s.finished
    requires Sum(s'.queue, IsStep(y)) + FreeOf(y)(f) == Sum(s.queue, IsStep(y)) + FreeOf(y)(s.threads[i])
    requires GuardOf(y)(f) == GuardOf(y)(s.threads[i]) && ListOf(y)(f) == ListOf(y)(s.threads[i])
    ensures StepOk(s', y) && Members(s', y) == Members(s, y)
  {
    FrameChanges(s, i, f, y);
  }

  lemma LeaveKeeps(c: Program, s: State, i: nat)
    requires ValidProgram(c) && Inv(c, s) && i < |s.threads| && s.threads[i].Leave?
    ensures Inv(c, Apply(c, s, Go(i)))
  {
    hide StepOk, WaitOk, Completed, DependsOk, Served, FrameOk, Members, Guards, Free;
    var s' := Apply(c, s, Go(i));
    forall y ensures StepOk(s', y) && Members(s', y) == Members(s, y) {
      assert StepOk(s, y);
      SameCounts(s, s', i, Idle, y);
      FrameChanges(s, i, Idle, y);
    }
    SumUpdate(s.threads, i, Idle, BusyOf());
    Quiet(c, s, s', i);
    assert FrameOk(c, s', Idle) by { Trivial(c, s', Idle); }
    MovesKeepInv(c, s, s', i);
  }

  lemma EnvWaitKeeps(c: Program, s: State, i: nat)
    requires ValidProgram(c) && Inv(c, s) && i < |s.threads|
    requires s.threads[i].Env? && s.threads[i].sub == CALM && s.threads[i].pc >= |c.script|
    ensures Inv(c, Apply(c, s, Go(i)))
  {
    hide StepOk, WaitOk, Completed, DependsOk, Served, FrameOk, Members, Guards, Free;
    var s' := Apply(c, s, Go(i));
    forall y ensures StepOk(s', y) && Members(s', y) == Members(s, y) {
      assert StepOk(s, y);
      SameCounts(s, s', i, Waiting, y);
    }
    SumUpdate(s.threads, i, Waiting, BusyOf());
    assert FrameOk(c, s, s.threads[i]);
    Quiet(c, s, s', i);
    assert FrameOk(c, s', Waiting) by { EnvDone(c, s, s', s.threads[i]); }
    MovesKeepInv(c, s, s', i);
  }

  lemma EnvDone(c: Program, s: State, s': State, f: Frame)
    requires f.Env? && f.pc >= |c.script| && FrameOk(c, s, f) && Grows(s, s')
    ensures FrameOk(c, s', Waiting)
  {
  }

  /*** suspending ***/

  /** Thread i, which guards x, suspends it for t. */
  lemma SuspendCounts(s: State, s': State, i: nat, t: Tag, x: Step, f: Frame, y: Step)
    requires i < |s.threads| && StepOk(s, x) && StepOk(s, y) && GuardOf(x)(s.threads[i]) >= 1
    requires GuardOf(y)(f) == GuardOf(y)(s.threads[i]) && ListOf(y)(f) == ListOf(y)(s.threads[i])
    requires FreeOf(y)(f) == FreeOf(y)(s.threads[i])
    requires s' == Suspend(s, t, x).(threads := s.threads[i := f])
    ensures StepOk(s', y) && (y != x ==> Members(s', y) == Members(s, y))
  {
    Guarded(s, i, x);
    NonNegative(s, y);
    FrameChanges(s, i, f, y);
    SumAppend(s.waits, [(t, x)], WaitOf(y));
    SumOne((t, x), WaitOf(y));
  }

  lemma SuspendMoves(c: Program, s: State, s': State, i: nat, t: Tag, x: Step)
    requires Inv(c, s) && i < |s.threads| == |s'.threads| && s'.threads == s.threads[i := s'.threads[i]]
    requires GuardOf(x)(s.threads[i]) >= 1 && x in s.n
    requires s' == Suspend(s, t, x).(threads := s'.threads) && Shape(s')
    requires forall y :: y != x ==> Members(s', y) == Members(s, y)
    requires t !in s.items && WaitsFor(c, s', x, t)
    requires forall y, p: nat :: Preparing(s.threads[i], y, p) ==> Preparing(s'.threads[i], y, p) || Served(c, s', y, p)
    ensures Moves(c, s, s', i)
  {
    hide StepOk, FrameOk, Members, WaitsFor;
    assert StepOk(s, x);
    Guarded(s, i, x);
    OthersKeep(s, s', i);
    forall w | w in s'.waits ensures (w in s.waits && w.0 !in s'.items) || WaitOk(c, s', w) {
      if w in s.waits {
        var k :| 0 <= k < |s.waits| && s.waits[k] == w;
        assert WaitOk(c, s, s.waits[k]);
      }
    }
    forall j, y | 0 <= j < |s.threads| && j != i && s.threads[j].Run? && s.threads[j].step == y
      ensures y !in s'.finished && (Members(s, y) == 0 ==> Members(s', y) == 0)
    {
      assert GuardOf(y)(s.threads[j]) >= 1;
    }
  }
}
