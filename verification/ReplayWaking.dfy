/** The actions of prepare, resume and schedule keep the invariant of the suspend/replay machine. */
module ReplayWaking {
  import opened Sums
  import opened ReplayModel
  import opened ReplayCounting
  import opened ReplaySafety

  /** Thread i is inside prepare or resume. */
  ghost predicate InSub(c: Program, s: State, i: nat) {
    ValidProgram(c) && Inv(c, s) && i < |s.threads| && SubOf(s.threads[i]) != CALM
  }

  /** The thread's own frame stays in order when only its sub-action advances. */
  lemma SubFrame(c: Program, s: State, s': State, f: Frame, sub: Sub)
    requires FrameOk(c, s, f) && SubOf(f) != CALM && Grows(s, s') && s'.finished == s.finished
    requires f.Run? ==> (Members(s, f.step) == 0 ==> Members(s', f.step) == 0)
    ensures FrameOk(c, s', WithSub(f, sub))
  {
    hide Members, Performed, Reaches;
    match f {
      case Run(x, k, got, _, _, missing, _) =>
        AtGrows(c, s, s', x, k);
        match c.body(x, k, got) {
          case Gets(tags) => if !missing { assert Values(tags[..0], s.items) == Values(tags[..0], s'.items); }
          case _ =>
        }
      case _ =>
    }
  }

  lemma SubShapes(f: Frame, sub: Sub)
    requires SubOf(f) != CALM
    ensures SubOf(WithSub(f, sub)) == sub
    ensures WithSub(f, sub).Run? == f.Run? && WithSub(f, sub).Env? == f.Env?
    ensures f.Run? ==> WithSub(f, sub).step == f.step
    ensures f.Run? || f.Env?
  {
  }

  lemma PrepHitKeeps(c: Program, s: State, i: nat)
    requires InSub(c, s, i) && SubOf(s.threads[i]).Prep?
    requires SubOf(s.threads[i]).pos < |c.depends(SubOf(s.threads[i]).child)|
    requires c.depends(SubOf(s.threads[i]).child)[SubOf(s.threads[i]).pos] in s.items
    ensures Inv(c, Apply(c, s, Go(i)))
  {
    hide StepOk, WaitOk, Completed, DependsOk, FrameOk, Members, Guards, Free;
    var s', f := Apply(c, s, Go(i)), s.threads[i];
    var f' := s'.threads[i];
    SubShapes(f, Prep(SubOf(f).child, SubOf(f).pos + 1));
    forall y ensures StepOk(s', y) && Members(s', y) == Members(s, y) {
      assert StepOk(s, y);
      SameCounts(s, s', i, f', y);
    }
    SumUpdate(s.threads, i, f', BusyOf());
    Quiet(c, s, s', i);
    SubFrame(c, s, s', f, SubOf(f'));
    MovesKeepInv(c, s, s', i);
  }

  lemma PrepMissKeeps(c: Program, s: State, i: nat)
    requires InSub(c, s, i) && SubOf(s.threads[i]).Prep?
    requires SubOf(s.threads[i]).pos < |c.depends(SubOf(s.threads[i]).child)|
    requires c.depends(SubOf(s.threads[i]).child)[SubOf(s.threads[i]).pos] !in s.items
    ensures Inv(c, Apply(c, s, Go(i)))
  {
    hide StepOk, Completed, DependsOk, FrameOk, Members, Guards, Free, At, Needs;
    var s', f := Apply(c, s, Go(i)), s.threads[i];
    var x, pos := SubOf(f).child, SubOf(f).pos;
    var t, f' := c.depends(x)[pos], s'.threads[i];
    SubShapes(f, Prep(x, pos + 1));
    forall y ensures StepOk(s', y) && (y != x ==> Members(s', y) == Members(s, y)) {
      assert StepOk(s, y) && StepOk(s, x);
      SuspendCounts(s, s', i, t, x, f', y);
    }
    SumUpdate(s.threads, i, f', BusyOf());
    assert StepOk(s, x);
    Guarded(s, i, x);
    assert s'.waits[|s.waits|] == (t, x);
    SuspendMoves(c, s, s', i, t, x);
    NotMyChild(s, i, x);
    SubFrame(c, s, s', f, SubOf(f'));
    MovesKeepInv(c, s, s', i);
  }

  /** A step does not prepare itself. */
  lemma NotMyChild(s: State, i: nat, x: Step)
    requires i < |s.threads| && SubOf(s.threads[i]).Prep? && SubOf(s.threads[i]).child == x && StepOk(s, x)
    ensures s.threads[i].Run? ==> s.threads[i].step != x
  {
    NonNegative(s, x);
  }

  lemma PrepEndKeeps(c: Program, s: State, i: nat)
    requires InSub(c, s, i) && SubOf(s.threads[i]).Prep?
    requires SubOf(s.threads[i]).pos >= |c.depends(SubOf(s.threads[i]).child)|
    ensures Inv(c, Apply(c, s, Go(i)))
  {
    hide StepOk, WaitOk, Completed, DependsOk, FrameOk, Members, Guards, Free;
    var s', f := Apply(c, s, Go(i)), s.threads[i];
    var x, f' := SubOf(f).child, s'.threads[i];
    SubShapes(f, Wake([], Woken(s, x)));
    assert StepOk(s, x);
    Guarded(s, i, x);
    forall y ensures StepOk(s', y) && Members(s', y) == Members(s, y) {
      assert StepOk(s, y);
      PrepEndCounts(s, s', i, x, f', y);
    }
    SumUpdate(s.threads, i, f', BusyOf());
    Quiet(c, s, s', i);
    SubFrame(c, s, s', f, SubOf(f'));
    MovesKeepInv(c, s, s', i);
  }

  lemma PrepEndCounts(s: State, s': State, i: nat, x: Step, f: Frame, y: Step)
    requires i < |s.threads| && SubOf(s.threads[i]).Prep? && SubOf(s.threads[i]).child == x
    requires StepOk(s, x) && StepOk(s, y)
    requires f == WithSub(s.threads[i], Wake([], Woken(s, x)))
    requires s' == Unsuspend(s, x).(threads := s.threads[i := f])
    ensures StepOk(s', y) && Members(s', y) == Members(s, y)
  {
    Guarded(s, i, x);
    NonNegative(s, x);
    FrameChanges(s, i, f, y);
  }

  lemma WakeKeeps(c: Program, s: State, i: nat)
    requires InSub(c, s, i) && SubOf(s.threads[i]).Wake? && SubOf(s.threads[i]).hand.Nobody?
    ensures Inv(c, Apply(c, s, Go(i)))
  {
    hide StepOk, WaitOk, Completed, DependsOk, FrameOk, Members, Guards, Free;
    var s', f := Apply(c, s, Go(i)), s.threads[i];
    var x, f' := SubOf(f).list[0], s'.threads[i];
    SubShapes(f, Wake(SubOf(f).list[1..], Woken(s, x)));
    assert StepOk(s, x);
    Listed(s, i, x);
    forall y ensures StepOk(s', y) && Members(s', y) <= Members(s, y) {
      assert StepOk(s, y);
      WakeCounts(s, s', i, x, f', y);
    }
    SumUpdate(s.threads, i, f', BusyOf());
    Quiet(c, s, s', i);
    if f.Run? { NonNegative(s', f.step); }
    SubFrame(c, s, s', f, SubOf(f'));
    MovesKeepInv(c, s, s', i);
  }

  /** A step on the list of a waking thread is created, unfinished and suspended. */
  lemma Listed(s: State, i: nat, x: Step)
    requires i < |s.threads| && SubOf(s.threads[i]).Wake? && x in SubOf(s.threads[i]).list && StepOk(s, x)
    ensures x in s.n && x !in s.finished && s.n[x] == Guards(s, x) + Members(s, x)
    ensures Members(s, x) >= 1 && Guards(s, x) >= 0
  {
    NonNegative(s, x);
    IsStepNonNegative(SubOf(s.threads[i]).list, x);
  }

  lemma WakeCounts(s: State, s': State, i: nat, x: Step, f: Frame, y: Step)
    requires i < |s.threads| && SubOf(s.threads[i]).Wake? && SubOf(s.threads[i]).hand.Nobody?
    requires SubOf(s.threads[i]).list != [] && x == SubOf(s.threads[i]).list[0]
    requires StepOk(s, x) && StepOk(s, y)
    requires f == WithSub(s.threads[i], Wake(SubOf(s.threads[i]).list[1..], Woken(s, x)))
    requires s' == Unsuspend(s, x).(threads := s.threads[i := f])
    ensures StepOk(s', y) && Members(s', y) <= Members(s, y)
  {
    Listed(s, i, x);
    NonNegative(s, y);
    FrameChanges(s, i, f, y);
  }

  /** A step that is about to be scheduled is not the one its waker executes. */
  lemma NotMyself(s: State, i: nat, x: Step)
    requires i < |s.threads| && SubOf(s.threads[i]).Wake? && SubOf(s.threads[i]).hand == Ready(x) && StepOk(s, x)
    ensures s.threads[i].Run? ==> s.threads[i].step != x
  {
    NonNegative(s, x);
  }

  lemma ReadyKeeps(c: Program, s: State, i: nat)
    requires InSub(c, s, i) && SubOf(s.threads[i]).Wake? && SubOf(s.threads[i]).hand.Ready?
    ensures Inv(c, Apply(c, s, Go(i)))
  {
    hide StepOk, WaitOk, Completed, DependsOk, FrameOk, Members, Guards, Free;
    var s', f := Apply(c, s, Go(i)), s.threads[i];
    var x, f' := SubOf(f).hand.step, s'.threads[i];
    assert StepOk(s, x);
    NotMyself(s, i, x);
    SubShapes(f, Wake(SubOf(f).list, Counted(x)));
    forall y ensures StepOk(s', y) && Members(s', y) == Members(s, y) {
      assert StepOk(s, y);
      SameCounts(s, s', i, f', y);
    }
    SumUpdate(s.threads, i, f', BusyOf());
    Quiet(c, s, s', i);
    SubFrame(c, s, s', f, SubOf(f'));
    MovesKeepInv(c, s, s', i);
  }

  lemma PushKeeps(c: Program, s: State, i: nat)
    requires InSub(c, s, i) && SubOf(s.threads[i]).Wake? && SubOf(s.threads[i]).hand.Counted?
    ensures Inv(c, Apply(c, s, Go(i)))
  {
    hide StepOk, WaitOk, Completed, DependsOk, FrameOk, Members, Guards, Free;
    var s', f := Apply(c, s, Go(i)), s.threads[i];
    var x, f' := SubOf(f).hand.step, s'.threads[i];
    SubShapes(f, Wake(SubOf(f).list, Nobody));
    forall y ensures StepOk(s', y) && Members(s', y) == Members(s, y) {
      assert StepOk(s, y);
      SumAppend(s.queue, [x], IsStep(y));
      SumOne(x, IsStep(y));
      SameCounts(s, s', i, f', y);
    }
    SumUpdate(s.threads, i, f', BusyOf());
    Quiet(c, s, s', i);
    SubFrame(c, s, s', f, SubOf(f'));
    MovesKeepInv(c, s, s', i);
  }

  lemma SubKeeps(c: Program, s: State, i: nat)
    requires InSub(c, s, i)
    ensures Inv(c, Apply(c, s, Go(i)))
  {
    hide Inv, Apply;
    match SubOf(s.threads[i])
    case Prep(x, pos) =>
      if pos >= |c.depends(x)| { PrepEndKeeps(c, s, i); }
      else if c.depends(x)[pos] in s.items { PrepHitKeeps(c, s, i); }
      else { PrepMissKeeps(c, s, i); }
    case Wake(list, hand) =>
      match hand
      case Nobody => WakeKeeps(c, s, i);
      case Ready(_) => ReadyKeeps(c, s, i);
      case Counted(_) => PushKeeps(c, s, i);
  }
}
