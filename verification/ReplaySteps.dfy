/** The operations of step bodies and of the environment keep the invariant of the suspend/replay
    machine; hence every reachable state satisfies it. */
module ReplaySteps {
  import opened Options
  import opened Sums
  import opened ReplayModel
  import opened ReplayCounting
  import opened ReplaySafety
  import opened ReplayWaking

  /** Thread i is at an operation of a step. */
  ghost predicate InBody(c: Program, s: State, i: nat) {
    ValidProgram(c) && Inv(c, s) && i < |s.threads| && s.threads[i].Run? && SubOf(s.threads[i]) == CALM
  }

  function OpOf(c: Program, f: Frame): Op
    requires f.Run?
  {
    c.body(f.step, f.k, f.got)
  }

  lemma GetHitKeeps(c: Program, s: State, i: nat)
    requires InBody(c, s, i) && OpOf(c, s.threads[i]).Gets?
    requires s.threads[i].pos < |OpOf(c, s.threads[i]).tags| && OpOf(c, s.threads[i]).tags[s.threads[i].pos] in s.items
    ensures Inv(c, Apply(c, s, Go(i)))
  {
    hide StepOk, WaitOk, Completed, DependsOk, FrameOk, Members, Guards, Free;
    var s', f := Apply(c, s, Go(i)), s.threads[i];
    var f' := s'.threads[i];
    forall y ensures StepOk(s', y) && Members(s', y) == Members(s, y) {
      assert StepOk(s, y);
      SameCounts(s, s', i, f', y);
    }
    SumUpdate(s.threads, i, f', BusyOf());
    Quiet(c, s, s', i);
    assert FrameOk(c, s, f);
    HitFrame(c, s, s', f, f');
    MovesKeepInv(c, s, s', i);
  }

  lemma HitFrame(c: Program, s: State, s': State, f: Frame, f': Frame)
    requires f.Run? && f.sub == CALM && OpOf(c, f).Gets? && FrameOk(c, s, f) && f.pos < |OpOf(c, f).tags|
    requires OpOf(c, f).tags[f.pos] in s.items
    requires f' == f.(pos := f.pos + 1, vals := f.vals + [s.items[OpOf(c, f).tags[f.pos]]])
    requires s'.items == s.items && s'.n == s.n && s'.clash == s.clash && s'.finished == s.finished
    requires Members(s', f.step) == Members(s, f.step)
    ensures FrameOk(c, s', f')
  {
    hide Members, Performed, Reaches;
    AtGrows(c, s, s', f.step, f.k);
    var tags := OpOf(c, f).tags;
    assert tags[..f.pos + 1] == tags[..f.pos] + [tags[f.pos]];
    if !f.missing {
      assert Values(tags[..f.pos + 1], s.items) == Values(tags[..f.pos], s.items) + [s.items[tags[f.pos]]];
    }
  }

  lemma GetMissKeeps(c: Program, s: State, i: nat)
    requires InBody(c, s, i) && OpOf(c, s.threads[i]).Gets?
    requires s.threads[i].pos < |OpOf(c, s.threads[i]).tags| && OpOf(c, s.threads[i]).tags[s.threads[i].pos] !in s.items
    ensures Inv(c, Apply(c, s, Go(i)))
  {
    hide StepOk, Completed, DependsOk, FrameOk, Members, Guards, Free, WaitsFor;
    var s', f := Apply(c, s, Go(i)), s.threads[i];
    var x, f', t := f.step, s'.threads[i], OpOf(c, f).tags[f.pos];
    assert StepOk(s, x);
    Guarded(s, i, x);
    forall y ensures StepOk(s', y) && (y != x ==> Members(s', y) == Members(s, y)) {
      assert StepOk(s, y) && StepOk(s, x);
      SuspendCounts(s, s', i, t, x, f', y);
    }
    SumUpdate(s.threads, i, f', BusyOf());
    assert FrameOk(c, s, f);
    MissFrame(c, s, s', f, f', t);
    SuspendMoves(c, s, s', i, t, x);
    MovesKeepInv(c, s, s', i);
  }

  lemma MissFrame(c: Program, s: State, s': State, f: Frame, f': Frame, t: Tag)
    requires f.Run? && f.sub == CALM && OpOf(c, f).Gets? && FrameOk(c, s, f) && f.pos < |OpOf(c, f).tags|
    requires t == OpOf(c, f).tags[f.pos] && f' == f.(pos := f.pos + 1, missing := true)
    requires s'.items == s.items && s'.n.Keys == s.n.Keys && s'.clash == s.clash && s'.finished == s.finished
    ensures FrameOk(c, s', f') && WaitsFor(c, s', f.step, t)
  {
    hide Members, Performed, Reaches;
    AtGrows(c, s, s', f.step, f.k);
    assert Needs(c, s', f.step, f.k, t);
  }

  lemma GetsFailKeeps(c: Program, s: State, i: nat)
    requires InBody(c, s, i) && OpOf(c, s.threads[i]).Gets?
    requires s.threads[i].pos >= |OpOf(c, s.threads[i]).tags| && s.threads[i].missing
    ensures Inv(c, Apply(c, s, Go(i)))
  {
    hide StepOk, WaitOk, Completed, DependsOk, FrameOk, Members, Guards, Free;
    var s', f := Apply(c, s, Go(i)), s.threads[i];
    var f' := s'.threads[i];
    forall y ensures StepOk(s', y) && Members(s', y) == Members(s, y) {
      assert StepOk(s, y);
      SameCounts(s, s', i, f', y);
    }
    SumUpdate(s.threads, i, f', BusyOf());
    Quiet(c, s, s', i);
    Trivial(c, s', f');
    MovesKeepInv(c, s, s', i);
  }

  lemma GetsPassKeeps(c: Program, s: State, i: nat)
    requires InBody(c, s, i) && OpOf(c, s.threads[i]).Gets?
    requires s.threads[i].pos >= |OpOf(c, s.threads[i]).tags| && !s.threads[i].missing
    ensures Inv(c, Apply(c, s, Go(i)))
  {
    hide StepOk, WaitOk, Completed, DependsOk, FrameOk, Members, Guards, Free;
    var s', f := Apply(c, s, Go(i)), s.threads[i];
    var f' := s'.threads[i];
    forall y ensures StepOk(s', y) && Members(s', y) == Members(s, y) {
      assert StepOk(s, y);
      SameCounts(s, s', i, f', y);
    }
    SumUpdate(s.threads, i, f', BusyOf());
    Quiet(c, s, s', i);
    assert FrameOk(c, s, f);
    PassFrame(c, s, s', f, f');
    MovesKeepInv(c, s, s', i);
  }

  lemma PassFrame(c: Program, s: State, s': State, f: Frame, f': Frame)
    requires f.Run? && f.sub == CALM && OpOf(c, f).Gets? && FrameOk(c, s, f)
    requires f.pos >= |OpOf(c, f).tags| && !f.missing
    requires f' == Run(f.step, f.k + 1, f.got + f.vals, 0, [], false, CALM)
    requires s'.items == s.items && s'.n == s.n && s'.clash == s.clash && s'.finished == s.finished
    requires Members(s', f.step) == Members(s, f.step)
    ensures FrameOk(c, s', f')
  {
    hide Members;
    var tags := OpOf(c, f).tags;
    assert tags[..f.pos] == tags;
    AtGrows(c, s, s', f.step, f.k);
    AtNext(c, s', f.step, f.k);
    FreshFrame(c, s', f');
  }

  /** A frame at the start of an operation. */
  lemma FreshFrame(c: Program, s: State, f: Frame)
    requires f.Run? && f.pos == 0 && f.vals == [] && !f.missing
    requires f.step in s.n && f.step !in s.finished && Members(s, f.step) == 0
    requires At(c, s, f.step, f.k) && Reaches(c, s.items, f.step, f.k) == Some(f.got)
    ensures FrameOk(c, s, f)
  {
    hide Members, Performed, Reaches;
    match c.body(f.step, f.k, f.got) {
      case Gets(tags) => assert tags[..0] == [];
      case _ =>
    }
  }

  /*** put and spawn, by a step or by the environment ***/

  /** Thread i is about to do op. */
  ghost predicate AtOp(c: Program, s: State, i: nat, op: Op) {
    && ValidProgram(c) && Inv(c, s) && i < |s.threads| && SubOf(s.threads[i]) == CALM
    && var f := s.threads[i];
       || (f.Run? && OpOf(c, f) == op && !op.Gets? && !op.Finish?)
       || (f.Env? && f.pc < |c.script| && c.script[f.pc] == op)
  }

  lemma OnwardFrame(c: Program, s: State, s': State, i: nat, op: Op, sub: Sub)
    requires AtOp(c, s, i, op) && Grows(s, s') && Happened(op, s') && s'.finished == s.finished
    requires s.threads[i].Run? ==> Members(s', s.threads[i].step) == Members(s, s.threads[i].step)
    ensures FrameOk(c, s', Onward(s.threads[i], sub))
  {
    hide Members, StepOk, WaitOk, DependsOk, Completed;
    var f := s.threads[i];
    assert FrameOk(c, s, f);
    if f.Run? {
      AtGrows(c, s, s', f.step, f.k);
      AtNext(c, s', f.step, f.k);
      FreshFrame(c, s', Onward(f, sub));
    }
  }

  lemma OnwardShape(f: Frame, sub: Sub)
    requires f.Run? || f.Env?
    ensures SubOf(Onward(f, sub)) == sub
    ensures Onward(f, sub).Run? == f.Run? && Onward(f, sub).Env? == f.Env?
    ensures f.Run? ==> Onward(f, sub).step == f.step
  {
  }

  lemma PutOldKeeps(c: Program, s: State, i: nat, t: Tag, v: V)
    requires AtOp(c, s, i, Put(t, v)) && t in s.items
    ensures Inv(c, DoPut(s, i, t, v))
  {
    hide StepOk, WaitOk, Completed, DependsOk, FrameOk, Members, Guards, Free;
    var s', f := DoPut(s, i, t, v), s.threads[i];
    OnwardShape(f, CALM);
    QuietOnward(c, s, s', i, Put(t, v));
  }

  lemma SpawnOldKeeps(c: Program, s: State, i: nat, x: Step)
    requires AtOp(c, s, i, Spawn(x)) && x in s.n
    ensures Inv(c, DoSpawn(s, i, x))
  {
    hide StepOk, WaitOk, Completed, DependsOk, FrameOk, Members, Guards, Free;
    var s', f := DoSpawn(s, i, x), s.threads[i];
    OnwardShape(f, CALM);
    QuietOnward(c, s, s', i, Spawn(x));
  }

  /** An operation that was done before. */
  lemma QuietOnward(c: Program, s: State, s': State, i: nat, op: Op)
    requires AtOp(c, s, i, op) && Happened(op, s') && (s.clash ==> s'.clash)
    requires s' == s.(clash := s'.clash, threads := s.threads[i := Onward(s.threads[i], CALM)])
    ensures Inv(c, s')
  {
    hide StepOk, Completed, DependsOk, FrameOk, Members, Guards, Free, WaitsFor;
    var f := s.threads[i];
    var f' := Onward(f, CALM);
    OnwardShape(f, CALM);
    forall y ensures StepOk(s', y) && Members(s', y) == Members(s, y) {
      assert StepOk(s, y);
      SameCounts(s, s', i, f', y);
    }
    SumUpdate(s.threads, i, f', BusyOf());
    OthersKeep(s, s', i);
    OnwardFrame(c, s, s', i, op, CALM);
    forall w | w in s'.waits ensures w.0 !in s'.items {
      var k :| 0 <= k < |s.waits| && s.waits[k] == w;
      assert WaitOk(c, s, s.waits[k]);
    }
    forall j, y | 0 <= j < |s.threads| && j != i && s.threads[j].Run? && s.threads[j].step == y
      ensures y !in s'.finished && (Members(s, y) == 0 ==> Members(s', y) == 0) {}
    MovesKeepInv(c, s, s', i);
  }

  lemma PutNewKeeps(c: Program, s: State, i: nat, t: Tag, v: V)
    requires AtOp(c, s, i, Put(t, v)) && t !in s.items
    ensures Inv(c, DoPut(s, i, t, v))
  {
    hide StepOk, Completed, DependsOk, FrameOk, Members, Guards, Free, WaitsFor, Group, Others;
    var s', f := DoPut(s, i, t, v), s.threads[i];
    var list := Group(s.waits, t);
    var f' := Onward(f, Wake(list, Nobody));
    OnwardShape(f, Wake(list, Nobody));
    forall y ensures StepOk(s', y) && Members(s', y) == Members(s, y) {
      assert StepOk(s, y);
      PutCounts(s, s', i, t, f', y);
    }
    SumUpdate(s.threads, i, f', BusyOf());
    OthersKeep(s, s', i);
    OnwardFrame(c, s, s', i, Put(t, v), Wake(list, Nobody));
    forall w: (Tag, Step) ensures w in s'.waits <==> w in s.waits && w.0 != t {
      GroupTaken(s.waits, t, w.1);
    }
    forall w | w in s'.waits ensures w in s.waits && w.0 !in s'.items {
      var k :| 0 <= k < |s.waits| && s.waits[k] == w;
      assert WaitOk(c, s, s.waits[k]);
    }
    forall j, y | 0 <= j < |s.threads| && j != i && s.threads[j].Run? && s.threads[j].step == y
      ensures y !in s'.finished && (Members(s, y) == 0 ==> Members(s', y) == 0) {}
    MovesKeepInv(c, s, s', i);
  }

  lemma PutCounts(s: State, s': State, i: nat, t: Tag, f: Frame, y: Step)
    requires i < |s.threads| && SubOf(s.threads[i]) == CALM && StepOk(s, y)
    requires SubOf(f) == Wake(Group(s.waits, t), Nobody) && f.Run? == s.threads[i].Run? && f.Env? == s.threads[i].Env?
    requires f.Run? || f.Env?
    requires f.Run? ==> f.step == s.threads[i].step
    requires s'.threads == s.threads[i := f] && s'.n == s.n && s'.queue == s.queue && s'.finished == s.finished
    requires s'.waits == Others(s.waits, t)
    ensures StepOk(s', y) && Members(s', y) == Members(s, y)
  {
    hide Group, Others;
    FrameChanges(s, i, f, y);
    GroupTaken(s.waits, t, y);
  }

  lemma SpawnNewKeeps(c: Program, s: State, i: nat, x: Step)
    requires AtOp(c, s, i, Spawn(x)) && x !in s.n
    ensures Inv(c, DoSpawn(s, i, x))
  {
    hide StepOk, Completed, DependsOk, FrameOk, Members, Guards, Free, WaitsFor;
    var s', f := DoSpawn(s, i, x), s.threads[i];
    var f' := Onward(f, Prep(x, 0));
    OnwardShape(f, Prep(x, 0));
    forall y ensures StepOk(s', y) && Members(s', y) == Members(s, y) {
      assert StepOk(s, y);
      assert x !in s.finished;
      SpawnCounts(s, s', i, x, f', y);
    }
    SumUpdate(s.threads, i, f', BusyOf());
    OthersKeep(s, s', i);
    OnwardFrame(c, s, s', i, Spawn(x), Prep(x, 0));
    forall w | w in s'.waits ensures w.0 !in s'.items {
      var k :| 0 <= k < |s.waits| && s.waits[k] == w;
      assert WaitOk(c, s, s.waits[k]);
    }
    forall j, y | 0 <= j < |s.threads| && j != i && s.threads[j].Run? && s.threads[j].step == y
      ensures y !in s'.finished && (Members(s, y) == 0 ==> Members(s', y) == 0) {}
    MovesKeepInv(c, s, s', i);
  }

  lemma SpawnCounts(s: State, s': State, i: nat, x: Step, f: Frame, y: Step)
    requires i < |s.threads| && SubOf(s.threads[i]) == CALM && StepOk(s, y) && x !in s.n && x !in s.finished
    requires SubOf(f) == Prep(x, 0) && f.Run? == s.threads[i].Run? && f.Env? == s.threads[i].Env?
    requires f.Run? || f.Env?
    requires f.Run? ==> f.step == s.threads[i].step
    requires s' == s.(n := s.n[x := 1], threads := s.threads[i := f])
    ensures StepOk(s', y) && Members(s', y) == Members(s, y)
  {
    FrameChanges(s, i, f, y);
  }

  /*** finishing ***/

  lemma FinishKeeps(c: Program, s: State, i: nat)
    requires InBody(c, s, i) && OpOf(c, s.threads[i]).Finish?
    ensures Inv(c, Apply(c, s, Go(i)))
  {
    hide StepOk, DependsOk, FrameOk, Members, Guards, Free, WaitsFor;
    var s', f := Apply(c, s, Go(i)), s.threads[i];
    var x := f.step;
    assert StepOk(s, x) && FrameOk(c, s, f);
    Guarded(s, i, x);
    FinishFrame(c, s, s', f);
    forall y ensures StepOk(s', y) && Members(s', y) == Members(s, y) {
      assert StepOk(s, y);
      FinishCounts(s, s', i, x, y);
    }
    SumUpdate(s.threads, i, Leave, BusyOf());
    forall w | w in s'.waits ensures w.0 !in s'.items {
      var k :| 0 <= k < |s.waits| && s.waits[k] == w;
      assert WaitOk(c, s, s.waits[k]);
    }
    forall j, y | 0 <= j < |s.threads| && j != i && s.threads[j].Run? && s.threads[j].step == y
      ensures y !in s'.finished && (Members(s, y) == 0 ==> Members(s', y) == 0)
    {
      assert StepOk(s, y);
      assert GuardOf(y)(s.threads[j]) >= 1;
      Guarded(s, j, y);
    }
    Trivial(c, s', Leave);
    MovesKeepInv(c, s, s', i);
  }

  lemma FinishFrame(c: Program, s: State, s': State, f: Frame)
    requires f.Run? && OpOf(c, f).Finish? && FrameOk(c, s, f) && Grows(s, s')
    ensures Members(s, f.step) == 0 && Completed(c, s', f.step)
  {
    hide Members, Performed, Reaches;
    AtGrows(c, s, s', f.step, f.k);
    assert Ends(c, s', f.step, f.k);
  }

  lemma FinishCounts(s: State, s': State, i: nat, x: Step, y: Step)
    requires i < |s.threads| && s.threads[i].Run? && s.threads[i].step == x && SubOf(s.threads[i]) == CALM
    requires StepOk(s, x) && StepOk(s, y) && Members(s, x) == 0
    requires s' == s.(finished := s.finished + {x}, threads := s.threads[i := Leave])
    ensures StepOk(s', y) && Members(s', y) == Members(s, y)
  {
    Guarded(s, i, x);
    FrameChanges(s, i, Leave, y);
  }

  /*** every action ***/

  lemma PutKeeps(c: Program, s: State, i: nat, t: Tag, v: V)
    requires AtOp(c, s, i, Put(t, v))
    ensures Inv(c, DoPut(s, i, t, v))
  {
    hide Inv, DoPut;
    if t in s.items { PutOldKeeps(c, s, i, t, v); } else { PutNewKeeps(c, s, i, t, v); }
  }

  lemma SpawnKeeps(c: Program, s: State, i: nat, x: Step)
    requires AtOp(c, s, i, Spawn(x))
    ensures Inv(c, DoSpawn(s, i, x))
  {
    hide Inv, DoSpawn;
    if x in s.n { SpawnOldKeeps(c, s, i, x); } else { SpawnNewKeeps(c, s, i, x); }
  }

  lemma BodyKeeps(c: Program, s: State, i: nat)
    requires InBody(c, s, i)
    ensures Inv(c, Apply(c, s, Go(i)))
  {
    hide Inv, DoPut, DoSpawn;
    var f := s.threads[i];
    match OpOf(c, f)
    case Gets(tags) =>
      if f.pos >= |tags| {
        if f.missing { GetsFailKeeps(c, s, i); } else { GetsPassKeeps(c, s, i); }
      } else if tags[f.pos] in s.items { GetHitKeeps(c, s, i); } else { GetMissKeeps(c, s, i); }
    case Put(t, v) => PutKeeps(c, s, i, t, v);
    case Spawn(x) => SpawnKeeps(c, s, i, x);
    case Finish => FinishKeeps(c, s, i);
  }

  lemma StepKeepsInv(c: Program, s: State, e: Event)
    requires ValidProgram(c) && Inv(c, s) && Enabled(c, s, e)
    ensures Inv(c, Apply(c, s, e))
  {
    hide Inv, DoPut, DoSpawn, SubStep, RunStep;
    match e
    case Pop(i, j) => PopKeeps(c, s, i, j);
    case Go(i) =>
      if SubOf(s.threads[i]) != CALM { SubKeeps(c, s, i); }
      else {
        match s.threads[i]
        case Popped(_) => GuardKeeps(c, s, i);
        case Run(_, _, _, _, _, _, _) => BodyKeeps(c, s, i);
        case Failed(_) => FailedKeeps(c, s, i);
        case Leave => LeaveKeeps(c, s, i);
        case Env(pc, _) =>
          if pc >= |c.script| { EnvWaitKeeps(c, s, i); }
          else {
            match c.script[pc]
            case Put(t, v) => PutKeeps(c, s, i, t, v);
            case Spawn(x) => SpawnKeeps(c, s, i, x);
          }
      }
  }

  lemma InitInv(c: Program, workers: nat)
    ensures Inv(c, Init(workers))
  {
    var s := Init(workers);
    forall x ensures StepOk(s, x) {
      SumZero(s.threads, GuardOf(x));
      SumZero(s.threads, FreeOf(x));
      SumZero(s.threads, ListOf(x));
    }
    SumZero(s.threads, BusyOf());
  }
}
