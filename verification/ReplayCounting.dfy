/** How the suspend counters, groups and in-flight count change with one thread's frame, and what
    stays true when items and steps are added. */
module ReplayCounting {
  import opened Sums
  import opened ReplayModel

  /** s' has at least the items and steps of s. */
  ghost predicate Grows(s: State, s': State) {
    && (forall t :: t in s.items ==> t in s'.items && s'.items[t] == s.items[t])
    && (forall x :: x in s.n ==> x in s'.n)
    && (s.clash ==> s'.clash)
  }

  lemma {:induction false} ReachesGrows(c: Program, s: State, s': State, x: Step, k: nat)
    requires Grows(s, s') && Reaches(c, s.items, x, k).Some?
    ensures Reaches(c, s'.items, x, k) == Reaches(c, s.items, x, k)
  {
    if k > 0 {
      ReachesGrows(c, s, s', x, k - 1);
      match c.body(x, k - 1, Reaches(c, s.items, x, k - 1).value) {
        case Gets(tags) => assert Values(tags, s.items) == Values(tags, s'.items);
        case _ =>
      }
    }
  }

  /** A step that gets to operation k gets to every earlier one. */
  lemma {:induction false} ReachesEarlier(c: Program, items: map<Tag, V>, x: Step, j: nat, k: nat)
    requires j <= k && Reaches(c, items, x, k).Some?
    ensures Reaches(c, items, x, j).Some?
  {
    if j < k { ReachesEarlier(c, items, x, j, k - 1); }
  }

  lemma AtGrows(c: Program, s: State, s': State, x: Step, k: nat)
    requires Grows(s, s') && At(c, s, x, k)
    ensures At(c, s', x, k) && Reaches(c, s'.items, x, k) == Reaches(c, s.items, x, k)
  {
    ReachesGrows(c, s, s', x, k);
    forall j: nat | j < k ensures OpHappened(c, s', x, j) {
      ReachesEarlier(c, s.items, x, j, k);
      ReachesGrows(c, s, s', x, j);
      assert OpHappened(c, s, x, j);
    }
  }

  lemma WaitsForGrows(c: Program, s: State, s': State, x: Step, t: Tag)
    requires Grows(s, s') && WaitsFor(c, s, x, t)
    ensures WaitsFor(c, s', x, t)
  {
    if t !in c.depends(x) {
      var k: nat :| At(c, s, x, k) && Needs(c, s, x, k, t);
      AtGrows(c, s, s', x, k);
      assert Needs(c, s', x, k, t);
    }
  }

  lemma CompletedGrows(c: Program, s: State, s': State, x: Step)
    requires Grows(s, s') && Completed(c, s, x)
    ensures Completed(c, s', x)
  {
    var k: nat :| At(c, s, x, k) && Ends(c, s, x, k);
    AtGrows(c, s, s', x, k);
    assert Ends(c, s', x, k);
  }

  /** A step that performed operation k is at the next one. */
  lemma AtNext(c: Program, s: State, x: Step, k: nat)
    requires At(c, s, x, k) && OpHappened(c, s, x, k) && Reaches(c, s.items, x, k + 1).Some?
    ensures At(c, s, x, k + 1)
  {
  }

  /*** sums over threads ***/

  lemma {:induction false} IsStepNonNegative(list: seq<Step>, x: Step)
    ensures Sum(list, IsStep(x)) >= 0
    ensures x in list ==> Sum(list, IsStep(x)) >= 1
  {
    SumNonNegative(list, IsStep(x));
    if x in list {
      var i :| 0 <= i < |list| && list[i] == x;
      assert IsStep(x)(list[i]) == 1;
    }
  }

  lemma ListNonNegative(s: State, x: Step)
    ensures forall i :: 0 <= i < |s.threads| ==> ListOf(x)(s.threads[i]) >= 0
  {
    forall i | 0 <= i < |s.threads| ensures ListOf(x)(s.threads[i]) >= 0 {
      if SubOf(s.threads[i]).Wake? { IsStepNonNegative(SubOf(s.threads[i]).list, x); }
    }
  }

  /** All counters are sums of non-negative parts. */
  lemma NonNegative(s: State, x: Step)
    ensures Sum(s.queue, IsStep(x)) >= 0 && Sum(s.waits, WaitOf(x)) >= 0
    ensures Guards(s, x) >= 0 && Free(s, x) >= 0 && Members(s, x) >= 0
    ensures forall i :: 0 <= i < |s.threads| ==>
              && 0 <= GuardOf(x)(s.threads[i]) <= Guards(s, x)
              && 0 <= FreeOf(x)(s.threads[i]) <= Free(s, x)
              && 0 <= ListOf(x)(s.threads[i]) <= Members(s, x)
  {
    SumNonNegative(s.queue, IsStep(x));
    SumNonNegative(s.waits, WaitOf(x));
    SumNonNegative(s.threads, GuardOf(x));
    SumNonNegative(s.threads, FreeOf(x));
    ListNonNegative(s, x);
    SumNonNegative(s.threads, ListOf(x));
  }

  /** Thread i goes to frame f. */
  lemma FrameChanges(s: State, i: nat, f: Frame, x: Step)
    requires i < |s.threads|
    ensures var ts, f0 := s.threads[i := f], s.threads[i];
            && Sum(ts, GuardOf(x)) == Guards(s, x) - GuardOf(x)(f0) + GuardOf(x)(f)
            && Sum(ts, FreeOf(x)) == Sum(s.threads, FreeOf(x)) - FreeOf(x)(f0) + FreeOf(x)(f)
            && Sum(ts, ListOf(x)) == Sum(s.threads, ListOf(x)) - ListOf(x)(f0) + ListOf(x)(f)
            && Sum(ts, BusyOf()) == Sum(s.threads, BusyOf()) - BusyOf()(f0) + BusyOf()(f)
  {
    SumUpdate(s.threads, i, f, GuardOf(x));
    SumUpdate(s.threads, i, f, FreeOf(x));
    SumUpdate(s.threads, i, f, ListOf(x));
    SumUpdate(s.threads, i, f, BusyOf());
  }

  /** Taking a group out of the suspend groups. */
  lemma {:induction false} GroupTaken(waits: seq<(Tag, Step)>, t: Tag, x: Step)
    ensures Sum(waits, WaitOf(x)) == Sum(Others(waits, t), WaitOf(x)) + Sum(Group(waits, t), IsStep(x))
    ensures forall w :: w in Others(waits, t) <==> w in waits && w.0 != t
  {
    if waits != [] {
      var w, rest := waits[0], waits[1..];
      GroupTaken(rest, t, x);
      SumAppend(if w.0 == t then [] else [w], Others(rest, t), WaitOf(x));
      SumAppend(if w.0 == t then [w.1] else [], Group(rest, t), IsStep(x));
      SumOne(w, WaitOf(x));
      SumOne(w.1, IsStep(x));
    }
  }

  /** No step is guarded twice. */
  lemma GuardUnique(s: State, i: nat, j: nat, x: Step)
    requires i < |s.threads| && j < |s.threads| && i != j && StepOk(s, x)
    requires GuardOf(x)(s.threads[i]) >= 1
    ensures GuardOf(x)(s.threads[j]) == 0
  {
    NonNegative(s, x);
    SumTwo(s.threads, if i < j then i else j, if i < j then j else i, GuardOf(x));
  }

  /*** what other threads and groups need for the invariant ***/

  /** Thread i changes s to s'; everything but its own frame and the counters is as it should be. */
  ghost predicate Moves(c: Program, s: State, s': State, i: nat) {
    && i < |s.threads| && |s'.threads| == |s.threads| && s'.threads == s.threads[i := s'.threads[i]]
    && Grows(s, s') && Shape(s')
    && (forall j, y :: 0 <= j < |s.threads| && j != i && s.threads[j].Run? && s.threads[j].step == y ==>
          y !in s'.finished && (Members(s, y) == 0 ==> Members(s', y) == 0))
    && (forall w :: w in s'.waits ==> (w in s.waits && w.0 !in s'.items) || WaitOk(c, s', w))
    && (forall x :: x in s'.finished ==> x in s.finished || (x in s'.n && Completed(c, s', x)))
    && (forall w :: w in s.waits ==> w in s'.waits || w.0 in s'.items)
    && (forall x, p: nat :: Preparing(s.threads[i], x, p) ==> Preparing(s'.threads[i], x, p) || Served(c, s', x, p))
    && (forall x, p: nat :: x in s'.n && x !in s.n ==> Preparing(s'.threads[i], x, p))
  }

  lemma MovesKeepInv(c: Program, s: State, s': State, i: nat)
    requires Inv(c, s) && Moves(c, s, s', i)
    requires forall x :: StepOk(s', x)
    requires s'.inflight == |s'.queue| + Sum(s'.threads, BusyOf())
    requires FrameOk(c, s', s'.threads[i])
    ensures Inv(c, s')
  {
    hide StepOk, Completed, WaitsFor, At, Reaches, Members;
    forall j | 0 <= j < |s'.threads| ensures FrameOk(c, s', s'.threads[j]) {
      if j != i { OtherFrame(c, s, s', j); }
    }
    forall j | 0 <= j < |s'.waits| ensures WaitOk(c, s', s'.waits[j]) {
      var w := s'.waits[j];
      assert w in s'.waits;
      if w in s.waits && w.0 !in s'.items {
        var k :| 0 <= k < |s.waits| && s.waits[k] == w;
        assert WaitOk(c, s, s.waits[k]);
        WaitsForGrows(c, s, s', w.1, w.0);
      }
    }
    forall x | x in s'.finished ensures x in s'.n && Completed(c, s', x) {
      if x in s.finished { CompletedGrows(c, s, s', x); }
    }
    forall x, p: nat | x in s'.n ensures DependsOk(c, s', x, p) {
      DependsKept(c, s, s', i, x, p);
    }
  }

  lemma DependsKept(c: Program, s: State, s': State, i: nat, x: Step, p: nat)
    requires Moves(c, s, s', i) && x in s'.n && (x in s.n ==> DependsOk(c, s, x, p))
    ensures DependsOk(c, s', x, p)
  {
    hide StepOk, Completed, WaitsFor, At, Reaches, Members, FrameOk;
    if x !in s.n || Preparing(s.threads[i], x, p) {
      assert Preparing(s'.threads[i], x, p) || Served(c, s', x, p);
    } else if !Served(c, s, x, p) {
      var j :| 0 <= j < |s.threads| && Preparing(s.threads[j], x, p);
      assert Preparing(s'.threads[j], x, p);
    }
  }

  lemma OtherFrame(c: Program, s: State, s': State, j: nat)
    requires Grows(s, s') && j < |s.threads| && FrameOk(c, s, s.threads[j])
    requires s.threads[j].Run? ==>
               s.threads[j].step !in s'.finished &&
               (Members(s, s.threads[j].step) == 0 ==> Members(s', s.threads[j].step) == 0)
    ensures FrameOk(c, s', s.threads[j])
  {
    hide Performed, Reaches, Members;
    var f := s.threads[j];
    if f.Run? {
      AtGrows(c, s, s', f.step, f.k);
      match c.body(f.step, f.k, f.got) {
        case Gets(tags) =>
          if !f.missing { assert Values(tags[..f.pos], s.items) == Values(tags[..f.pos], s'.items); }
        case _ =>
      }
    }
  }
}
