/** A range step runs one user step per tag of its range, replays those that miss items, and is done
    when all are (cnc/internal/range_step.h, cnc/internal/range_step_instance.h). Tags are represented
    by their positions in the range. Other threads act before each get and after each pass. */
module RangeSteps {

  type Item(==, !new)

  datatype TagStatus = UNPREPARED | PREPARED | DONE
  datatype Outcome = Success | Unfinished | NeedsSequentialize | NeedsExtraWake

  const INT_MAX: int := 2147483647

  /** What a user step does with items: a get throws if the item is missing, an unsafe_get does not, and
      flush_gets throws if something was missing. */
  datatype Op = Get(item: Item) | UnsafeGet(item: Item) | Flush

  /** The user step of one tag: its operations, in order, and whether it asks to be sequentialized at the end. */
  datatype Tag = Tag(ops: seq<Op>, sequential: bool)

  /** What other threads do: put an item, which takes over the group of the item, and unsuspend the range
      step once for a membership that was taken over. */
  datatype Event = Put(item: Item) | Wake

  type Environment = nat -> seq<Event>

  /** waits: memberships of the range step in suspend groups; pending: memberships of items put whose
      unsuspend is still to come; suspends: m_nSuspenders; flag: m_wasSuspendedSinceReset;
      clock: how often other threads have had their turn; added and woken: all suspends and unsuspends. */
  datatype World = World(items: set<Item>, waits: multiset<Item>, pending: nat, suspends: int, flag: bool,
                         clock: nat, added: nat, woken: nat)

  /** How a run of a user step ends. */
  datatype RunEnd = RunEnd(world: World, thrown: bool)

  /** One run of the user step for the tag at position p. */
  datatype Entry = Entry(p: nat, outcome: Outcome)

  /** The state of execute. done: the status array; last: _last; lastPos: inp.m_last; missed and spoiled:
      the unfinished runs of this pass that missed an item, and those that did not. */
  datatype Loop = Loop(world: World, done: seq<bool>, log: seq<Entry>, replays: nat, missed: nat, spoiled: nat,
                       last: int, lastPos: int, sequential: bool)

  /*** other threads ***/

  function Occur(w: World, e: Event): World {
    match e
    case Put(x) =>
      if x in w.items then w
      else w.(items := w.items + {x}, pending := w.pending + w.waits[x], waits := w.waits[x := 0])
    case Wake =>
      if w.pending == 0 then w
      else w.(pending := w.pending - 1, suspends := w.suspends - 1, woken := w.woken + 1)
  }

  function OccurAll(w: World, es: seq<Event>): World
    decreases |es|
  {
    if es == [] then w else OccurAll(Occur(w, es[0]), es[1..])
  }

  function Tick(env: Environment, w: World): World {
    OccurAll(w, env(w.clock)).(clock := w.clock + 1)
  }

  /*** one tag ***/

  /** A get that finds no item suspends the range step and sets its flag. Nothing in a pass resets the flag. */
  function Miss(w: World, x: Item): World {
    w.(waits := w.waits + multiset{x}, suspends := w.suspends + 1, flag := true, added := w.added + 1)
  }

  /** The run of a user step. flush_gets throws if the flag is set, whoever set it. */
  function Do(env: Environment, w: World, ops: seq<Op>): RunEnd
    decreases |ops|
  {
    if ops == [] then RunEnd(w, false)
    else
      match ops[0]
      case Flush => if w.flag then RunEnd(w, true) else Do(env, w, ops[1..])
      case Get(x) =>
        var w1 := Tick(env, w);
        if x in w1.items then Do(env, w1, ops[1..]) else RunEnd(Miss(w1, x), true)
      case UnsafeGet(x) =>
        var w1 := Tick(env, w);
        Do(env, if x in w1.items then w1 else Miss(w1, x), ops[1..])
  }

  /** execute_from_range */
  function OutcomeOf(tag: Tag, end: RunEnd): (rv: Outcome)
    ensures rv != NeedsExtraWake
  {
    if end.thrown then Unfinished else if tag.sequential then NeedsSequentialize else Success
  }

  function RunTag(env: Environment, tags: seq<Tag>, s: Loop, p: nat): Loop
    requires p < |tags| == |s.done|
  {
    if s.done[p] then s
    else
      var end := Do(env, s.world, tags[p].ops);
      var w, rv := end.world, OutcomeOf(tags[p], end);
      var s1 := s.(world := w, log := s.log + [Entry(p, rv)]);
      if rv == Unfinished then
        var s2 := s1.(replays := s1.replays + 1, last := p);
        if w.added > s.world.added then s2.(missed := s2.missed + 1) else s2.(spoiled := s2.spoiled + 1)
      else if rv == NeedsSequentialize then s1.(replays := s1.replays + 1, sequential := true)
      else s1.(done := s1.done[p := true])
  }

  /*** one pass, and the loop ***/

  function PassFrom(env: Environment, tags: seq<Tag>, s: Loop, p: nat): (r: Loop)
    requires p <= |tags| == |s.done|
    ensures |r.done| == |tags|
    decreases |tags| - p
  {
    if p == |tags| || p > s.lastPos then s else PassFrom(env, tags, RunTag(env, tags, s, p), p + 1)
  }

  function Fresh(s: Loop): Loop { s.(replays := 0, missed := 0, spoiled := 0) }

  function Pass(env: Environment, tags: seq<Tag>, s: Loop): (r: Loop)
    requires |tags| == |s.done|
    ensures |r.done| == |tags|
  {
    var s1 := PassFrom(env, tags, Fresh(s), 0);
    s1.(world := Tick(env, s1.world), lastPos := if s1.last < s1.lastPos then s1.last else s1.lastPos)
  }

  /** The condition of the loop: s before and s1 after the pass. */
  predicate Repeats(s: Loop, s1: Loop) {
    !s1.sequential && s.world.suspends > s1.world.suspends - s1.replays
  }

  /** The loop stops after at most n + 1 passes. */
  predicate StopsWithin(env: Environment, tags: seq<Tag>, s: Loop, n: nat)
    requires |tags| == |s.done|
    decreases n
  {
    var s1 := Pass(env, tags, s);
    !Repeats(s, s1) || (n > 0 && StopsWithin(env, tags, s1, n - 1))
  }

  /** The state after the last pass. */
  function Final(env: Environment, tags: seq<Tag>, s: Loop, n: nat): (r: Loop)
    requires |tags| == |s.done| && StopsWithin(env, tags, s, n)
    ensures |r.done| == |tags|
    decreases n
  {
    var s1 := Pass(env, tags, s);
    if Repeats(s, s1) then Final(env, tags, s1, n - 1) else s1
  }

  function Begin(w: World, done: seq<bool>, log: seq<Entry>): Loop {
    Loop(w, done, log, 0, 0, 0, INT_MAX, INT_MAX, false)
  }

  function ReturnValue(s: Loop): Outcome {
    if s.replays == 0 then Success else if s.sequential then NeedsSequentialize else NeedsExtraWake
  }

  /*** the runs of tags ***/

  /** No tag runs again after a run that succeeded. */
  predicate Once(log: seq<Entry>) {
    forall i, j :: 0 <= i < j < |log| && log[i].p == log[j].p ==> log[i].outcome != Success
  }

  predicate Succeeded(log: seq<Entry>, p: nat) {
    exists i :: 0 <= i < |log| && log[i] == Entry(p, Success)
  }

  predicate Ran(log: seq<Entry>, from: nat, p: nat) {
    exists i :: from <= i < |log| && log[i].p == p
  }

  /** A run in the log, from some place on, asked to be sequentialized. */
  predicate Asked(log: seq<Entry>, from: nat) {
    exists i :: from <= i < |log| && log[i].outcome == NeedsSequentialize
  }

  /** The status array tells which tags succeeded. */
  ghost predicate LogOk(done: seq<bool>, log: seq<Entry>) {
    Once(log) && forall p :: 0 <= p < |done| ==> (done[p] <==> Succeeded(log, p))
  }

  ghost predicate AllDone(s: Loop) { forall p :: 0 <= p < |s.done| ==> s.done[p] }

  /** The cut-off leaves no unfinished tag out. */
  ghost predicate CutOk(s: Loop) { forall p :: 0 <= p < |s.done| && s.lastPos < p ==> s.done[p] }

  lemma LogGrows(log: seq<Entry>, e: Entry, p: nat)
    ensures Succeeded(log + [e], p) <==> Succeeded(log, p) || e == Entry(p, Success)
    ensures forall from: nat :: from <= |log| ==> (Ran(log + [e], from, p) <==> Ran(log, from, p) || e.p == p)
    ensures Once(log) && !Succeeded(log, e.p) ==> Once(log + [e])
    ensures forall from: nat :: from <= |log| ==>
              (Asked(log + [e], from) <==> Asked(log, from) || e.outcome == NeedsSequentialize)
  {
    var all := log + [e];
    assert forall i :: 0 <= i < |log| ==> all[i] == log[i];
    assert all[|log|] == e;
  }

  /** What part of a pass, from s up to position p, has run ... */
  ghost predicate Logged(s: Loop, r: Loop, p: nat) {
    && |r.done| == |s.done| && p <= |s.done| && s.log <= r.log && LogOk(r.done, r.log)
    && (forall q :: 0 <= q < |s.done| && s.done[q] ==> r.done[q])
    && (forall q :: p <= q < |s.done| ==> r.done[q] == s.done[q])
    && (forall q :: 0 <= q < p && !s.done[q] ==> Ran(r.log, |s.log|, q))
  }

  /** ... and counted. */
  ghost predicate Counted(s: Loop, r: Loop, p: nat) {
    && |r.done| == |s.done| && p <= |s.done| && r.lastPos == s.lastPos
    && (r.replays == 0 <==> forall q :: 0 <= q < p ==> r.done[q])
    && (r.sequential ==> r.replays > 0)
    && (r.replays == 0 ==> r.last == s.last)
    && (r.replays > 0 && !r.sequential ==>
          0 <= r.last < p && !r.done[r.last] && r.last <= r.lastPos && forall q :: r.last < q < p ==> r.done[q])
    && |s.log| <= |r.log| && (r.sequential <==> Asked(r.log, |s.log|))
  }

  lemma TagLogged(env: Environment, tags: seq<Tag>, s: Loop, r: Loop, p: nat)
    requires p < |tags| == |s.done| && Logged(s, r, p)
    ensures Logged(s, RunTag(env, tags, r, p), p + 1)
  {
    hide Do, OutcomeOf;
    var r' := RunTag(env, tags, r, p);
    if !r.done[p] {
      var e := r'.log[|r.log|];
      assert r'.log == r.log + [e] && e.p == p && (r'.done[p] <==> e.outcome == Success);
      hide RunTag;
      forall q: nat
        ensures Succeeded(r'.log, q) <==> Succeeded(r.log, q) || e == Entry(q, Success)
        ensures Ran(r'.log, |s.log|, q) <==> Ran(r.log, |s.log|, q) || p == q
      {
        LogGrows(r.log, e, q);
      }
      LogGrows(r.log, e, p);
    }
  }

  lemma TagCounted(env: Environment, tags: seq<Tag>, s: Loop, r: Loop, p: nat)
    requires p < |tags| == |s.done| && Counted(s, r, p) && p <= r.lastPos
    ensures Counted(s, RunTag(env, tags, r, p), p + 1)
  {
    hide Do, OutcomeOf;
    var r' := RunTag(env, tags, r, p);
    assert forall q :: 0 <= q < |s.done| && q != p ==> r'.done[q] == r.done[q];
    if !r.done[p] {
      var e := r'.log[|r.log|];
      assert r'.log == r.log + [e] && (r'.sequential <==> r.sequential || e.outcome == NeedsSequentialize);
      LogGrows(r.log, e, p);
      hide Asked, Ran, Succeeded, Once;
    }
    if r.replays == 0 && r'.replays == 0 {
      assert r'.done[p];
    } else if r.replays == 0 {
      assert !r'.done[p];
    }
  }

  /** The rest of the tags is cut off. */
  lemma CutOff(s: Loop, r: Loop, p: nat)
    requires Logged(s, r, p) && Counted(s, r, p) && CutOk(s) && (p == |s.done| || p > r.lastPos)
    ensures Logged(s, r, |s.done|) && Counted(s, r, |s.done|)
  {
    hide LogOk, Ran;
  }

  lemma {:induction false} PassProgress(env: Environment, tags: seq<Tag>, s: Loop, r: Loop, p: nat)
    requires p <= |tags| == |s.done| == |r.done| && Logged(s, r, p) && Counted(s, r, p) && CutOk(s)
    ensures var r' := PassFrom(env, tags, r, p); Logged(s, r', |tags|) && Counted(s, r', |tags|)
    decreases |tags| - p
  {
    hide Logged, Counted, RunTag, CutOk;
    if p < |tags| && p <= r.lastPos {
      TagLogged(env, tags, s, r, p);
      TagCounted(env, tags, s, r, p);
      SameLength(env, tags, r, p);
      PassProgress(env, tags, s, RunTag(env, tags, r, p), p + 1);
    } else {
      CutOff(s, r, p);
    }
  }

  lemma SameLength(env: Environment, tags: seq<Tag>, r: Loop, p: nat)
    requires p < |tags| == |r.done|
    ensures |RunTag(env, tags, r, p).done| == |tags|
  {
  }

  /** One pass: no tag that is done runs; every other tag runs; nothing is left to replay exactly if all
      are done; and the new cut-off is the last unfinished tag. */
  lemma PassDoes(env: Environment, tags: seq<Tag>, s: Loop)
    requires |tags| == |s.done| && LogOk(s.done, s.log) && CutOk(s) && !s.sequential
    ensures var r := Pass(env, tags, s);
            && s.log <= r.log && LogOk(r.done, r.log)
            && (forall q :: 0 <= q < |s.done| && s.done[q] ==> r.done[q])
            && (forall q :: 0 <= q < |s.done| && !s.done[q] ==> Ran(r.log, |s.log|, q))
            && (r.replays == 0 <==> AllDone(r))
            && (r.sequential ==> r.replays > 0)
            && (r.sequential <==> Asked(r.log, |s.log|))
            && (!r.sequential ==> CutOk(r))
            && (!r.sequential && r.replays > 0 ==> 0 <= r.lastPos < |tags| && !r.done[r.lastPos])
  {
    PassProgress(env, tags, Fresh(s), Fresh(s), 0);
  }

  lemma RanStays(a: seq<Entry>, b: seq<Entry>, from: nat, p: nat)
    requires a <= b && Ran(a, from, p)
    ensures Ran(b, from, p)
  {
    var i :| from <= i < |a| && a[i].p == p;
    assert b[i].p == p;
  }

  /** Unless a step asks for it, nothing is sequentialized. */
  lemma {:induction false} PassParallel(env: Environment, tags: seq<Tag>, r: Loop, p: nat)
    requires p <= |tags| == |r.done| && !r.sequential && forall q :: 0 <= q < |tags| ==> !tags[q].sequential
    ensures !PassFrom(env, tags, r, p).sequential
    decreases |tags| - p
  {
    if p < |tags| && p <= r.lastPos {
      assert !RunTag(env, tags, r, p).sequential;
      PassParallel(env, tags, RunTag(env, tags, r, p), p + 1);
    }
  }

  /** The whole loop, over all its replays: it succeeds exactly if all tags are done; it asks to be sequentialized
      exactly if one of its runs did, and to be woken exactly if tags are left and none of its runs asked that; no
      tag that is done runs again; every tag that was not done runs. */
  lemma {:induction false} LoopDoes(env: Environment, tags: seq<Tag>, s: Loop, n: nat)
    requires |tags| == |s.done| && LogOk(s.done, s.log) && CutOk(s) && !s.sequential && StopsWithin(env, tags, s, n)
    ensures var r := Final(env, tags, s, n);
            && |r.done| == |tags| && s.log <= r.log && LogOk(r.done, r.log)
            && (ReturnValue(r) == Success <==> AllDone(r))
            && (ReturnValue(r) == NeedsSequentialize <==> Asked(r.log, |s.log|))
            && (ReturnValue(r) == NeedsExtraWake <==> !AllDone(r) && !Asked(r.log, |s.log|))
            && ((forall q :: 0 <= q < |tags| ==> !tags[q].sequential) ==> ReturnValue(r) != NeedsSequentialize)
            && (forall q :: 0 <= q < |s.done| && s.done[q] ==> r.done[q])
            && (forall q :: 0 <= q < |s.done| && !s.done[q] ==> Ran(r.log, |s.log|, q))
    decreases n
  {
    hide LogOk, CutOk, AllDone, Pass;
    var s1 := Pass(env, tags, s);
    PassDoes(env, tags, s);
    if forall q :: 0 <= q < |tags| ==> !tags[q].sequential { WholePassParallel(env, tags, s); }
    if Repeats(s, s1) {
      LoopDoes(env, tags, s1, n - 1);
      var r := Final(env, tags, s1, n - 1);
      AskedLater(s.log, s1.log, r.log);
      forall q | 0 <= q < |s.done| && !s.done[q] ensures Ran(r.log, |s.log|, q) {
        RanStays(s1.log, r.log, |s.log|, q);
      }
    }
  }

  lemma WholePassParallel(env: Environment, tags: seq<Tag>, s: Loop)
    requires |tags| == |s.done| && !s.sequential && forall q :: 0 <= q < |tags| ==> !tags[q].sequential
    ensures !Pass(env, tags, s).sequential
  {
    PassParallel(env, tags, Fresh(s), 0);
  }

  lemma AskedLater(a: seq<Entry>, b: seq<Entry>, c: seq<Entry>)
    requires a <= b <= c && !Asked(b, |a|)
    ensures Asked(c, |a|) <==> Asked(c, |b|)
  {
    assert forall i :: 0 <= i < |b| ==> c[i] == b[i];
  }

  /** A tag whose step asks to be sequentialized is not done by the loop. */
  lemma {:induction false} SequentialNotDone(env: Environment, tags: seq<Tag>, s: Loop, n: nat, q: nat)
    requires |tags| == |s.done| && StopsWithin(env, tags, s, n) && q < |tags| && tags[q].sequential && !s.done[q]
    ensures !Final(env, tags, s, n).done[q]
    decreases n
  {
    var s1 := Pass(env, tags, s);
    SequentialLeft(env, tags, Fresh(s), 0, q);
    hide Pass;
    if Repeats(s, s1) { SequentialNotDone(env, tags, s1, n - 1, q); }
  }

  lemma {:induction false} SequentialLeft(env: Environment, tags: seq<Tag>, r: Loop, p: nat, q: nat)
    requires p <= |tags| == |r.done| && q < |tags| && tags[q].sequential && !r.done[q]
    ensures !PassFrom(env, tags, r, p).done[q]
    decreases |tags| - p
  {
    if p < |tags| && p <= r.lastPos {
      SequentialLeft(env, tags, RunTag(env, tags, r, p), p + 1, q);
    }
  }

  /*** dependencies ***/

  /** The item is there, or the range step is in its suspend group. */
  predicate Awaited(w: World, x: Item) { x in w.items || x in w.waits }

  lemma {:induction false} OccurAllAwaited(w: World, es: seq<Event>, x: Item)
    requires Awaited(w, x)
    ensures Awaited(OccurAll(w, es), x)
    decreases |es|
  {
    if es != [] { OccurAllAwaited(Occur(w, es[0]), es[1..], x); }
  }

  lemma {:induction false} DoAwaited(env: Environment, w: World, ops: seq<Op>, x: Item)
    requires Awaited(w, x)
    ensures Awaited(Do(env, w, ops).world, x)
    decreases |ops|
  {
    if ops != [] {
      if ops[0].Flush? {
        if !w.flag { DoAwaited(env, w, ops[1..], x); }
      } else {
        OccurAllAwaited(w, env(w.clock), x);
        var w1 := Tick(env, w);
        DoAwaited(env, if ops[0].item in w1.items then w1 else Miss(w1, ops[0].item), ops[1..], x);
      }
    }
  }

  function UnsafeGets(xs: seq<Item>): seq<Op> { seq(|xs|, i requires 0 <= i < |xs| => UnsafeGet(xs[i])) }

  /** After looking at all dependencies, each is there or awaited. */
  lemma {:induction false} UnsafeGetsAwait(env: Environment, w: World, xs: seq<Item>)
    ensures forall x :: x in xs || Awaited(w, x) ==> Awaited(Do(env, w, UnsafeGets(xs)).world, x)
    decreases |xs|
  {
    if xs != [] {
      var w1 := Tick(env, w);
      var w2 := if xs[0] in w1.items then w1 else Miss(w1, xs[0]);
      assert UnsafeGets(xs)[0] == UnsafeGet(xs[0]) && UnsafeGets(xs)[1..] == UnsafeGets(xs[1..]);
      UnsafeGetsAwait(env, w2, xs[1..]);
      forall x | x in xs || Awaited(w, x) ensures Awaited(Do(env, w, UnsafeGets(xs)).world, x) {
        if Awaited(w, x) { OccurAllAwaited(w, env(w.clock), x); }
        assert Awaited(w2, x) || x in xs[1..];
      }
    }
  }

  lemma PassNext(env: Environment, tags: seq<Tag>, r: Loop, p: nat)
    requires p < |tags| == |r.done| && p <= r.lastPos
    ensures PassFrom(env, tags, r, p) == PassFrom(env, tags, RunTag(env, tags, r, p), p + 1)
  {
  }

  lemma PassOver(env: Environment, tags: seq<Tag>, r: Loop, p: nat)
    requires p <= |tags| == |r.done| && (p == |tags| || p > r.lastPos)
    ensures PassFrom(env, tags, r, p) == r
  {
  }

  /*** the code ***/

  class RangeStep {
    const tags: seq<Tag>
    const env: Environment
    const statuses: array<TagStatus>
    var world: World
    var log: seq<Entry>     // all runs of user steps so far

    ghost function Done(): (d: seq<bool>)
      reads statuses
      ensures |d| == statuses.Length && forall p :: 0 <= p < |d| ==> d[p] == (statuses[p] == DONE)
    {
      var s := statuses[..];
      seq(|s|, p requires 0 <= p < |s| => s[p] == DONE)
    }

    ghost predicate Valid()
      reads this, statuses
    {
      statuses.Length == |tags| <= INT_MAX && LogOk(Done(), log)
    }

    constructor (tags: seq<Tag>, env: Environment, world: World)
      requires |tags| <= INT_MAX
      ensures Valid() && this.tags == tags && this.env == env && this.world == world && log == [] && fresh(statuses)
      ensures forall p :: 0 <= p < |tags| ==> statuses[p] == UNPREPARED
    {
      this.tags, this.env, this.world, log := tags, env, world, [];
      statuses := new TagStatus[|tags|](i => UNPREPARED);
    }

    /** execute_from_range: the user step of a tag, and how its run ends. */
    method ExecuteFromRange(p: nat) returns (rv: Outcome)
      requires p < |tags|
      modifies this`world, this`log
      ensures var end := Do(env, old(world), tags[p].ops);
              && world == end.world && rv == OutcomeOf(tags[p], end) && log == old(log) + [Entry(p, rv)]
              && (rv == Unfinished <==> end.thrown)
              && (rv == NeedsSequentialize <==> !end.thrown && tags[p].sequential)
    {
      var ops, thrown, i := tags[p].ops, false, 0;
      ghost var end := Do(env, world, ops);
      while i < |ops| && !thrown
        invariant 0 <= i <= |ops| && log == old(log)
        invariant end == if thrown then RunEnd(world, true) else Do(env, world, ops[i..])
      {
        assert ops[i..][1..] == ops[i + 1..];
        match ops[i] {
          case Flush =>
            thrown := world.flag;
          case Get(x) =>
            world := Tick(env, world);
            if x !in world.items {
              world := Miss(world, x);
              thrown := true;
            }
          case UnsafeGet(x) =>
            world := Tick(env, world);
            if x !in world.items { world := Miss(world, x); }
        }
        i := i + 1;
      }
      rv := OutcomeOf(tags[p], RunEnd(world, thrown));
      log := log + [Entry(p, rv)];
    }

    /** prepare_from_range for all tags. With prescheduling, a tag's step is run, and if it succeeds the tag
        is done; without, the range step is suspended for the dependencies that are absent. */
    method Prepare(preschedule: bool, depends: seq<seq<Item>>)
      requires Valid() && |depends| == |tags| && log == [] && forall p :: 0 <= p < |tags| ==> statuses[p] == UNPREPARED
      modifies this`world, this`log, statuses
      ensures Valid() && forall p :: 0 <= p < |tags| ==> statuses[p] != UNPREPARED
      ensures !preschedule ==> log == [] && forall p :: 0 <= p < |tags| ==> statuses[p] == PREPARED
      ensures preschedule ==> forall p :: 0 <= p < |tags| ==> Ran(log, 0, p)
      ensures !preschedule ==> forall p, x :: 0 <= p < |tags| && x in depends[p] ==> Awaited(world, x)
    {
      var p := 0;
      while p != |tags|
        invariant 0 <= p <= |tags| && Valid()
        invariant forall q :: 0 <= q < p ==> statuses[q] == PREPARED || statuses[q] == DONE
        invariant forall q :: p <= q < |tags| ==> statuses[q] == UNPREPARED
        invariant !preschedule ==> log == [] && forall q :: 0 <= q < p ==> statuses[q] == PREPARED
        invariant preschedule ==> forall q :: 0 <= q < p ==> Ran(log, 0, q)
        invariant !preschedule ==> forall q, x :: 0 <= q < p && x in depends[q] ==> Awaited(world, x)
      {
        hide Awaited;
        if preschedule {
          ghost var log0 := log;
          var rv := ExecuteFromRange(p);
          forall q: nat ensures (Succeeded(log, q) <==> Succeeded(log0, q) || (q == p && rv == Success)) &&
                                (Ran(log, 0, q) <==> Ran(log0, 0, q) || p == q)
          {
            LogGrows(log0, Entry(p, rv), q);
          }
          LogGrows(log0, Entry(p, rv), p);
          statuses[p] := if rv == Success then DONE else PREPARED;
        } else {
          UnsafeGetsAwait(env, world, depends[p]);
          world := Do(env, world, UnsafeGets(depends[p])).world;
          statuses[p] := PREPARED;
        }
        p := p + 1;
      }
    }

    /** execute. It is called with a number of passes after which the loop stops, because for some ranges it
        never does. */
    method Execute(ghost n: nat) returns (rv: Outcome)
      requires Valid() && StopsWithin(env, tags, Begin(world, Done(), log), n)
      modifies this`world, this`log, statuses
      ensures Valid() && old(log) <= log
      ensures var r := Final(env, tags, Begin(old(world), old(Done()), old(log)), n);
              world == r.world && log == r.log && Done() == r.done && rv == ReturnValue(r)
      ensures rv == Success <==> forall p :: 0 <= p < |tags| ==> statuses[p] == DONE
      ensures rv == NeedsSequentialize <==> Asked(log, |old(log)|)
      ensures rv == NeedsExtraWake <==>
              (exists p :: 0 <= p < |tags| && statuses[p] != DONE) && !Asked(log, |old(log)|)
      ensures (forall p :: 0 <= p < |tags| ==> !tags[p].sequential) ==> rv != NeedsSequentialize
      ensures forall p :: 0 <= p < |tags| && old(statuses[p]) == DONE ==> statuses[p] == DONE
      ensures forall p :: 0 <= p < |tags| && old(statuses[p]) != DONE ==> Ran(log, |old(log)|, p)
    {
      ghost var start := Begin(world, Done(), log);
      assert CutOk(start);
      LoopDoes(env, tags, start, n);
      var lastPos, last := INT_MAX, INT_MAX;
      var replays: nat, sequential := 0, false;
      ghost var missed: nat, spoiled: nat := 0, 0;
      ghost var left := n;
      var again := true;
      ghost var final := Final(env, tags, start, n);
      while again
        invariant statuses.Length == |tags|
        invariant var s := Loop(world, Done(), log, replays, missed, spoiled, last, lastPos, sequential);
                  if again then !sequential && StopsWithin(env, tags, s, left) && Final(env, tags, s, left) == final
                  else s == final
        decreases if again then left + 1 else 0
      {
        ghost var s := Loop(world, Done(), log, replays, missed, spoiled, last, lastPos, sequential);
        var numsus := world.suspends;
        replays, last, sequential, missed, spoiled := DoPass(last, lastPos, s);
        if last < lastPos { lastPos := last; }
        again := !sequential && numsus > world.suspends - replays;
        left := if left > 0 then left - 1 else 0;
      }
      return if replays == 0 then Success else if sequential then NeedsSequentialize else NeedsExtraWake;
    }

    /** One pass of the loop, up to the point where the cut-off is lowered. */
    method DoPass(last0: int, lastPos: int, ghost s: Loop)
      returns (replays: nat, last: int, sequential: bool, ghost missed: nat, ghost spoiled: nat)
      requires statuses.Length == |tags| && !s.sequential
      requires s.world == world && s.done == Done() && s.log == log && s.last == last0 && s.lastPos == lastPos
      modifies this`world, this`log, statuses
      ensures var r := Pass(env, tags, s);
              && r == Loop(world, Done(), log, replays, missed, spoiled, last, if last < lastPos then last else lastPos,
                           sequential)
    {
      hide Do, OutcomeOf, Tick, LogOk, PassFrom;
      replays, last, sequential, missed, spoiled := 0, last0, false, 0, 0;
      ghost var pass := PassFrom(env, tags, Fresh(s), 0);
      var p := 0;
      while p != |tags| && p <= lastPos
        invariant 0 <= p <= |tags| && statuses.Length == |tags|
        invariant pass ==
                  PassFrom(env, tags, Loop(world, Done(), log, replays, missed, spoiled, last, lastPos, sequential), p)
      {
        ghost var r := Loop(world, Done(), log, replays, missed, spoiled, last, lastPos, sequential);
        PassNext(env, tags, r, p);
        if statuses[p] != DONE {
          ghost var added := world.added;
          var rv := ExecuteFromRange(p);
          if rv == Unfinished {
            replays := replays + 1;
            last := p;
            if world.added > added { missed := missed + 1; } else { spoiled := spoiled + 1; }
          } else if rv == NeedsSequentialize {
            replays := replays + 1;
            sequential := true;
          } else {
            statuses[p] := DONE;
          }
        }
        assert Done() == RunTag(env, tags, r, p).done;
        assert RunTag(env, tags, r, p) ==
               Loop(world, Done(), log, replays, missed, spoiled, last, lastPos, sequential);
        p := p + 1;
      }
      PassOver(env, tags, Loop(world, Done(), log, replays, missed, spoiled, last, lastPos, sequential), p);
      world := Tick(env, world);
    }
  }
}
