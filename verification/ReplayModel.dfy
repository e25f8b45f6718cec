/** The suspend/replay machine of the runtime: steps get items, are suspended when an item is
    missing and replayed when it arrives (src/scheduler_i.cpp, cnc/internal/schedulable.h,
    step_instance.h, suspend_group.h, item_collection_base.h).
    Threads interleave freely; one action of a thread is one operation on an atomic counter, or one
    access to the item table under an accessor. */
module ReplayModel {
  import opened Options
  import opened Sums

  type Tag(==, !new)
  type Step(==, !new)
  type V(==, !new)

  /** One operation of a step. Gets is a series of unsafe_gets followed by flush_gets; with a single
      tag it is a plain get. Spawn puts the tag that prescribes the step. */
  datatype Op = Gets(tags: seq<Tag>) | Put(tag: Tag, value: V) | Spawn(step: Step) | Finish

  /** body: the k-th operation of a step, given the values read so far. depends: what the tuner
      declares for a step. script: what the environment does before it waits. */
  datatype Program = Program(body: (Step, nat, seq<V>) -> Op, depends: Step -> seq<Tag>, script: seq<Op>)

  ghost predicate ValidProgram(c: Program) {
    forall i :: 0 <= i < |c.script| ==> c.script[i].Put? || c.script[i].Spawn?
  }

  /** Scheduling one step: nobody; a step whose last suspension was just taken back; the same step,
      already counted in m_userStepsInFlight, but not in the queue yet. */
  datatype Hand = Nobody | Ready(step: Step) | Counted(step: Step)

  /** What a thread does inside one operation: prepare a new step (pos dependencies looked at), or
      wake the members of a suspend group one after the other. */
  datatype Sub = Prep(child: Step, pos: nat) | Wake(list: seq<Step>, hand: Hand)

  const CALM := Wake([], Nobody)

  /** Where a thread is. Popped: took the step from the queue. Run: executes operation k having read
      `got`; of a Gets it tried pos tags. Failed: the body returned unfinished. Leave: done with the
      step. Env and Waiting are the environment's thread. */
  datatype Frame =
    | Idle
    | Popped(step: Step)
    | Run(step: Step, k: nat, got: seq<V>, pos: nat, vals: seq<V>, missing: bool, sub: Sub)
    | Failed(step: Step)
    | Leave
    | Env(pc: nat, sub: Sub)
    | Waiting

  /** n: m_nSuspenders of each step created so far; waits: the suspend groups, as (item, step) pairs;
      clash: some item was assigned two different values. */
  datatype State = State(items: map<Tag, V>, waits: seq<(Tag, Step)>, n: map<Step, int>, queue: seq<Step>,
                         inflight: int, threads: seq<Frame>, finished: set<Step>, clash: bool)

  function Init(workers: nat): State {
    State(map[], [], map[], [], 0, [Env(0, CALM)] + seq(workers, i => Idle), {}, false)
  }

  datatype Event = Pop(i: nat, j: nat) | Go(i: nat)

  predicate Enabled(c: Program, s: State, e: Event) {
    match e
    case Pop(i, j) => i < |s.threads| && s.threads[i].Idle? && j < |s.queue|
    case Go(i) => i < |s.threads| && !s.threads[i].Idle? && !s.threads[i].Waiting?
  }

  function Suspends(s: State, x: Step): int {
    if x in s.n then s.n[x] else 0
  }

  function SubOf(f: Frame): Sub {
    if f.Run? || f.Env? then f.sub else CALM
  }

  function WithSub(f: Frame, sub: Sub): Frame {
    match f
    case Run(x, k, got, pos, vals, missing, _) => Run(x, k, got, pos, vals, missing, sub)
    case Env(pc, _) => Env(pc, sub)
    case _ => f
  }

  /** The steps of the group of t, and the other groups. */
  function Group(waits: seq<(Tag, Step)>, t: Tag): seq<Step> {
    if waits == [] then []
    else (if waits[0].0 == t then [waits[0].1] else []) + Group(waits[1..], t)
  }

  function Others(waits: seq<(Tag, Step)>, t: Tag): seq<(Tag, Step)> {
    if waits == [] then []
    else (if waits[0].0 == t then [] else [waits[0]]) + Others(waits[1..], t)
  }

  /** scheduler_i::suspend for a missing item. */
  function Suspend(s: State, t: Tag, x: Step): State {
    s.(n := s.n[x := Suspends(s, x) + 1], waits := s.waits + [(t, x)])
  }

  function Unsuspend(s: State, x: Step): State {
    s.(n := s.n[x := Suspends(s, x) - 1])
  }

  function Woken(s: State, x: Step): Hand {
    if Suspends(s, x) == 1 then Ready(x) else Nobody
  }

  /** prepare, resume and schedule, one action at a time. */
  function SubStep(c: Program, s: State, i: nat): State
    requires i < |s.threads| && SubOf(s.threads[i]) != CALM
  {
    var f := s.threads[i];
    match SubOf(f)
    case Prep(x, pos) =>
      if pos < |c.depends(x)| then
        var t := c.depends(x)[pos];
        var s1 := if t in s.items then s else Suspend(s, t, x);
        s1.(threads := s.threads[i := WithSub(f, Prep(x, pos + 1))])
      else
        Unsuspend(s, x).(threads := s.threads[i := WithSub(f, Wake([], Woken(s, x)))])
    case Wake(list, hand) =>
      match hand
      case Nobody =>
        var x := list[0];
        Unsuspend(s, x).(threads := s.threads[i := WithSub(f, Wake(list[1..], Woken(s, x)))])
      case Ready(x) =>
        if f.Run? && x == f.step then s.(threads := s.threads[i := WithSub(f, Wake(list, Nobody))])
        else s.(inflight := s.inflight + 1, threads := s.threads[i := WithSub(f, Wake(list, Counted(x)))])
      case Counted(x) =>
        s.(queue := s.queue + [x], threads := s.threads[i := WithSub(f, Wake(list, Nobody))])
  }

  /** The thread's frame after a Put or Spawn. */
  function Onward(f: Frame, sub: Sub): Frame {
    match f
    case Run(x, k, got, _, _, _, _) => Run(x, k + 1, got, 0, [], false, sub)
    case Env(pc, _) => Env(pc + 1, sub)
    case _ => f
  }

  function DoPut(s: State, i: nat, t: Tag, v: V): State
    requires i < |s.threads|
  {
    var f := s.threads[i];
    if t in s.items then
      s.(clash := s.clash || s.items[t] != v, threads := s.threads[i := Onward(f, CALM)])
    else
      s.(items := s.items[t := v], waits := Others(s.waits, t),
         threads := s.threads[i := Onward(f, Wake(Group(s.waits, t), Nobody))])
  }

  function DoSpawn(s: State, i: nat, x: Step): State
    requires i < |s.threads|
  {
    var f := s.threads[i];
    if x in s.n then s.(threads := s.threads[i := Onward(f, CALM)])
    else s.(n := s.n[x := 1], threads := s.threads[i := Onward(f, Prep(x, 0))])
  }

  /** One action of a step's body. */
  function RunStep(c: Program, s: State, i: nat): State
    requires i < |s.threads| && s.threads[i].Run?
  {
    var f := s.threads[i];
    match c.body(f.step, f.k, f.got)
    case Gets(tags) =>
      if f.pos < |tags| then
        var t := tags[f.pos];
        if t in s.items then
          s.(threads := s.threads[i := f.(pos := f.pos + 1, vals := f.vals + [s.items[t]])])
        else
          Suspend(s, t, f.step).(threads := s.threads[i := f.(pos := f.pos + 1, missing := true)])
      else if f.missing then s.(threads := s.threads[i := Failed(f.step)])
      else s.(threads := s.threads[i := Run(f.step, f.k + 1, f.got + f.vals, 0, [], false, CALM)])
    case Put(t, v) => DoPut(s, i, t, v)
    case Spawn(x) => DoSpawn(s, i, x)
    case Finish => s.(finished := s.finished + {f.step}, threads := s.threads[i := Leave])
  }

  function Apply(c: Program, s: State, e: Event): State
    requires ValidProgram(c) && Enabled(c, s, e)
  {
    match e
    case Pop(i, j) =>
      s.(queue := s.queue[..j] + s.queue[j + 1..], threads := s.threads[i := Popped(s.queue[j])])
    case Go(i) =>
      var f := s.threads[i];
      if SubOf(f) != CALM then SubStep(c, s, i)
      else
        match f
        case Popped(x) =>
          s.(n := s.n[x := Suspends(s, x) + 1], threads := s.threads[i := Run(x, 0, [], 0, [], false, CALM)])
        case Run(_, _, _, _, _, _, _) => RunStep(c, s, i)
        case Failed(x) =>
          Unsuspend(s, x).(threads := s.threads[i := if Suspends(s, x) == 1 then Popped(x) else Leave])
        case Leave => s.(inflight := s.inflight - 1, threads := s.threads[i := Idle])
        case Env(pc, _) =>
          if pc < |c.script| then
            match c.script[pc]
            case Put(t, v) => DoPut(s, i, t, v)
            case Spawn(x) => DoSpawn(s, i, x)
            case _ => s
          else s.(inflight := s.inflight + 1, threads := s.threads[i := Waiting])
        case _ => s
  }

  /** The environment's wait can return: only the waiter is counted as in flight. */
  predicate Quiescent(s: State) {
    |s.threads| > 0 && s.threads[0].Waiting? && s.inflight == 1
  }

  /*** what a step does, independent of any schedule ***/

  predicate AllIn(tags: seq<Tag>, items: map<Tag, V>) {
    forall i :: 0 <= i < |tags| ==> tags[i] in items
  }

  function Values(tags: seq<Tag>, items: map<Tag, V>): seq<V>
    requires AllIn(tags, items)
  {
    seq(|tags|, i requires 0 <= i < |tags| => items[tags[i]])
  }

  /** With these items, the values step x has read when it comes to its k-th operation; None if it
      does not get there. */
  function Reaches(c: Program, items: map<Tag, V>, x: Step, k: nat): Option<seq<V>> {
    if k == 0 then if AllIn(c.depends(x), items) then Some([]) else None
    else
      match Reaches(c, items, x, k - 1)
      case None => None
      case Some(got) =>
        match c.body(x, k - 1, got)
        case Gets(tags) => if AllIn(tags, items) then Some(got + Values(tags, items)) else None
        case Finish => None
        case _ => Some(got)
  }

  /** What operation op leaves behind has happened. */
  predicate Happened(op: Op, s: State) {
    match op
    case Put(t, v) => t in s.items && (s.items[t] == v || s.clash)
    case Spawn(y) => y in s.n
    case _ => true
  }

  /** Operation j of x. */
  predicate OpHappened(c: Program, s: State, x: Step, j: nat) {
    Reaches(c, s.items, x, j).Some? ==> Happened(c.body(x, j, Reaches(c, s.items, x, j).value), s)
  }

  ghost predicate Performed(c: Program, s: State, x: Step, k: nat) {
    forall j: nat :: j < k ==> OpHappened(c, s, x, j)
  }

  /** x came to operation k, with everything before done. */
  ghost predicate At(c: Program, s: State, x: Step, k: nat) {
    Reaches(c, s.items, x, k).Some? && Performed(c, s, x, k)
  }

  /** x stopped at an operation that needs item t. */
  ghost predicate WaitsFor(c: Program, s: State, x: Step, t: Tag) {
    || t in c.depends(x)
    || exists k: nat :: At(c, s, x, k) && Needs(c, s, x, k, t)
  }

  predicate Needs(c: Program, s: State, x: Step, k: nat, t: Tag) {
    Reaches(c, s.items, x, k).Some? &&
    var op := c.body(x, k, Reaches(c, s.items, x, k).value);
    op.Gets? && t in op.tags
  }

  predicate Ends(c: Program, s: State, x: Step, k: nat) {
    Reaches(c, s.items, x, k).Some? && c.body(x, k, Reaches(c, s.items, x, k).value).Finish?
  }

  ghost predicate Completed(c: Program, s: State, x: Step) {
    exists k: nat :: At(c, s, x, k) && Ends(c, s, x, k)
  }

  /*** the invariant ***/

  function IsStep(x: Step): Step -> int { (y: Step) => if y == x then 1 else 0 }

  function WaitOf(x: Step): ((Tag, Step)) -> int { (w: (Tag, Step)) => if w.1 == x then 1 else 0 }

  /** Frames that protect x from being scheduled: by preparing or executing it. */
  function GuardOf(x: Step): Frame -> int {
    (f: Frame) =>
      (if (f.Run? || f.Failed?) && f.step == x then 1 else 0) +
      (if SubOf(f).Prep? && SubOf(f).child == x then 1 else 0)
  }

  /** Frames on their way to queue or execute x. */
  function FreeOf(x: Step): Frame -> int {
    (f: Frame) =>
      (if f.Popped? && f.step == x then 1 else 0) +
      (if SubOf(f).Wake? && !SubOf(f).hand.Nobody? && SubOf(f).hand.step == x then 1 else 0)
  }

  /** Memberships of x in a group that is being woken. */
  ghost function ListOf(x: Step): Frame -> int {
    (f: Frame) => if SubOf(f).Wake? then Sum(SubOf(f).list, IsStep(x)) else 0
  }

  /** What a frame adds to m_userStepsInFlight. */
  function BusyOf(): Frame -> int {
    (f: Frame) =>
      (if f.Idle? || f.Env? then 0 else 1) +
      (if SubOf(f).Wake? && SubOf(f).hand.Counted? then 1 else 0)
  }

  ghost function Guards(s: State, x: Step): int { Sum(s.threads, GuardOf(x)) }
  ghost function Free(s: State, x: Step): int { Sum(s.queue, IsStep(x)) + Sum(s.threads, FreeOf(x)) }
  ghost function Members(s: State, x: Step): int { Sum(s.waits, WaitOf(x)) + Sum(s.threads, ListOf(x)) }

  /** m_nSuspenders is the number of suspend groups x is in, plus one while it is prepared or
      executed; and x is in exactly one place: guarded, about to be executed, or waiting. */
  ghost predicate StepOk(s: State, x: Step) {
    if x !in s.n || x in s.finished then
      Guards(s, x) == 0 && Free(s, x) == 0 && Members(s, x) == 0
    else
      && s.n[x] == Guards(s, x) + Members(s, x)
      && Guards(s, x) + Free(s, x) + (if Guards(s, x) == 0 && Members(s, x) > 0 then 1 else 0) == 1
  }

  ghost predicate FrameOk(c: Program, s: State, f: Frame) {
    match f
    case Run(x, k, got, pos, vals, missing, sub) =>
      && x in s.n && x !in s.finished
      && At(c, s, x, k) && Reaches(c, s.items, x, k) == Some(got)
      && (!missing ==> Members(s, x) == 0)
      && (match c.body(x, k, got)
          case Gets(tags) =>
            && pos <= |tags| && (sub != CALM ==> pos == 0)
            && (!missing ==> AllIn(tags[..pos], s.items) && vals == Values(tags[..pos], s.items))
          case _ => !missing)
    case Env(pc, sub) => pc <= |c.script| && forall j :: 0 <= j < pc ==> Happened(c.script[j], s)
    case Waiting => forall j :: 0 <= j < |c.script| ==> Happened(c.script[j], s)
    case _ => true
  }

  predicate Shape(s: State) {
    && |s.threads| > 0 && (s.threads[0].Env? || s.threads[0].Waiting?)
    && forall i :: 1 <= i < |s.threads| ==> !s.threads[i].Env? && !s.threads[i].Waiting?
  }

  /** A member of a suspend group waits for an item that is absent and that it needs. */
  ghost predicate WaitOk(c: Program, s: State, w: (Tag, Step)) {
    w.0 !in s.items && WaitsFor(c, s, w.1, w.0)
  }

  /** f is preparing x and has not come beyond its p-th dependency. */
  predicate Preparing(f: Frame, x: Step, p: nat) {
    SubOf(f).Prep? && SubOf(f).child == x && SubOf(f).pos <= p
  }

  /** The p-th dependency of x is there, or awaited. */
  predicate Served(c: Program, s: State, x: Step, p: nat) {
    p < |c.depends(x)| ==> c.depends(x)[p] in s.items || (c.depends(x)[p], x) in s.waits
  }

  ghost predicate DependsOk(c: Program, s: State, x: Step, p: nat) {
    Served(c, s, x, p) || exists i :: 0 <= i < |s.threads| && Preparing(s.threads[i], x, p)
  }

  ghost predicate Inv(c: Program, s: State) {
    && Shape(s)
    && (forall x :: StepOk(s, x))
    && s.inflight == |s.queue| + Sum(s.threads, BusyOf())
    && (forall i :: 0 <= i < |s.threads| ==> FrameOk(c, s, s.threads[i]))
    && (forall i :: 0 <= i < |s.waits| ==> WaitOk(c, s, s.waits[i]))
    && (forall x :: x in s.finished ==> x in s.n && Completed(c, s, x))
    && (forall x, p: nat :: x in s.n ==> DependsOk(c, s, x, p))
  }
}
