/** The work-stealing scheduler with parking (src/tbb_concurrent_queue_scheduler.cpp). Every worker has
    a queue; a worker out of work scans all queues and then blocks on a global queue, which carries
    only wake-up tokens. */
module WorkStealing {
  import opened Options

  type Step(==, !new)

  /** Executing; the step has just been pushed and the wake-up check comes next; scanning the
      pos-th queue of its order; blocked. */
  datatype Worker = Execute | Check | Scan(pos: nat) | Parked

  /** popped: all steps taken for execution so far; pushed: all steps scheduled so far. */
  datatype State = State(queues: seq<seq<Step>>, workers: seq<Worker>, tokens: nat,
                         pushed: multiset<Step>, popped: multiset<Step>)

  /** The queue a worker looks at in the pos-th place: its own, then all, beginning after its own. */
  function Order(tid: nat, pos: nat, N: nat): nat
    requires tid < N
  {
    if pos == 0 then tid else ((tid + 1) % N + (pos - 1)) % N
  }

  /** The queue q is still ahead in the scan. */
  ghost predicate Ahead(tid: nat, pos: nat, q: nat, N: nat)
    requires tid < N
  {
    exists j :: pos <= j <= N && Order(tid, j, N) == q
  }

  /** pos: the place in the queue that is popped (any order of service). A non-worker pushes to queue 0. */
  datatype Event =
    | Push(tid: nat, q: nat, step: Step)
    | Wake(tid: nat)
    | Finish(tid: nat)
    | Look(tid: nat, at: nat)
    | Park(tid: nat)
    | Unpark(tid: nat)
    | Outside(step: Step)

  predicate Shape(s: State) { |s.queues| == |s.workers| > 0 }

  predicate Enabled(s: State, e: Event) {
    && Shape(s)
    && match e
       case Push(tid, q, _) => tid < |s.workers| && q < |s.queues| && s.workers[tid].Execute?
       case Wake(tid) => tid < |s.workers| && s.workers[tid].Check?
       case Finish(tid) => tid < |s.workers| && s.workers[tid].Execute?
       case Look(tid, at) =>
         && tid < |s.workers| && s.workers[tid].Scan? && s.workers[tid].pos <= |s.workers|
         && var q := Order(tid, s.workers[tid].pos, |s.workers|);
            q < |s.queues| && (s.queues[q] != [] ==> at < |s.queues[q]|)
       case Park(tid) => tid < |s.workers| && s.workers[tid].Scan? && s.workers[tid].pos > |s.workers|
       case Unpark(tid) => tid < |s.workers| && s.workers[tid].Parked? && s.tokens > 0
       case Outside(_) => true
  }

  function IsParked(workers: seq<Worker>): nat {
    if workers == [] then 0 else (if workers[0].Parked? then 1 else 0) + IsParked(workers[1..])
  }

  /** m_gQueue->size(): tokens less the workers that wait for one. */
  function GlobalSize(s: State): int { s.tokens - IsParked(s.workers) }

  function WithToken(s: State): State {
    if GlobalSize(s) < 0 then s.(tokens := s.tokens + 1) else s
  }

  function Become(s: State, tid: nat, w: Worker): State
    requires tid < |s.workers|
  {
    s.(workers := s.workers[tid := w])
  }

  function Apply(s: State, e: Event): State
    requires Enabled(s, e)
  {
    match e
    case Push(tid, q, x) =>
      Become(s, tid, Check).(queues := s.queues[q := s.queues[q] + [x]], pushed := s.pushed + multiset{x})
    case Wake(tid) => Become(WithToken(s), tid, Execute)
    case Finish(tid) => Become(s, tid, Scan(0))
    case Look(tid, at) =>
      var pos := s.workers[tid].pos;
      var q := Order(tid, pos, |s.workers|);
      if s.queues[q] == [] then Become(s, tid, Scan(pos + 1))
      else
        Become(s, tid, Execute).(
          queues := s.queues[q := s.queues[q][..at] + s.queues[q][at + 1..]],
          popped := s.popped + multiset{s.queues[q][at]})
    case Park(tid) => Become(s, tid, Parked)
    case Unpark(tid) => Become(s, tid, Scan(0)).(tokens := s.tokens - 1)
    case Outside(x) =>
      WithToken(s.(queues := s.queues[0 := s.queues[0] + [x]], pushed := s.pushed + multiset{x}))
  }

  function Init(N: nat): State {
    State(seq(N, i => []), seq(N, i => Scan(0)), 0, multiset{}, multiset{})
  }

  /** A worker that will come by queue q. */
  ghost predicate Covers(s: State, tid: nat, q: nat)
    requires tid < |s.workers|
  {
    match s.workers[tid]
    case Execute => true
    case Check => true
    case Scan(pos) => Ahead(tid, pos, q, |s.workers|)
    case Parked => false
  }

  ghost predicate Watched(s: State, q: nat) {
    exists tid :: 0 <= tid < |s.workers| && Covers(s, tid, q)
  }

  /** Somebody will come by queue q: a worker that covers it, or a blocked one with a token to wake it. */
  ghost predicate Served(s: State, q: nat) {
    Watched(s, q) || (s.tokens > 0 && IsParked(s.workers) > 0)
  }

  /** When a push from outside is safe: a blocked worker has no token yet and gets one now, or a blocked worker
      has a token already, or some worker executes, or scans and has not looked into queue 0 since. */
  ghost predicate OutsideOk(s: State) {
    || GlobalSize(s) < 0
    || (s.tokens > 0 && exists tid :: 0 <= tid < |s.workers| && s.workers[tid].Parked?)
    || exists tid :: 0 <= tid < |s.workers| &&
         (s.workers[tid].Execute? || s.workers[tid].Check? ||
          (s.workers[tid].Scan? && Ahead(tid, s.workers[tid].pos, 0, |s.workers|)))
  }

  lemma {:induction false} SomeParked(ws: seq<Worker>)
    ensures IsParked(ws) > 0 <==> exists tid :: 0 <= tid < |ws| && ws[tid].Parked?
  {
    if ws != [] {
      SomeParked(ws[1..]);
      if tid :| 0 <= tid < |ws[1..]| && ws[1..][tid].Parked? { assert ws[tid + 1].Parked?; }
    }
  }

  function InQueues(queues: seq<seq<Step>>): multiset<Step> {
    if queues == [] then multiset{} else multiset(queues[0]) + InQueues(queues[1..])
  }

  ghost predicate Inv(s: State) {
    && Shape(s)
    && (forall q :: 0 <= q < |s.queues| && s.queues[q] != [] ==> Served(s, q))
    && s.pushed == InQueues(s.queues) + s.popped
  }

  /** A worker's scan comes by every queue. */
  lemma ScanSeesAll(tid: nat, q: nat, N: nat)
    requires tid < N && q < N
    ensures Ahead(tid, 0, q, N)
  {
    var s := (tid + 1) % N;
    assert s == if tid + 1 == N then 0 else tid + 1 by { if tid + 1 < N { Small(tid + 1, N); } }
    var j := if q >= s then q - s + 1 else q + N - s + 1;
    if q >= s { Small(q, N); } else { Wrap(q, N); }
    assert Order(tid, j, N) == q && 0 <= j <= N;
  }

  lemma Small(a: nat, N: nat)
    requires a < N
    ensures a % N == a
  {
  }

  lemma Wrap(a: nat, N: nat)
    requires a < N
    ensures (a + N) % N == a
  {
    assert a + N == N * 1 + a;
  }

  /** A worker looks at its own queue first, and then at all of them, from the next one on, round the circle. */
  lemma OrderIs(tid: nat, pos: nat, N: nat)
    requires tid < N && pos <= N
    ensures Order(tid, pos, N) == if tid + pos < N then tid + pos else tid + pos - N
  {
    if pos == 0 {
      Small(tid, N);
    } else {
      if tid + 1 < N { Small(tid + 1, N); }
      var a := (tid + 1) % N + (pos - 1);
      if a < N { Small(a, N); } else { Wrap(a - N, N); }
    }
  }

  lemma OrderRange(tid: nat, pos: nat, N: nat)
    requires tid < N
    ensures Order(tid, pos, N) < N
  {
  }

  lemma {:induction false} QueueGrows(queues: seq<seq<Step>>, q: nat, x: Step)
    requires q < |queues|
    ensures InQueues(queues[q := queues[q] + [x]]) == InQueues(queues) + multiset{x}
  {
    var qs := queues[q := queues[q] + [x]];
    if q == 0 {
      assert qs[1..] == queues[1..];
    } else {
      assert qs[1..] == queues[1..][q - 1 := queues[1..][q - 1] + [x]];
      QueueGrows(queues[1..], q - 1, x);
    }
  }

  lemma {:induction false} QueueShrinks(queues: seq<seq<Step>>, q: nat, at: nat)
    requires q < |queues| && at < |queues[q]|
    ensures InQueues(queues) == InQueues(queues[q := queues[q][..at] + queues[q][at + 1..]]) + multiset{queues[q][at]}
  {
    var rest := queues[q][..at] + queues[q][at + 1..];
    var qs := queues[q := rest];
    if q == 0 {
      assert qs[1..] == queues[1..];
      assert queues[0] == queues[0][..at] + [queues[0][at]] + queues[0][at + 1..];
    } else {
      assert qs[1..] == queues[1..][q - 1 := rest];
      QueueShrinks(queues[1..], q - 1, at);
    }
  }

  /** Workers other than tid cover what they covered. */
  lemma StillWatched(s: State, s': State, tid: nat, q: nat)
    requires tid < |s.workers| == |s'.workers| && s'.workers == s.workers[tid := s'.workers[tid]]
    requires Watched(s, q) && (Covers(s, tid, q) ==> Covers(s', tid, q))
    ensures Watched(s', q)
  {
    var w :| 0 <= w < |s.workers| && Covers(s, w, q);
    assert Covers(s', w, q);
  }

  lemma {:induction false} ParkedUpdate(ws: seq<Worker>, tid: nat, w: Worker)
    requires tid < |ws|
    ensures IsParked(ws[tid := w]) == IsParked(ws) - (if ws[tid].Parked? then 1 else 0) + if w.Parked? then 1 else 0
  {
    if tid == 0 {
      assert ws[tid := w][1..] == ws[1..];
    } else {
      assert ws[tid := w][1..] == ws[1..][tid - 1 := w];
      ParkedUpdate(ws[1..], tid - 1, w);
    }
  }

  lemma MoveOne(all: multiset<Step>, left: multiset<Step>, x: Step, gone: multiset<Step>)
    ensures all == (left + multiset{x}) + gone <==> all == left + (gone + multiset{x})
    ensures all == left + gone ==> all + multiset{x} == (left + multiset{x}) + gone
  {
  }

  /** Conservation of steps. */
  lemma PushedKept(s: State, e: Event)
    requires Inv(s) && Enabled(s, e)
    ensures Shape(Apply(s, e)) && Apply(s, e).pushed == InQueues(Apply(s, e).queues) + Apply(s, e).popped
  {
    hide InQueues, Served, Order;
    match e {
      case Push(_, q, x) =>
        QueueGrows(s.queues, q, x);
        MoveOne(s.pushed, InQueues(s.queues), x, s.popped);
      case Outside(x) =>
        QueueGrows(s.queues, 0, x);
        MoveOne(s.pushed, InQueues(s.queues), x, s.popped);
      case Look(tid, at) =>
        OrderRange(tid, s.workers[tid].pos, |s.workers|);
        var q := Order(tid, s.workers[tid].pos, |s.workers|);
        if s.queues[q] != [] {
          QueueShrinks(s.queues, q, at);
          MoveOne(s.pushed, InQueues(Apply(s, e).queues), s.queues[q][at], s.popped);
        }
      case _ =>
    }
  }

  /** Every step keeps every nonempty queue served, if pushes from outside are safe ones. */
  lemma StepKeepsInv(s: State, e: Event)
    requires Inv(s) && Enabled(s, e) && (e.Outside? ==> OutsideOk(s))
    ensures Inv(Apply(s, e))
  {
    hide Served, InQueues;
    var s' := Apply(s, e);
    PushedKept(s, e);
    forall q | 0 <= q < |s'.queues| && s'.queues[q] != [] ensures Served(s', q) {
      if e.Outside? { OutsideIff(s, e.step, q); } else { ServedAfter(s, e, q); }
    }
  }

  lemma ServedAfter(s: State, e: Event, q: nat)
    requires Inv(s) && Enabled(s, e) && !e.Outside? && q < |Apply(s, e).queues| && Apply(s, e).queues[q] != []
    ensures Served(Apply(s, e), q)
  {
    hide InQueues;
    var s', N, tid := Apply(s, e), |s.workers|, e.tid;
    ParkedUpdate(s.workers, tid, s'.workers[tid]);
    match e {
      case Push(_, _, _) => assert Covers(s', tid, q);
      case Wake(_) => assert Covers(s', tid, q);
      case Finish(_) =>
        ScanSeesAll(tid, q, N);
        assert Covers(s', tid, q);
      case Unpark(_) =>
        ScanSeesAll(tid, q, N);
        assert Covers(s', tid, q);
      case Look(_, _) =>
        var pos := s.workers[tid].pos;
        if s.queues[Order(tid, pos, N)] != [] {
          assert Covers(s', tid, q);
        } else if Watched(s, q) {
          if Covers(s, tid, q) {
            var j :| pos <= j <= N && Order(tid, j, N) == q;
            assert j != pos;
          }
          StillWatched(s, s', tid, q);
        }
      case Park(_) => if Watched(s, q) { StillWatched(s, s', tid, q); }
    }
  }

  /** After a push from outside, every nonempty queue is served if and only if the push was safe. */
  lemma OutsideIff(s: State, x: Step, q: nat)
    requires Inv(s) && Enabled(s, Outside(x)) && q < |s.queues|
    ensures var s' := Apply(s, Outside(x));
            && (Served(s', 0) <==> OutsideOk(s))
            && (q != 0 && s.queues[q] != [] ==> Served(s', q))
  {
    var s' := Apply(s, Outside(x));
    SomeParked(s.workers);
    assert forall tid :: 0 <= tid < |s.workers| ==>
        (Covers(s, tid, 0) <==> s.workers[tid].Execute? || s.workers[tid].Check? ||
                                (s.workers[tid].Scan? && Ahead(tid, s.workers[tid].pos, 0, |s.workers|)));
    forall p ensures Watched(s', p) <==> Watched(s, p) {
      if Watched(s, p) {
        var w :| 0 <= w < |s.workers| && Covers(s, w, p);
        assert Covers(s', w, p);
      }
      if Watched(s', p) {
        var w :| 0 <= w < |s.workers| && Covers(s', w, p);
        assert Covers(s, w, p);
      }
    }
  }

  ghost predicate Run(N: nat, ss: seq<State>, es: seq<Event>) {
    && N > 0 && |ss| == |es| + 1 && ss[0] == Init(N)
    && forall i :: 0 <= i < |es| ==> Enabled(ss[i], es[i]) && ss[i + 1] == Apply(ss[i], es[i])
  }

  /** Steps are pushed by workers, or safely from outside. */
  ghost predicate SafePushes(ss: seq<State>, es: seq<Event>) {
    |ss| == |es| + 1 && forall i :: 0 <= i < |es| && es[i].Outside? ==> OutsideOk(ss[i])
  }

  lemma {:induction false} EmptyQueues(qs: seq<seq<Step>>)
    requires forall i :: 0 <= i < |qs| ==> qs[i] == []
    ensures InQueues(qs) == multiset{}
  {
    if qs != [] { EmptyQueues(qs[1..]); }
  }

  lemma {:induction false} RunInv(N: nat, ss: seq<State>, es: seq<Event>, i: nat)
    requires Run(N, ss, es) && SafePushes(ss, es) && i < |ss|
    ensures Inv(ss[i])
  {
    hide Inv, Apply, OutsideOk;
    if i == 0 {
      assert Inv(ss[0]) by { EmptyQueues(ss[0].queues); InitInv(N); }
    } else {
      RunInv(N, ss, es, i - 1);
      assert Enabled(ss[i - 1], es[i - 1]);
      StepKeepsInv(ss[i - 1], es[i - 1]);
    }
  }

  lemma InitInv(N: nat)
    requires N > 0
    ensures Inv(Init(N))
  {
    EmptyQueues(Init(N).queues);
  }

  /** Work is never stranded: while a queue holds a step, some worker is executing, or its scan still
      has that queue ahead, or a blocked worker will be woken; so when all workers are blocked without
      a token, all queues are empty and every step pushed was popped, as often as it was pushed. */
  lemma NothingStranded(N: nat, ss: seq<State>, es: seq<Event>, i: nat)
    requires Run(N, ss, es) && SafePushes(ss, es) && i < |ss|
    ensures forall q :: 0 <= q < |ss[i].queues| && ss[i].queues[q] != [] ==> Served(ss[i], q)
    ensures (forall t :: 0 <= t < |ss[i].workers| ==> ss[i].workers[t].Parked?) && ss[i].tokens == 0 ==>
              (forall q :: 0 <= q < |ss[i].queues| ==> ss[i].queues[q] == []) && ss[i].pushed == ss[i].popped
  {
    RunInv(N, ss, es, i);
    if (forall t :: 0 <= t < |ss[i].workers| ==> ss[i].workers[t].Parked?) && ss[i].tokens == 0 {
      assert forall q :: 0 <= q < |ss[i].queues| ==> ss[i].queues[q] == [];
      EmptyQueues(ss[i].queues);
    }
  }

  /** At any time each pushed step is in exactly one queue or was popped, counted with multiplicity. */
  lemma PoppedOnce(N: nat, ss: seq<State>, es: seq<Event>, i: nat)
    requires Run(N, ss, es) && SafePushes(ss, es) && i < |ss|
    ensures ss[i].pushed == InQueues(ss[i].queues) + ss[i].popped && ss[i].popped <= ss[i].pushed
  {
    RunInv(N, ss, es, i);
  }

  /*** tokens ***/

  ghost function Blocked(s: State): set<nat> { set t: nat | t < |s.workers| && s.workers[t].Parked? }

  lemma {:induction false} ParkedSnoc(ws: seq<Worker>, w: Worker)
    ensures IsParked(ws + [w]) == IsParked(ws) + if w.Parked? then 1 else 0
  {
    if ws == [] {
      assert [] + [w] == [w] && [w][1..] == [];
    } else {
      assert (ws + [w])[1..] == ws[1..] + [w];
      ParkedSnoc(ws[1..], w);
    }
  }

  lemma {:induction false} ParkedIsBlocked(ws: seq<Worker>, n: nat)
    requires n <= |ws|
    ensures IsParked(ws[..n]) == |set t: nat | t < n && ws[t].Parked?|
  {
    if n > 0 {
      ParkedIsBlocked(ws, n - 1);
      assert ws[..n] == ws[..n - 1] + [ws[n - 1]];
      ParkedSnoc(ws[..n - 1], ws[n - 1]);
      var before := set t: nat | t < n - 1 && ws[t].Parked?;
      assert (set t: nat | t < n && ws[t].Parked?) == if ws[n - 1].Parked? then before + {n - 1} else before;
    }
  }

  lemma BlockedCount(s: State)
    ensures IsParked(s.workers) == |Blocked(s)|
  {
    ParkedIsBlocked(s.workers, |s.workers|);
    assert s.workers[..|s.workers|] == s.workers;
  }

  /** No token is left over: each is for a blocked worker. */
  lemma {:induction false} TokensHaveTakers(N: nat, ss: seq<State>, es: seq<Event>, i: nat)
    requires Run(N, ss, es) && i < |ss|
    ensures ss[i].tokens <= |Blocked(ss[i])|
  {
    BlockedCount(ss[i]);
    if i > 0 {
      var s, e := ss[i - 1], es[i - 1];
      TokensHaveTakers(N, ss, es, i - 1);
      BlockedCount(s);
      assert Enabled(s, e) && ss[i] == Apply(s, e);
      hide Run, Blocked;
      if !e.Outside? { ParkedUpdate(s.workers, e.tid, Apply(s, e).workers[e.tid]); }
    }
  }

  /** A pushed step goes to the end of the queue it is meant for and no other queue changes; a worker that is done
      with a step, or woken, begins with its own queue. */
  lemma PushAndRestart(s: State, e: Event)
    requires Enabled(s, e)
    ensures e.Push? || e.Outside? ==>
              var q, qs := if e.Push? then e.q else 0, Apply(s, e).queues;
              && |qs| == |s.queues| && qs[q] == s.queues[q] + [e.step]
              && forall k :: 0 <= k < |qs| && k != q ==> qs[k] == s.queues[k]
    ensures e.Finish? || e.Unpark? ==>
              var w := Apply(s, e).workers[e.tid]; w.Scan? && Order(e.tid, w.pos, |s.workers|) == e.tid
  {
  }

  /** What happens to the tokens: the check after a push by a worker, and a push from outside, add one if and only if
      there are more blocked workers than tokens; a worker that is woken takes one. */
  lemma TokensExact(N: nat, ss: seq<State>, es: seq<Event>, i: nat)
    requires Run(N, ss, es) && i < |es|
    ensures var s, s', e := ss[i], ss[i + 1], es[i];
            s'.tokens == if e.Wake? || e.Outside? then s.tokens + (if s.tokens < |Blocked(s)| then 1 else 0)
                         else if e.Unpark? then s.tokens - 1 else s.tokens
  {
    BlockedCount(ss[i]);
    assert Enabled(ss[i], es[i]) && ss[i + 1] == Apply(ss[i], es[i]);
  }

  /** After a push, as soon as the pushing thread has made its check, every worker that was blocked can be woken,
      though only as many as there are tokens. */
  lemma PushWakes(N: nat, ss: seq<State>, es: seq<Event>, i: nat, w: nat)
    requires Run(N, ss, es) && i < |es| && (es[i].Wake? || es[i].Outside?) && w in Blocked(ss[i])
    ensures w in Blocked(ss[i + 1]) && Enabled(ss[i + 1], Unpark(w))
  {
    var s, e := ss[i], es[i];
    TokensExact(N, ss, es, i);
    assert Enabled(s, e) && ss[i + 1] == Apply(s, e);
    assert |Blocked(s)| > 0;
  }

  /** The run in which another thread pushes after the only worker has looked at the queue and before it
      blocks. */
  function OutsideEvents(x: Step): seq<Event> { [Look(0, 0), Look(0, 0), Outside(x), Park(0)] }

  function OutsideStates(x: Step): seq<State> {
    var none, one := multiset{}, multiset{x};
    [State([[]], [Scan(0)], 0, none, none),
     State([[]], [Scan(1)], 0, none, none),
     State([[]], [Scan(2)], 0, none, none),
     State([[x]], [Scan(2)], 0, one, none),
     State([[x]], [Parked], 0, one, none)]
  }

  /** Then the step stays in the queue, the worker is blocked and there is no token. */
  lemma OutsidePushStrands(x: Step)
    ensures Run(1, OutsideStates(x), OutsideEvents(x))
    ensures var s := OutsideStates(x)[4]; s.workers == [Parked] && s.queues == [[x]] && s.tokens == 0
  {
    var ss, es := OutsideStates(x), OutsideEvents(x);
    assert ss[0] == Init(1);
    assert IsParked([Scan(2)]) == 0 by { assert [Scan(2)][1..] == []; }
    assert Enabled(ss[0], es[0]) && ss[1] == Apply(ss[0], es[0]);
    assert Enabled(ss[1], es[1]) && ss[2] == Apply(ss[1], es[1]);
    assert [] + [x] == [x];
    assert Enabled(ss[2], es[2]) && ss[3] == Apply(ss[2], es[2]);
    assert Enabled(ss[3], es[3]) && ss[4] == Apply(ss[3], es[3]);
  }

  /*** pop_next as code, for one thread at a time ***/

  class Queues {
    const n: nat
    const queues: array<seq<Step>>

    ghost predicate Valid() { n > 0 && queues.Length == n }

    constructor (n: nat)
      requires n > 0
      ensures Valid() && this.n == n && fresh(queues) && forall q :: 0 <= q < n ==> queues[q] == []
    {
      this.n := n;
      queues := new seq<Step>[n](i => []);
    }

    method TryPop(q: nat) returns (x: Option<Step>)
      requires Valid() && q < n
      modifies queues
      ensures old(queues[q]) == [] ==> x.None? && queues[..] == old(queues[..])
      ensures old(queues[q]) != [] ==>
              x == Some(old(queues[q])[0]) && queues[..] == old(queues[..])[q := old(queues[q])[1..]]
    {
      if queues[q] == [] { return None; }
      x := Some(queues[q][0]);
      queues[q] := queues[q][1..];
    }

    /** The first step of the first nonempty queue in scan order; nothing only if all are empty. */
    method PopNext(tid: nat) returns (x: Option<Step>, ghost pos: nat)
      requires Valid() && tid < n
      modifies queues
      ensures x.None? <==> forall q :: 0 <= q < n ==> old(queues[q]) == []
      ensures x.None? ==> queues[..] == old(queues[..])
      ensures old(queues[tid]) != [] ==> pos == 0 && x == Some(old(queues[tid])[0])
      ensures x.Some? ==>
                && pos <= n && (forall j :: 0 <= j < pos ==>
                                    Order(tid, j, n) < n && old(queues[..])[Order(tid, j, n)] == [])
                && var q := Order(tid, pos, n);
                   q < n && old(queues[..])[q] != [] && x == Some(old(queues[..])[q][0])
                   && queues[..] == old(queues[..])[q := old(queues[..])[q][1..]]
    {
      pos := 0;
      x := TryPop(tid);
      if x.Some? { return; }
      var s := (tid + 1) % n;
      var i := 0;
      while i != n
        invariant 0 <= i <= n && queues[..] == old(queues[..])
        invariant forall j :: 0 <= j <= i ==> Order(tid, j, n) < n && old(queues[..])[Order(tid, j, n)] == []
      {
        pos := i + 1;
        assert Order(tid, i + 1, n) == (s + i) % n;
        var q := (s + i) % n;
        x := TryPop(q);
        if x.Some? { return; }
        i := i + 1;
      }
      forall q | 0 <= q < n ensures old(queues[q]) == [] {
        ScanSeesAll(tid, q, n);
        var j :| 0 <= j <= n && Order(tid, j, n) == q;
        assert old(queues[..])[Order(tid, j, n)] == [];
      }
      x := None;
    }
  }
}
