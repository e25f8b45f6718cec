/** The join graph: every tag of one collection is paired with every tag of another
    (cnc/join.h). On each process a mutex protects the two tag sets; a new tag is announced to the
    other processes, which pair it with the tags they hold. Announcing comes before inserting, and
    is not protected, so a put is two events here. */
module Joins {
  import opened Sums

  type A(==, !new)
  type B(==, !new)

  datatype Message = JoinA(a: A, to: nat) | JoinB(b: B, to: nat)

  /** homeA, homeB: the tags announced, and where they were put; inA, inB: the tags inserted;
      recvA, recvB: announcements received, with the receiver; out: the pairs put.
      earlyA: pairs (a, b) such that a was announced to b's process before b was inserted there;
      earlyB: such that b was announced to a's process before a was inserted. */
  datatype State = State(homeA: map<A, nat>, homeB: map<B, nat>, inA: set<A>, inB: set<B>, net: seq<Message>,
                         recvA: set<(A, nat)>, recvB: set<(B, nat)>, earlyA: set<(A, B)>, earlyB: set<(A, B)>,
                         out: multiset<(A, B)>)

  datatype Event = AnnounceA(a: A, p: nat) | InsertA(a: A) | AnnounceB(b: B, p: nat) | InsertB(b: B) | Receive(i: nat)

  function Init(): State { State(map[], map[], {}, {}, [], {}, {}, {}, {}, multiset{}) }

  function BcastA(a: A, p: nat, q: nat, P: nat): seq<Message>
    requires q <= P
    decreases P - q
  {
    if q == P then [] else (if q == p then [] else [JoinA(a, q)]) + BcastA(a, p, q + 1, P)
  }

  function BcastB(b: B, p: nat, q: nat, P: nat): seq<Message>
    requires q <= P
    decreases P - q
  {
    if q == P then [] else (if q == p then [] else [JoinB(b, q)]) + BcastB(b, p, q + 1, P)
  }

  /** join_one: a with all b-tags inserted at process p, and b with all a-tags. */
  function PairsOfA(s: State, a: A, p: nat): set<(A, B)> {
    set b | b in s.inB && b in s.homeB && s.homeB[b] == p :: (a, b)
  }

  function PairsOfB(s: State, b: B, p: nat): set<(A, B)> {
    set a | a in s.inA && a in s.homeA && s.homeA[a] == p :: (a, b)
  }

  predicate Enabled(P: nat, s: State, e: Event) {
    match e
    case AnnounceA(a, p) => p < P && a !in s.homeA
    case InsertA(a) => a in s.homeA && a !in s.inA
    case AnnounceB(b, p) => p < P && b !in s.homeB
    case InsertB(b) => b in s.homeB && b !in s.inB
    case Receive(i) => i < |s.net|
  }

  function Apply(P: nat, s: State, e: Event): State
    requires Enabled(P, s, e)
  {
    match e
    case AnnounceA(a, p) => s.(homeA := s.homeA[a := p], net := s.net + BcastA(a, p, 0, P))
    case AnnounceB(b, p) => s.(homeB := s.homeB[b := p], net := s.net + BcastB(b, p, 0, P))
    case InsertA(a) =>
      var p := s.homeA[a];
      s.(out := s.out + multiset(PairsOfA(s, a, p)), inA := s.inA + {a},
         earlyB := s.earlyB + set x | x in s.recvB && x.1 == p :: (a, x.0))
    case InsertB(b) =>
      var p := s.homeB[b];
      s.(out := s.out + multiset(PairsOfB(s, b, p)), inB := s.inB + {b},
         earlyA := s.earlyA + set x | x in s.recvA && x.1 == p :: (x.0, b))
    case Receive(i) =>
      var s1 := s.(net := s.net[..i] + s.net[i + 1..]);
      match s.net[i]
      case JoinA(a, q) => s1.(out := s.out + multiset(PairsOfA(s, a, q)), recvA := s.recvA + {(a, q)})
      case JoinB(b, q) => s1.(out := s.out + multiset(PairsOfB(s, b, q)), recvB := s.recvB + {(b, q)})
  }

  function IsA(a: A, q: nat): Message -> int { (m: Message) => if m == JoinA(a, q) then 1 else 0 }
  function IsB(b: B, q: nat): Message -> int { (m: Message) => if m == JoinB(b, q) then 1 else 0 }
  function One(c: bool): int { if c then 1 else 0 }

  /** Each announcement is under way to each other process exactly once, until it is received. */
  ghost predicate SentA(P: nat, s: State, a: A, q: nat) {
    Sum(s.net, IsA(a, q)) + One((a, q) in s.recvA) == One(a in s.homeA && q < P && q != s.homeA[a])
  }

  ghost predicate SentB(P: nat, s: State, b: B, q: nat) {
    Sum(s.net, IsB(b, q)) + One((b, q) in s.recvB) == One(b in s.homeB && q < P && q != s.homeB[b])
  }

  /** How often a pair was put. */
  predicate PairOk(s: State, a: A, b: B) {
    if a !in s.homeA || b !in s.homeB then s.out[(a, b)] == 0 && (a, b) !in s.earlyA && (a, b) !in s.earlyB
    else
      var p, q := s.homeA[a], s.homeB[b];
      && ((a, b) in s.earlyA ==> b in s.inB && (a, q) in s.recvA)
      && ((a, b) in s.earlyB ==> a in s.inA && (b, p) in s.recvB)
      && s.out[(a, b)] ==
         One(p == q && a in s.inA && b in s.inB)
         + One((a, q) in s.recvA && b in s.inB && (a, b) !in s.earlyA)
         + One((b, p) in s.recvB && a in s.inA && (a, b) !in s.earlyB)
  }

  ghost predicate Inv(P: nat, s: State) {
    && (forall a :: a in s.inA ==> a in s.homeA)
    && (forall b :: b in s.inB ==> b in s.homeB)
    && (forall a :: a in s.homeA ==> s.homeA[a] < P)
    && (forall b :: b in s.homeB ==> s.homeB[b] < P)
    && (forall a, q: nat :: SentA(P, s, a, q))
    && (forall b, q: nat :: SentB(P, s, b, q))
    && (forall a, b :: PairOk(s, a, b))
  }

  lemma {:induction false} BcastASumA(a: A, p: nat, r: nat, P: nat, a': A, q: nat)
    requires r <= P
    ensures Sum(BcastA(a, p, r, P), IsA(a', q)) == One(a' == a && r <= q < P && q != p)
    decreases P - r
  {
    if r < P {
      BcastASumA(a, p, r + 1, P, a', q);
      SumAppend(if r == p then [] else [JoinA(a, r)], BcastA(a, p, r + 1, P), IsA(a', q));
      SumOne(JoinA(a, r), IsA(a', q));
    }
  }

  lemma {:induction false} BcastBSumB(b: B, p: nat, r: nat, P: nat, b': B, q: nat)
    requires r <= P
    ensures Sum(BcastB(b, p, r, P), IsB(b', q)) == One(b' == b && r <= q < P && q != p)
    decreases P - r
  {
    if r < P {
      BcastBSumB(b, p, r + 1, P, b', q);
      SumAppend(if r == p then [] else [JoinB(b, r)], BcastB(b, p, r + 1, P), IsB(b', q));
      SumOne(JoinB(b, r), IsB(b', q));
    }
  }

  lemma {:induction false} BcastKinds(a: A, p: nat, r: nat, P: nat)
    requires r <= P
    ensures forall i :: 0 <= i < |BcastA(a, p, r, P)| ==> BcastA(a, p, r, P)[i].JoinA?
    decreases P - r
  {
    if r < P { BcastKinds(a, p, r + 1, P); }
  }

  lemma {:induction false} BcastKindsB(b: B, p: nat, r: nat, P: nat)
    requires r <= P
    ensures forall i :: 0 <= i < |BcastB(b, p, r, P)| ==> BcastB(b, p, r, P)[i].JoinB?
    decreases P - r
  {
    if r < P { BcastKindsB(b, p, r + 1, P); }
  }

  lemma InNetA(s: State, a: A, q: nat)
    ensures Sum(s.net, IsA(a, q)) >= 0 && forall i :: 0 <= i < |s.net| ==> IsA(a, q)(s.net[i]) <= Sum(s.net, IsA(a, q))
  {
    SumNonNegative(s.net, IsA(a, q));
  }

  lemma InNetB(s: State, b: B, q: nat)
    ensures Sum(s.net, IsB(b, q)) >= 0 && forall i :: 0 <= i < |s.net| ==> IsB(b, q)(s.net[i]) <= Sum(s.net, IsB(b, q))
  {
    SumNonNegative(s.net, IsB(b, q));
  }

  /** The announcements of one tag to one process after an event. */
  lemma SentAKept(P: nat, s: State, e: Event, a: A, q: nat)
    requires Inv(P, s) && Enabled(P, s, e)
    ensures SentA(P, Apply(P, s, e), a, q)
  {
    hide PairOk;
    assert SentA(P, s, a, q);
    InNetA(s, a, q);
    match e {
      case AnnounceA(x, p) =>
        BcastASumA(x, p, 0, P, a, q);
        SumAppend(s.net, BcastA(x, p, 0, P), IsA(a, q));
      case AnnounceB(x, p) =>
        BcastKindsB(x, p, 0, P);
        SumZero(BcastB(x, p, 0, P), IsA(a, q));
        SumAppend(s.net, BcastB(x, p, 0, P), IsA(a, q));
      case Receive(i) => SumRemove(s.net, i, IsA(a, q));
      case _ =>
    }
  }

  lemma SentBKept(P: nat, s: State, e: Event, b: B, q: nat)
    requires Inv(P, s) && Enabled(P, s, e)
    ensures SentB(P, Apply(P, s, e), b, q)
  {
    hide PairOk;
    assert SentB(P, s, b, q);
    InNetB(s, b, q);
    match e {
      case AnnounceA(x, p) =>
        BcastKinds(x, p, 0, P);
        SumZero(BcastA(x, p, 0, P), IsB(b, q));
        SumAppend(s.net, BcastA(x, p, 0, P), IsB(b, q));
      case AnnounceB(x, p) =>
        BcastBSumB(x, p, 0, P, b, q);
        SumAppend(s.net, BcastB(x, p, 0, P), IsB(b, q));
      case Receive(i) => SumRemove(s.net, i, IsB(b, q));
      case _ =>
    }
  }

  /** A tag that is not announced was received nowhere. */
  lemma Unannounced(P: nat, s: State, a: A, b: B, q: nat)
    requires Inv(P, s)
    ensures a !in s.homeA ==> (a, q) !in s.recvA
    ensures b !in s.homeB ==> (b, q) !in s.recvB
    ensures a in s.homeA && q == s.homeA[a] ==> (a, q) !in s.recvA
    ensures b in s.homeB && q == s.homeB[b] ==> (b, q) !in s.recvB
  {
    assert SentA(P, s, a, q) && SentB(P, s, b, q);
    InNetA(s, a, q);
    InNetB(s, b, q);
  }

  lemma AnnouncedPair(P: nat, s: State, e: Event, a: A, b: B)
    requires Inv(P, s) && Enabled(P, s, e) && (e.AnnounceA? || e.AnnounceB?)
    ensures PairOk(Apply(P, s, e), a, b)
  {
    assert PairOk(s, a, b);
    Unannounced(P, s, a, b, e.p);
    if b in s.homeB { Unannounced(P, s, a, b, s.homeB[b]); }
    if a in s.homeA { Unannounced(P, s, a, b, s.homeA[a]); }
    hide SentA, SentB, Inv;
  }

  lemma InsertedAPair(P: nat, s: State, x: A, a: A, b: B)
    requires Inv(P, s) && Enabled(P, s, InsertA(x))
    ensures PairOk(Apply(P, s, InsertA(x)), a, b)
  {
    assert PairOk(s, a, b);
    Unannounced(P, s, a, b, s.homeA[x]);
    assert (a, b) in PairsOfA(s, x, s.homeA[x]) <==> a == x && b in s.inB && s.homeB[b] == s.homeA[x];
    hide SentA, SentB, Inv, PairsOfA;
  }

  lemma InsertedBPair(P: nat, s: State, x: B, a: A, b: B)
    requires Inv(P, s) && Enabled(P, s, InsertB(x))
    ensures PairOk(Apply(P, s, InsertB(x)), a, b)
  {
    assert PairOk(s, a, b);
    Unannounced(P, s, a, b, s.homeB[x]);
    assert (a, b) in PairsOfB(s, x, s.homeB[x]) <==> b == x && a in s.inA && s.homeA[a] == s.homeB[x];
    hide SentA, SentB, Inv, PairsOfB;
  }

  /** The count of a pair after an event. */
  lemma PairKept(P: nat, s: State, e: Event, a: A, b: B)
    requires Inv(P, s) && Enabled(P, s, e)
    ensures PairOk(Apply(P, s, e), a, b)
  {
    hide PairOk, Inv, Apply;
    match e
    case AnnounceA(_, _) => AnnouncedPair(P, s, e, a, b);
    case AnnounceB(_, _) => AnnouncedPair(P, s, e, a, b);
    case InsertA(x) => InsertedAPair(P, s, x, a, b);
    case InsertB(x) => InsertedBPair(P, s, x, a, b);
    case Receive(i) => ReceivedPair(P, s, i, a, b);
  }

  lemma ReceivedPair(P: nat, s: State, i: nat, a: A, b: B)
    requires Inv(P, s) && i < |s.net|
    ensures PairOk(Apply(P, s, Receive(i)), a, b)
  {
    ReceivedHome(P, s, i);
    assert PairOk(s, a, b);
    hide SentA, SentB, Inv;
    match s.net[i] {
      case JoinA(x, q) =>
        assert (a, b) in PairsOfA(s, x, q) <==> a == x && b in s.inB && b in s.homeB && s.homeB[b] == q;
        hide PairsOfA, PairsOfB;
      case JoinB(x, q) =>
        assert (a, b) in PairsOfB(s, x, q) <==> b == x && a in s.inA && a in s.homeA && s.homeA[a] == q;
        hide PairsOfA, PairsOfB;
    }
  }

  /** A message in flight announces a tag that is announced and not yet received there, to a process
      other than its own. */
  lemma ReceivedHome(P: nat, s: State, i: nat)
    requires Inv(P, s) && i < |s.net|
    ensures match s.net[i]
            case JoinA(a, q) => a in s.homeA && q != s.homeA[a] && (a, q) !in s.recvA
            case JoinB(b, q) => b in s.homeB && q != s.homeB[b] && (b, q) !in s.recvB
  {
    match s.net[i] {
      case JoinA(a, q) =>
        assert SentA(P, s, a, q);
        InNetA(s, a, q);
        assert IsA(a, q)(s.net[i]) == 1;
      case JoinB(b, q) =>
        assert SentB(P, s, b, q);
        InNetB(s, b, q);
        assert IsB(b, q)(s.net[i]) == 1;
    }
  }

  lemma StepKeepsInv(P: nat, s: State, e: Event)
    requires Inv(P, s) && Enabled(P, s, e)
    ensures Inv(P, Apply(P, s, e))
  {
    hide SentA, SentB, PairOk, PairsOfA, PairsOfB;
    var s' := Apply(P, s, e);
    forall a, q: nat ensures SentA(P, s', a, q) { SentAKept(P, s, e, a, q); }
    forall b, q: nat ensures SentB(P, s', b, q) { SentBKept(P, s, e, b, q); }
    forall a, b ensures PairOk(s', a, b) { PairKept(P, s, e, a, b); }
  }

  ghost predicate Run(P: nat, ss: seq<State>, es: seq<Event>) {
    && |ss| == |es| + 1 && ss[0] == Init()
    && forall i :: 0 <= i < |es| ==> Enabled(P, ss[i], es[i]) && ss[i + 1] == Apply(P, ss[i], es[i])
  }

  lemma {:induction false} RunInv(P: nat, ss: seq<State>, es: seq<Event>, i: nat)
    requires Run(P, ss, es) && i < |ss|
    ensures Inv(P, ss[i])
  {
    hide Inv, Apply;
    if i == 0 {
      assert Inv(P, Init()) by { InitInv(P); }
    } else {
      RunInv(P, ss, es, i - 1);
      assert Enabled(P, ss[i - 1], es[i - 1]);
      StepKeepsInv(P, ss[i - 1], es[i - 1]);
    }
  }

  lemma InitInv(P: nat)
    ensures Inv(P, Init())
  {
  }

  /** All announced tags are inserted and all announcements received. */
  predicate Settled(s: State) { s.inA == s.homeA.Keys && s.inB == s.homeB.Keys && s.net == [] }

  /** How often a pair of announced tags was put in the end, by the history in the state. */
  lemma PairCount(P: nat, s: State, a: A, b: B)
    requires Inv(P, s)
    ensures s.out[(a, b)] > 0 ==> a in s.homeA && b in s.homeB
    ensures Settled(s) && a in s.homeA && b in s.homeB ==>
              if s.homeA[a] == s.homeB[b] then s.out[(a, b)] == 1
              else s.out[(a, b)] == One((a, b) !in s.earlyA) + One((a, b) !in s.earlyB)
  {
    assert PairOk(s, a, b);
    if Settled(s) && a in s.homeA && b in s.homeB {
      assert SentA(P, s, a, s.homeB[b]) && SentB(P, s, b, s.homeA[a]);
    }
  }

  /*** the history, in terms of events ***/

  predicate Receives(s: State, e: Event, m: Message) { e.Receive? && e.i < |s.net| && s.net[e.i] == m }

  /** One of the first n events receives message m. */
  ghost predicate Received(ss: seq<State>, es: seq<Event>, m: Message, n: nat)
    requires n <= |es| < |ss|
  {
    exists j :: 0 <= j < n && Receives(ss[j], es[j], m)
  }

  /** Among the first n events, m is received and event e comes later. */
  ghost predicate ReceivedBefore(ss: seq<State>, es: seq<Event>, m: Message, e: Event, n: nat)
    requires n <= |es| < |ss|
  {
    exists k :: 0 <= k < n && es[k] == e && Received(ss, es, m, k)
  }

  lemma ReceivedNext(ss: seq<State>, es: seq<Event>, m: Message, n: nat)
    requires n < |es| < |ss|
    ensures Received(ss, es, m, n + 1) <==> Received(ss, es, m, n) || Receives(ss[n], es[n], m)
  {
  }

  lemma ReceivedNone(ss: seq<State>, es: seq<Event>, m: Message)
    requires |es| < |ss|
    ensures !Received(ss, es, m, 0)
  {
  }

  lemma ReceivedBeforeNext(ss: seq<State>, es: seq<Event>, m: Message, e: Event, n: nat)
    requires n < |es| < |ss|
    ensures ReceivedBefore(ss, es, m, e, n + 1) <==>
            ReceivedBefore(ss, es, m, e, n) || (es[n] == e && Received(ss, es, m, n))
  {
    hide Received;
  }

  lemma {:induction false} RecvMeans(P: nat, ss: seq<State>, es: seq<Event>, a: A, b: B, q: nat, n: nat)
    requires Run(P, ss, es) && n <= |es|
    ensures (a, q) in ss[n].recvA <==> Received(ss, es, JoinA(a, q), n)
    ensures (b, q) in ss[n].recvB <==> Received(ss, es, JoinB(b, q), n)
  {
    hide Received, Receives, Apply, Enabled;
    if n > 0 {
      var s, e := ss[n - 1], es[n - 1];
      assert Enabled(P, s, e) && ss[n] == Apply(P, s, e);
      HistoryRecv(P, s, e, a, b, q);
      ReceivedNext(ss, es, JoinA(a, q), n - 1);
      ReceivedNext(ss, es, JoinB(b, q), n - 1);
      RecvMeans(P, ss, es, a, b, q, n - 1);
    } else {
      ReceivedNone(ss, es, JoinA(a, q));
      ReceivedNone(ss, es, JoinB(b, q));
    }
  }

  lemma HistoryRecv(P: nat, s: State, e: Event, a: A, b: B, q: nat)
    requires Enabled(P, s, e)
    ensures var s' := Apply(P, s, e);
            && ((a, q) in s'.recvA <==> (a, q) in s.recvA || Receives(s, e, JoinA(a, q)))
            && ((b, q) in s'.recvB <==> (b, q) in s.recvB || Receives(s, e, JoinB(b, q)))
  {
    hide PairsOfA, PairsOfB, BcastA, BcastB;
  }

  /** The pairs (a, b) such that a was announced to b's process early grow when b is inserted. */
  lemma HistoryA(P: nat, s: State, e: Event, a: A, b: B)
    requires Enabled(P, s, e)
    ensures var s' := Apply(P, s, e);
            && ((a, b) in s'.earlyA <==>
                  (a, b) in s.earlyA || (e == InsertB(b) && (a, s.homeB[b]) in s.recvA))
            && (b in s.homeB ==> b in s'.homeB && s'.homeB[b] == s.homeB[b])
            && (b !in s.homeB && b in s'.homeB ==> e.AnnounceB?)
  {
    hide PairsOfA, PairsOfB, BcastA, BcastB;
    if e.InsertB? {
      var q := s.homeB[e.b];
      assert (a, q) in s.recvA ==> (a, b) in Apply(P, s, e).earlyA || b != e.b;
    }
  }

  lemma HistoryB(P: nat, s: State, e: Event, a: A, b: B)
    requires Enabled(P, s, e)
    ensures var s' := Apply(P, s, e);
            && ((a, b) in s'.earlyB <==>
                  (a, b) in s.earlyB || (e == InsertA(a) && (b, s.homeA[a]) in s.recvB))
            && (a in s.homeA ==> a in s'.homeA && s'.homeA[a] == s.homeA[a])
            && (a !in s.homeA && a in s'.homeA ==> e.AnnounceA?)
  {
    hide PairsOfA, PairsOfB, BcastA, BcastB;
    if e.InsertA? {
      var q := s.homeA[e.a];
      assert (b, q) in s.recvB ==> (a, b) in Apply(P, s, e).earlyB || a != e.a;
    }
  }

  /** They are those with a receipt before the insert; tags that are not announced are in none. */
  lemma {:induction false} EarlyAMeans(P: nat, ss: seq<State>, es: seq<Event>, a: A, b: B, n: nat)
    requires Run(P, ss, es) && n <= |es|
    ensures b !in ss[n].homeB ==> (a, b) !in ss[n].earlyA && InsertB(b) !in es[..n]
    ensures b in ss[n].homeB ==>
              ((a, b) in ss[n].earlyA <==> ReceivedBefore(ss, es, JoinA(a, ss[n].homeB[b]), InsertB(b), n))
  {
    if n > 0 {
      var s, e := ss[n - 1], es[n - 1];
      EarlyAMeans(P, ss, es, a, b, n - 1);
      assert Enabled(P, s, e) && ss[n] == Apply(P, s, e);
      assert es[..n] == es[..n - 1] + [e];
      HistoryA(P, s, e, a, b);
      if b in s.homeB {
        var home := s.homeB[b];
        hide Apply, Enabled, Run;
        RecvMeans(P, ss, es, a, b, home, n - 1);
        ReceivedBeforeNext(ss, es, JoinA(a, home), InsertB(b), n - 1);
      } else {
        hide Received, Apply, Run;
        assert forall k :: 0 <= k < n ==> es[k] == es[..n][k];
      }
    }
  }

  lemma {:induction false} EarlyBMeans(P: nat, ss: seq<State>, es: seq<Event>, a: A, b: B, n: nat)
    requires Run(P, ss, es) && n <= |es|
    ensures a !in ss[n].homeA ==> (a, b) !in ss[n].earlyB && InsertA(a) !in es[..n]
    ensures a in ss[n].homeA ==>
              ((a, b) in ss[n].earlyB <==> ReceivedBefore(ss, es, JoinB(b, ss[n].homeA[a]), InsertA(a), n))
  {
    if n > 0 {
      var s, e := ss[n - 1], es[n - 1];
      EarlyBMeans(P, ss, es, a, b, n - 1);
      assert Enabled(P, s, e) && ss[n] == Apply(P, s, e);
      assert es[..n] == es[..n - 1] + [e];
      HistoryB(P, s, e, a, b);
      if a in s.homeA {
        var home := s.homeA[a];
        hide Apply, Enabled, Run;
        RecvMeans(P, ss, es, a, b, home, n - 1);
        ReceivedBeforeNext(ss, es, JoinB(b, home), InsertA(a), n - 1);
      } else {
        hide Received, Apply, Run;
        assert forall k :: 0 <= k < n ==> es[k] == es[..n][k];
      }
    }
  }

  /** Nothing but pairs of the two collections is ever put. Two tags put on the same process are paired
      exactly once; tags of different processes at most twice, and not at all if and only if the announcement of
      each is received by the other's process before the other is inserted there. */
  lemma PairsPut(P: nat, ss: seq<State>, es: seq<Event>, i: nat, a: A, b: B)
    requires Run(P, ss, es) && i < |ss|
    ensures var s := ss[i];
            && (s.out[(a, b)] > 0 ==> a in s.homeA && b in s.homeB)
            && (Settled(s) && a in s.homeA && b in s.homeB ==>
                  var p, q := s.homeA[a], s.homeB[b];
                  if p == q then s.out[(a, b)] == 1
                  else s.out[(a, b)] == One(!ReceivedBefore(ss, es, JoinA(a, q), InsertB(b), i))
                                        + One(!ReceivedBefore(ss, es, JoinB(b, p), InsertA(a), i)))
  {
    RunInv(P, ss, es, i);
    PairCount(P, ss[i], a, b);
    EarlyAMeans(P, ss, es, a, b, i);
    EarlyBMeans(P, ss, es, a, b, i);
  }

  /** Puts that announce and insert in one step: nothing happens in between. */
  predicate Atomic(es: seq<Event>) {
    forall i :: 0 <= i < |es| ==>
      && (es[i].AnnounceA? ==> i + 1 < |es| && es[i + 1] == InsertA(es[i].a))
      && (es[i].AnnounceB? ==> i + 1 < |es| && es[i + 1] == InsertB(es[i].b))
  }

  /** With atomic puts, the only tag that is announced but not inserted is the one being put. */
  ghost predicate AtomicOk(s: State, e: Event) {
    && (forall a :: a in s.homeA && a !in s.inA ==> e == InsertA(a))
    && (forall b :: b in s.homeB && b !in s.inB ==> e == InsertB(b))
    && (forall a, b :: !((a, b) in s.earlyA && (a, b) in s.earlyB))
    && (forall a, q: nat :: (a, q) in s.recvA ==> a in s.inA)
    && (forall b, q: nat :: (b, q) in s.recvB ==> b in s.inB)
  }

  /** The event that follows i, or any other. */
  function Next(es: seq<Event>, i: nat): Event { if i < |es| then es[i] else Receive(0) }

  lemma {:induction false} AtomicRun(P: nat, ss: seq<State>, es: seq<Event>, i: nat)
    requires Run(P, ss, es) && Atomic(es) && i < |ss|
    ensures AtomicOk(ss[i], Next(es, i))
  {
    hide AtomicOk, Inv, Apply, Enabled, Init;
    if i > 0 {
      AtomicRun(P, ss, es, i - 1);
      RunInv(P, ss, es, i - 1);
      var s, e := ss[i - 1], es[i - 1];
      assert Enabled(P, s, e) && ss[i] == Apply(P, s, e);
      AtomicStep(P, s, e, Next(es, i));
    } else {
      AtomicInit(Next(es, 0));
    }
  }

  lemma AtomicInit(e: Event)
    ensures AtomicOk(Init(), e)
  {
  }

  lemma AtomicStep(P: nat, s: State, e: Event, next: Event)
    requires Inv(P, s) && Enabled(P, s, e) && AtomicOk(s, e)
    requires (e.AnnounceA? ==> next == InsertA(e.a)) && (e.AnnounceB? ==> next == InsertB(e.b))
    ensures AtomicOk(Apply(P, s, e), next)
  {
    hide PairsOfA, PairsOfB;
    match e {
      case Receive(i) =>
        ReceivedHome(P, s, i);
        hide Inv;
      case InsertA(a) =>
        forall b ensures (a, b) !in s.earlyA { assert PairOk(s, a, b); }
        hide Inv;
      case InsertB(b) =>
        forall a ensures (a, b) !in s.earlyB { assert PairOk(s, a, b); }
        hide Inv;
      case _ =>
        hide Inv;
    }
  }

  /** With atomic puts every pair is put, once if both tags are on one process, once or twice otherwise. */
  lemma AtomicPutsPairAll(P: nat, ss: seq<State>, es: seq<Event>, a: A, b: B)
    requires Run(P, ss, es) && Atomic(es) && Settled(ss[|es|]) && a in ss[|es|].homeA && b in ss[|es|].homeB
    ensures 1 <= ss[|es|].out[(a, b)] <= if ss[|es|].homeA[a] == ss[|es|].homeB[b] then 1 else 2
  {
    RunInv(P, ss, es, |es|);
    PairCount(P, ss[|es|], a, b);
    AtomicRun(P, ss, es, |es|);
  }

  /*** the code of one process, under its mutex ***/

  class Join {
    var seta: set<A>
    var setb: set<B>
    var out: seq<(A, B)>   // what was put into the output collection

    constructor ()
      ensures seta == {} && setb == {} && out == []
    {
      seta, setb, out := {}, {}, [];
    }

    /** join_one with join_ab: every tag of setb once, in some order. */
    method JoinOneA(a: A)
      modifies this`out
      ensures multiset(out) == multiset(old(out)) + multiset(set b | b in setb :: (a, b))
    {
      var rest := setb;
      ghost var pairs := set b | b in setb - rest :: (a, b);
      while rest != {}
        invariant rest <= setb && pairs == set b | b in setb - rest :: (a, b)
        invariant multiset(out) == multiset(old(out)) + multiset(pairs)
        decreases rest
      {
        var b :| b in rest;
        out := out + [(a, b)];
        rest := rest - {b};
        assert (a, b) !in pairs;
        pairs := pairs + {(a, b)};
      }
    }

    method JoinOneB(b: B)
      modifies this`out
      ensures multiset(out) == multiset(old(out)) + multiset(set a | a in seta :: (a, b))
    {
      var rest := seta;
      ghost var pairs := set a | a in seta - rest :: (a, b);
      while rest != {}
        invariant rest <= seta && pairs == set a | a in seta - rest :: (a, b)
        invariant multiset(out) == multiset(old(out)) + multiset(pairs)
        decreases rest
      {
        var a :| a in rest;
        out := out + [(a, b)];
        rest := rest - {a};
        assert (a, b) !in pairs;
        pairs := pairs + {(a, b)};
      }
    }

    /** All pairs of the two sets, each exactly once. */
    ghost predicate Complete()
      reads this
    {
      multiset(out) == multiset(set a, b | a in seta && b in setb :: (a, b))
    }

    method OnAPut(a: A)
      requires Complete() && a !in seta
      modifies this
      ensures Complete() && seta == old(seta) + {a} && setb == old(setb)
    {
      ghost var before := set x, y | x in seta && y in setb :: (x, y);
      ghost var added := set y | y in setb :: (a, y);
      JoinOneA(a);
      seta := seta + {a};
      assert before !! added;
      assert (set x, y | x in seta && y in setb :: (x, y)) == before + added;
    }

    method OnBPut(b: B)
      requires Complete() && b !in setb
      modifies this
      ensures Complete() && setb == old(setb) + {b} && seta == old(seta)
    {
      ghost var before := set x, y | x in seta && y in setb :: (x, y);
      ghost var added := set x | x in seta :: (x, b);
      JoinOneB(b);
      setb := setb + {b};
      assert before !! added;
      assert (set x, y | x in seta && y in setb :: (x, y)) == before + added;
    }
  }
}
