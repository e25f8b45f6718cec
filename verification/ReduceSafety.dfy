/** The invariant of the reduction protocol is kept by every step. One lemma per kind of step. */
module ReduceSafety {
  import opened Sums
  import opened ReduceTree
  import opened ReduceNode
  import opened ReduceProtocol
  import opened ReduceCounting

  /** A step keeps the invariant and leaves less to do. */
  ghost predicate Progress<V(!new)>(c: Config<V>, s: State<V>, s': State<V>) {
    Inv(c, s') && (Typed(c, s) ==> Work(c, s') < Work(c, s))
  }

  /** Only a gathering reduction has messages in flight. */
  lemma InFlightMeansGathering<V(!new)>(c: Config<V>, s: State<V>)
    requires Inv(c, s) && s.net != []
    ensures s.counter >= 0 && Gathering(c, s)
  {
  }

  /** Once a node has seen DONE, the owner has sent it: everything is counted. */
  lemma {:induction false} DoneSeenUp<V(!new)>(c: Config<V>, s: State<V>, q: nat)
    requires Typed(c, s) && s.counter >= 0 && Gathering(c, s) && q < c.P
    requires s.nodes[q].nValues != -1
    ensures s.nodes[s.counter].nValues != -1
    decreases Rank(q, s.counter, c.P)
  {
    if q != s.counter {
      TreeRanks(q, s.counter, c.P);
      assert DoneOk(c, s, q);
      DoneSeenUp(c, s, Parent(q, s.counter, c.P));
    }
  }

  /** A DONE message finds its receiver ready for it. */
  lemma DoneFindsReady<V(!new)>(c: Config<V>, s: State<V>, i: nat, tid: nat)
    requires ValidConfig(c) && Inv(c, s) && Enabled(c, s, Deliver(i, tid)) && s.net[i].msg.Done?
    ensures s.counter >= 0 && Gathering(c, s)
    ensures var p := s.net[i].dst;
            && p < c.P && p != s.counter && s.net[i].msg.root == s.counter
            && s.nodes[p].nValues == -1 && s.nodes[p].status != DONE && s.nodes[p].status != BCAST_DONE
            && (s.exact ==> s.nodes[p].n == c.total)
            && s.nodes[Parent(p, s.counter, c.P)].nValues != -1
            && Count(s.net, KDone, p) == 1
            && (forall q :: 0 <= q < c.P && q != s.counter && Parent(q, s.counter, c.P) == p ==>
                  s.nodes[q].nValues == -1 && s.nodes[q].status != DONE)
  {
    InFlightMeansGathering(c, s);
    var o, pk := s.counter, s.net[i];
    var p := pk.dst;
    assert PacketOk(c, s, pk);
    CountNonNegative(s.net, KDone, p);
    assert DoneOk(c, s, p) && NodeShape(c, s, p);
    var up := Parent(p, o, c.P);
    assert NodeShape(c, s, up);
    if s.exact && s.nodes[p].n == M1 {
      assert BcastOk(c, s, p);
      var j := CountFinds(s.net, KBcast, p);
    }
    forall q | 0 <= q < c.P && q != o && Parent(q, o, c.P) == p
      ensures s.nodes[q].nValues == -1 && s.nodes[q].status != DONE
    {
      assert DoneOk(c, s, q) && NodeShape(c, s, q);
    }
  }

  /** What on_done does at a node that is not the owner: pass the message on, or answer it with the value. */
  ghost predicate Elsewhere<V>(s: Site<V>, nd: Node<V>, root: nat, e: Effect<V>)
    requires s.me < s.P && root < s.P && root != s.me
  {
    var ks := Kids(s.me, root, s.P);
    && e.puts == []
    && if ks == [] then
         && e.node == nd.(owner := root, nValues := 0, status := DONE)
         && e.sent == [Packet(s.me, Parent(s.me, root, s.P), Value(Combined(s.o, nd.locals)))]
       else
         e.node == nd.(owner := root, nValues := |ks|) && e.sent == Bcast(s, root, Done(root))
  }

  lemma OnDoneElsewhere<V(!new)>(s: Site<V>, nd: Node<V>, root: nat)
    requires s.Valid() && root < s.P && root != s.me && nd.status != BCAST_DONE
    ensures Elsewhere(s, nd, root, OnDone(s, nd, root))
  {
    BcastShape(s, root, Done(root));
  }

  /*** frames: what a step that does not touch one kind of message leaves alone ***/

  ghost predicate NoKind<V>(ps: seq<Packet<V>>, k: Kind) {
    forall j :: 0 <= j < |ps| ==> KindOf(ps[j].msg) != k
  }

  /** Node p changes to nd. */
  ghost predicate Changes<V>(c: Config<V>, s: State<V>, s': State<V>, p: nat, nd: Node<V>) {
    && Typed(c, s) && Typed(c, s') && 0 <= s.counter == s'.counter && s'.exact == s.exact
    && p < c.P && s'.nodes == s.nodes[p := nd] && s'.failed == s.failed
  }

  /** Node p handles message i and changes to e.node, sending e.sent. */
  ghost predicate Handles<V>(c: Config<V>, s: State<V>, s': State<V>, i: nat, p: nat, e: Effect<V>) {
    && Changes(c, s, s', p, e.node)
    && i < |s.net| && s.net[i].dst == p
    && s'.net == s.net[..i] + s.net[i + 1..] + e.sent
    && s'.items == s.items
  }

  ghost predicate SameCount<V>(s: State<V>, s': State<V>, k: Kind) {
    forall q: nat :: Count(s'.net, k, q) == Count(s.net, k, q)
  }

  lemma Untouched<V>(s: State<V>, s': State<V>, i: nat, sent: seq<Packet<V>>, k: Kind)
    requires i < |s.net| && KindOf(s.net[i].msg) != k && NoKind(sent, k)
    requires s'.net == s.net[..i] + s.net[i + 1..] + sent
    ensures SameCount(s, s', k)
  {
    forall q: nat ensures Count(s'.net, k, q) == Count(s.net, k, q) {
      CountAfter(s.net, i, sent, k, q);
      SumZero(sent, Hits(k, q));
    }
  }

  lemma UntouchedBySending<V>(s: State<V>, s': State<V>, sent: seq<Packet<V>>, k: Kind)
    requires s'.net == s.net + sent && NoKind(sent, k)
    ensures SameCount(s, s', k)
  {
    forall q: nat ensures Count(s'.net, k, q) == Count(s.net, k, q) {
      CountSent(s.net, sent, k, q);
      SumZero(sent, Hits(k, q));
    }
  }

  lemma FrameBcast<V>(c: Config<V>, s: State<V>, s': State<V>, p: nat, nd: Node<V>)
    requires Changes(c, s, s', p, nd) && SameCount(s, s', KBcast)
    requires forall q :: 0 <= q < c.P ==> BcastOk(c, s, q)
    requires nd.n == s.nodes[p].n
    ensures forall q :: 0 <= q < c.P ==> BcastOk(c, s', q)
  {
    forall q | 0 <= q < c.P ensures BcastOk(c, s', q) {
      assert BcastOk(c, s, q);
      if q != s.counter { ParentDiffers(q, s.counter, c.P); }
    }
  }

  lemma FrameGather<V>(c: Config<V>, s: State<V>, s': State<V>, p: nat, nd: Node<V>)
    requires Changes(c, s, s', p, nd) && SameCount(s, s', KGather)
    requires forall q :: 0 <= q < c.P ==> GatherOk(c, s, q)
    requires nd.n == s.nodes[p].n && nd.nCounts == s.nodes[p].nCounts
    ensures forall q :: 0 <= q < c.P ==> GatherOk(c, s', q)
  {
    forall q | 0 <= q < c.P ensures GatherOk(c, s', q) {
      assert GatherOk(c, s, q);
      KidSumUpdate(c, s.nodes, p, nd, q, s.counter, Unsent());
    }
  }

  lemma FrameDone<V>(c: Config<V>, s: State<V>, s': State<V>, p: nat, nd: Node<V>)
    requires Changes(c, s, s', p, nd) && SameCount(s, s', KDone)
    requires forall q :: 0 <= q < c.P ==> DoneOk(c, s, q)
    requires nd.nValues == -1 <==> s.nodes[p].nValues == -1
    ensures forall q :: 0 <= q < c.P ==> DoneOk(c, s', q)
  {
    forall q | 0 <= q < c.P ensures DoneOk(c, s', q) {
      assert DoneOk(c, s, q);
      if q != s.counter { ParentDiffers(q, s.counter, c.P); }
    }
  }

  lemma FrameValue<V>(c: Config<V>, s: State<V>, s': State<V>, p: nat, nd: Node<V>)
    requires Changes(c, s, s', p, nd) && SameCount(s, s', KValue)
    requires forall q :: 0 <= q < c.P ==> ValueOk(c, s, q)
    requires nd.nValues == s.nodes[p].nValues && (nd.status == DONE <==> s.nodes[p].status == DONE)
    ensures forall q :: 0 <= q < c.P ==> ValueOk(c, s', q)
  {
    forall q | 0 <= q < c.P ensures ValueOk(c, s', q) {
      assert ValueOk(c, s, q);
      KidSumUpdate(c, s.nodes, p, nd, q, s.counter, NotDone());
    }
  }

  /** Shapes of nodes and packets: only the handling node and the new packets need looking at. */
  lemma Shapes<V>(c: Config<V>, s: State<V>, s': State<V>, i: nat, p: nat, e: Effect<V>)
    requires Handles(c, s, s', i, p, e)
    requires forall q :: 0 <= q < c.P ==> NodeShape(c, s, q)
    requires forall j :: 0 <= j < |s.net| ==> PacketOk(c, s, s.net[j])
    requires NodeShape(c, s', p)
    requires forall j :: 0 <= j < |e.sent| ==> PacketOk(c, s', e.sent[j])
    ensures forall q :: 0 <= q < c.P ==> NodeShape(c, s', q)
    ensures forall j :: 0 <= j < |s'.net| ==> PacketOk(c, s', s'.net[j])
  {
    forall q | 0 <= q < c.P ensures NodeShape(c, s', q) {
      assert NodeShape(c, s, q);
    }
    var rest := s.net[..i] + s.net[i + 1..];
    forall j | 0 <= j < |s'.net| ensures PacketOk(c, s', s'.net[j]) {
      if j < |rest| {
        var j0 := if j < i then j else j + 1;
        assert s'.net[j] == s.net[j0];
        assert PacketOk(c, s, s.net[j0]);
      } else {
        assert s'.net[j] == e.sent[j - |rest|];
      }
    }
  }

  lemma OrderAfter<V>(net: seq<Packet<V>>, i: nat, sent: seq<Packet<V>>)
    requires InOrder(net) && i < |net| && NoKind(sent, KBcast)
    ensures InOrder(net[..i] + net[i + 1..] + sent)
  {
    var rest := net[..i] + net[i + 1..];
    assert forall a :: 0 <= a < |rest| ==> rest[a] == net[if a < i then a else a + 1];
  }

  /*** DONE ***/

  /** The situation of a DONE message being handled. */
  ghost predicate DoneStep<V(!new)>(c: Config<V>, s: State<V>, s': State<V>, i: nat, p: nat, e: Effect<V>) {
    && Handles(c, s, s', i, p, e) && s'.outs == s.outs
    && Gathering(c, s) && p != s.counter && s.net[i].msg == Done(s.counter)
    && s.nodes[p].nValues == -1 && s.nodes[p].status != DONE
    && (s.exact ==> s.nodes[p].n == c.total)
    && Count(s.net, KDone, p) == 1
    && (forall q :: 0 <= q < c.P && q != s.counter && Parent(q, s.counter, c.P) == p ==>
          s.nodes[q].nValues == -1 && s.nodes[q].status != DONE)
    && Elsewhere(SiteOf(c, p), s.nodes[p], s.counter, e)
  }

  lemma DeliverDone<V(!new)>(c: Config<V>, s: State<V>, i: nat, tid: nat)
    requires ValidConfig(c) && Inv(c, s) && Enabled(c, s, Deliver(i, tid)) && s.net[i].msg.Done?
    ensures Progress(c, s, Apply(c, s, Deliver(i, tid)))
  {
    DoneFindsReady(c, s, i, tid);
    var p := s.net[i].dst;
    var st, nd := SiteOf(c, p), s.nodes[p];
    assert MsgOk(st, nd, s.net[i].msg);
    OnDoneElsewhere(st, nd, s.counter);
    var e, s' := OnDone(st, nd, s.counter), Apply(c, s, Deliver(i, tid));
    assert s' == Land(s.(net := s.net[..i] + s.net[i + 1..]), p, e);
    DoneStepKeeps(c, s, s', i, p, e);
  }

  lemma DoneStepKeeps<V(!new)>(c: Config<V>, s: State<V>, s': State<V>, i: nat, p: nat, e: Effect<V>)
    requires ValidConfig(c) && Inv(c, s) && DoneStep(c, s, s', i, p, e)
    ensures Progress(c, s, s')
  {
    hide Parent, Kids, Rank, NodeShape, PacketOk, BcastOk, GatherOk, DoneOk, ValueOk, EmptyOk, Conserved, InOrder;
    DoneShape(c, s, s', i, p, e);
    DoneDone(c, s, s', i, p, e);
    DoneValue(c, s, s', i, p, e);
    DoneRest(c, s, s', i, p, e);
    DoneWork(c, s, s', i, p, e);
    ConserveDrop(c, s, i);
    ConserveSend(c, s.(net := s.net[..i] + s.net[i + 1..]), s', p, e);
  }

  lemma DoneShape<V(!new)>(c: Config<V>, s: State<V>, s': State<V>, i: nat, p: nat, e: Effect<V>)
    requires DoneStep(c, s, s', i, p, e)
    ensures forall q :: 0 <= q < c.P ==> NodeShape(c, s', q) && BcastOk(c, s', q) && GatherOk(c, s', q)
    ensures forall j :: 0 <= j < |s'.net| ==> PacketOk(c, s', s'.net[j])
    ensures InOrder(s'.net)
  {
    hide Parent, Kids, Rank, InOrder, BcastOk, GatherOk, DoneOk, ValueOk;
    BcastShape(SiteOf(c, p), s.counter, Done(s.counter));
    ParentDiffers(p, s.counter, c.P);
    assert NodeShape(c, s, p);
    Shapes(c, s, s', i, p, e);
    OrderAfter(s.net, i, e.sent);
    Untouched(s, s', i, e.sent, KBcast);
    FrameBcast(c, s, s', p, e.node);
    Untouched(s, s', i, e.sent, KGather);
    FrameGather(c, s, s', p, e.node);
  }

  lemma DoneWork<V(!new)>(c: Config<V>, s: State<V>, s': State<V>, i: nat, p: nat, e: Effect<V>)
    requires DoneStep(c, s, s', i, p, e)
    ensures Work(c, s') < Work(c, s)
  {
    hide Kids, Parent, Rank, Gathering, Combined;
    BcastShape(SiteOf(c, p), s.counter, Done(s.counter));
    WorkAfter(c, s, s', p, e.node);
  }

  lemma DoneRest<V(!new)>(c: Config<V>, s: State<V>, s': State<V>, i: nat, p: nat, e: Effect<V>)
    requires DoneStep(c, s, s', i, p, e) && forall q :: 0 <= q < c.P ==> EmptyOk(c, s, q)
    ensures Sum(s'.nodes, Counted()) + Sum(s'.net, Carried()) == Sum(s.nodes, Counted()) + Sum(s.net, Carried())
    ensures forall q :: 0 <= q < c.P ==> EmptyOk(c, s', q)
  {
    hide Parent, Kids, Rank, NodeShape, PacketOk, InOrder, BcastOk, GatherOk, DoneOk, ValueOk;
    SentElsewhere(SiteOf(c, p), s.nodes[p], s.counter, e, KDone, 0);
    CarriedAfter(s.net, i, e.sent);
    SumUpdate(s.nodes, p, e.node, Counted());
    forall q | 0 <= q < c.P ensures EmptyOk(c, s', q) {
      assert EmptyOk(c, s, q);
    }
  }

  lemma DoneDone<V(!new)>(c: Config<V>, s: State<V>, s': State<V>, i: nat, p: nat, e: Effect<V>)
    requires DoneStep(c, s, s', i, p, e)
    ensures forall q :: 0 <= q < c.P ==> DoneOk(c, s', q)
  {
    forall q | 0 <= q < c.P ensures DoneOk(c, s', q) {
      assert DoneOk(c, s, q);
      SentElsewhere(SiteOf(c, p), s.nodes[p], s.counter, e, KDone, q);
      CountAfter(s.net, i, e.sent, KDone, q);
      if q != s.counter { TreeRanks(q, s.counter, c.P); }
    }
  }

  lemma DoneValue<V(!new)>(c: Config<V>, s: State<V>, s': State<V>, i: nat, p: nat, e: Effect<V>)
    requires DoneStep(c, s, s', i, p, e)
    ensures forall q :: 0 <= q < c.P ==> ValueOk(c, s', q)
  {
    hide Parent, Kids, Rank;
    KidSumBounds(c, s.nodes, p, s.counter, NotDone());
    BcastShape(SiteOf(c, p), s.counter, Done(s.counter));
    ParentDiffers(p, s.counter, c.P);
    assert DoneOk(c, s, p);
    forall q | 0 <= q < c.P ensures ValueOk(c, s', q) {
      assert ValueOk(c, s, q);
      SentElsewhere(SiteOf(c, p), s.nodes[p], s.counter, e, KValue, q);
      CountAfter(s.net, i, e.sent, KValue, q);
      KidSumUpdate(c, s.nodes, p, e.node, q, s.counter, NotDone());
    }
  }

  /** Messages an on_done away from the owner sends. */
  lemma SentElsewhere<V(!new)>(s: Site<V>, nd: Node<V>, root: nat, e: Effect<V>, k: Kind, q: nat)
    requires s.Valid() && root < s.P && root != s.me && q < s.P
    requires Elsewhere(s, nd, root, e)
    ensures Count(e.sent, k, q) ==
            if k == KDone && q != root && Parent(q, root, s.P) == s.me then 1
            else if k == KValue && q == Parent(s.me, root, s.P) && Kids(s.me, root, s.P) == [] then 1 else 0
    ensures Sum(e.sent, Carried()) == 0
  {
    KidsAndParent(s.me, q, root, s.P);
    if Kids(s.me, root, s.P) == [] {
      CountOne(e.sent[0], k, q);
    } else {
      BcastCounts(s, root, Done(root), k, q);
    }
  }

  /*** VALUE ***/

  /** What a node does when a child's value arrives: count it, and after the last one pass its own
      value on, or put it out if it is the owner. */
  ghost predicate ValueStep<V(!new)>(c: Config<V>, s: State<V>, s': State<V>, i: nat, tid: nat, p: nat, e: Effect<V>) {
    && Handles(c, s, s', i, p, e) && s'.outs == s.outs + Tagged(p, e.puts)
    && Gathering(c, s) && s.net[i].msg.Value? && tid < c.threads
    && s.nodes[p].nValues >= 1 && s.nodes[p].status != DONE
    && var nd, root := s.nodes[p].(locals := AddValue(c.o, s.nodes[p].locals, tid, s.net[i].msg.val),
                                   nValues := s.nodes[p].nValues - 1), s.counter;
       if s.nodes[p].nValues > 1 then
         e == Effect(nd, [], [])
       else if p == root then
         e == Effect(nd.(status := DONE, nreduced := nd.n), [], [Combined(c.o, nd.locals)])
       else
         e == Effect(nd.(status := DONE), [Packet(p, Parent(p, root, c.P), Value(Combined(c.o, nd.locals)))], [])
  }

  lemma ValueFinds<V(!new)>(c: Config<V>, s: State<V>, i: nat)
    requires Inv(c, s) && i < |s.net| && s.net[i].msg.Value?
    ensures s.counter >= 0 && Gathering(c, s)
    ensures var p := s.net[i].dst;
            p < c.P && s.nodes[p].nValues >= 1 && s.nodes[p].status != DONE && s.nodes[p].owner == s.counter &&
            (p == s.counter ==>
               s.nodes[p].status == FINISH && (s.nodes[p].nreduced == s.nodes[p].n || s.nodes[p].n == M1) &&
               (s.exact ==> s.nodes[p].n == c.total))
  {
    hide Parent, Kids, Rank, BcastOk, GatherOk, DoneOk, InOrder;
    InFlightMeansGathering(c, s);
    var p := s.net[i].dst;
    assert PacketOk(c, s, s.net[i]);
    CountNonNegative(s.net, KValue, p);
    assert ValueOk(c, s, p) && NodeShape(c, s, p);
    KidSumBounds(c, s.nodes, p, s.counter, NotDone());
  }

  lemma DeliverValue<V(!new)>(c: Config<V>, s: State<V>, i: nat, tid: nat)
    requires ValidConfig(c) && Inv(c, s) && Enabled(c, s, Deliver(i, tid)) && s.net[i].msg.Value?
    ensures Progress(c, s, Apply(c, s, Deliver(i, tid)))
  {
    hide Parent, Kids, Rank, Combined, Gathering, Conserved, EmptyOk;
    ValueFinds(c, s, i);
    var p := s.net[i].dst;
    var st, nd := SiteOf(c, p), s.nodes[p];
    assert MsgOk(st, nd, s.net[i].msg);
    var e, s' := RecvMsg(st, nd, tid, s.net[i].msg), Apply(c, s, Deliver(i, tid));
    assert s' == Land(s.(net := s.net[..i] + s.net[i + 1..]), p, e);
    ValueStepKeeps(c, s, s', i, tid, p, e);
  }

  lemma ValueStepKeeps<V(!new)>(c: Config<V>, s: State<V>, s': State<V>, i: nat, tid: nat, p: nat, e: Effect<V>)
    requires ValidConfig(c) && Inv(c, s) && ValueStep(c, s, s', i, tid, p, e)
    ensures Progress(c, s, s')
  {
    ValueShape(c, s, s', i, tid, p, e);
    ValueValue(c, s, s', i, tid, p, e);
    ValueRest(c, s, s', i, tid, p, e);
    ValueWork(c, s, s', i, tid, p, e);
    ValueConserves(c, s, s', i, tid, p, e);
    hide PacketOk, BcastOk, GatherOk, DoneOk, ValueOk, EmptyOk, Conserved, InOrder, AddValue, Combined;
    assert NodeShape(c, s, p) && NodeShape(c, s', s.counter) && NodeShape(c, s, s.counter);
  }

  lemma ValueShape<V(!new)>(c: Config<V>, s: State<V>, s': State<V>, i: nat, tid: nat, p: nat, e: Effect<V>)
    requires ValueStep(c, s, s', i, tid, p, e)
    ensures forall q :: 0 <= q < c.P ==>
            NodeShape(c, s', q) && BcastOk(c, s', q) && GatherOk(c, s', q) && DoneOk(c, s', q)
    ensures forall j :: 0 <= j < |s'.net| ==> PacketOk(c, s', s'.net[j])
    ensures InOrder(s'.net)
  {
    hide Parent, Kids, Rank, InOrder, BcastOk, GatherOk, DoneOk, ValueOk, AddValue, Combined;
    assert NodeShape(c, s, p);
    if p != s.counter { ParentDiffers(p, s.counter, c.P); }
    Shapes(c, s, s', i, p, e);
    OrderAfter(s.net, i, e.sent);
    Untouched(s, s', i, e.sent, KBcast);
    FrameBcast(c, s, s', p, e.node);
    Untouched(s, s', i, e.sent, KGather);
    FrameGather(c, s, s', p, e.node);
    Untouched(s, s', i, e.sent, KDone);
    FrameDone(c, s, s', p, e.node);
  }

  lemma ValueValue<V(!new)>(c: Config<V>, s: State<V>, s': State<V>, i: nat, tid: nat, p: nat, e: Effect<V>)
    requires ValueStep(c, s, s', i, tid, p, e)
    ensures forall q :: 0 <= q < c.P ==> ValueOk(c, s', q)
  {
    hide Parent, Kids, Rank, AddValue, Combined;
    if p != s.counter { ParentDiffers(p, s.counter, c.P); }
    assert DoneOk(c, s, p);
    forall q | 0 <= q < c.P ensures ValueOk(c, s', q) {
      assert ValueOk(c, s, q);
      if e.sent != [] {
        assert e.sent == [e.sent[0]];
        CountOne(e.sent[0], KValue, q);
      }
      CountAfter(s.net, i, e.sent, KValue, q);
      KidSumUpdate(c, s.nodes, p, e.node, q, s.counter, NotDone());
    }
  }

  lemma ValueWork<V(!new)>(c: Config<V>, s: State<V>, s': State<V>, i: nat, tid: nat, p: nat, e: Effect<V>)
    requires ValueStep(c, s, s', i, tid, p, e)
    ensures Work(c, s') < Work(c, s)
  {
    hide Kids, Parent, Rank, Gathering, Combined, AddValue;
    WorkAfter(c, s, s', p, e.node);
  }

  lemma ValueRest<V(!new)>(c: Config<V>, s: State<V>, s': State<V>, i: nat, tid: nat, p: nat, e: Effect<V>)
    requires ValueStep(c, s, s', i, tid, p, e) && forall q :: 0 <= q < c.P ==> EmptyOk(c, s, q)
    ensures s.exact ==>
              Sum(s'.nodes, Counted()) + Sum(s'.net, Carried()) == Sum(s.nodes, Counted()) + Sum(s.net, Carried())
    ensures forall q :: 0 <= q < c.P ==> EmptyOk(c, s', q)
  {
    hide Parent, Kids, Rank, PacketOk, InOrder, BcastOk, GatherOk, DoneOk, ValueOk, Combined;
    assert NodeShape(c, s, p);
    if e.sent != [] {
      assert e.sent == [e.sent[0]];
      CountOne(e.sent[0], KValue, 0);
    }
    CarriedAfter(s.net, i, e.sent);
    SumUpdate(s.nodes, p, e.node, Counted());
    assert e.node.locals[tid].Some?;
    forall q | 0 <= q < c.P ensures EmptyOk(c, s', q) {
      assert EmptyOk(c, s, q);
    }
  }

  lemma ValueConserves<V(!new)>(c: Config<V>, s: State<V>, s': State<V>, i: nat, tid: nat, p: nat, e: Effect<V>)
    requires ValidConfig(c) && Conserved(c, s) && ValueStep(c, s, s', i, tid, p, e)
    ensures Conserved(c, s')
  {
    hide Parent, Kids, Rank, Combined, Conserved, Gathering;
    ConserveReceive(c, s, i, p, tid);
    var nd := s.nodes[p].(locals := AddValue(c.o, s.nodes[p].locals, tid, s.net[i].msg.val));
    var s1 := s.(net := s.net[..i] + s.net[i + 1..], nodes := s.nodes[p := nd]);
    assert s'.nodes == s1.nodes[p := e.node];
    if e.puts == [] {
      assert s'.outs == s1.outs;
      ConserveSend(c, s1, s', p, e);
    } else {
      assert s'.net == s1.net;
      assert Tagged(p, e.puts) == [(p, e.puts[0])];
      ConserveOutput(c, s1, s', p, e.node);
    }
  }

  /*** BCASTCOUNT ***/

  /** A node learns the count, passes it on, and as a leaf reports its own count. */
  ghost predicate BcastStep<V(!new)>(c: Config<V>, s: State<V>, s': State<V>, i: nat, p: nat, e: Effect<V>) {
    && Handles(c, s, s', i, p, e) && s'.outs == s.outs
    && Gathering(c, s) && s.exact && p != s.counter && s.net[i].msg == BcastCount(s.counter, c.total)
    && Pristine(s.nodes[p]) && s.nodes[Parent(p, s.counter, c.P)].n != M1
    && Count(s.net, KBcast, p) == 1 && Count(s.net, KGather, p) == 0
    && var ks, nd := Kids(p, s.counter, c.P), s.nodes[p].(owner := s.counter, n := c.total, status := CNT_AVAILABLE);
       if ks == [] then
         e == Effect(nd.(nCounts := 0, nreduced := 0),
                     [Packet(p, Parent(p, s.counter, c.P), GatherCount(nd.nreduced))], [])
       else
         e == Effect(nd.(nCounts := |ks|), Bcast(SiteOf(c, p), s.counter, BcastCount(s.counter, c.total)), [])
  }

  lemma BcastFinds<V(!new)>(c: Config<V>, s: State<V>, i: nat)
    requires Inv(c, s) && i < |s.net| && s.net[i].msg.BcastCount?
    ensures s.counter >= 0 && Gathering(c, s)
    ensures var p := s.net[i].dst;
            && p < c.P && p != s.counter && s.nodes[p].status == LOCAL
            && s.net[i].msg.owner == s.counter && s.net[i].msg.cnt == c.total
  {
    hide Parent, Kids, Rank, DoneOk, ValueOk, GatherOk, InOrder, Conserved, EmptyOk;
    InFlightMeansGathering(c, s);
    var p := s.net[i].dst;
    assert PacketOk(c, s, s.net[i]);
    CountNonNegative(s.net, KBcast, p);
    assert BcastOk(c, s, p) && NodeShape(c, s, p);
  }

  lemma DeliverBcast<V(!new)>(c: Config<V>, s: State<V>, i: nat, tid: nat)
    requires ValidConfig(c) && Inv(c, s) && Enabled(c, s, Deliver(i, tid)) && s.net[i].msg.BcastCount?
    ensures Progress(c, s, Apply(c, s, Deliver(i, tid)))
  {
    hide Parent, Kids, Rank, DoneOk, ValueOk, InOrder, Conserved, EmptyOk;
    InFlightMeansGathering(c, s);
    var p := s.net[i].dst;
    assert PacketOk(c, s, s.net[i]);
    ParentDiffers(p, s.counter, c.P);
    CountNonNegative(s.net, KBcast, p);
    assert BcastOk(c, s, p) && NodeShape(c, s, p) && GatherOk(c, s, p);
    var st, nd := SiteOf(c, p), s.nodes[p];
    BcastShape(st, s.counter, BcastCount(s.counter, c.total));
    assert MsgOk(st, nd, s.net[i].msg);
    var e, s' := RecvMsg(st, nd, tid, s.net[i].msg), Apply(c, s, Deliver(i, tid));
    assert s' == Land(s.(net := s.net[..i] + s.net[i + 1..]), p, e);
    BcastStepKeeps(c, s, s', i, p, e);
  }

  lemma BcastStepKeeps<V(!new)>(c: Config<V>, s: State<V>, s': State<V>, i: nat, p: nat, e: Effect<V>)
    requires ValidConfig(c) && Inv(c, s) && BcastStep(c, s, s', i, p, e)
    ensures Progress(c, s, s')
  {
    hide Parent, Kids, Rank, NodeShape, PacketOk, BcastOk, GatherOk, DoneOk, ValueOk, EmptyOk, Conserved, InOrder;
    BcastShapes(c, s, s', i, p, e);
    BcastBcast(c, s, s', i, p, e);
    BcastGather(c, s, s', i, p, e);
    BcastRest(c, s, s', i, p, e);
    BcastWork(c, s, s', i, p, e);
    ConserveDrop(c, s, i);
    BcastShape(SiteOf(c, p), s.counter, BcastCount(s.counter, c.total));
    ConserveSend(c, s.(net := s.net[..i] + s.net[i + 1..]), s', p, e);
  }

  lemma BcastShapes<V(!new)>(c: Config<V>, s: State<V>, s': State<V>, i: nat, p: nat, e: Effect<V>)
    requires BcastStep(c, s, s', i, p, e)
    ensures forall q :: 0 <= q < c.P ==> NodeShape(c, s', q) && DoneOk(c, s', q) && ValueOk(c, s', q)
    ensures forall j :: 0 <= j < |s'.net| ==> PacketOk(c, s', s'.net[j])
    ensures InOrder(s'.net)
  {
    hide Parent, Kids, Rank, BcastOk, GatherOk, ValueOk;
    BcastShape(SiteOf(c, p), s.counter, BcastCount(s.counter, c.total));
    ParentDiffers(p, s.counter, c.P);
    assert NodeShape(c, s, p);
    Shapes(c, s, s', i, p, e);
    Untouched(s, s', i, e.sent, KDone);
    FrameDone(c, s, s', p, e.node);
    Untouched(s, s', i, e.sent, KValue);
    FrameValue(c, s, s', p, e.node);
    var rest := s.net[..i] + s.net[i + 1..];
    OrderAfter(s.net, i, []);
    assert rest + [] == rest;
    forall j, k | 0 <= j < |rest| && 0 <= k < |e.sent| && rest[j].msg.Done? && e.sent[k].msg.BcastCount?
      ensures rest[j].dst != e.sent[k].dst
    {
      var kid := e.sent[k].dst;
      assert rest[j] == s.net[if j < i then j else j + 1];
      assert DoneOk(c, s, kid);
      CountNonNegative(s.net, KDone, kid);
    }
    OrderExtend(rest, e.sent);
  }

  lemma OrderExtend<V>(net: seq<Packet<V>>, sent: seq<Packet<V>>)
    requires InOrder(net) && NoKind(sent, KDone)
    requires forall j, k :: 0 <= j < |net| && 0 <= k < |sent| && net[j].msg.Done? && sent[k].msg.BcastCount? ==>
                              net[j].dst != sent[k].dst
    ensures InOrder(net + sent)
  {
    var all := net + sent;
    assert forall k :: |net| <= k < |all| ==> all[k] == sent[k - |net|];
  }

  lemma BcastBcast<V(!new)>(c: Config<V>, s: State<V>, s': State<V>, i: nat, p: nat, e: Effect<V>)
    requires BcastStep(c, s, s', i, p, e)
    ensures forall q :: 0 <= q < c.P ==> BcastOk(c, s', q)
  {
    hide Parent, Kids, Rank;
    ParentDiffers(p, s.counter, c.P);
    forall q | 0 <= q < c.P ensures BcastOk(c, s', q) {
      assert BcastOk(c, s, q);
      SentByBcast(c, s, s', i, p, e, KBcast, q);
      CountAfter(s.net, i, e.sent, KBcast, q);
      if q != s.counter { ParentDiffers(q, s.counter, c.P); }
    }
  }

  lemma SentByBcast<V(!new)>(c: Config<V>, s: State<V>, s': State<V>, i: nat, p: nat, e: Effect<V>, k: Kind, q: nat)
    requires BcastStep(c, s, s', i, p, e) && q < c.P
    ensures Count(e.sent, k, q) ==
            if k == KBcast && q != s.counter && Parent(q, s.counter, c.P) == p then 1
            else if k == KGather && q == Parent(p, s.counter, c.P) && Kids(p, s.counter, c.P) == [] then 1 else 0
    ensures Sum(e.sent, Carried()) == s.nodes[p].nreduced - e.node.nreduced
  {
    KidsAndParent(p, q, s.counter, c.P);
    if Kids(p, s.counter, c.P) == [] {
      CountOne(e.sent[0], k, q);
    } else {
      BcastCounts(SiteOf(c, p), s.counter, BcastCount(s.counter, c.total), k, q);
    }
  }

  lemma BcastGather<V(!new)>(c: Config<V>, s: State<V>, s': State<V>, i: nat, p: nat, e: Effect<V>)
    requires BcastStep(c, s, s', i, p, e)
    ensures forall q :: 0 <= q < c.P ==> GatherOk(c, s', q)
  {
    hide Parent, Kids, Rank;
    ParentDiffers(p, s.counter, c.P);
    forall q | 0 <= q < c.P && q != s.counter && Parent(q, s.counter, c.P) == p ensures Unsent<V>()(s.nodes[q]) == 1 {
      assert BcastOk(c, s, q);
    }
    KidSumBounds(c, s.nodes, p, s.counter, Unsent());
    forall q | 0 <= q < c.P ensures GatherOk(c, s', q) {
      assert GatherOk(c, s, q);
      SentByBcast(c, s, s', i, p, e, KGather, q);
      CountAfter(s.net, i, e.sent, KGather, q);
      KidSumUpdate(c, s.nodes, p, e.node, q, s.counter, Unsent());
    }
  }

  lemma BcastWork<V(!new)>(c: Config<V>, s: State<V>, s': State<V>, i: nat, p: nat, e: Effect<V>)
    requires BcastStep(c, s, s', i, p, e)
    ensures Work(c, s') < Work(c, s)
  {
    hide Kids, Parent, Rank, Gathering;
    BcastShape(SiteOf(c, p), s.counter, BcastCount(s.counter, c.total));
    WorkAfter(c, s, s', p, e.node);
  }

  lemma BcastRest<V(!new)>(c: Config<V>, s: State<V>, s': State<V>, i: nat, p: nat, e: Effect<V>)
    requires BcastStep(c, s, s', i, p, e) && forall q :: 0 <= q < c.P ==> EmptyOk(c, s, q)
    ensures Sum(s'.nodes, Counted()) + Sum(s'.net, Carried()) == Sum(s.nodes, Counted()) + Sum(s.net, Carried())
    ensures forall q :: 0 <= q < c.P ==> EmptyOk(c, s', q)
  {
    hide Parent, Kids, Rank, NodeShape, PacketOk, InOrder, BcastOk, GatherOk, DoneOk, ValueOk;
    SentByBcast(c, s, s', i, p, e, KBcast, 0);
    CarriedAfter(s.net, i, e.sent);
    SumUpdate(s.nodes, p, e.node, Counted());
    forall q | 0 <= q < c.P ensures EmptyOk(c, s', q) {
      assert EmptyOk(c, s, q);
    }
  }
}
