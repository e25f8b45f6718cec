/** The invariant of the reduction protocol is kept by counting steps: gathered counts, item puts,
    count puts, and the owner's decision that everything is counted. */
module ReducePuts {
  import opened Options
  import opened Sums
  import opened Monoids
  import opened ReduceTree
  import opened ReduceNode
  import opened ReduceProtocol
  import opened ReduceCounting
  import opened ReduceSafety

  /*** the owner starts the DONE phase ***/

  /** What on_done does at the owner. */
  ghost predicate StartStep<V(!new)>(c: Config<V>, s: State<V>, s': State<V>, e: Effect<V>) {
    && Typed(c, s) && s.counter >= 0 && Changes(c, s, s', s.counter, e.node)
    && s'.net == s.net + e.sent && s'.items == s.items && s'.outs == s.outs + Tagged(s.counter, e.puts)
    && s.nodes[s.counter].status == CNT_AVAILABLE
    && (s.exact ==> s.nodes[s.counter].nreduced == c.total)
    && var ks, nd := Kids(s.counter, s.counter, c.P), s.nodes[s.counter];
       if ks == [] then
         e == Effect(nd.(status := DONE, nValues := 0, nreduced := nd.n), [], [Combined(c.o, nd.locals)])
       else
         e == Effect(nd.(status := FINISH, nValues := |ks|), Bcast(SiteOf(c, s.counter), s.counter, Done(s.counter)),
             [])
  }

  lemma OnDoneAtOwner<V(!new)>(c: Config<V>, s: State<V>)
    requires Typed(c, s) && s.counter >= 0 && s.nodes[s.counter].owner == s.counter
    requires s.nodes[s.counter].status == CNT_AVAILABLE
    ensures var st, nd, ks := SiteOf(c, s.counter), s.nodes[s.counter], Kids(s.counter, s.counter, c.P);
            OnDone(st, nd, s.counter) ==
            if ks == [] then
              Effect(nd.(status := DONE, nValues := 0, nreduced := nd.n), [], [Combined(c.o, nd.locals)])
            else
              Effect(nd.(status := FINISH, nValues := |ks|), Bcast(st, s.counter, Done(s.counter)), [])
  {
    hide Kids, Rank, Parent, Combined;
    BcastShape(SiteOf(c, s.counter), s.counter, Done(s.counter));
  }

  lemma StartKeeps<V(!new)>(c: Config<V>, s: State<V>, s': State<V>, e: Effect<V>)
    requires ValidConfig(c) && InvCore(c, s) && StartStep(c, s, s', e)
    ensures Inv(c, s') && Work(c, s') <= Work(c, s)
  {
    hide Kids, Parent, Rank, Combined, PacketOk, BcastOk, GatherOk, DoneOk, ValueOk, EmptyOk, Conserved, InOrder;
    StartWork(c, s, s', e);
    StartShape(c, s, s', e);
    StartDone(c, s, s', e);
    StartValue(c, s, s', e);
    StartRest(c, s, s', e);
    StartConserves(c, s, s', e);
    assert NodeShape(c, s, s.counter);
  }

  lemma StartWork<V(!new)>(c: Config<V>, s: State<V>, s': State<V>, e: Effect<V>)
    requires GatheringCoreHere(c, s) && StartStep(c, s, s', e)
    ensures Work(c, s') <= Work(c, s)
  {
    hide Kids, Parent, Rank, BcastOk, GatherOk, DoneOk, ValueOk, PacketOk, InOrder, Combined;
    assert NodeShape(c, s, s.counter);
    BcastShape(SiteOf(c, s.counter), s.counter, Done(s.counter));
    WorkAfter(c, s, s', s.counter, e.node);
  }

  lemma StartShape<V(!new)>(c: Config<V>, s: State<V>, s': State<V>, e: Effect<V>)
    requires GatheringCoreHere(c, s) && StartStep(c, s, s', e)
    ensures forall q :: 0 <= q < c.P ==> NodeShape(c, s', q) && BcastOk(c, s', q) && GatherOk(c, s', q)
    ensures forall j :: 0 <= j < |s'.net| ==> PacketOk(c, s', s'.net[j])
    ensures InOrder(s'.net)
  {
    hide Parent, Kids, Rank, BcastOk, GatherOk, DoneOk, ValueOk, Combined;
    var o := s.counter;
    BcastShape(SiteOf(c, o), o, Done(o));
    assert NodeShape(c, s, o);
    forall q | 0 <= q < c.P ensures NodeShape(c, s', q) {
      assert NodeShape(c, s, q);
    }
    forall j | 0 <= j < |s'.net| ensures PacketOk(c, s', s'.net[j]) {
      if j < |s.net| { assert PacketOk(c, s, s.net[j]); } else { assert s'.net[j] == e.sent[j - |s.net|]; }
    }
    assert forall k :: |s.net| <= k < |s'.net| ==> s'.net[k] == e.sent[k - |s.net|];
    UntouchedBySending(s, s', e.sent, KBcast);
    FrameBcast(c, s, s', o, e.node);
    UntouchedBySending(s, s', e.sent, KGather);
    FrameGather(c, s, s', o, e.node);
  }

  /** GatheringCore with its preconditions. */
  ghost predicate GatheringCoreHere<V>(c: Config<V>, s: State<V>) {
    Typed(c, s) && s.counter >= 0 && GatheringCore(c, s)
  }

  lemma StartDone<V(!new)>(c: Config<V>, s: State<V>, s': State<V>, e: Effect<V>)
    requires GatheringCoreHere(c, s) && StartStep(c, s, s', e)
    ensures forall q :: 0 <= q < c.P ==> DoneOk(c, s', q)
  {
    hide Parent, Kids, Rank, Combined;
    var o := s.counter;
    assert NodeShape(c, s, o);
    forall q | 0 <= q < c.P ensures DoneOk(c, s', q) {
      assert DoneOk(c, s, q);
      SentByStart(c, s, s', e, KDone, q);
      CountSent(s.net, e.sent, KDone, q);
      if q != o { ParentDiffers(q, o, c.P); }
    }
  }

  lemma SentByStart<V(!new)>(c: Config<V>, s: State<V>, s': State<V>, e: Effect<V>, k: Kind, q: nat)
    requires StartStep(c, s, s', e) && q < c.P
    ensures Count(e.sent, k, q) ==
            if k == KDone && q != s.counter && Parent(q, s.counter, c.P) == s.counter then 1 else 0
    ensures Sum(e.sent, Carried()) == 0
  {
    KidsAndParent(s.counter, q, s.counter, c.P);
    BcastCounts(SiteOf(c, s.counter), s.counter, Done(s.counter), k, q);
  }

  lemma StartValue<V(!new)>(c: Config<V>, s: State<V>, s': State<V>, e: Effect<V>)
    requires GatheringCoreHere(c, s) && StartStep(c, s, s', e)
    ensures forall q :: 0 <= q < c.P ==> ValueOk(c, s', q)
  {
    hide Parent, Kids, Rank, Combined;
    var o := s.counter;
    assert NodeShape(c, s, o);
    BcastShape(SiteOf(c, o), o, Done(o));
    forall q | 0 <= q < c.P && q != o && Parent(q, o, c.P) == o ensures NotDone<V>()(s.nodes[q]) == 1 {
      assert DoneOk(c, s, q) && NodeShape(c, s, q);
    }
    KidSumBounds(c, s.nodes, o, o, NotDone());
    forall q | 0 <= q < c.P ensures ValueOk(c, s', q) {
      assert ValueOk(c, s, q);
      SentByStart(c, s, s', e, KValue, q);
      CountSent(s.net, e.sent, KValue, q);
      KidSumUpdate(c, s.nodes, o, e.node, q, o, NotDone());
    }
  }

  lemma StartRest<V(!new)>(c: Config<V>, s: State<V>, s': State<V>, e: Effect<V>)
    requires GatheringCoreHere(c, s) && StartStep(c, s, s', e) && forall q :: 0 <= q < c.P ==> EmptyOk(c, s, q)
    ensures s.exact ==>
              Sum(s'.nodes, Counted()) + Sum(s'.net, Carried()) == Sum(s.nodes, Counted()) + Sum(s.net, Carried())
    ensures forall q :: 0 <= q < c.P ==> EmptyOk(c, s', q)
  {
    hide Parent, Kids, Rank, PacketOk, InOrder, BcastOk, GatherOk, DoneOk, ValueOk, Combined;
    assert NodeShape(c, s, s.counter);
    SentByStart(c, s, s', e, KDone, 0);
    SumAppend(s.net, e.sent, Carried());
    SumUpdate(s.nodes, s.counter, e.node, Counted());
    forall q | 0 <= q < c.P ensures EmptyOk(c, s', q) {
      assert EmptyOk(c, s, q);
    }
  }

  lemma StartConserves<V(!new)>(c: Config<V>, s: State<V>, s': State<V>, e: Effect<V>)
    requires ValidConfig(c) && Conserved(c, s) && StartStep(c, s, s', e)
    ensures Conserved(c, s')
  {
    hide Parent, Kids, Rank, Combined, Conserved;
    BcastShape(SiteOf(c, s.counter), s.counter, Done(s.counter));
    if e.puts == [] {
      ConserveSend(c, s, s', s.counter, e);
    } else {
      assert Tagged(s.counter, e.puts) == [(s.counter, e.puts[0])];
      assert s'.net == s.net;
      ConserveOutput(c, s, s', s.counter, e.node);
    }
  }

  /*** GATHERCOUNT ***/

  /** A node adds a count it received; when its children are complete, a node that is not the owner
      reports to its parent. The owner's check that follows is not part of this step. */
  ghost predicate GatherStep<V(!new)>(c: Config<V>, s: State<V>, s': State<V>, i: nat, p: nat, e: Effect<V>) {
    && Handles(c, s, s', i, p, e) && s'.outs == s.outs
    && Gathering(c, s) && s.exact && s.net[i].msg.GatherCount? && s.net[i].msg.gathered >= 0
    && s.nodes[p].n == c.total && Count(s.net, KGather, p) >= 1
    && (p != s.counter ==> s.nodes[p].nCounts >= 1)
    && var nd := s.nodes[p].(nreduced := s.nodes[p].nreduced + s.net[i].msg.gathered,
                              nCounts := s.nodes[p].nCounts - 1);
       if p == s.counter || nd.nCounts > 0 then e == Effect(nd, [], [])
       else e == Effect(nd.(nreduced := 0), [Packet(p, Parent(p, s.counter, c.P), GatherCount(nd.nreduced))], [])
  }

  lemma GatherFinds<V(!new)>(c: Config<V>, s: State<V>, i: nat)
    requires Inv(c, s) && i < |s.net| && s.net[i].msg.GatherCount?
    ensures s.counter >= 0 && Gathering(c, s) && s.exact
    ensures var p := s.net[i].dst;
            p < c.P && s.nodes[p].n == c.total && s.nodes[p].owner == s.counter && s.net[i].msg.gathered >= 0 &&
            Count(s.net, KGather, p) >= 1 && (p != s.counter ==> s.nodes[p].nCounts >= 1)
  {
    hide Parent, Kids, Rank, BcastOk, ValueOk, DoneOk, InOrder;
    InFlightMeansGathering(c, s);
    var p := s.net[i].dst;
    assert PacketOk(c, s, s.net[i]);
    CountNonNegative(s.net, KGather, p);
    assert GatherOk(c, s, p) && NodeShape(c, s, p);
    KidSumBounds(c, s.nodes, p, s.counter, Unsent());
  }

  /** The owner cannot be sent more than what was put. */
  lemma CarriedBound<V(!new)>(c: Config<V>, s: State<V>, i: nat)
    requires GatheringCoreHere(c, s) && s.exact && i < |s.net| && s.net[i].msg.GatherCount?
    ensures s.nodes[s.counter].nreduced + s.net[i].msg.gathered <= |s.items|
  {
    forall j | 0 <= j < |s.net| ensures Carried<V>()(s.net[j]) >= 0 {
      assert PacketOk(c, s, s.net[j]);
    }
    SumNonNegative(s.net, Carried());
    SumNonNegative(s.nodes, Counted());
    assert Carried<V>()(s.net[i]) == s.net[i].msg.gathered;
    assert Counted<V>()(s.nodes[s.counter]) <= Sum(s.nodes, Counted());
  }

  lemma GatherStepKeeps<V(!new)>(c: Config<V>, s: State<V>, s': State<V>, i: nat, p: nat, e: Effect<V>)
    requires ValidConfig(c) && Inv(c, s) && GatherStep(c, s, s', i, p, e)
    ensures InvCore(c, s') && Work(c, s') < Work(c, s)
    ensures p != s.counter ==> Inv(c, s')
  {
    GatherWork(c, s, s', i, p, e);
    GatherShape(c, s, s', i, p, e);
    GatherGather(c, s, s', i, p, e);
    GatherRest(c, s, s', i, p, e);
    if s.nodes[p].status == DONE {
      GatherAtDone(c, s, s', i, p, e);
    } else {
      ConserveDrop(c, s, i);
      ConserveSend(c, s.(net := s.net[..i] + s.net[i + 1..]), s', p, e);
    }
    hide PacketOk, BcastOk, GatherOk, DoneOk, ValueOk, EmptyOk, Conserved, InOrder;
    assert NodeShape(c, s, p);
  }

  lemma GatherWork<V(!new)>(c: Config<V>, s: State<V>, s': State<V>, i: nat, p: nat, e: Effect<V>)
    requires GatherStep(c, s, s', i, p, e)
    ensures Work(c, s') < Work(c, s)
  {
    hide Kids, Parent, Rank, Gathering;
    WorkAfter(c, s, s', p, e.node);
  }

  lemma GatherAtDone<V(!new)>(c: Config<V>, s: State<V>, s': State<V>, i: nat, p: nat, e: Effect<V>)
    requires ValidConfig(c) && Conserved(c, s) && GatherStep(c, s, s', i, p, e) && s.nodes[p].status == DONE
    ensures Conserved(c, s')
  {
    hide Parent, Kids, Rank, Gathering;
    var o, rest := c.o, s.net[..i] + s.net[i + 1..];
    FoldRemove(o, s.net, i, PacketValue(o));
    FoldAppend(o, rest, e.sent, PacketValue(o));
    FoldNoValue(o, e.sent);
    var m := Fold(o, rest, PacketValue(o));
    Laws(o, m, m, m);
    Laws(o, o.identity, o.identity, o.identity);
    FoldUpdate(o, s.nodes, p, e.node, Contribution(o), o.identity);
    var N := Fold(o, s.nodes, Contribution(o));
    Laws(o, N, N, N);
    SumUpdate(s.nodes, p, e.node, Defaulted());
  }

  lemma GatherShape<V(!new)>(c: Config<V>, s: State<V>, s': State<V>, i: nat, p: nat, e: Effect<V>)
    requires GatherStep(c, s, s', i, p, e)
    ensures forall q :: 0 <= q < c.P ==>
            NodeShape(c, s', q) && BcastOk(c, s', q) && DoneOk(c, s', q) && ValueOk(c, s', q)
    ensures forall j :: 0 <= j < |s'.net| ==> PacketOk(c, s', s'.net[j])
    ensures InOrder(s'.net)
  {
    hide Parent, Kids, Rank, InOrder, BcastOk, GatherOk, DoneOk, ValueOk;
    assert NodeShape(c, s, p) && PacketOk(c, s, s.net[i]);
    CarriedBound(c, s, i);
    if p != s.counter { ParentDiffers(p, s.counter, c.P); }
    Shapes(c, s, s', i, p, e);
    OrderAfter(s.net, i, e.sent);
    Untouched(s, s', i, e.sent, KBcast);
    FrameBcast(c, s, s', p, e.node);
    Untouched(s, s', i, e.sent, KDone);
    FrameDone(c, s, s', p, e.node);
    Untouched(s, s', i, e.sent, KValue);
    FrameValue(c, s, s', p, e.node);
  }

  lemma GatherGather<V(!new)>(c: Config<V>, s: State<V>, s': State<V>, i: nat, p: nat, e: Effect<V>)
    requires GatherStep(c, s, s', i, p, e)
    ensures forall q :: 0 <= q < c.P ==> GatherOk(c, s', q)
  {
    hide Parent, Kids, Rank, DoneOk, ValueOk, InOrder;
    if p != s.counter { ParentDiffers(p, s.counter, c.P); }
    assert BcastOk(c, s, p);
    forall q | 0 <= q < c.P ensures GatherOk(c, s', q) {
      assert GatherOk(c, s, q);
      if e.sent != [] {
        assert e.sent == [e.sent[0]];
        CountOne(e.sent[0], KGather, q);
      }
      CountAfter(s.net, i, e.sent, KGather, q);
      KidSumUpdate(c, s.nodes, p, e.node, q, s.counter, Unsent());
    }
  }

  lemma GatherRest<V(!new)>(c: Config<V>, s: State<V>, s': State<V>, i: nat, p: nat, e: Effect<V>)
    requires GatherStep(c, s, s', i, p, e) && forall q :: 0 <= q < c.P ==> EmptyOk(c, s, q)
    ensures Sum(s'.nodes, Counted()) + Sum(s'.net, Carried()) == Sum(s.nodes, Counted()) + Sum(s.net, Carried())
    ensures forall q :: 0 <= q < c.P ==> EmptyOk(c, s', q)
  {
    hide Parent, Kids, Rank, NodeShape, PacketOk, InOrder, BcastOk, GatherOk, DoneOk, ValueOk;
    if e.sent != [] {
      assert e.sent == [e.sent[0]];
      CountOne(e.sent[0], KGather, 0);
    }
    CarriedAfter(s.net, i, e.sent);
    SumUpdate(s.nodes, p, e.node, Counted());
    forall q | 0 <= q < c.P ensures EmptyOk(c, s', q) {
      assert EmptyOk(c, s, q);
    }
  }

  lemma DeliverGather<V(!new)>(c: Config<V>, s: State<V>, i: nat, tid: nat)
    requires ValidConfig(c) && Inv(c, s) && Enabled(c, s, Deliver(i, tid)) && s.net[i].msg.GatherCount?
    ensures Progress(c, s, Apply(c, s, Deliver(i, tid)))
  {
    hide Parent, Kids, Rank, Combined, Conserved, EmptyOk, OnDone, GatheringCore;
    GatherFinds(c, s, i);
    var p := s.net[i].dst;
    var st, nd := SiteOf(c, p), s.nodes[p];
    assert MsgOk(st, nd, s.net[i].msg);
    var e, s' := RecvMsg(st, nd, tid, s.net[i].msg), Apply(c, s, Deliver(i, tid));
    var s0 := s.(net := s.net[..i] + s.net[i + 1..]);
    assert s' == Land(s0, p, e);
    var nd1 := nd.(nreduced := nd.nreduced + s.net[i].msg.gathered, nCounts := nd.nCounts - 1);
    if p != s.counter {
      if nd1.nCounts <= 0 { ParentDiffers(p, s.counter, c.P); }
      GatherStepKeeps(c, s, s', i, p, e);
    } else {
      var e1 := Effect(nd1, [], []);
      var s1 := Land(s0, p, e1);
      GatherStepKeeps(c, s, s1, i, p, e1);
      OwnerChecks(c, s1, s', nd1.nCounts <= 0 && nd1.n == nd1.nreduced);
    }
  }

  /** After an update of its counters the owner either starts the DONE phase or goes on waiting. */
  lemma OwnerChecks<V(!new)>(c: Config<V>, s: State<V>, s': State<V>, complete: bool)
    requires ValidConfig(c) && InvCore(c, s) && s.nodes[s.counter].owner == s.counter && s.exact
    requires complete <==> s.nodes[s.counter].nCounts <= 0 && s.nodes[s.counter].nreduced == c.total
    requires s' == if complete then Land(s, s.counter, OnDone(SiteOf(c, s.counter), s.nodes[s.counter], s.counter))
        else s
    ensures Inv(c, s') && Work(c, s') <= Work(c, s)
  {
    hide Parent, Kids, Rank, Combined, Conserved, EmptyOk, GatheringCore;
    var o := s.counter;
    var st, nd := SiteOf(c, o), s.nodes[o];
    var e := OnDone(st, nd, o);
    if complete && nd.status == CNT_AVAILABLE {
      OnDoneAtOwner(c, s);
      BcastShape(st, o, Done(o));
      CoreTotals(c, s);
      StartKeeps(c, s, s', e);
    } else {
      if complete {
        assert e == Effect(nd, [], []);
        assert s'.nodes == s.nodes;
        assert s' == s;
      }
    }
  }

  lemma CoreTotals<V(!new)>(c: Config<V>, s: State<V>)
    requires InvCore(c, s)
    ensures s.nodes[s.counter].n == if s.exact then c.total else M1
  {
    assert NodeShape(c, s, s.counter);
  }

  /*** items ***/

  lemma {:induction false} EmptyAfterItem<V(!new)>(c: Config<V>, s: State<V>, s': State<V>, p: nat, tid: nat, v: V,
      nd: Node<V>)
    requires Typed(c, s) && Typed(c, s') && p < c.P && tid < c.threads
    requires forall q :: 0 <= q < c.P ==> EmptyOk(c, s, q)
    requires s'.nodes == s.nodes[p := nd] && nd.locals == AddValue(c.o, s.nodes[p].locals, tid, v)
    requires nd.nValues == s.nodes[p].nValues && s'.items == s.items + [(p, v)] && s'.counter == s.counter
    ensures forall q :: 0 <= q < c.P ==> EmptyOk(c, s', q)
  {
    hide Kids;
    assert nd.locals[tid].Some?;
    assert s'.items[|s.items|].0 == p;
    assert forall j :: 0 <= j < |s.items| ==> s'.items[j] == s.items[j];
    forall q | 0 <= q < c.P ensures EmptyOk(c, s', q) {
      assert EmptyOk(c, s, q);
    }
  }

  /** An item put before the count is known. */
  lemma PutItemBefore<V(!new)>(c: Config<V>, s: State<V>, p: nat, tid: nat, v: V)
    requires ValidConfig(c) && Inv(c, s) && Enabled(c, s, PutItem(p, tid, v)) && s.counter == -1
    ensures Progress(c, s, Apply(c, s, PutItem(p, tid, v)))
  {
    hide Conserved, EmptyOk, AddValue, Gathering, LocalDone, Kids, OnDone, Total;
    var nd, s' := s.nodes[p], Apply(c, s, PutItem(p, tid, v));
    assert |AddValue(c.o, nd.locals, tid, v)| == |nd.locals| by { AddValueLength(c.o, nd.locals, tid, v); }
    var nd1 := nd.(locals := AddValue(c.o, nd.locals, tid, v), nreduced := nd.nreduced + 1);
    assert Pristine(nd);
    assert Tagged<V>(p, []) == [];
    assert s'.nodes == s.nodes[p := nd1] && s'.net == [] && s'.outs == [];
    SumUpdate(s.nodes, p, nd1, Counted());
    TotalAdd(c.o, nd.locals, tid, v);
    EmptyAfterItem(c, s, s', p, tid, v, nd1);
    ItemConserves(c, s, s', p, tid, v, nd1, []);
  }

  lemma AddValueLength<V(!new)>(o: Operator<V>, locals: seq<Option<V>>, tid: nat, v: V)
    requires tid < |locals|
    ensures |AddValue(o, locals, tid, v)| == |locals|
  {
  }

  /** Adding an item conserves values, whatever counters change and counts are sent besides. */
  lemma ItemConserves<V(!new)>(c: Config<V>, s: State<V>, s': State<V>, p: nat, tid: nat, v: V, nd: Node<V>,
      sent: seq<Packet<V>>)
    requires ValidConfig(c) && Conserved(c, s) && p < |s.nodes| && tid < |s.nodes[p].locals|
    requires s.nodes[p].status != DONE && nd.status != DONE
    requires nd.locals == AddValue(c.o, s.nodes[p].locals, tid, v)
    requires s'.nodes == s.nodes[p := nd] && s'.items == s.items + [(p, v)] && s'.outs == s.outs
    requires s'.net == s.net + sent && forall j :: 0 <= j < |sent| ==> !sent[j].msg.Value?
    ensures Conserved(c, s')
  {
    hide AddValue, Conserved;
    ConserveItem(c, s, p, tid, v);
    var nd1 := s.nodes[p].(locals := AddValue(c.o, s.nodes[p].locals, tid, v));
    var s1 := s.(items := s.items + [(p, v)], nodes := s.nodes[p := nd1]);
    assert s1.nodes[p := nd] == s'.nodes;
    ConserveSend(c, s1, s', p, Effect(nd, sent, []));
  }

  /** A node adds an item. If it knows the count and is not the owner, it reports the item to the owner. */
  ghost predicate ItemStep<V(!new)>(c: Config<V>, s: State<V>, s': State<V>, p: nat, tid: nat, v: V, e: Effect<V>) {
    && GatheringCoreHere(c, s) && s.exact && Changes(c, s, s', p, e.node) && tid < c.threads
    && s'.net == s.net + e.sent && s'.items == s.items + [(p, v)] && s'.outs == s.outs && e.puts == []
    && s.nodes[p].status != DONE && s.nodes[s.counter].nValues == -1
    && var nd := s.nodes[p].(locals := AddValue(c.o, s.nodes[p].locals, tid, v), nreduced := s.nodes[p].nreduced + 1);
       if p == s.counter || nd.n == M1 then e == Effect(nd, [], [])
       else e == Effect(nd.(nreduced := 0), [Packet(p, s.counter, GatherCount(nd.nreduced))], [])
  }

  lemma ItemStepKeeps<V(!new)>(c: Config<V>, s: State<V>, s': State<V>, p: nat, tid: nat, v: V, e: Effect<V>)
    requires ValidConfig(c) && Inv(c, s) && ItemStep(c, s, s', p, tid, v, e)
    ensures InvCore(c, s') && Work(c, s') < Work(c, s)
    ensures p != s.counter ==> Inv(c, s')
  {
    hide PacketOk, BcastOk, GatherOk, DoneOk, ValueOk, EmptyOk, Conserved, InOrder, AddValue, Kids, Parent, Rank;
    ItemWork(c, s, s', p, tid, v, e);
    ItemShape(c, s, s', p, tid, v, e);
    ItemGather(c, s, s', p, tid, v, e);
    ItemSums(c, s, s', p, tid, v, e);
    EmptyAfterItem(c, s, s', p, tid, v, e.node);
    ItemConserves(c, s, s', p, tid, v, e.node, e.sent);
    assert NodeShape(c, s, p) && NodeShape(c, s, s.counter);
  }

  lemma ItemWork<V(!new)>(c: Config<V>, s: State<V>, s': State<V>, p: nat, tid: nat, v: V, e: Effect<V>)
    requires ItemStep(c, s, s', p, tid, v, e)
    ensures Work(c, s') < Work(c, s)
  {
    hide Kids, Parent, Rank, GatheringCore, AddValue;
    WorkAfter(c, s, s', p, e.node);
  }

  lemma ItemShape<V(!new)>(c: Config<V>, s: State<V>, s': State<V>, p: nat, tid: nat, v: V, e: Effect<V>)
    requires ItemStep(c, s, s', p, tid, v, e)
    ensures forall q :: 0 <= q < c.P ==>
            NodeShape(c, s', q) && BcastOk(c, s', q) && DoneOk(c, s', q) && ValueOk(c, s', q)
    ensures forall j :: 0 <= j < |s'.net| ==> PacketOk(c, s', s'.net[j])
    ensures InOrder(s'.net)
  {
    hide Parent, Kids, Rank, BcastOk, GatherOk, DoneOk, ValueOk, AddValue;
    assert NodeShape(c, s, p) && NodeShape(c, s, s.counter);
    forall q | 0 <= q < c.P ensures NodeShape(c, s', q) {
      assert NodeShape(c, s, q);
    }
    forall j | 0 <= j < |s'.net| ensures PacketOk(c, s', s'.net[j]) {
      if j < |s.net| { assert PacketOk(c, s, s.net[j]); }
    }
    OrderExtend(s.net, e.sent);
    UntouchedBySending(s, s', e.sent, KBcast);
    FrameBcast(c, s, s', p, e.node);
    UntouchedBySending(s, s', e.sent, KDone);
    FrameDone(c, s, s', p, e.node);
    UntouchedBySending(s, s', e.sent, KValue);
    FrameValue(c, s, s', p, e.node);
  }

  lemma ItemGather<V(!new)>(c: Config<V>, s: State<V>, s': State<V>, p: nat, tid: nat, v: V, e: Effect<V>)
    requires ItemStep(c, s, s', p, tid, v, e)
    ensures forall q :: 0 <= q < c.P ==> GatherOk(c, s', q)
  {
    hide Parent, Kids, Rank, DoneOk, ValueOk, InOrder, AddValue;
    assert NodeShape(c, s, s.counter);
    forall q | 0 <= q < c.P ensures GatherOk(c, s', q) {
      assert GatherOk(c, s, q);
      if e.sent != [] {
        assert e.sent == [e.sent[0]];
        CountOne(e.sent[0], KGather, q);
      }
      CountSent(s.net, e.sent, KGather, q);
      KidSumUpdate(c, s.nodes, p, e.node, q, s.counter, Unsent());
    }
  }

  lemma ItemSums<V(!new)>(c: Config<V>, s: State<V>, s': State<V>, p: nat, tid: nat, v: V, e: Effect<V>)
    requires ItemStep(c, s, s', p, tid, v, e)
    ensures Sum(s'.nodes, Counted()) + Sum(s'.net, Carried()) == Sum(s.nodes, Counted()) + Sum(s.net, Carried()) + 1
  {
    hide Parent, Kids, Rank, NodeShape, PacketOk, InOrder, BcastOk, GatherOk, DoneOk, ValueOk, AddValue;
    if e.sent != [] {
      assert e.sent == [e.sent[0]];
      CountOne(e.sent[0], KGather, 0);
    }
    SumAppend(s.net, e.sent, Carried());
    SumUpdate(s.nodes, p, e.node, Counted());
  }

  /** As long as items are missing, nothing is done anywhere. */
  lemma StillCounting<V(!new)>(c: Config<V>, s: State<V>, p: nat)
    requires Inv(c, s) && s.counter >= 0 && |s.items| < c.total && p < c.P
    ensures Gathering(c, s) && s.exact && s.nodes[s.counter].nValues == -1 && s.nodes[p].nValues == -1
    ensures s.nodes[s.counter].status == CNT_AVAILABLE && s.nodes[s.counter].owner == s.counter
    ensures s.nodes[s.counter].n == c.total
    ensures s.nodes[p].status == if s.nodes[p].n == M1 then LOCAL else CNT_AVAILABLE
    ensures s.nodes[p].n != M1 ==> s.nodes[p].owner == s.counter
  {
    hide Parent, Kids, Rank, BcastOk, GatherOk, ValueOk, InOrder;
    var o := s.counter;
    assert Gathering(c, s);
    assert NodeShape(c, s, o) && NodeShape(c, s, p);
    if s.exact {
      forall j | 0 <= j < |s.net| ensures Carried<V>()(s.net[j]) >= 0 {
        assert PacketOk(c, s, s.net[j]);
      }
      SumNonNegative(s.net, Carried());
      SumNonNegative(s.nodes, Counted());
      assert Counted<V>()(s.nodes[o]) <= Sum(s.nodes, Counted());
    }
    if s.nodes[p].nValues != -1 {
      DoneSeenUp(c, s, p);
    }
  }

  lemma PutItemAfter<V(!new)>(c: Config<V>, s: State<V>, p: nat, tid: nat, v: V)
    requires ValidConfig(c) && Inv(c, s) && Enabled(c, s, PutItem(p, tid, v)) && s.counter >= 0
    ensures Progress(c, s, Apply(c, s, PutItem(p, tid, v)))
  {
    hide Parent, Kids, Rank, Combined, Conserved, EmptyOk, OnDone, GatheringCore, AddValue;
    StillCounting(c, s, p);
    var st, nd := SiteOf(c, p), s.nodes[p];
    AddValueLength(c.o, nd.locals, tid, v);
    var e, s' := OnItemPut(st, nd, tid, v), Apply(c, s, PutItem(p, tid, v));
    assert s' == Land(s, p, e).(items := s.items + [(p, v)]);
    var nd1 := nd.(locals := AddValue(c.o, nd.locals, tid, v), nreduced := nd.nreduced + 1);
    assert Tagged<V>(p, []) == [];
    if p != s.counter {
      ItemStepKeeps(c, s, s', p, tid, v, e);
    } else {
      var e1 := Effect(nd1, [], []);
      var s1 := Land(s, p, e1).(items := s.items + [(p, v)]);
      ItemStepKeeps(c, s, s1, p, tid, v, e1);
      OwnerChecks(c, s1, s', nd1.nreduced == c.total && nd1.nCounts <= 0);
    }
  }

  /*** the count ***/

  /** All counted locally: the result is put at once. */
  lemma PutCountLocal<V(!new)>(c: Config<V>, s: State<V>, p: nat)
    requires ValidConfig(c) && Inv(c, s) && Enabled(c, s, PutCount(p)) && s.nodes[p].nreduced == c.total
    ensures Progress(c, s, Apply(c, s, PutCount(p)))
  {
    hide Conserved, EmptyOk, Combined;
    var nd, s' := s.nodes[p], Apply(c, s, PutCount(p));
    assert Pristine(nd);
    var nd1 := nd.(n := c.total, status := DONE);
    assert Tagged(p, [Combined(c.o, nd.locals)]) == [(p, Combined(c.o, nd.locals))];
    assert s'.nodes == s.nodes[p := nd1] && s'.outs == [(p, Combined(c.o, nd.locals))];
    ConserveOutput(c, s, s', p, nd1);
    OthersZero(s.nodes, p, c.total);
    OwedBound(c, s'.nodes, p, 0);
    forall q | 0 <= q < c.P ensures EmptyOk(c, s', q) {
      assert EmptyOk(c, s, q);
      EmptyKept(c, s, s', q);
    }
  }

  lemma EmptyKept<V(!new)>(c: Config<V>, s: State<V>, s': State<V>, q: nat)
    requires Typed(c, s) && Typed(c, s') && q < c.P && EmptyOk(c, s, q)
    requires s'.nodes[q].locals == s.nodes[q].locals && s'.items == s.items
    requires s.nodes[q].nValues == s'.nodes[q].nValues == -1
    ensures EmptyOk(c, s', q)
  {
  }

  /** If one node counted everything, the others counted nothing. */
  lemma OthersZero<V(!new)>(nodes: seq<Node<V>>, p: nat, total: int)
    requires p < |nodes| && nodes[p].nreduced == total
    requires forall q :: 0 <= q < |nodes| ==> nodes[q].nreduced >= 0
    requires Sum(nodes, Counted()) <= total
    ensures Sum(nodes, Counted()) == total
    ensures forall q :: 0 <= q < |nodes| && q != p ==> nodes[q].nreduced == 0
  {
    SumNonNegative(nodes, Counted());
    assert Counted<V>()(nodes[p]) == total;
    forall q | 0 <= q < |nodes| && q != p ensures nodes[q].nreduced == 0 {
      var without := nodes[p := nodes[p].(nreduced := 0)];
      SumUpdate(nodes, p, nodes[p].(nreduced := 0), Counted());
      SumNonNegative(without, Counted());
      assert Counted<V>()(without[q]) == nodes[q].nreduced;
    }
  }

  /** The count is broadcast from p, which becomes the owner. */
  ghost predicate CountStep<V(!new)>(c: Config<V>, s: State<V>, s': State<V>, p: nat, sent: seq<Packet<V>>) {
    && Typed(c, s) && Before(c, s) && p < c.P && s.nodes[p].nreduced != c.total && s.counter == -1
    && s' == State(s.nodes[p := s.nodes[p].(owner := p, n := c.total, nCounts := |Kids(p, p, c.P)|,
                                            status := CNT_AVAILABLE)],
                   sent, s.items, p, true, [], s.failed)
    && sent == Bcast(SiteOf(c, p), p, BcastCount(p, c.total))
  }

  lemma PutCountGather<V(!new)>(c: Config<V>, s: State<V>, p: nat)
    requires ValidConfig(c) && Inv(c, s) && Enabled(c, s, PutCount(p)) && s.nodes[p].nreduced != c.total
    ensures Progress(c, s, Apply(c, s, PutCount(p)))
  {
    hide Conserved, EmptyOk, Kids, Rank, Parent, Combined;
    var nd, s' := s.nodes[p], Apply(c, s, PutCount(p));
    var st := SiteOf(c, p);
    assert Pristine(nd);
    BcastShape(st, p, BcastCount(p, c.total));
    assert Tagged<V>(p, []) == [];
    var sent := Bcast(st, p, BcastCount(p, c.total));
    var nd1 := nd.(owner := p, n := c.total, nCounts := |Kids(p, p, c.P)|, status := CNT_AVAILABLE);
    assert OnCountPut(st, nd, c.total) == Effect(nd1, sent, []);
    assert CountStep(c, s, s', p, sent);
    ConserveSend(c, s, s', p, Effect(nd1, sent, []));
    CountKeeps(c, s, s', p, sent);
    OwedBound(c, s'.nodes, p, 0);
    KidsAre(p, p, c.P);
  }

  lemma CountKeeps<V(!new)>(c: Config<V>, s: State<V>, s': State<V>, p: nat, sent: seq<Packet<V>>)
    requires ValidConfig(c) && Inv(c, s) && CountStep(c, s, s', p, sent) && Conserved(c, s')
    ensures Inv(c, s')
  {
    CountShape(c, s, s', p, sent);
    CountCounts(c, s, s', p, sent);
    CountRest(c, s, s', p, sent);
    hide NodeShape, PacketOk, BcastOk, GatherOk, DoneOk, ValueOk, EmptyOk, Conserved, InOrder, Kids, Rank, Parent,
        Bcast;
  }

  lemma CountRest<V(!new)>(c: Config<V>, s: State<V>, s': State<V>, p: nat, sent: seq<Packet<V>>)
    requires CountStep(c, s, s', p, sent) && Typed(c, s') && forall q :: 0 <= q < c.P ==> EmptyOk(c, s, q)
    ensures forall q :: 0 <= q < c.P ==> EmptyOk(c, s', q)
    ensures Sum(s'.nodes, Counted()) + Sum(s'.net, Carried()) == |s'.items|
    ensures OwnerWaits(c, s')
  {
    hide EmptyOk, Kids, Rank, Parent, Bcast;
    forall q | 0 <= q < c.P ensures EmptyOk(c, s', q) {
      assert Pristine(s.nodes[q]) && EmptyOk(c, s, q);
      EmptyKept(c, s, s', q);
    }
    BcastCounts(SiteOf(c, p), p, BcastCount(p, c.total), KBcast, 0);
    SumUpdate(s.nodes, p, s'.nodes[p], Counted());
  }

  lemma CountShape<V(!new)>(c: Config<V>, s: State<V>, s': State<V>, p: nat, sent: seq<Packet<V>>)
    requires CountStep(c, s, s', p, sent) && Typed(c, s')
    ensures forall q :: 0 <= q < c.P ==> NodeShape(c, s', q)
    ensures forall j :: 0 <= j < |s'.net| ==> PacketOk(c, s', s'.net[j])
    ensures InOrder(s'.net)
  {
    hide Kids, Rank, Parent;
    BcastShape(SiteOf(c, p), p, BcastCount(p, c.total));
    assert |sent| == |Kids(p, p, c.P)|;
    forall q | 0 <= q < c.P ensures NodeShape(c, s', q) {
      assert Pristine(s.nodes[q]);
    }
  }

  lemma CountCounts<V(!new)>(c: Config<V>, s: State<V>, s': State<V>, p: nat, sent: seq<Packet<V>>)
    requires CountStep(c, s, s', p, sent) && Typed(c, s')
    ensures forall q :: 0 <= q < c.P ==>
            BcastOk(c, s', q) && GatherOk(c, s', q) && DoneOk(c, s', q) && ValueOk(c, s', q)
  {
    hide Kids, Rank, Parent;
    forall q | 0 <= q < c.P && q != p && Parent(q, p, c.P) == p ensures Unsent<V>()(s'.nodes[q]) == 1 {
      assert Pristine(s.nodes[q]);
    }
    KidSumBounds(c, s'.nodes, p, p, Unsent());
    forall q | 0 <= q < c.P ensures BcastOk(c, s', q) && GatherOk(c, s', q) && DoneOk(c, s', q) && ValueOk(c, s', q) {
      assert Pristine(s.nodes[q]);
      var st, m := SiteOf(c, p), BcastCount(p, c.total);
      BcastCounts(st, p, m, KBcast, q);
      BcastCounts(st, p, m, KGather, q);
      BcastCounts(st, p, m, KDone, q);
      BcastCounts(st, p, m, KValue, q);
      if q != p {
        ParentDiffers(q, p, c.P);
        assert Pristine(s.nodes[Parent(q, p, c.P)]);
      }
    }
  }

  /*** the done-flag ***/

  lemma PutFlagKeeps<V(!new)>(c: Config<V>, s: State<V>, p: nat)
    requires ValidConfig(c) && Inv(c, s) && Enabled(c, s, PutFlag(p))
    ensures Progress(c, s, Apply(c, s, PutFlag(p)))
  {
    hide Conserved, EmptyOk, Kids, Rank, Parent, Combined, GatheringCore, OnDone;
    var nd, s' := s.nodes[p], Apply(c, s, PutFlag(p));
    assert Pristine(nd);
    var nd1 := nd.(owner := p, status := CNT_AVAILABLE, nCounts := 0);
    var s1 := State(s.nodes[p := nd1], [], s.items, p, false, [], s.failed);
    FlagCore(c, s, s1, p, nd1);
    OnDoneAtOwner(c, s1);
    var e := OnDone(SiteOf(c, p), nd1, p);
    OwnerForgotten(SiteOf(c, p), nd1, p);
    assert s'.nodes == s1.nodes[p := e.node];
    BcastShape(SiteOf(c, p), p, Done(p));
    OwedBound(c, s1.nodes, p, 0);
    StartKeeps(c, s1, s', e);
  }

  /** on_done sets the owner itself. */
  lemma OwnerForgotten<V(!new)>(st: Site<V>, nd: Node<V>, p: nat)
    requires st.Valid() && p < st.P
    ensures OnDone(st, nd.(owner := -1), p) == OnDone(st, nd.(owner := p), p)
  {
  }

  lemma FlagCore<V(!new)>(c: Config<V>, s: State<V>, s': State<V>, p: nat, nd: Node<V>)
    requires ValidConfig(c) && Inv(c, s) && s.counter == -1 && p < c.P && |s.items| == c.total
    requires nd == s.nodes[p].(owner := p, status := CNT_AVAILABLE, nCounts := 0)
    requires s' == State(s.nodes[p := nd], [], s.items, p, false, [], s.failed)
    ensures InvCore(c, s')
  {
    hide Conserved, Kids, Rank, Parent;
    assert s.net + [] == s.net;
    ConserveSend(c, s, s', p, Effect(nd, [], []));
    forall q | 0 <= q < c.P
      ensures NodeShape(c, s', q) && BcastOk(c, s', q) && GatherOk(c, s', q) && DoneOk(c, s', q) && ValueOk(c, s', q)
      ensures EmptyOk(c, s', q)
    {
      assert Pristine(s.nodes[q]) && EmptyOk(c, s, q);
      if q != p {
        ParentDiffers(q, p, c.P);
        assert Pristine(s.nodes[Parent(q, p, c.P)]);
      }
    }
  }

  /*** every step ***/

  lemma StepKeepsInv<V(!new)>(c: Config<V>, s: State<V>, e: Event<V>)
    requires ValidConfig(c) && Inv(c, s) && Enabled(c, s, e)
    ensures Progress(c, s, Apply(c, s, e))
  {
    hide Inv, Apply, Progress;
    match e
    case PutItem(p, tid, v) =>
      if s.counter >= 0 { PutItemAfter(c, s, p, tid, v); } else { CounterRange(c, s); PutItemBefore(c, s, p, tid, v); }
    case PutCount(p) =>
      CounterRange(c, s);
      if s.nodes[p].nreduced == c.total { PutCountLocal(c, s, p); } else { PutCountGather(c, s, p); }
    case PutFlag(p) =>
      PutFlagKeeps(c, s, p);
    case Deliver(i, tid) =>
      match s.net[i].msg
      case BcastCount(_, _) => DeliverBcast(c, s, i, tid);
      case GatherCount(_) => DeliverGather(c, s, i, tid);
      case Done(_) => DeliverDone(c, s, i, tid);
      case Value(_) => DeliverValue(c, s, i, tid);
  }

  lemma CounterRange<V(!new)>(c: Config<V>, s: State<V>)
    requires Inv(c, s)
    ensures s.counter >= -1 && |s.nodes| == c.P
  {
  }
}
