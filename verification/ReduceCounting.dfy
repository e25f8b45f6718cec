/** How the counts, sums and folds of the reduction protocol change when one node changes and
    messages are consumed and sent. */
module ReduceCounting {
  import opened Sums
  import opened Monoids
  import opened ReduceTree
  import opened ReduceNode
  import opened ReduceProtocol

  lemma CountNonNegative<V>(net: seq<Packet<V>>, k: Kind, q: nat)
    ensures Count(net, k, q) >= 0
    ensures forall i :: 0 <= i < |net| && KindOf(net[i].msg) == k && net[i].dst == q ==> Count(net, k, q) >= 1
  {
    SumNonNegative(net, Hits(k, q));
    forall i | 0 <= i < |net| && KindOf(net[i].msg) == k && net[i].dst == q ensures Count(net, k, q) >= 1 {
      assert Hits<V>(k, q)(net[i]) == 1;
    }
  }

  lemma CountFinds<V>(net: seq<Packet<V>>, k: Kind, q: nat) returns (i: nat)
    requires Count(net, k, q) >= 1
    ensures i < |net| && KindOf(net[i].msg) == k && net[i].dst == q
  {
    if forall j :: 0 <= j < |net| ==> Hits<V>(k, q)(net[j]) == 0 {
      SumZero(net, Hits(k, q));
    }
    i :| 0 <= i < |net| && Hits<V>(k, q)(net[i]) != 0;
  }

  /** Consuming message i and sending `sent`. */
  lemma CountAfter<V>(net: seq<Packet<V>>, i: nat, sent: seq<Packet<V>>, k: Kind, q: nat)
    requires i < |net|
    ensures Count(net[..i] + net[i + 1..] + sent, k, q) == Count(net, k, q) - Hits(k, q)(net[i]) + Count(sent, k, q)
  {
    SumRemove(net, i, Hits(k, q));
    SumAppend(net[..i] + net[i + 1..], sent, Hits(k, q));
  }

  lemma CountSent<V>(net: seq<Packet<V>>, sent: seq<Packet<V>>, k: Kind, q: nat)
    ensures Count(net + sent, k, q) == Count(net, k, q) + Count(sent, k, q)
  {
    SumAppend(net, sent, Hits(k, q));
  }

  lemma CarriedAfter<V>(net: seq<Packet<V>>, i: nat, sent: seq<Packet<V>>)
    requires i < |net|
    ensures Sum(net[..i] + net[i + 1..] + sent, Carried()) ==
            Sum(net, Carried()) - Carried<V>()(net[i]) + Sum(sent, Carried())
  {
    SumRemove(net, i, Carried());
    SumAppend(net[..i] + net[i + 1..], sent, Carried());
  }

  lemma CountOne<V>(pk: Packet<V>, k: Kind, q: nat)
    ensures Count([pk], k, q) == Hits(k, q)(pk)
    ensures Sum([pk], Carried()) == Carried<V>()(pk)
  {
    SumOne(pk, Hits(k, q));
    SumOne(pk, Carried());
  }

  lemma KidsAre(me: nat, root: nat, P: nat)
    requires me < P && root < P
    ensures var ks := Kids(me, root, P);
            && |ks| <= 2
            && (forall i :: 0 <= i < |ks| ==> ks[i] < P && ks[i] != root && Parent(ks[i], root, P) == me)
            && (|ks| == 2 ==> ks[0] != ks[1])
  {
    var ks := Kids(me, root, P);
    TreeRanks(me, root, P);
    forall i | 0 <= i < |ks| ensures ks[i] != root && Parent(ks[i], root, P) == me && (|ks| == 2 ==> ks[0] != ks[1]) {
      KidsAndParent(me, ks[i], root, P);
      assert ks[i] in ks;
    }
  }

  /** A broadcast is one message to each child. */
  lemma BcastShape<V>(s: Site<V>, root: nat, msg: Msg<V>)
    requires s.me < s.P && root < s.P
    ensures var ps := Bcast(s, root, msg);
            && |ps| == |Kids(s.me, root, s.P)|
            && (forall i :: 0 <= i < |ps| ==>
                  ps[i].src == s.me && ps[i].msg == msg && ps[i].dst < s.P && ps[i].dst != root &&
                  Parent(ps[i].dst, root, s.P) == s.me)
  {
    KidsAre(s.me, root, s.P);
  }

  lemma PairCounts<V>(ps: seq<Packet<V>>, k: Kind, q: nat)
    requires |ps| <= 2
    ensures Count(ps, k, q) == (if |ps| > 0 then Hits(k, q)(ps[0]) else 0) + if |ps| > 1 then Hits(k, q)(ps[1]) else 0
    ensures Sum(ps, Carried()) ==
            (if |ps| > 0 then Carried<V>()(ps[0]) else 0) + if |ps| > 1 then Carried<V>()(ps[1]) else 0
  {
    if |ps| == 2 {
      assert ps == [ps[0]] + [ps[1]];
      CountSent([ps[0]], [ps[1]], k, q);
      SumAppend([ps[0]], [ps[1]], Carried());
      CountOne(ps[0], k, q);
      CountOne(ps[1], k, q);
    } else if |ps| == 1 {
      assert ps == [ps[0]];
      CountOne(ps[0], k, q);
    }
  }

  lemma BcastCounts<V>(s: Site<V>, root: nat, msg: Msg<V>, k: Kind, q: nat)
    requires s.me < s.P && root < s.P && q < s.P
    ensures Count(Bcast(s, root, msg), k, q) ==
            if KindOf(msg) == k && q != root && Parent(q, root, s.P) == s.me then 1 else 0
    ensures !msg.GatherCount? ==> Sum(Bcast(s, root, msg), Carried()) == 0
  {
    var ks, ps := Kids(s.me, root, s.P), Bcast(s, root, msg);
    KidsAre(s.me, root, s.P);
    KidsAndParent(s.me, q, root, s.P);
    PairCounts(ps, k, q);
  }

  lemma {:induction false} KSumUpdate<V>(nodes: seq<Node<V>>, p: nat, nd: Node<V>, ks: seq<nat>, f: Node<V> -> int)
    requires p < |nodes|
    requires forall i :: 0 <= i < |ks| ==> ks[i] < |nodes|
    requires forall i, j :: 0 <= i < j < |ks| ==> ks[i] != ks[j]
    ensures KSum(nodes[p := nd], ks, f) == KSum(nodes, ks, f) + if p in ks then f(nd) - f(nodes[p]) else 0
  {
    if ks != [] {
      KSumUpdate(nodes, p, nd, ks[1..], f);
      assert p in ks <==> p == ks[0] || p in ks[1..];
      assert p in ks[1..] ==> p != ks[0];
    }
  }

  /** Only the sum of the parent of p changes. */
  lemma KidSumUpdate<V>(c: Config<V>, nodes: seq<Node<V>>, p: nat, nd: Node<V>, q: nat, root: nat, f: Node<V> -> int)
    requires p < c.P && q < c.P && root < c.P && |nodes| == c.P
    ensures KidSum(c, nodes[p := nd], q, root, f) ==
            KidSum(c, nodes, q, root, f) +
            if p != root && Parent(p, root, c.P) == q then f(nd) - f(nodes[p]) else 0
  {
    KidsInTree(q, root, c.P);
    KidsAndParent(q, p, root, c.P);
    TreeRanks(q, root, c.P);
    KSumUpdate(nodes, p, nd, Kids(q, root, c.P), f);
  }

  lemma {:induction false} KSumBounds<V>(nodes: seq<Node<V>>, ks: seq<nat>, f: Node<V> -> int)
    requires forall i :: 0 <= i < |ks| ==> ks[i] < |nodes|
    requires forall i :: 0 <= i < |ks| ==> 0 <= f(nodes[ks[i]]) <= 1
    ensures 0 <= KSum(nodes, ks, f) <= |ks|
    ensures KSum(nodes, ks, f) == 0 ==> forall i :: 0 <= i < |ks| ==> f(nodes[ks[i]]) == 0
    ensures (forall i :: 0 <= i < |ks| ==> f(nodes[ks[i]]) == 0) ==> KSum(nodes, ks, f) == 0
    ensures (forall i :: 0 <= i < |ks| ==> f(nodes[ks[i]]) == 1) ==> KSum(nodes, ks, f) == |ks|
  {
    if ks != [] {
      var rest := ks[1..];
      KSumBounds(nodes, rest, f);
      assert forall i :: 0 <= i < |rest| ==> rest[i] == ks[i + 1];
      assert forall i :: 1 <= i < |ks| ==> ks[i] == rest[i - 1];
    }
  }

  /** Between none and all of the children satisfy a 0/1 property. */
  lemma KidSumBounds<V>(c: Config<V>, nodes: seq<Node<V>>, q: nat, root: nat, f: Node<V> -> int)
    requires q < c.P && root < c.P && |nodes| == c.P
    requires forall nd: Node<V> :: 0 <= f(nd) <= 1
    ensures 0 <= KidSum(c, nodes, q, root, f) <= |Kids(q, root, c.P)|
    ensures KidSum(c, nodes, q, root, f) == 0 <==>
            forall p :: 0 <= p < c.P && p != root && Parent(p, root, c.P) == q ==> f(nodes[p]) == 0
    ensures (forall p :: 0 <= p < c.P && p != root && Parent(p, root, c.P) == q ==> f(nodes[p]) == 1) ==>
            KidSum(c, nodes, q, root, f) == |Kids(q, root, c.P)|
  {
    var ks := Kids(q, root, c.P);
    KidsInTree(q, root, c.P);
    KSumBounds(nodes, ks, f);
    forall i | 0 <= i < |ks| ensures ks[i] != root && Parent(ks[i], root, c.P) == q {
      KidsAndParent(q, ks[i], root, c.P);
      assert ks[i] in ks;
    }
    if KidSum(c, nodes, q, root, f) == 0 {
      forall p | 0 <= p < c.P && p != root && Parent(p, root, c.P) == q ensures f(nodes[p]) == 0 {
        KidsAndParent(q, p, root, c.P);
        var i :| 0 <= i < |ks| && ks[i] == p;
      }
    }
  }

  /*** values ***/

  /** Messages without a value contribute nothing. */
  lemma FoldNoValue<V(!new)>(o: Operator<V>, net: seq<Packet<V>>)
    requires Lawful(o)
    requires forall i :: 0 <= i < |net| ==> !net[i].msg.Value?
    ensures Fold(o, net, PacketValue(o)) == o.identity
  {
    FoldOfIdentities(o, net, PacketValue(o));
  }

  /** A node whose value is moved out leaves the rest, or the rest and one default too many. */
  lemma CloseNode<V(!new)>(o: Operator<V>, nodes: seq<Node<V>>, p: nat, nd: Node<V>)
    requires Lawful(o) && p < |nodes|
    requires nodes[p].status != DONE && nd.status == DONE && nd.locals == nodes[p].locals
    ensures var before, after := Fold(o, nodes, Contribution(o)), Fold(o, nodes[p := nd], Contribution(o));
            && o.op(after, Combined(o, nd.locals)) == (if Empty(nd.locals) then o.op(before, o.dflt) else before)
            && Sum(nodes[p := nd], Defaulted()) == Sum(nodes, Defaulted()) + if Empty(nd.locals) then 1 else 0
  {
    var f := Contribution(o);
    SumUpdate(nodes, p, nd, Defaulted());
    var rest := nodes[..p] + nodes[p + 1..];
    var closed := nodes[p := nd];
    FoldRemove(o, nodes, p, f);
    FoldRemove(o, closed, p, f);
    assert closed[..p] + closed[p + 1..] == rest;
    var r, t := Fold(o, rest, f), Total(o, nd.locals);
    Laws(o, r, t, t);
    Laws(o, t, r, r);
    Laws(o, r, o.identity, r);
    if Empty(nd.locals) { TotalEmpty(o, nd.locals); }
  }

  lemma {:induction false} FoldSnoc<V(!new)>(o: Operator<V>, xs: seq<(nat, V)>, p: nat, v: V)
    requires Lawful(o)
    ensures Fold(o, xs + [(p, v)], Snd()) == o.op(Fold(o, xs, Snd()), v)
  {
    FoldAppend(o, xs, [(p, v)], Snd());
    FoldOne(o, (p, v), Snd());
  }

  /** Four ways a step moves a value; N: nodes, M: network, O: output, I: input, D: defaults. */
  lemma MoveIn<V(!new)>(o: Operator<V>, N: V, M: V, O: V, I: V, D: V, v: V)
    requires Lawful(o) && o.op(o.op(N, M), O) == o.op(I, D)
    ensures o.op(o.op(o.op(N, v), M), O) == o.op(o.op(I, v), D)
  {
    calc {
      o.op(o.op(o.op(N, v), M), O);
    == { Shuffle(o, N, v, M); }
      o.op(o.op(o.op(N, M), v), O);
    == { Shuffle(o, o.op(N, M), v, O); }
      o.op(o.op(o.op(N, M), O), v);
    == { Shuffle(o, I, D, v); }
      o.op(o.op(I, v), D);
    }
  }

  lemma MoveToNet<V(!new)>(o: Operator<V>, N: V, M: V, O: V, I: V, D: V, N': V, v: V, x: V)
    requires Lawful(o) && o.op(o.op(N, M), O) == o.op(I, D) && o.op(N', v) == o.op(N, x)
    ensures o.op(o.op(N', o.op(M, v)), O) == o.op(I, o.op(x, D))
  {
    calc {
      o.op(o.op(N', o.op(M, v)), O);
    == { Shuffle(o, N', M, v); Laws(o, M, v, v); Shuffle(o, N', v, M); }
      o.op(o.op(o.op(N', v), M), O);
    ==
      o.op(o.op(o.op(N, x), M), O);
    == { MoveIn(o, N, M, O, I, D, x); }
      o.op(o.op(I, x), D);
    == { Laws(o, I, x, D); }
      o.op(I, o.op(x, D));
    }
  }

  lemma MoveToOutput<V(!new)>(o: Operator<V>, N: V, M: V, O: V, I: V, D: V, N': V, v: V, x: V)
    requires Lawful(o) && o.op(o.op(N, M), O) == o.op(I, D) && o.op(N', v) == o.op(N, x)
    ensures o.op(o.op(N', M), o.op(O, v)) == o.op(I, o.op(x, D))
  {
    MoveToNet(o, N, M, O, I, D, N', v, x);
    calc {
      o.op(o.op(N', M), o.op(O, v));
    == { Shuffle(o, o.op(N', M), O, v); Laws(o, o.op(N', M), v, O); Laws(o, O, v, O); }
      o.op(o.op(o.op(N', M), v), O);
    == { Laws(o, N', M, v); }
      o.op(o.op(N', o.op(M, v)), O);
    }
  }

  lemma MoveFromNet<V(!new)>(o: Operator<V>, N: V, M: V, O: V, M': V, v: V)
    requires Lawful(o) && o.op(v, M') == M
    ensures o.op(o.op(o.op(N, v), M'), O) == o.op(o.op(N, M), O)
  {
    Laws(o, N, v, M');
  }

  /*** how each kind of step conserves values ***/

  /** Consuming a message that carries no value. */
  lemma ConserveDrop<V(!new)>(c: Config<V>, s: State<V>, i: nat)
    requires ValidConfig(c) && Conserved(c, s) && i < |s.net| && !s.net[i].msg.Value?
    ensures Conserved(c, s.(net := s.net[..i] + s.net[i + 1..]))
  {
    var o, rest := c.o, s.net[..i] + s.net[i + 1..];
    FoldRemove(o, s.net, i, PacketValue(o));
    var m := Fold(o, rest, PacketValue(o));
    Laws(o, m, m, m);
  }

  /** Receiving a value. */
  lemma ConserveReceive<V(!new)>(c: Config<V>, s: State<V>, i: nat, p: nat, tid: nat)
    requires ValidConfig(c) && Conserved(c, s) && i < |s.net| && s.net[i].msg.Value?
    requires p < |s.nodes| && tid < |s.nodes[p].locals| && s.nodes[p].status != DONE
    ensures var nd := s.nodes[p].(locals := AddValue(c.o, s.nodes[p].locals, tid, s.net[i].msg.val));
            Conserved(c, s.(net := s.net[..i] + s.net[i + 1..], nodes := s.nodes[p := nd]))
  {
    var o, rest, v := c.o, s.net[..i] + s.net[i + 1..], s.net[i].msg.val;
    var nd := s.nodes[p].(locals := AddValue(o, s.nodes[p].locals, tid, v));
    TotalAdd(o, s.nodes[p].locals, tid, v);
    FoldUpdate(o, s.nodes, p, nd, Contribution(o), v);
    SumUpdate(s.nodes, p, nd, Defaulted());
    FoldRemove(o, s.net, i, PacketValue(o));
    MoveFromNet(o, Fold(o, s.nodes, Contribution(o)), Fold(o, s.net, PacketValue(o)), Fold(o, s.outs, Snd()),
                Fold(o, rest, PacketValue(o)), v);
  }

  /** Adding an item. */
  lemma ConserveItem<V(!new)>(c: Config<V>, s: State<V>, p: nat, tid: nat, v: V)
    requires ValidConfig(c) && Conserved(c, s)
    requires p < |s.nodes| && tid < |s.nodes[p].locals| && s.nodes[p].status != DONE
    ensures var nd := s.nodes[p].(locals := AddValue(c.o, s.nodes[p].locals, tid, v));
            Conserved(c, s.(items := s.items + [(p, v)], nodes := s.nodes[p := nd]))
  {
    var o := c.o;
    var nd := s.nodes[p].(locals := AddValue(o, s.nodes[p].locals, tid, v));
    TotalAdd(o, s.nodes[p].locals, tid, v);
    FoldUpdate(o, s.nodes, p, nd, Contribution(o), v);
    SumUpdate(s.nodes, p, nd, Defaulted());
    FoldSnoc(o, s.items, p, v);
    MoveIn(o, Fold(o, s.nodes, Contribution(o)), Fold(o, s.net, PacketValue(o)), Fold(o, s.outs, Snd()),
           Fold(o, s.items, Snd()), DefaultPower(c, s), v);
  }

  /** A node keeps its container and sends messages without a value, or sends the container as its value. */
  lemma ConserveSend<V(!new)>(c: Config<V>, s: State<V>, s': State<V>, p: nat, e: Effect<V>)
    requires ValidConfig(c) && Conserved(c, s) && p < |s.nodes|
    requires s.nodes[p].status != DONE && e.node.locals == s.nodes[p].locals
    requires s'.nodes == s.nodes[p := e.node] && s'.net == s.net + e.sent && s'.outs == s.outs && s'.items == s.items
    requires if e.node.status == DONE then
               |e.sent| == 1 && e.sent[0].msg == Value(Combined(c.o, e.node.locals))
             else forall j :: 0 <= j < |e.sent| ==> !e.sent[j].msg.Value?
    ensures Conserved(c, s')
  {
    var o := c.o;
    var N, M, O := Fold(o, s.nodes, Contribution(o)), Fold(o, s.net, PacketValue(o)), Fold(o, s.outs, Snd());
    var N', M' := Fold(o, s'.nodes, Contribution(o)), Fold(o, s'.net, PacketValue(o));
    FoldAppend(o, s.net, e.sent, PacketValue(o));
    DefaultedNonNegative(s.nodes);
    if e.node.status == DONE {
      var v := Combined(o, e.node.locals);
      FoldOne(o, e.sent[0], PacketValue(o));
      assert e.sent == [e.sent[0]];
      CloseNode(o, s.nodes, p, e.node);
      Laws(o, N, N, N);
      Laws(o, DefaultPower(c, s), N, N);
      MoveToNet(o, N, M, O, Fold(o, s.items, Snd()), DefaultPower(c, s), N', v,
                if Empty(e.node.locals) then o.dflt else o.identity);
    } else {
      FoldNoValue(o, e.sent);
      Laws(o, M, M, M);
      KeepNode(c, s, p, e.node);
    }
  }

  lemma KeepNode<V(!new)>(c: Config<V>, s: State<V>, p: nat, nd: Node<V>)
    requires ValidConfig(c) && p < |s.nodes|
    requires s.nodes[p].status != DONE && nd.status != DONE && nd.locals == s.nodes[p].locals
    ensures Fold(c.o, s.nodes[p := nd], Contribution(c.o)) == Fold(c.o, s.nodes, Contribution(c.o))
    ensures Sum(s.nodes[p := nd], Defaulted()) == Sum(s.nodes, Defaulted())
  {
    var o := c.o;
    var N := Fold(o, s.nodes, Contribution(o));
    Laws(o, Contribution(o)(s.nodes[p]), N, N);
    FoldUpdate(o, s.nodes, p, nd, Contribution(o), o.identity);
    Laws(o, N, N, N);
    SumUpdate(s.nodes, p, nd, Defaulted());
  }

  /** A node puts its container out. */
  lemma ConserveOutput<V(!new)>(c: Config<V>, s: State<V>, s': State<V>, p: nat, nd: Node<V>)
    requires ValidConfig(c) && Conserved(c, s) && p < |s.nodes|
    requires s.nodes[p].status != DONE && nd.status == DONE && nd.locals == s.nodes[p].locals
    requires s'.nodes == s.nodes[p := nd] && s'.net == s.net && s'.items == s.items
    requires s'.outs == s.outs + [(p, Combined(c.o, nd.locals))]
    ensures Conserved(c, s')
  {
    var o := c.o;
    var N, M, O := Fold(o, s.nodes, Contribution(o)), Fold(o, s.net, PacketValue(o)), Fold(o, s.outs, Snd());
    var v := Combined(o, nd.locals);
    CloseNode(o, s.nodes, p, nd);
    DefaultedNonNegative(s.nodes);
    Laws(o, N, N, N);
    Laws(o, DefaultPower(c, s), N, N);
    FoldSnoc(o, s.outs, p, v);
    MoveToOutput(o, N, M, O, Fold(o, s.items, Snd()), DefaultPower(c, s), Fold(o, s'.nodes, Contribution(o)), v,
                 if Empty(nd.locals) then o.dflt else o.identity);
  }

  /*** work ***/

  lemma {:induction false} OwedUpdate<V>(c: Config<V>, nodes: seq<Node<V>>, root: nat, q: nat, p: nat, nd: Node<V>)
    requires q <= c.P && root < c.P && |nodes| == c.P && p < c.P
    ensures OwedFrom(c, nodes[p := nd], root, q) ==
            OwedFrom(c, nodes, root, q) + if p >= q then Owed(c, nd, p, root) - Owed(c, nodes[p], p, root) else 0
    decreases c.P - q
  {
    hide Kids, Owed;
    if q < c.P { OwedUpdate(c, nodes, root, q + 1, p, nd); }
  }

  lemma {:induction false} OwedBound<V>(c: Config<V>, nodes: seq<Node<V>>, root: nat, q: nat)
    requires q <= c.P && root < c.P && |nodes| == c.P
    ensures OwedFrom(c, nodes, root, q) <= 6 * (c.P - q)
    decreases c.P - q
  {
    hide Kids;
    if q < c.P {
      OwedBound(c, nodes, root, q + 1);
      KidsAre(q, root, c.P);
    }
  }

  /** How the work changes when one node does. */
  lemma WorkAfter<V>(c: Config<V>, s: State<V>, s': State<V>, p: nat, nd: Node<V>)
    requires Typed(c, s) && Typed(c, s') && 0 <= s.counter == s'.counter && p < c.P && s'.nodes == s.nodes[p := nd]
    ensures Work(c, s') == Work(c, s) - 2 * (|s'.items| - |s.items|) + |s'.net| - |s.net|
                           + Owed(c, nd, p, s.counter) - Owed(c, s.nodes[p], p, s.counter)
  {
    hide Owed;
    OwedUpdate(c, s.nodes, s.counter, 0, p, nd);
  }
}
