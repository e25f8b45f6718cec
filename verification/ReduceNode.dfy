/** One process of a distributed reduction, for one reduction id (cnc/reduce.h).
    The handlers are given twice: as functions from a node to an Effect, which the protocol is
    built from, and as the methods of class ReductionNode, which update the node's fields. */
module ReduceNode {
  import opened Options
  import opened Monoids
  import opened ReduceTree

  datatype Status = LOCAL | CNT_AVAILABLE | BCAST_DONE | FINISH | DONE

  /** The count that means "nothing more comes", and an unknown count. */
  const M1: int := -1

  /** red_tls: `locals` holds one partial value per thread. */
  datatype Node<V> = Node(locals: seq<Option<V>>, nreduced: int, n: int, nCounts: int, nValues: int,
                          owner: int, status: Status)

  datatype Msg<V> =
    | BcastCount(owner: nat, cnt: int)
    | GatherCount(gathered: int)
    | Done(root: nat)
    | Value(val: V)

  datatype Packet<V> = Packet(src: nat, dst: nat, msg: Msg<V>)

  /** What a handler does: the new node, the messages sent, the values put into the output collection. */
  datatype Effect<V> = Effect(node: Node<V>, sent: seq<Packet<V>>, puts: seq<V>)

  /** Where a handler runs. */
  datatype Site<!V> = Site(me: nat, P: nat, o: Operator<V>) {
    ghost predicate Valid() { me < P }
  }

  function Fresh<V>(threads: nat): Node<V> {
    Node(seq(threads, i => None), 0, M1, -1, -1, -1, LOCAL)
  }

  /*** thread-local values ***/

  ghost predicate Empty<V>(locals: seq<Option<V>>) {
    forall i :: 0 <= i < |locals| ==> locals[i].None?
  }

  function Slot<V>(o: Operator<V>, x: Option<V>): V {
    match x case None => o.identity case Some(v) => v
  }

  /** All partial values of a node together. */
  function Total<V>(o: Operator<V>, locals: seq<Option<V>>): V {
    if locals == [] then o.identity else o.op(Slot(o, locals[0]), Total(o, locals[1..]))
  }

  /** combinable::combine: a node no value was added to yields a default-constructed value. */
  ghost function Combined<V>(o: Operator<V>, locals: seq<Option<V>>): V {
    if Empty(locals) then o.dflt else Total(o, locals)
  }

  function AddValue<V>(o: Operator<V>, locals: seq<Option<V>>, tid: nat, v: V): seq<Option<V>>
    requires tid < |locals|
  {
    locals[tid := Some(o.op(Slot(o, locals[tid]), v))]
  }

  lemma {:induction false} TotalAdd<V(!new)>(o: Operator<V>, locals: seq<Option<V>>, tid: nat, v: V)
    requires Lawful(o) && tid < |locals|
    ensures Total(o, AddValue(o, locals, tid, v)) == o.op(Total(o, locals), v)
    ensures !Empty(AddValue(o, locals, tid, v))
  {
    var xs := AddValue(o, locals, tid, v);
    assert xs[tid].Some?;
    if tid == 0 {
      assert xs[1..] == locals[1..];
      Shuffle(o, Slot(o, locals[0]), v, Total(o, locals[1..]));
    } else {
      assert xs[1..] == AddValue(o, locals[1..], tid - 1, v);
      TotalAdd(o, locals[1..], tid - 1, v);
      Laws(o, Slot(o, locals[0]), Total(o, locals[1..]), v);
    }
  }

  lemma {:induction false} TotalEmpty<V(!new)>(o: Operator<V>, locals: seq<Option<V>>)
    requires Lawful(o) && Empty(locals)
    ensures Total(o, locals) == o.identity
  {
    if locals != [] {
      TotalEmpty(o, locals[1..]);
      Laws(o, o.identity, o.identity, o.identity);
    }
  }

  /*** handlers as functions ***/

  ghost function TryPutValue<V>(s: Site<V>, nd: Node<V>): Effect<V> {
    if nd.nreduced == nd.n && nd.status != DONE then
      Effect(nd.(status := DONE), [], [Combined(s.o, nd.locals)])
    else Effect(nd, [], [])
  }

  ghost function SendCount<V>(s: Site<V>, nd: Node<V>, to: int, always: bool): Effect<V> {
    if to < 0 || to == s.me then Effect(nd, [], [])
    else if always || nd.nreduced > 0 then
      Effect(nd.(nreduced := 0), [Packet(s.me, to, GatherCount(nd.nreduced))], [])
    else Effect(nd.(nreduced := 0), [], [])
  }

  /** bcast: one message per child. */
  function Bcast<V>(s: Site<V>, root: nat, msg: Msg<V>): (ps: seq<Packet<V>>)
    requires s.me < s.P && root < s.P
  {
    var ks := Kids(s.me, root, s.P);
    if |ks| == 2 then [Packet(s.me, ks[0], msg), Packet(s.me, ks[1], msg)]
    else if |ks| == 1 then [Packet(s.me, ks[0], msg)]
    else []
  }

  ghost function TrySendOrPutValue<V>(s: Site<V>, nd: Node<V>): Effect<V>
    requires s.Valid() && 0 <= nd.owner < s.P
  {
    var nd1 := nd.(nValues := nd.nValues - 1);
    if nd.nValues != 1 then Effect(nd1, [], [])
    else if nd.owner == s.me then
      if nd.status == FINISH then TryPutValue(s, nd1.(nreduced := nd.n)) else Effect(nd1, [], [])
    else
      Effect(nd1.(status := DONE),
             [Packet(s.me, Parent(s.me, nd.owner, s.P), Value(Combined(s.o, nd.locals)))], [])
  }

  ghost function OnDone<V>(s: Site<V>, nd: Node<V>, owner: nat): Effect<V>
    requires s.Valid() && owner < s.P
  {
    var nd0 := nd.(owner := owner);
    if owner != s.me || nd.status == CNT_AVAILABLE then
      var nd1 := if owner == s.me then nd0.(status := BCAST_DONE) else nd0;
      var sent := Bcast(s, owner, Done(owner));
      var nd2 := nd1.(nValues := 1000 + |sent|, status := if nd1.status == BCAST_DONE then FINISH else nd1.status);
      var e := TrySendOrPutValue(s, nd2.(nValues := nd2.nValues - 999));
      e.(sent := sent + e.sent)
    else Effect(nd0, [], [])
  }

  ghost function OnBcastCount<V>(s: Site<V>, nd: Node<V>, cnt: int, owner: nat): Effect<V>
    requires s.Valid() && owner < s.P
  {
    var sent := Bcast(s, owner, BcastCount(owner, cnt));
    var nd1 := nd.(owner := owner, n := cnt, nCounts := |sent|,
                   status := if nd.status == LOCAL then CNT_AVAILABLE else nd.status);
    if |sent| == 0 && owner != s.me then SendCount(s, nd1, Parent(s.me, owner, s.P), true)
    else Effect(nd1, sent, [])
  }

  ghost function OnGatherCount<V>(s: Site<V>, nd: Node<V>, cnt: int): Effect<V>
    requires s.Valid() && 0 <= nd.owner < s.P
  {
    var nd1 := nd.(nreduced := nd.nreduced + cnt, nCounts := nd.nCounts - 1);
    if nd1.nCounts > 0 then Effect(nd1, [], [])
    else if nd.owner != s.me then SendCount(s, nd1, Parent(s.me, nd.owner, s.P), true)
    else if nd1.n == nd1.nreduced then OnDone(s, nd1, s.me)
    else Effect(nd1, [], [])
  }

  ghost function OnValue<V>(s: Site<V>, nd: Node<V>, tid: nat, v: V): Effect<V>
    requires s.Valid() && 0 <= nd.owner < s.P && tid < |nd.locals|
  {
    TrySendOrPutValue(s, nd.(locals := AddValue(s.o, nd.locals, tid, v)))
  }

  /** on_item_put::on_put for a selected item. */
  ghost function OnItemPut<V>(s: Site<V>, nd: Node<V>, tid: nat, v: V): Effect<V>
    requires s.Valid() && tid < |nd.locals|
  {
    var nd1 := nd.(locals := AddValue(s.o, nd.locals, tid, v), nreduced := nd.nreduced + 1);
    if nd.status == LOCAL then Effect(nd1, [], [])
    else if nd.owner != s.me then SendCount(s, nd1, nd.owner, false)
    else if nd1.nreduced == nd.n && nd.nCounts <= 0 then OnDone(s, nd1, s.me)
    else Effect(nd1, [], [])
  }

  /** on_count_put::on_put, for a count and for the done-flag. */
  ghost function OnCountPut<V>(s: Site<V>, nd: Node<V>, cnt: int): Effect<V>
    requires s.Valid()
  {
    if cnt != M1 then
      var e := TryPutValue(s, nd.(n := cnt));
      if e.puts != [] then e else OnBcastCount(s, nd.(n := cnt), cnt, s.me)
    else
      var nd1 := nd.(status := if nd.status == LOCAL then CNT_AVAILABLE else nd.status, nCounts := 0);
      OnDone(s, nd1, s.me)
  }

  /** recv_msg, restricted to the messages of one reduction. `tid` is the receiving thread. */
  ghost function RecvMsg<V>(s: Site<V>, nd: Node<V>, tid: nat, msg: Msg<V>): Effect<V>
    requires s.Valid() && tid < |nd.locals| && MsgOk(s, nd, msg)
  {
    match msg
    case BcastCount(owner, cnt) => OnBcastCount(s, nd, cnt, owner)
    case GatherCount(cnt) => OnGatherCount(s, nd, cnt)
    case Done(owner) => OnDone(s, nd, owner)
    case Value(v) => OnValue(s, nd, tid, v)
  }

  /** What the assertions in the handlers demand of a received message. */
  ghost predicate MsgOk<V>(s: Site<V>, nd: Node<V>, msg: Msg<V>) {
    match msg
    case BcastCount(owner, cnt) => owner < s.P && owner != s.me && cnt != M1 && nd.status == LOCAL
    case GatherCount(cnt) => 0 <= nd.owner < s.P && cnt != M1 && (nd.owner == s.me || nd.nCounts >= 1)
    case Done(owner) => owner < s.P && owner != s.me && nd.nValues == -1
    case Value(v) => 0 <= nd.owner < s.P && nd.nValues >= 1 &&
                     (nd.owner == s.me && nd.nValues == 1 ==>
                       nd.status == FINISH && (nd.nreduced == nd.n || nd.n == M1))
  }

  /*** handlers as code ***/

  class ReductionNode<V(0,!new)> {
    const me: nat
    const P: nat
    const o: Operator<V>
    const locals: array<Option<V>>
    var nreduced: int
    var n: int
    var nCounts: int
    var nValues: int
    var owner: int
    var status: Status
    var sent: seq<Packet<V>>   // messages handed to the distributor so far
    var puts: seq<V>           // values put into the output collection so far

    ghost function View(): Node<V>
      reads this, locals
    {
      Node(locals[..], nreduced, n, nCounts, nValues, owner, status)
    }

    ghost function Here(): Site<V> { Site(me, P, o) }

    ghost predicate Valid() { me < P && Lawful(o) }

    /** The state after an effect. */
    ghost predicate Is(e: Effect<V>, sent0: seq<Packet<V>>, puts0: seq<V>)
      reads this, locals
    {
      View() == e.node && sent == sent0 + e.sent && puts == puts0 + e.puts
    }

    constructor (me: nat, P: nat, o: Operator<V>, threads: nat)
      requires me < P && Lawful(o)
      ensures Valid() && Here() == Site(me, P, o) && fresh(locals)
      ensures View() == Fresh(threads) && sent == [] && puts == []
    {
      this.me, this.P, this.o := me, P, o;
      nreduced, n, nCounts, nValues, owner, status := 0, M1, -1, -1, -1, LOCAL;
      sent, puts := [], [];
      locals := new Option<V>[threads](i => None);
      new;
      assert locals[..] == Fresh<V>(threads).locals;
    }

    /** combine: a left fold over the thread-local values that exist. */
    method Combine() returns (r: V)
      requires Valid()
      ensures r == Combined(o, locals[..])
    {
      var have := false;
      r := o.dflt;
      var i := 0;
      while i < locals.Length
        invariant 0 <= i <= locals.Length
        invariant have <==> !Empty(locals[..i])
        invariant r == if have then Total(o, locals[..i]) else o.dflt
      {
        assert locals[..i + 1] == locals[..i] + [locals[i]];
        TotalSnoc(o, locals[..i], locals[i]);
        Laws(o, Total(o, locals[..i]), Slot(o, locals[i]), o.identity);
        Laws(o, Slot(o, locals[i]), o.identity, o.identity);
        match locals[i] {
          case None =>
          case Some(v) =>
            if !have { TotalEmpty(o, locals[..i]); }
            assert locals[..i + 1][i].Some?;
            r := if have then o.op(r, v) else v;
            have := true;
        }
        i := i + 1;
      }
      assert locals[..i] == locals[..];
    }

    method AddToLocals(tid: nat, v: V)
      requires tid < locals.Length
      modifies locals
      ensures locals[..] == AddValue(o, old(locals[..]), tid, v)
    {
      var exists_ := locals[tid].Some?;
      locals[tid] := Some(o.op(if exists_ then locals[tid].value else o.identity, v));
    }

    method DoTryPutValue() returns (done: bool)
      requires Valid()
      modifies this
      ensures Is(TryPutValue(Here(), old(View())), old(sent), old(puts))
      ensures done <==> puts != old(puts)
      ensures done <==> old(nreduced) == old(n) && old(status) != DONE
      ensures done ==> status == DONE && |puts| == |old(puts)| + 1
      ensures !done ==> View() == old(View())
    {
      done := false;
      if nreduced == n && status != DONE {
        var v := Combine();
        puts := puts + [v];
        status := DONE;
        done := true;
      }
    }

    method DoSendCount(to: int, always: bool)
      modifies this
      ensures Is(SendCount(Here(), old(View()), to, always), old(sent), old(puts))
      ensures to < 0 || to == me ==> View() == old(View()) && sent == old(sent)
      ensures to >= 0 && to != me ==>
                && nreduced == 0
                && sent == old(sent) +
                     if always || old(nreduced) > 0 then [Packet(me, to, GatherCount(old(nreduced)))] else []
    {
      if to < 0 || to == me { return; }
      var cnt := nreduced;
      nreduced := 0;
      if always || cnt > 0 {
        sent := sent + [Packet(me, to, GatherCount(cnt))];
      }
    }

    /** Returns the number of messages sent. */
    method DoBcast(root: nat, msg: Msg<V>) returns (count: nat)
      requires Valid() && root < P
      modifies this`sent
      ensures sent == old(sent) + Bcast(Here(), root, msg)
      ensures count == |Bcast(Here(), root, msg)| == |Kids(me, root, P)|
    {
      TreeRanks(me, root, P);
      var r1 := (if me >= root then me - root else me + P - root) + 1;
      r1 := r1 * 2 - 1;
      if r1 < P {
        ModIsRemainder(root + r1, P);
        ModIsRemainder(Mod(root + r1, P) + 1, P);
        if r1 < P - 1 {
          r1 := (root + r1) % P;
          sent := sent + [Packet(me, r1, msg), Packet(me, (r1 + 1) % P, msg)];
          return 2;
        } else {
          r1 := (root + r1) % P;
          sent := sent + [Packet(me, r1, msg)];
          return 1;
        }
      }
      return 0;
    }

    method DoTrySendOrPutValue()
      requires Valid() && 0 <= owner < P
      requires owner == me && nValues == 1 && status == FINISH ==> nreduced == n || n == M1
      modifies this
      ensures Is(TrySendOrPutValue(Here(), old(View())), old(sent), old(puts))
      ensures nValues == old(nValues) - 1
      ensures old(nValues) != 1 || (owner == me && old(status) != FINISH) ==>
                sent == old(sent) && puts == old(puts) && status == old(status)
    {
      var before := nValues;
      nValues := nValues - 1;
      if before == 1 {
        if owner == me {
          if status == FINISH {
            assert nreduced == n || n == M1;
            assert nValues == 0 && status == FINISH;
            nreduced := n;
            var _ := DoTryPutValue();
          }
        } else {
          var v := Combine();
          sent := sent + [Packet(me, Parent(me, owner, P), Value(v))];
          status := DONE;
        }
      }
    }

    method DoOnDone(root: nat)
      requires Valid() && root < P
      requires root == me ==> nreduced == n || n == M1
      modifies this
      ensures Is(OnDone(Here(), old(View()), root), old(sent), old(puts))
      ensures root == me && old(status) != CNT_AVAILABLE ==>   // DONE is handled once by the owner
                sent == old(sent) && puts == old(puts) && status == old(status) && nValues == old(nValues)
    {
      owner := root;
      var swapped := false;
      if root == me && status == CNT_AVAILABLE {
        status := BCAST_DONE;
        swapped := true;
      }
      if root != me || swapped {
        nValues := 1000;
        var c := DoBcast(root, Done(root));
        nValues := nValues + c;
        if status == BCAST_DONE { status := FINISH; }
        nValues := nValues - 999;
        ghost var sent1 := sent;
        DoTrySendOrPutValue();
        assert sent == old(sent) + OnDone(Here(), old(View()), root).sent;
      }
    }

    method DoOnBcastCount(cnt: int, root: nat)
      requires Valid() && root < P
      requires cnt != M1 && status == LOCAL
      modifies this
      ensures Is(OnBcastCount(Here(), old(View()), cnt, root), old(sent), old(puts))
    {
      owner := root;
      n := cnt;
      status := CNT_AVAILABLE;
      nCounts := 1;
      var c := DoBcast(root, BcastCount(root, cnt));
      nCounts := nCounts + c;
      nCounts := nCounts - 1;
      if nCounts == 0 && root != me {
        DoSendCount(Parent(me, root, P), true);
      }
    }

    method DoOnGatherCount(cnt: int)
      requires Valid() && 0 <= owner < P && cnt != M1
      requires owner != me ==> nCounts >= 1
      modifies this
      ensures Is(OnGatherCount(Here(), old(View()), cnt), old(sent), old(puts))
    {
      nreduced := nreduced + cnt;
      nCounts := nCounts - 1;
      if nCounts <= 0 {
        if owner == me {
          if n == nreduced { DoOnDone(me); }
        } else {
          assert nCounts == 0;   // extra counts occur only at the root
          DoSendCount(Parent(me, owner, P), true);
        }
      }
    }

    method DoOnValue(tid: nat, v: V)
      requires Valid() && 0 <= owner < P && tid < locals.Length
      requires owner == me && nValues == 1 && status == FINISH ==> nreduced == n || n == M1
      modifies this, locals
      ensures Is(OnValue(Here(), old(View()), tid, v), old(sent), old(puts))
    {
      AddToLocals(tid, v);
      DoTrySendOrPutValue();
    }

    method DoOnItemPut(tid: nat, v: V)
      requires Valid() && tid < locals.Length
      modifies this, locals
      ensures Is(OnItemPut(Here(), old(View()), tid, v), old(sent), old(puts))
      ensures old(status) == LOCAL ==>
                sent == old(sent) && puts == old(puts) && nreduced == old(nreduced) + 1 && status == LOCAL
    {
      AddToLocals(tid, v);
      nreduced := nreduced + 1;
      if status != LOCAL {
        if me == owner {
          if nreduced == n && nCounts <= 0 { DoOnDone(me); }
        } else {
          DoSendCount(owner, false);
        }
      }
    }

    method DoOnCountPut(cnt: int)
      requires Valid() && status == LOCAL
      requires cnt == M1 ==> n == M1
      modifies this
      ensures Is(OnCountPut(Here(), old(View()), cnt), old(sent), old(puts))
    {
      if cnt != M1 {
        n := cnt;
        var done := DoTryPutValue();
        if !done { DoOnBcastCount(cnt, me); }
      } else {
        status := CNT_AVAILABLE;
        nCounts := 0;
        DoOnDone(me);
      }
    }

    method DoRecvMsg(tid: nat, msg: Msg<V>)
      requires Valid() && tid < locals.Length && MsgOk(Here(), View(), msg)
      modifies this, locals
      ensures Is(RecvMsg(Here(), old(View()), tid, msg), old(sent), old(puts))
    {
      match msg {
        case BcastCount(root, cnt) => DoOnBcastCount(cnt, root);
        case GatherCount(cnt) => DoOnGatherCount(cnt);
        case Done(root) => DoOnDone(root);
        case Value(v) => DoOnValue(tid, v);
      }
    }
  }

  lemma {:induction false} TotalSnoc<V(!new)>(o: Operator<V>, xs: seq<Option<V>>, x: Option<V>)
    requires Lawful(o)
    ensures Total(o, xs + [x]) == o.op(Total(o, xs), Slot(o, x))
  {
    var ys := xs + [x];
    if xs == [] {
      assert ys[1..] == [];
      Laws(o, Slot(o, x), o.identity, o.identity);
    } else {
      assert ys[1..] == xs[1..] + [x];
      TotalSnoc(o, xs[1..], x);
      Laws(o, Slot(o, xs[0]), Total(o, xs[1..]), Slot(o, x));
    }
  }
}
