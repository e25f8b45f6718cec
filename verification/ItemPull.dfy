/** How an item gets to the processes that wait for it, when its consumers are not declared: a waiting
    process requests it once, from the declared producer or from everybody; the process that holds
    it delivers it (cnc/internal/item_collection_base.h). One item; handlers are atomic. */
module ItemPull {
  import opened Options
  import opened Sums

  type V(==, !new)

  datatype Message = Request(from: nat, to: nat) | Deliver(to: nat, value: V, owner: nat)

  /** What one process has in its table for the item: the suspend group is empty or not. */
  datatype Slot = Slot(item: Option<V>, owner: int, waiting: bool, subscribers: seq<nat>)

  datatype Effect = Effect(slot: Slot, sent: seq<Message>)

  const NOBODY := Slot(None, -1, false, [])

  /** producer: what the tuner declares (produced_on). */
  datatype Config = Config(P: nat, producer: Option<nat>)

  ghost predicate ValidConfig(c: Config) { c.P >= 1 && (c.producer.Some? ==> c.producer.value < c.P) }

  /** put_request: to the declared producer unless that is me, else to everybody else. */
  function Requests(c: Config, me: nat): seq<Message> {
    match c.producer
    case Some(o) => if o == me then [] else [Request(me, o)]
    case None => Others(me, 0, c.P)
  }

  function Others(me: nat, q: nat, P: nat): seq<Message>
    requires q <= P
    decreases P - q
  {
    if q == P then [] else (if q == me then [] else [Request(me, q)]) + Others(me, q + 1, P)
  }

  /** A get that finds no item: wait_for_put. Only the first one sends requests. */
  function Get(c: Config, me: nat, slot: Slot): Effect {
    if slot.item.Some? then Effect(slot, [])
    else Effect(slot.(waiting := true), if slot.waiting then [] else Requests(c, me))
  }

  function Deliveries(to: seq<nat>, v: V, me: nat): seq<Message> {
    if to == [] then [] else [Deliver(to[0], v, me)] + Deliveries(to[1..], v, me)
  }

  /** put_or_delete: the waiting steps are resumed, and an owner serves its subscribers. */
  function PutItem(me: nat, slot: Slot, v: V, owner: nat): Effect {
    if slot.item.Some? then Effect(slot, [])
    else Effect(Slot(Some(v), owner, false, []), if owner == me then Deliveries(slot.subscribers, v, me) else [])
  }

  /** get_request */
  function GetRequest(me: nat, slot: Slot, from: nat): Effect {
    match slot.item
    case None => Effect(slot.(subscribers := slot.subscribers + [from]), [])
    case Some(v) => Effect(slot, if slot.owner == me then [Deliver(from, v, me)] else [])
  }

  /** value: what was put, and where; None before. */
  datatype State = State(slots: seq<Slot>, net: seq<Message>, value: Option<V>, source: nat)

  datatype Event = DoGet(p: nat) | DoPut(p: nat, v: V) | Receive(i: nat)

  function Init(c: Config): State { State(seq(c.P, p => NOBODY), [], None, 0) }

  function Target(m: Message): nat { m.to }

  ghost predicate Enabled(c: Config, s: State, e: Event) {
    && |s.slots| == c.P
    && match e
       case DoGet(p) => p < c.P
       case DoPut(p, v) =>
         && p < c.P
         && if s.value.Some? then p == s.source && Some(v) == s.value
            else c.producer.Some? ==> c.producer.value == p
       case Receive(i) => i < |s.net| && Target(s.net[i]) < c.P
  }

  function Land(s: State, p: nat, e: Effect): State
    requires p < |s.slots|
  {
    s.(slots := s.slots[p := e.slot], net := s.net + e.sent)
  }

  function Apply(c: Config, s: State, e: Event): State
    requires Enabled(c, s, e)
  {
    match e
    case DoGet(p) => Land(s, p, Get(c, p, s.slots[p]))
    case DoPut(p, v) =>
      Land(s, p, PutItem(p, s.slots[p], v, p)).(value := Some(v), source := p)
    case Receive(i) =>
      var s1 := s.(net := s.net[..i] + s.net[i + 1..]);
      match s.net[i]
      case Request(from, to) => Land(s1, to, GetRequest(to, s.slots[to], from))
      case Deliver(to, v, owner) =>
        Land(s1, to, PutItem(to, s.slots[to], v, owner))
  }

  /*** the handlers as code ***/

  class ItemEntry {
    const me: nat
    const config: Config
    var item: Option<V>
    var owner: int
    var waiting: bool
    var subscribers: seq<nat>
    var sent: seq<Message>

    ghost function View(): Slot
      reads this
    {
      Slot(item, owner, waiting, subscribers)
    }

    ghost predicate Is(e: Effect, sent0: seq<Message>)
      reads this
    {
      View() == e.slot && sent == sent0 + e.sent
    }

    constructor (me: nat, config: Config)
      ensures View() == NOBODY && sent == [] && this.me == me && this.config == config
    {
      this.me, this.config := me, config;
      item, owner, waiting, subscribers, sent := None, -1, false, [], [];
    }

    method PutRequest()
      requires config.P >= 1
      modifies this`sent
      ensures sent == old(sent) + Requests(config, me)
    {
      match config.producer {
        case Some(o) => if o != me { sent := sent + [Request(me, o)]; }
        case None =>
          var q := 0;
          ghost var sent0 := sent;
          while q < config.P
            invariant 0 <= q <= config.P
            invariant sent + Others(me, q, config.P) == sent0 + Others(me, 0, config.P)
          {
            if q != me { sent := sent + [Request(me, q)]; }
            q := q + 1;
          }
      }
    }

    method WaitForPut() returns (value: Option<V>)
      requires config.P >= 1
      modifies this
      ensures value == old(item) && Is(Get(config, me, old(View())), old(sent))
      ensures item == old(item) && owner == old(owner) && subscribers == old(subscribers)
      ensures waiting <==> old(waiting) || old(item).None?
    {
      if item.None? {
        if !waiting { PutRequest(); }
        waiting := true;
      }
      value := item;
    }

    method PutOrDelete(v: V, from: nat) returns (stored: bool)
      modifies this
      ensures (stored <==> old(item).None?) && Is(PutItem(me, old(View()), v, from), old(sent))
      ensures old(item).Some? ==>
                item == old(item) && owner == old(owner) && waiting == old(waiting) &&
                subscribers == old(subscribers) && sent == old(sent)
      ensures old(item).None? ==> item == Some(v) && owner == from && !waiting && subscribers == []
    {
      stored := item.None?;
      if stored {
        item, owner, waiting := Some(v), from, false;
        if owner == me {
          var k := 0;
          ghost var sent0 := sent;
          while k < |subscribers|
            invariant 0 <= k <= |subscribers| && item == Some(v) && owner == from && !waiting
            invariant subscribers == old(subscribers)
            invariant sent + Deliveries(subscribers[k..], v, me) == sent0 + Deliveries(subscribers, v, me)
          {
            sent := sent + [Deliver(subscribers[k], v, me)];
            k := k + 1;
          }
        }
        subscribers := [];
      }
    }

    method HandleRequest(from: nat)
      modifies this
      ensures Is(GetRequest(me, old(View()), from), old(sent))
    {
      if item.None? {
        subscribers := subscribers + [from];
      } else if owner == me {
        sent := sent + [Deliver(from, item.value, me)];
      }
    }
  }

  /*** counting ***/

  function IsRequest(p: nat, q: nat): Message -> int { (m: Message) => if m == Request(p, q) then 1 else 0 }
  function IsDelivery(p: nat): Message -> int { (m: Message) => if m.Deliver? && m.to == p then 1 else 0 }
  function Same(p: nat): nat -> int { (q: nat) => if q == p then 1 else 0 }

  /** Requests of p to q in flight, and subscriptions of p at q. */
  ghost function Asked(s: State, p: nat, q: nat): int
    requires q < |s.slots|
  {
    Sum(s.net, IsRequest(p, q)) + Sum(s.slots[q].subscribers, Same(p))
  }

  ghost function Incoming(s: State, p: nat): int { Sum(s.net, IsDelivery(p)) }

  /** p sends its requests to q. */
  predicate Asks(c: Config, p: nat, q: nat) {
    p != q && (c.producer.Some? ==> c.producer.value == q)
  }

  function One(b: bool): int { if b then 1 else 0 }

  ghost predicate MessageOk(c: Config, s: State, m: Message) {
    match m
    case Request(from, to) => from < c.P && to < c.P && Asks(c, from, to)
    case Deliver(to, v, owner) => to < c.P && s.value == Some(v) && owner == s.source && to != s.source
  }

  ghost predicate SlotOk(c: Config, s: State, p: nat)
    requires |s.slots| == c.P && p < c.P
  {
    var slot := s.slots[p];
    && (slot.item.Some? ==> s.value == slot.item && slot.owner == s.source && !slot.waiting)
    && (s.value.Some? && p == s.source ==> slot.item.Some? && slot.subscribers == [])
    && (forall k :: 0 <= k < |slot.subscribers| ==> slot.subscribers[k] < c.P && slot.subscribers[k] != p)
  }

  /** Before the put, a waiting process has, with each process it asked, exactly one request in flight or
      one subscription; after it, exactly one request in flight to the source or one delivery in
      flight from it. */
  ghost predicate PairOk(c: Config, s: State, p: nat, q: nat)
    requires |s.slots| == c.P && p < c.P && q < c.P
  {
    if s.value.None? then
      Asked(s, p, q) == One(s.slots[p].waiting && Asks(c, p, q)) && Incoming(s, p) == 0
    else
      q == s.source ==> Asked(s, p, q) + Incoming(s, p) == One(s.slots[p].waiting)
  }

  ghost predicate Inv(c: Config, s: State) {
    && ValidConfig(c) && |s.slots| == c.P
    && (s.value.Some? ==> s.source < c.P && (c.producer.Some? ==> c.producer.value == s.source))
    && (forall i :: 0 <= i < |s.net| ==> MessageOk(c, s, s.net[i]))
    && (forall p :: 0 <= p < c.P ==> SlotOk(c, s, p))
    && (forall p, q :: 0 <= p < c.P && 0 <= q < c.P ==> PairOk(c, s, p, q))
  }

  /*** sums over what is sent ***/

  lemma NonNegative(s: State, p: nat, q: nat)
    requires q < |s.slots|
    ensures Sum(s.net, IsRequest(p, q)) >= 0 && Sum(s.slots[q].subscribers, Same(p)) >= 0 && Incoming(s, p) >= 0
  {
    SumNonNegative(s.net, IsRequest(p, q));
    SumNonNegative(s.slots[q].subscribers, Same(p));
    SumNonNegative(s.net, IsDelivery(p));
  }

  lemma {:induction false} OthersSums(me: nat, r: nat, P: nat, p: nat, q: nat)
    requires r <= P && q < P
    ensures Sum(Others(me, r, P), IsRequest(p, q)) == One(p == me && q >= r && q != me)
    ensures Sum(Others(me, r, P), IsDelivery(p)) == 0
    ensures forall k :: 0 <= k < |Others(me, r, P)| ==>
              var m := Others(me, r, P)[k]; m.Request? && m.from == me && m.to < P && m.to != me
    decreases P - r
  {
    if r < P {
      OthersSums(me, r + 1, P, p, q);
      if r != me {
        SumAppend([Request(me, r)], Others(me, r + 1, P), IsRequest(p, q));
        SumAppend([Request(me, r)], Others(me, r + 1, P), IsDelivery(p));
        SumOne(Request(me, r), IsRequest(p, q));
        SumOne(Request(me, r), IsDelivery(p));
      } else {
        assert [] + Others(me, r + 1, P) == Others(me, r + 1, P);
      }
    }
  }

  lemma RequestSums(c: Config, me: nat, p: nat, q: nat)
    requires ValidConfig(c) && me < c.P && p < c.P && q < c.P
    ensures Sum(Requests(c, me), IsRequest(p, q)) == One(p == me && Asks(c, p, q))
    ensures Sum(Requests(c, me), IsDelivery(p)) == 0
    ensures forall k :: 0 <= k < |Requests(c, me)| ==>
              var m := Requests(c, me)[k]; m.Request? && m.from == me && m.to < c.P && Asks(c, me, m.to)
  {
    match c.producer {
      case None => OthersSums(me, 0, c.P, p, q);
      case Some(o) =>
        if o != me {
          SumOne(Request(me, o), IsRequest(p, q));
          SumOne(Request(me, o), IsDelivery(p));
        }
    }
  }

  lemma {:induction false} DeliverySums(to: seq<nat>, v: V, me: nat, p: nat, q: nat)
    ensures Sum(Deliveries(to, v, me), IsRequest(p, q)) == 0
    ensures Sum(Deliveries(to, v, me), IsDelivery(p)) == Sum(to, Same(p))
    ensures |Deliveries(to, v, me)| == |to|
    ensures forall k :: 0 <= k < |to| ==> Deliveries(to, v, me)[k] == Deliver(to[k], v, me)
  {
    if to != [] {
      DeliverySums(to[1..], v, me, p, q);
      var d := Deliver(to[0], v, me);
      SumAppend([d], Deliveries(to[1..], v, me), IsRequest(p, q));
      SumAppend([d], Deliveries(to[1..], v, me), IsDelivery(p));
      SumOne(d, IsRequest(p, q));
      SumOne(d, IsDelivery(p));
    }
  }

  lemma SentSums(net: seq<Message>, sent: seq<Message>, p: nat, q: nat)
    ensures Sum(net + sent, IsRequest(p, q)) == Sum(net, IsRequest(p, q)) + Sum(sent, IsRequest(p, q))
    ensures Sum(net + sent, IsDelivery(p)) == Sum(net, IsDelivery(p)) + Sum(sent, IsDelivery(p))
  {
    SumAppend(net, sent, IsRequest(p, q));
    SumAppend(net, sent, IsDelivery(p));
  }

  /*** steps ***/

  lemma GetKeeps(c: Config, s: State, p: nat)
    requires Inv(c, s) && Enabled(c, s, DoGet(p))
    ensures Inv(c, Apply(c, s, DoGet(p)))
  {
    var e, s' := Get(c, p, s.slots[p]), Apply(c, s, DoGet(p));
    if s.value.Some? { assert SlotOk(c, s, s.source); }
    forall a, b | 0 <= a < c.P && 0 <= b < c.P ensures PairOk(c, s', a, b) {
      assert PairOk(c, s, a, b);
      RequestSums(c, p, a, b);
      SentSums(s.net, e.sent, a, b);
    }
    forall a | 0 <= a < c.P ensures SlotOk(c, s', a) { assert SlotOk(c, s, a); }
    forall i | 0 <= i < |s'.net| ensures MessageOk(c, s', s'.net[i]) {
      RequestSums(c, p, p, p);
      if i < |s.net| { assert MessageOk(c, s, s.net[i]); }
    }
  }

  lemma PutKeeps(c: Config, s: State, p: nat, v: V)
    requires Inv(c, s) && Enabled(c, s, DoPut(p, v))
    ensures Inv(c, Apply(c, s, DoPut(p, v)))
  {
    assert SlotOk(c, s, p);
    if s.value.Some? {
      ReplayedPut(c, s, p, v);
    } else {
      FirstPutKeeps(c, s, p, v);
    }
  }

  /** A step that put the item and is run again puts it again: that changes nothing. */
  lemma ReplayedPut(c: Config, s: State, p: nat, v: V)
    requires Inv(c, s) && Enabled(c, s, DoPut(p, v)) && s.value.Some?
    ensures Apply(c, s, DoPut(p, v)) == s
  {
    assert SlotOk(c, s, p);
    assert s.slots[p := s.slots[p]] == s.slots && s.net + [] == s.net;
  }

  lemma FirstPutKeeps(c: Config, s: State, p: nat, v: V)
    requires Inv(c, s) && Enabled(c, s, DoPut(p, v)) && s.value.None?
    ensures Inv(c, Apply(c, s, DoPut(p, v)))
  {
    var subs, s' := s.slots[p].subscribers, Apply(c, s, DoPut(p, v));
    assert SlotOk(c, s, p);
    DeliverySums(subs, v, p, p, p);
    forall a, b | 0 <= a < c.P && 0 <= b < c.P ensures PairOk(c, s', a, b) {
      assert PairOk(c, s, a, b);
      DeliverySums(subs, v, p, a, b);
      SentSums(s.net, Deliveries(subs, v, p), a, b);
      NonNegative(s, a, b);
    }
    forall a | 0 <= a < c.P ensures SlotOk(c, s', a) { assert SlotOk(c, s, a); }
    forall i | 0 <= i < |s'.net| ensures MessageOk(c, s', s'.net[i]) {
      if i < |s.net| {
        assert MessageOk(c, s, s.net[i]);
      } else {
        assert s'.net[i] == Deliver(subs[i - |s.net|], v, p);
      }
    }
  }

  lemma RequestPair(c: Config, s: State, i: nat, a: nat, b: nat)
    requires Inv(c, s) && Enabled(c, s, Receive(i)) && s.net[i].Request? && a < c.P && b < c.P
    ensures |Apply(c, s, Receive(i)).slots| == c.P && PairOk(c, Apply(c, s, Receive(i)), a, b)
  {
    var s', from, to := Apply(c, s, Receive(i)), s.net[i].from, s.net[i].to;
    var e, rest := GetRequest(to, s.slots[to], from), s.net[..i] + s.net[i + 1..];
    assert MessageOk(c, s, s.net[i]) && SlotOk(c, s, to) && PairOk(c, s, a, b);
    hide MessageOk, SlotOk;
    SumRemove(s.net, i, IsRequest(a, b));
    SumRemove(s.net, i, IsDelivery(a));
    SentSums(rest, e.sent, a, b);
    if e.sent != [] {
      SumOne(e.sent[0], IsRequest(a, b));
      SumOne(e.sent[0], IsDelivery(a));
    }
    SumAppend(s.slots[to].subscribers, [from], Same(a));
    SumOne(from, Same(a));
  }

  lemma RequestKeeps(c: Config, s: State, i: nat)
    requires Inv(c, s) && Enabled(c, s, Receive(i)) && s.net[i].Request?
    ensures Inv(c, Apply(c, s, Receive(i)))
  {
    hide PairOk;
    var s', from, to := Apply(c, s, Receive(i)), s.net[i].from, s.net[i].to;
    var e, rest := GetRequest(to, s.slots[to], from), s.net[..i] + s.net[i + 1..];
    assert MessageOk(c, s, s.net[i]) && SlotOk(c, s, to);
    forall a, b | 0 <= a < c.P && 0 <= b < c.P ensures PairOk(c, s', a, b) { RequestPair(c, s, i, a, b); }
    forall a | 0 <= a < c.P ensures SlotOk(c, s', a) { assert SlotOk(c, s, a); }
    forall k | 0 <= k < |s'.net| ensures MessageOk(c, s', s'.net[k]) {
      if k < |rest| { assert MessageOk(c, s, s.net[if k < i then k else k + 1]); }
    }
  }

  lemma DeliverKeeps(c: Config, s: State, i: nat)
    requires Inv(c, s) && Enabled(c, s, Receive(i)) && s.net[i].Deliver?
    ensures Inv(c, Apply(c, s, Receive(i)))
  {
    var s', to := Apply(c, s, Receive(i)), s.net[i].to;
    var rest := s.net[..i] + s.net[i + 1..];
    assert MessageOk(c, s, s.net[i]) && SlotOk(c, s, to);
    assert PairOk(c, s, to, s.source);
    NonNegative(s, to, s.source);
    SumNonNegative(s.net, IsDelivery(to));
    assert IsDelivery(to)(s.net[i]) == 1;
    forall a, b | 0 <= a < c.P && 0 <= b < c.P ensures PairOk(c, s', a, b) {
      assert PairOk(c, s, a, b);
      SumRemove(s.net, i, IsRequest(a, b));
      SumRemove(s.net, i, IsDelivery(a));
      assert s'.net == rest + [];
      assert rest + [] == rest;
      NonNegative(s, a, b);
      NonNegative(s', a, b);
    }
    forall a | 0 <= a < c.P ensures SlotOk(c, s', a) { assert SlotOk(c, s, a); }
    forall k | 0 <= k < |s'.net| ensures MessageOk(c, s', s'.net[k]) {
      assert MessageOk(c, s, s.net[if k < i then k else k + 1]);
    }
  }

  lemma InitInv(c: Config)
    requires ValidConfig(c)
    ensures Inv(c, Init(c))
  {
  }

  ghost predicate Run(c: Config, ss: seq<State>, es: seq<Event>) {
    && ValidConfig(c) && |ss| == |es| + 1 && ss[0] == Init(c)
    && forall i :: 0 <= i < |es| ==> Enabled(c, ss[i], es[i]) && ss[i + 1] == Apply(c, ss[i], es[i])
  }

  lemma {:induction false} RunInv(c: Config, ss: seq<State>, es: seq<Event>, i: nat)
    requires Run(c, ss, es) && i < |ss|
    ensures Inv(c, ss[i])
  {
    hide Inv, Apply;
    if i == 0 {
      InitInv(c);
    } else {
      RunInv(c, ss, es, i - 1);
      var s, e := ss[i - 1], es[i - 1];
      assert Enabled(c, s, e);
      match e {
        case DoGet(p) => GetKeeps(c, s, p);
        case DoPut(p, v) => PutKeeps(c, s, p, v);
        case Receive(k) => if s.net[k].Request? { RequestKeeps(c, s, k); } else { DeliverKeeps(c, s, k); }
      }
    }
  }

  /*** theorems ***/

  /** All copies are the producer's item. */
  lemma CopiesAgree(c: Config, ss: seq<State>, es: seq<Event>, i: nat, p: nat)
    requires Run(c, ss, es) && i < |ss| && p < c.P
    ensures |ss[i].slots| == c.P
    ensures ss[i].slots[p].item.Some? ==> ss[i].slots[p].item == ss[i].value
  {
    RunInv(c, ss, es, i);
    assert SlotOk(c, ss[i], p);
  }

  /** The item is delivered only to processes that do not have it. */
  lemma DeliveredOnce(c: Config, ss: seq<State>, es: seq<Event>, i: nat, k: nat)
    requires Run(c, ss, es) && i < |es| && es[i] == Receive(k) && k < |ss[i].net| && ss[i].net[k].Deliver?
    ensures var to := ss[i].net[k].to; to < |ss[i].slots| && ss[i].slots[to].item.None? && ss[i].slots[to].waiting
  {
    RunInv(c, ss, es, i);
    var s, to := ss[i], ss[i].net[k].to;
    assert MessageOk(c, s, s.net[k]) && SlotOk(c, s, to) && PairOk(c, s, to, s.source);
    NonNegative(s, to, s.source);
    SumNonNegative(s.net, IsDelivery(to));
    assert IsDelivery(to)(s.net[k]) == 1;
  }

  /** Once the item is put, a process waits for it if and only if exactly one message about it is
      under way: its request to the source or the delivery to it. */
  lemma WaiterHasOneMessage(c: Config, ss: seq<State>, es: seq<Event>, i: nat, p: nat)
    requires Run(c, ss, es) && i < |ss| && p < c.P && ss[i].value.Some?
    ensures |ss[i].slots| == c.P && ss[i].source < c.P
    ensures Sum(ss[i].net, IsRequest(p, ss[i].source)) + Incoming(ss[i], p) == One(ss[i].slots[p].waiting)
  {
    RunInv(c, ss, es, i);
    assert SlotOk(c, ss[i], ss[i].source);
    assert PairOk(c, ss[i], p, ss[i].source);
  }

  /** With the item put and no message in flight nobody waits. */
  lemma NobodyWaits(c: Config, ss: seq<State>, es: seq<Event>, i: nat, p: nat)
    requires Run(c, ss, es) && i < |ss| && p < c.P && ss[i].value.Some? && ss[i].net == []
    ensures |ss[i].slots| == c.P && !ss[i].slots[p].waiting
  {
    WaiterHasOneMessage(c, ss, es, i, p);
  }

  /*** every get is served ***/

  /** A process that wants the item has it or waits for it. */
  ghost predicate Wants(s: State, p: nat) { p < |s.slots| && (s.slots[p].item.Some? || s.slots[p].waiting) }

  lemma WantsKept(c: Config, s: State, e: Event, p: nat)
    requires Inv(c, s) && Enabled(c, s, e) && (Wants(s, p) || e == DoGet(p))
    ensures Wants(Apply(c, s, e), p)
  {
    assert e.Receive? ==> MessageOk(c, s, s.net[e.i]);
    hide PairOk;
  }

  lemma {:induction false} Wanted(c: Config, ss: seq<State>, es: seq<Event>, i: nat, p: nat, j: nat)
    requires Run(c, ss, es) && j < i < |ss| && es[j] == DoGet(p)
    ensures Wants(ss[i], p)
    decreases i
  {
    hide Inv, Apply, Wants;
    var s, e := ss[i - 1], es[i - 1];
    RunInv(c, ss, es, i - 1);
    assert Enabled(c, s, e);
    if j < i - 1 { Wanted(c, ss, es, i - 1, p, j); }
    WantsKept(c, s, e, p);
  }

  /** With the item put and no message in flight, every process that has asked for it has it, with the value that
      was put, however the gets, the put and the messages interleaved. */
  lemma EveryGetServed(c: Config, ss: seq<State>, es: seq<Event>, i: nat, p: nat, j: nat)
    requires Run(c, ss, es) && j < i < |ss| && es[j] == DoGet(p) && ss[i].value.Some? && ss[i].net == []
    ensures p < |ss[i].slots| && ss[i].slots[p].item == ss[i].value
  {
    assert Enabled(c, ss[j], es[j]);
    Wanted(c, ss, es, i, p, j);
    NobodyWaits(c, ss, es, i, p);
    CopiesAgree(c, ss, es, i, p);
  }

  /*** progress ***/

  function Weight(): Message -> int { (m: Message) => if m.Request? then 2 else 1 }
  function Subscribers(): Slot -> int { (slot: Slot) => |slot.subscribers| }

  /** What is still to be done about the messages in flight and the subscriptions. */
  ghost function Load(s: State): int { Sum(s.net, Weight()) + Sum(s.slots, Subscribers()) }

  /** Each receipt lowers the load, and a put does not raise it: the messages run out. */
  lemma ReceiptsLower(c: Config, s: State, e: Event)
    requires Inv(c, s) && Enabled(c, s, e)
    ensures Load(s) >= 0
    ensures e.Receive? ==> Load(Apply(c, s, e)) < Load(s)
    ensures e.DoPut? ==> Load(Apply(c, s, e)) <= Load(s)
  {
    hide PairOk, SlotOk;
    SumNonNegative(s.net, Weight());
    SumNonNegative(s.slots, Subscribers());
    match e {
      case Receive(i) =>
        assert MessageOk(c, s, s.net[i]);
        SumRemove(s.net, i, Weight());
        var rest, to := s.net[..i] + s.net[i + 1..], s.net[i].to;
        var effect := if s.net[i].Request? then GetRequest(to, s.slots[to], s.net[i].from)
                      else PutItem(to, s.slots[to], s.net[i].value, s.net[i].owner);
        EffectLoad(c, s, to, effect, rest);
      case DoPut(p, v) =>
        EffectLoad(c, s, p, PutItem(p, s.slots[p], v, p), s.net);
        DeliveryLoad(s.slots[p].subscribers, v, p);
      case DoGet(_) =>
    }
  }

  lemma EffectLoad(c: Config, s: State, p: nat, e: Effect, rest: seq<Message>)
    requires p < |s.slots|
    ensures Sum(rest + e.sent, Weight()) == Sum(rest, Weight()) + Sum(e.sent, Weight())
    ensures Sum(s.slots[p := e.slot], Subscribers()) ==
            Sum(s.slots, Subscribers()) - |s.slots[p].subscribers| + |e.slot.subscribers|
    ensures |e.sent| == 1 ==> Sum(e.sent, Weight()) == Weight()(e.sent[0])
  {
    SumAppend(rest, e.sent, Weight());
    SumUpdate(s.slots, p, e.slot, Subscribers());
    if |e.sent| == 1 { SumOne(e.sent[0], Weight()); assert e.sent == [e.sent[0]]; }
  }

  lemma {:induction false} DeliveryLoad(to: seq<nat>, v: V, me: nat)
    ensures Sum(Deliveries(to, v, me), Weight()) == |to|
  {
    if to != [] {
      DeliveryLoad(to[1..], v, me);
      SumAppend([Deliver(to[0], v, me)], Deliveries(to[1..], v, me), Weight());
      SumOne(Deliver(to[0], v, me), Weight());
    }
  }
}
