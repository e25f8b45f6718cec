/** The distributed reduction protocol for one reduction id: P processes that run the handlers of
    ReduceNode, and messages in flight between them (cnc/reduce.h). A step is one callback or one
    received message. Messages between the same two processes do not overtake each other. */
module ReduceProtocol {
  import opened Sums
  import opened Monoids
  import opened ReduceTree
  import opened ReduceNode

  /** `total` is the number of selected items the whole program puts. */
  datatype Config<!V> = Config(P: nat, threads: nat, o: Operator<V>, total: nat)

  ghost predicate ValidConfig<V(!new)>(c: Config<V>) {
    c.P >= 1 && c.threads >= 1 && Lawful(c.o)
  }

  function SiteOf<V>(c: Config<V>, p: nat): Site<V> { Site(p, c.P, c.o) }

  /** items: (process, value) pairs put so far; counter: where the count was put, or -1;
      exact: a count was put, not the done-flag; outs: (process, value) pairs put into the output
      collection; failed: some assertion in a handler was violated. */
  datatype State<V> = State(nodes: seq<Node<V>>, net: seq<Packet<V>>, items: seq<(nat, V)>,
                            counter: int, exact: bool, outs: seq<(nat, V)>, failed: bool)

  datatype Event<V> =
    | PutItem(p: nat, tid: nat, v: V)
    | PutCount(p: nat)
    | PutFlag(p: nat)
    | Deliver(i: nat, tid: nat)

  ghost function Init<V>(c: Config<V>): State<V> {
    State(seq(c.P, i => Fresh(c.threads)), [], [], -1, true, [], false)
  }

  /** The count is put once and is the true number of items; the done-flag is put after all items. */
  ghost predicate Enabled<V>(c: Config<V>, s: State<V>, e: Event<V>) {
    match e
    case PutItem(p, tid, v) => p < c.P && tid < c.threads && |s.items| < c.total
    case PutCount(p) => p < c.P && s.counter == -1
    case PutFlag(p) => p < c.P && s.counter == -1 && |s.items| == c.total
    case Deliver(i, tid) =>
      && i < |s.net| && tid < c.threads
      && forall j :: 0 <= j < i ==> s.net[j].src != s.net[i].src || s.net[j].dst != s.net[i].dst
  }

  function Tagged<V>(p: nat, vs: seq<V>): seq<(nat, V)> {
    seq(|vs|, i requires 0 <= i < |vs| => (p, vs[i]))
  }

  ghost function Land<V>(s: State<V>, p: nat, e: Effect<V>): State<V>
    requires p < |s.nodes|
  {
    s.(nodes := s.nodes[p := e.node], net := s.net + e.sent, outs := s.outs + Tagged(p, e.puts))
  }

  ghost function Apply<V>(c: Config<V>, s: State<V>, e: Event<V>): State<V>
    requires Enabled(c, s, e)
  {
    match e
    case PutItem(p, tid, v) =>
      if |s.nodes| == c.P && tid < |s.nodes[p].locals| then
        Land(s, p, OnItemPut(SiteOf(c, p), s.nodes[p], tid, v)).(items := s.items + [(p, v)])
      else s.(failed := true)
    case PutCount(p) =>
      if |s.nodes| == c.P && s.nodes[p].status == LOCAL then
        Land(s, p, OnCountPut(SiteOf(c, p), s.nodes[p], c.total)).(counter := p, exact := true)
      else s.(failed := true)
    case PutFlag(p) =>
      if |s.nodes| == c.P && s.nodes[p].status == LOCAL && s.nodes[p].n == M1 then
        Land(s, p, OnCountPut(SiteOf(c, p), s.nodes[p], M1)).(counter := p, exact := false)
      else s.(failed := true)
    case Deliver(i, tid) =>
      var pk := s.net[i];
      if |s.nodes| == c.P && pk.dst < c.P && tid < |s.nodes[pk.dst].locals| &&
         MsgOk(SiteOf(c, pk.dst), s.nodes[pk.dst], pk.msg) then
        Land(s.(net := s.net[..i] + s.net[i + 1..]), pk.dst,
             RecvMsg(SiteOf(c, pk.dst), s.nodes[pk.dst], tid, pk.msg))
      else s.(failed := true)
  }

  /*** counting ***/

  datatype Kind = KBcast | KGather | KDone | KValue

  function KindOf<V>(m: Msg<V>): Kind {
    match m
    case BcastCount(_, _) => KBcast
    case GatherCount(_) => KGather
    case Done(_) => KDone
    case Value(_) => KValue
  }

  ghost function Hits<V>(k: Kind, q: nat): Packet<V> -> int {
    (pk: Packet<V>) => if KindOf(pk.msg) == k && pk.dst == q then 1 else 0
  }

  /** Messages of kind k in flight to q. */
  ghost function Count<V>(net: seq<Packet<V>>, k: Kind, q: nat): int {
    Sum(net, Hits(k, q))
  }

  ghost function Carried<V>(): Packet<V> -> int {
    (pk: Packet<V>) => if pk.msg.GatherCount? then pk.msg.gathered else 0
  }

  ghost function Counted<V>(): Node<V> -> int { (nd: Node<V>) => nd.nreduced }

  /** The sum of f over the nodes listed in ks. */
  ghost function KSum<V>(nodes: seq<Node<V>>, ks: seq<nat>, f: Node<V> -> int): int
    requires forall i :: 0 <= i < |ks| ==> ks[i] < |nodes|
  {
    if ks == [] then 0 else f(nodes[ks[0]]) + KSum(nodes, ks[1..], f)
  }

  ghost function KidSum<V>(c: Config<V>, nodes: seq<Node<V>>, q: nat, root: nat, f: Node<V> -> int): int
    requires q < c.P && root < c.P && |nodes| == c.P
  {
    KidsInTree(q, root, c.P);
    KSum(nodes, Kids(q, root, c.P), f)
  }

  /** A node that still owes its parent the regular gather message. */
  ghost function Unsent<V>(): Node<V> -> int {
    (nd: Node<V>) => if nd.n == M1 || nd.nCounts > 0 then 1 else 0
  }

  /** A node that still owes its parent its value. */
  ghost function NotDone<V>(): Node<V> -> int {
    (nd: Node<V>) => if nd.status == DONE then 0 else 1
  }

  /*** value contributions ***/

  ghost function Contribution<V>(o: Operator<V>): Node<V> -> V {
    (nd: Node<V>) => if nd.status == DONE then o.identity else Total(o, nd.locals)
  }

  ghost function PacketValue<V>(o: Operator<V>): Packet<V> -> V {
    (pk: Packet<V>) => if pk.msg.Value? then pk.msg.val else o.identity
  }

  ghost function Snd<V>(): ((nat, V)) -> V { (x: (nat, V)) => x.1 }

  /** A node that combined an empty container. */
  ghost function Defaulted<V>(): Node<V> -> int {
    (nd: Node<V>) => if nd.status == DONE && Empty(nd.locals) then 1 else 0
  }

  /*** the invariant ***/

  ghost predicate Pristine<V>(nd: Node<V>) {
    nd.n == M1 && nd.nCounts == -1 && nd.nValues == -1 && nd.owner == -1 && nd.status == LOCAL
  }

  ghost predicate Typed<V>(c: Config<V>, s: State<V>) {
    && |s.nodes| == c.P
    && (forall q :: 0 <= q < c.P ==> |s.nodes[q].locals| == c.threads)
    && |s.items| <= c.total
    && (s.counter == -1 || s.exact ==> forall q :: 0 <= q < c.P ==> s.nodes[q].nreduced >= 0)
    && -1 <= s.counter < c.P
  }

  ghost predicate Before<V>(c: Config<V>, s: State<V>)
    requires Typed(c, s)
  {
    && s.net == [] && s.outs == []
    && (forall q :: 0 <= q < c.P ==> Pristine(s.nodes[q]) && (s.nodes[q].nreduced == 0 <==> Empty(s.nodes[q].locals)))
    && Sum(s.nodes, Counted()) == |s.items|
  }

  /** All items were put at the process that put the count, before the count. */
  ghost predicate LocalDone<V>(c: Config<V>, s: State<V>)
    requires Typed(c, s) && s.counter >= 0
  {
    var nd := s.nodes[s.counter];
    && s.exact && s.net == [] && |s.outs| == 1 && s.outs[0].0 == s.counter
    && nd.status == DONE && nd.n == c.total && nd.nCounts == -1 && nd.nValues == -1 && nd.owner == -1
    && (forall q :: 0 <= q < c.P && q != s.counter ==> Pristine(s.nodes[q]) && Empty(s.nodes[q].locals))
    && |s.items| == c.total && (c.total == 0 <==> Empty(nd.locals))
  }

  ghost predicate NodeShape<V>(c: Config<V>, s: State<V>, q: nat)
    requires Typed(c, s) && s.counter >= 0 && q < c.P
  {
    var nd := s.nodes[q];
    && nd.nValues <= |Kids(q, s.counter, c.P)|
    && if q == s.counter then
      && nd.owner == s.counter
      && (if s.exact then nd.n == c.total else nd.n == M1)
      && (nd.status == CNT_AVAILABLE || nd.status == FINISH || nd.status == DONE)
      && (nd.status == CNT_AVAILABLE <==> nd.nValues == -1)
      && (nd.status == FINISH <==> nd.nValues >= 1)
      && (nd.status == DONE <==> nd.nValues == 0)
      && (s.exact && nd.status != CNT_AVAILABLE ==> nd.nreduced == c.total)
    else
      || Pristine(nd)
      || (&& nd.owner == s.counter && nd.nValues >= -1
          && (nd.status == DONE <==> nd.nValues == 0)
          && if s.exact then
               && nd.n == c.total && nd.nCounts >= 0
               && (nd.status == CNT_AVAILABLE || nd.status == DONE)
               && (nd.nCounts == 0 ==> nd.nreduced == 0)
             else
               && nd.n == M1 && nd.nCounts == -1
               && (nd.status == LOCAL || nd.status == DONE) && nd.nValues >= 0)
  }

  ghost predicate PacketOk<V>(c: Config<V>, s: State<V>, pk: Packet<V>)
    requires s.counter >= 0
  {
    && pk.src < c.P && pk.dst < c.P && s.counter < c.P
    && match pk.msg
       case BcastCount(owner, cnt) =>
         s.exact && owner == s.counter && cnt == c.total && pk.dst != owner && pk.src == Parent(pk.dst, owner, c.P)
       case GatherCount(cnt) =>
         s.exact && cnt >= 0 && pk.src != s.counter
       case Done(owner) =>
         owner == s.counter && pk.dst != owner && pk.src == Parent(pk.dst, owner, c.P)
       case Value(v) =>
         pk.src != s.counter && pk.dst == Parent(pk.src, s.counter, c.P)
  }

  ghost predicate BcastOk<V>(c: Config<V>, s: State<V>, q: nat)
    requires Typed(c, s) && s.counter >= 0 && q < c.P
  {
    if q == s.counter then Count(s.net, KBcast, q) == 0
    else
      TreeRanks(q, s.counter, c.P);
      var up := s.nodes[Parent(q, s.counter, c.P)].n != M1;
      && Count(s.net, KBcast, q) == (if s.nodes[q].n == M1 && up then 1 else 0)
      && (s.nodes[q].n != M1 ==> up)
  }

  ghost predicate GatherOk<V>(c: Config<V>, s: State<V>, q: nat)
    requires Typed(c, s) && s.counter >= 0 && q < c.P
  {
    var due := KidSum(c, s.nodes, q, s.counter, Unsent()) + Count(s.net, KGather, q);
    if !s.exact || s.nodes[q].n == M1 then Count(s.net, KGather, q) == 0
    else if q == s.counter then s.nodes[q].nCounts <= due
    else s.nodes[q].nCounts == due
  }

  ghost predicate DoneOk<V>(c: Config<V>, s: State<V>, q: nat)
    requires Typed(c, s) && s.counter >= 0 && q < c.P
  {
    if q == s.counter then Count(s.net, KDone, q) == 0
    else
      TreeRanks(q, s.counter, c.P);
      var up := s.nodes[Parent(q, s.counter, c.P)].nValues != -1;
      && Count(s.net, KDone, q) == (if s.nodes[q].nValues == -1 && up then 1 else 0)
      && (s.nodes[q].nValues != -1 ==> up)
  }

  ghost predicate ValueOk<V>(c: Config<V>, s: State<V>, q: nat)
    requires Typed(c, s) && s.counter >= 0 && q < c.P
  {
    if s.nodes[q].nValues == -1 then Count(s.net, KValue, q) == 0
    else s.nodes[q].nValues == KidSum(c, s.nodes, q, s.counter, NotDone()) + Count(s.net, KValue, q)
  }

  ghost predicate InOrder<V>(net: seq<Packet<V>>) {
    forall i, j ::
      0 <= i < |net| && 0 <= j < |net| && net[i].msg.Done? && net[j].msg.BcastCount? && net[i].dst == net[j].dst
      ==> j < i
  }

  /** While the owner waits, it is not the case that everything has been counted. */
  ghost predicate OwnerWaits<V>(c: Config<V>, s: State<V>)
    requires Typed(c, s) && s.counter >= 0
  {
    var nd := s.nodes[s.counter];
    nd.status == CNT_AVAILABLE ==> s.exact && (nd.nreduced == c.total ==> nd.nCounts > 0)
  }

  ghost predicate Gathering<V>(c: Config<V>, s: State<V>)
    requires Typed(c, s) && s.counter >= 0
  {
    GatheringCore(c, s) && OwnerWaits(c, s)
  }

  ghost predicate GatheringCore<V>(c: Config<V>, s: State<V>)
    requires Typed(c, s) && s.counter >= 0
  {
    && (forall q :: 0 <= q < c.P ==> NodeShape(c, s, q))
    && (forall i :: 0 <= i < |s.net| ==> PacketOk(c, s, s.net[i]))
    && InOrder(s.net)
    && (forall q :: 0 <= q < c.P ==> BcastOk(c, s, q))
    && (forall q :: 0 <= q < c.P ==> GatherOk(c, s, q))
    && (forall q :: 0 <= q < c.P ==> DoneOk(c, s, q))
    && (forall q :: 0 <= q < c.P ==> ValueOk(c, s, q))
    && (if s.exact then Sum(s.nodes, Counted()) + Sum(s.net, Carried()) == |s.items| else |s.items| == c.total)
    && (if s.nodes[s.counter].status == DONE then |s.outs| == 1 && s.outs[0].0 == s.counter else s.outs == [])
  }

  ghost predicate Phase<V>(c: Config<V>, s: State<V>)
    requires Typed(c, s)
  {
    if s.counter == -1 then Before(c, s)
    else if s.nodes[s.counter].owner == -1 then LocalDone(c, s)
    else Gathering(c, s)
  }

  /** No value is lost or counted twice: what the nodes hold, what is in flight and what was put out
      make up what was put in, and one default value per empty container that was combined. */
  ghost predicate Conserved<V(!new)>(c: Config<V>, s: State<V>) {
    c.o.op(c.o.op(Fold(c.o, s.nodes, Contribution(c.o)), Fold(c.o, s.net, PacketValue(c.o))), Fold(c.o, s.outs, Snd()))
    == c.o.op(Fold(c.o, s.items, Snd()), DefaultPower(c, s))
  }

  ghost function DefaultPower<V>(c: Config<V>, s: State<V>): V {
    DefaultedNonNegative(s.nodes);
    Power(c.o, c.o.dflt, Sum(s.nodes, Defaulted()))
  }

  lemma DefaultedNonNegative<V>(nodes: seq<Node<V>>)
    ensures Sum(nodes, Defaulted()) >= 0
  {
    SumNonNegative(nodes, Defaulted());
  }

  ghost predicate NoItemAt<V>(items: seq<(nat, V)>, q: nat) {
    forall i :: 0 <= i < |items| ==> items[i].0 != q
  }

  /** A node's container is empty as long as it got neither an item nor a child's value. */
  ghost predicate EmptyOk<V>(c: Config<V>, s: State<V>, q: nat)
    requires Typed(c, s) && q < c.P
  {
    Empty(s.nodes[q].locals) <==>
    NoItemAt(s.items, q) &&
    (s.nodes[q].nValues == -1 || (s.counter >= 0 && s.nodes[q].nValues == |Kids(q, s.counter, c.P)|))
  }

  /** The invariant in the gathering phase, but for the owner's check that everything is counted. */
  ghost predicate InvCore<V(!new)>(c: Config<V>, s: State<V>) {
    && !s.failed
    && Typed(c, s) && s.counter >= 0
    && GatheringCore(c, s)
    && Conserved(c, s)
    && forall q :: 0 <= q < c.P ==> EmptyOk(c, s, q)
  }

  ghost predicate Inv<V(!new)>(c: Config<V>, s: State<V>) {
    && !s.failed
    && Typed(c, s)
    && Phase(c, s)
    && Conserved(c, s)
    && forall q :: 0 <= q < c.P ==> EmptyOk(c, s, q)
  }

  /*** progress ***/

  /** The messages a node may still have to send, not counting reports of single items. */
  ghost function Owed<V>(c: Config<V>, nd: Node<V>, q: nat, root: nat): nat
    requires q < c.P && root < c.P
  {
    var kids := |Kids(q, root, c.P)|;
    (if nd.n == M1 then kids + 1 else if nd.nCounts > 0 then 1 else 0) +
    (if nd.nValues == -1 then kids + 1 else if nd.status != DONE then 1 else 0)
  }

  ghost function OwedFrom<V>(c: Config<V>, nodes: seq<Node<V>>, root: nat, q: nat): nat
    requires q <= c.P && root < c.P && |nodes| == c.P
    decreases c.P - q
  {
    if q == c.P then 0 else Owed(c, nodes[q], q, root) + OwedFrom(c, nodes, root, q + 1)
  }

  /** What is left to do. */
  ghost function Work<V>(c: Config<V>, s: State<V>): int
    requires Typed(c, s)
  {
    2 * (c.total - |s.items|) + |s.net| +
    if s.counter == -1 then 6 * c.P + 3 else OwedFrom(c, s.nodes, s.counter, 0)
  }
}
