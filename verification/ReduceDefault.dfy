/** A run in which the reduction is not the fold of the items: a product over int, whose
    default-constructed value is 0, on two processes, with the only item at the owner. */
module ReduceDefault {
  import opened Options
  import opened Monoids
  import opened ReduceTree
  import opened ReduceNode
  import opened ReduceProtocol
  import opened ReduceTheorems
  import opened ReduceExact

  function Product(): Operator<int> { Operator((a: int, b: int) => a * b, 1, 0) }

  function Two(): Config<int> { Config(2, 1, Product(), 1) }

  lemma ProductLawful()
    ensures Lawful(Product())
  {
    forall a, b, c ensures Product().op(Product().op(a, b), c) == Product().op(a, Product().op(b, c)) {
      assert (a * b) * c == a * (b * c);
    }
  }

  function N0(locals: seq<Option<int>>, nreduced: int, nCounts: int, nValues: int, status: Status): Node<int> {
    Node(locals, nreduced, 1, nCounts, nValues, 0, status)
  }

  lemma TreeOfTwo()
    ensures Kids(0, 0, 2) == [1] && Kids(1, 0, 2) == [] && Parent(1, 0, 2) == 0
  {
  }

  /** The event sequence: count at 0, item 5 at 0, then the four messages of the protocol. */
  function Events(): seq<Event<int>> {
    [PutCount(0), PutItem(0, 0, 5), Deliver(0, 0), Deliver(0, 0), Deliver(0, 0), Deliver(0, 0)]
  }

  function States(): seq<State<int>> {
    var idle, none := Fresh<int>(1), [None];
    var it := [(0, 5)];
    [State([idle, idle], [], [], -1, true, [], false),
     State([N0(none, 0, 1, -1, CNT_AVAILABLE), idle], [Packet(0, 1, BcastCount(0, 1))], [], 0, true, [], false),
     State([N0([Some(5)], 1, 1, -1, CNT_AVAILABLE), idle], [Packet(0, 1, BcastCount(0, 1))], it, 0, true, [], false),
     State([N0([Some(5)], 1, 1, -1, CNT_AVAILABLE), N0(none, 0, 0, -1, CNT_AVAILABLE)],
           [Packet(1, 0, GatherCount(0))], it, 0, true, [], false),
     State([N0([Some(5)], 1, 0, 1, FINISH), N0(none, 0, 0, -1, CNT_AVAILABLE)],
           [Packet(0, 1, ReduceNode.Done(0))], it, 0, true, [], false),
     State([N0([Some(5)], 1, 0, 1, FINISH), N0(none, 0, 0, 0, DONE)],
           [Packet(1, 0, Value(0))], it, 0, true, [], false),
     State([N0([Some(0)], 1, 0, 0, DONE), N0(none, 0, 0, 0, DONE)], [], it, 0, true, [(0, 0)], false)]
  }

  lemma Starts()
    ensures States()[0] == Init(Two())
  {
    assert seq(2, i => Fresh<int>(1)) == [Fresh<int>(1), Fresh<int>(1)];
  }

  ghost predicate StepOk(i: nat)
    requires i < 6
  {
    Enabled(Two(), States()[i], Events()[i]) && States()[i + 1] == Apply(Two(), States()[i], Events()[i])
  }

  /** Landing an effect, for two nodes and at most one message. */
  lemma Lands(s: State<int>, p: nat, e: Effect<int>)
    requires p < 2 && |s.nodes| == 2
    ensures Land(s, p, e).nodes == if p == 0 then [e.node, s.nodes[1]] else [s.nodes[0], e.node]
    ensures e.puts == [] ==> Land(s, p, e).outs == s.outs
    ensures |e.puts| == 1 ==> Land(s, p, e).outs == s.outs + [(p, e.puts[0])]
  {
    assert e.puts == [] ==> Tagged(p, e.puts) == [];
    assert |e.puts| == 1 ==> Tagged(p, e.puts) == [(p, e.puts[0])];
  }

  lemma PutsCount()
    ensures StepOk(0)
  {
    TreeOfTwo();
    hide Kids, Rank, Parent;
    var s, st := States()[0], SiteOf(Two(), 0);
    var e := OnCountPut(st, s.nodes[0], 1);
    assert e == Effect(N0([None], 0, 1, -1, CNT_AVAILABLE), [Packet(0, 1, BcastCount(0, 1))], []);
    Lands(s, 0, e);
    assert s.net + e.sent == e.sent;
  }

  lemma PutsItem()
    ensures StepOk(1)
  {
    TreeOfTwo();
    hide Kids, Rank, Parent;
    var s, st := States()[1], SiteOf(Two(), 0);
    var e := OnItemPut(st, s.nodes[0], 0, 5);
    assert e.node == N0([Some(5)], 1, 1, -1, CNT_AVAILABLE) && e.sent == [] && e.puts == [];
    Lands(s, 0, e);
  }

  lemma Delivers(i: nat, e: Effect<int>)
    requires 2 <= i < 6
    requires var s := States()[i];
             && |s.net| == 1 && s.net[0].dst < 2
             && MsgOk(SiteOf(Two(), s.net[0].dst), s.nodes[s.net[0].dst], s.net[0].msg)
             && |s.nodes[s.net[0].dst].locals| == 1
             && e == RecvMsg(SiteOf(Two(), s.net[0].dst), s.nodes[s.net[0].dst], 0, s.net[0].msg)
             && States()[i + 1] == State(if s.net[0].dst == 0 then [e.node, s.nodes[1]] else [s.nodes[0], e.node],
                                         e.sent, s.items, s.counter, s.exact,
                                         s.outs + (if e.puts == [] then [] else [(s.net[0].dst, e.puts[0])]), s.failed)
             && |s.nodes| == 2 && |e.puts| <= 1
    ensures StepOk(i)
  {
    var s := States()[i];
    var p := s.net[0].dst;
    assert s.net[..0] + s.net[1..] == [];
    Lands(s.(net := []), p, e);
    assert Events()[i] == Deliver(0, 0);
    hide States, Events, RecvMsg, MsgOk, Tagged;
    assert s.outs + [] == s.outs;
  }

  lemma LeafReports()
    ensures StepOk(2)
  {
    TreeOfTwo();
    hide Kids, Rank, Parent;
    var s := States()[2];
    var e := RecvMsg(SiteOf(Two(), 1), s.nodes[1], 0, s.net[0].msg);
    assert e == Effect(N0([None], 0, 0, -1, CNT_AVAILABLE), [Packet(1, 0, GatherCount(0))], []);
    Delivers(2, e);
  }

  lemma OwnerStarts()
    ensures StepOk(3)
  {
    TreeOfTwo();
    hide Kids, Rank, Parent;
    var s := States()[3];
    var e := RecvMsg(SiteOf(Two(), 0), s.nodes[0], 0, s.net[0].msg);
    assert e == Effect(N0([Some(5)], 1, 0, 1, FINISH), [Packet(0, 1, ReduceNode.Done(0))], []);
    Delivers(3, e);
  }

  lemma LeafSendsDefault()
    ensures StepOk(4)
  {
    TreeOfTwo();
    hide Kids, Rank, Parent;
    var s := States()[4];
    var e := RecvMsg(SiteOf(Two(), 1), s.nodes[1], 0, s.net[0].msg);
    assert Empty(s.nodes[1].locals);
    assert e == Effect(N0([None], 0, 0, 0, DONE), [Packet(1, 0, Value(0))], []);
    Delivers(4, e);
  }

  lemma OwnerPutsZero()
    ensures StepOk(5)
  {
    TreeOfTwo();
    hide Kids, Rank, Parent;
    var s := States()[5];
    var e := RecvMsg(SiteOf(Two(), 0), s.nodes[0], 0, s.net[0].msg);
    assert AddValue(Product(), [Some(5)], 0, 0) == [Some(0)];
    assert [Some(0)][0].Some?;
    assert [Some(0)][1..] == [];
    assert Combined(Product(), [Some(0)]) == 0;
    assert e == Effect(N0([Some(0)], 1, 0, 0, DONE), [], [0]);
    Delivers(5, e);
  }

  lemma IsRun()
    ensures Run(Two(), States(), Events())
  {
    Starts();
    PutsCount();
    PutsItem();
    LeafReports();
    OwnerStarts();
    LeafSendsDefault();
    OwnerPutsZero();
    Lengths();
    hide States, Events, Enabled, Apply, Init;
    forall i | 0 <= i < 6 ensures StepOk(i) {}
  }

  lemma Lengths()
    ensures |States()| == 7 && |Events()| == 6
  {
  }

  /** The product of the single item 5 comes out as 0. */
  lemma ProductIsLost()
    ensures Lawful(Product()) && Run(Two(), States(), Events())
    ensures States()[6].outs == [(0, 0)] && Fold(Product(), States()[6].items, Snd()) == 5
  {
    ProductLawful();
    IsRun();
    var item: (nat, int) := (0, 5);
    assert States()[6].items == [item] && States()[6].outs == [(0, 0)];
    hide Run, States, Lawful;
    FoldOne(Product(), item, Snd());
  }

  /** A product: one run is exact if and only if no default is planned or the product of the items is 0 anyway; a
      plan is exact for all items if and only if no default is planned. */
  lemma ProductExactIff(c: Config<int>, ss: seq<State<int>>, es: seq<Event<int>>, plan: Plan)
    requires ValidConfig(c) && c.o == Product() && ValidPlan(c, plan) && Follows(c, ss, es, plan)
    ensures Exact(c, ss[|es|]) <==> PlannedDefaults(c.P, plan) == 0 || Fold(c.o, ss[|es|].items, Snd()) == 0
    ensures (forall ss', es' :: Follows(c, ss', es', plan) ==> Exact(c, ss'[|es'|])) <==>
            PlannedDefaults(c.P, plan) == 0
  {
    hide Follows, Exact;
    AbsorbedIff(c, ss, es, plan);
    PlanExactIff(c, plan);
    if PlannedDefaults(c.P, plan) > 0 { PowerOfIdempotent(Product(), PlannedDefaults(c.P, plan)); }
  }
}
