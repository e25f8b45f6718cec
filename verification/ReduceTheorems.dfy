/** What the reduction protocol guarantees over whole runs: no handler assertion ever fails, the
    result is put at most once and only by the owner, every complete run puts it, runs are bounded,
    and the value is the fold of all items and of one default value per empty leaf process. */
module ReduceTheorems {
  import opened Sums
  import opened Monoids
  import opened ReduceTree
  import opened ReduceNode
  import opened ReduceProtocol
  import opened ReduceCounting
  import opened ReduceSafety
  import opened ReducePuts

  /** The states of a run and the events between them. */
  ghost predicate Run<V>(c: Config<V>, ss: seq<State<V>>, es: seq<Event<V>>) {
    && |ss| == |es| + 1 && ss[0] == Init(c)
    && forall i :: 0 <= i < |es| ==> Enabled(c, ss[i], es[i]) && ss[i + 1] == Apply(c, ss[i], es[i])
  }

  /** Nothing more can happen. */
  ghost predicate Complete<V(!new)>(c: Config<V>, s: State<V>) {
    forall e: Event<V> :: !Enabled(c, s, e)
  }

  ghost predicate OutputByOwner<V>(s: State<V>) {
    s.outs == [] || (|s.outs| == 1 && s.outs[0].0 == s.counter)
  }

  lemma InitInv<V(!new)>(c: Config<V>)
    requires ValidConfig(c)
    ensures Inv(c, Init(c))
  {
    var s := Init(c);
    forall q | 0 <= q < c.P ensures Contribution(c.o)(s.nodes[q]) == c.o.identity {
      TotalEmpty(c.o, s.nodes[q].locals);
    }
    FoldOfIdentities(c.o, s.nodes, Contribution(c.o));
    SumZero(s.nodes, Counted());
    SumZero(s.nodes, Defaulted());
    Laws(c.o, c.o.identity, c.o.identity, c.o.identity);
  }

  lemma {:induction false} RunInv<V(!new)>(c: Config<V>, ss: seq<State<V>>, es: seq<Event<V>>, i: nat)
    requires ValidConfig(c) && Run(c, ss, es) && i < |ss|
    ensures Inv(c, ss[i])
  {
    hide Inv, Init, Apply, Enabled;
    if i == 0 {
      InitInv(c);
    } else {
      RunInv(c, ss, es, i - 1);
      assert Enabled(c, ss[i - 1], es[i - 1]);
      StepKeepsInv(c, ss[i - 1], es[i - 1]);
      ProgressInv(c, ss[i - 1], ss[i]);
    }
  }

  lemma ProgressInv<V(!new)>(c: Config<V>, s: State<V>, s': State<V>)
    requires Progress(c, s, s')
    ensures Inv(c, s')
    ensures Inv(c, s) ==> Work(c, s') < Work(c, s)
  {
  }

  /** Safety over all runs: no assertion of a handler fails, the result is put at most once, only by
      the process that put the count, and not before all items were put. */
  lemma Safety<V(!new)>(c: Config<V>, ss: seq<State<V>>, es: seq<Event<V>>, i: nat)
    requires ValidConfig(c) && Run(c, ss, es) && i < |ss|
    ensures !ss[i].failed
    ensures OutputByOwner(ss[i])
    ensures ss[i].outs != [] ==> |ss[i].items| == c.total
  {
    RunInv(c, ss, es, i);
    AfterLastItem(c, ss[i]);
  }

  /** What the handlers assert holds whenever they run: a process that puts the count, or is sent it, does not know
      one; a gathered count was asked for, DONE comes once, and a value is expected, by a process that knows the
      owner, which is the one that put the count. */
  lemma AssertionsHold<V(!new)>(c: Config<V>, ss: seq<State<V>>, es: seq<Event<V>>, i: nat)
    requires ValidConfig(c) && Run(c, ss, es) && i < |es|
    ensures |ss[i].nodes| == c.P
    ensures es[i].PutCount? || es[i].PutFlag? ==>
              es[i].p < c.P && ss[i].nodes[es[i].p].status == LOCAL && ss[i].nodes[es[i].p].n == M1
    ensures es[i].Deliver? ==>
              && es[i].i < |ss[i].net| && ss[i].net[es[i].i].dst < c.P
              && Expected(c, ss[i], ss[i].net[es[i].i])
  {
    RunInv(c, ss, es, i);
    var s, e := ss[i], es[i];
    assert Enabled(c, s, e);
    if e.Deliver? {
      hide Apply;
      InFlightMeansGathering(c, s);
      match s.net[e.i].msg {
        case BcastCount(_, _) => BcastFinds(c, s, e.i);
        case GatherCount(_) => GatherFinds(c, s, e.i);
        case Done(_) => DoneFindsReady(c, s, e.i, e.tid);
        case Value(_) => ValueFinds(c, s, e.i);
      }
    }
  }

  /** The receiver of a message is ready for it. */
  ghost predicate Expected<V>(c: Config<V>, s: State<V>, pk: Packet<V>)
    requires pk.dst < |s.nodes|
  {
    var nd := s.nodes[pk.dst];
    match pk.msg
    case BcastCount(owner, cnt) => owner == s.counter && cnt == c.total && nd.status == LOCAL && owner != pk.dst
    case GatherCount(cnt) => cnt >= 0 && nd.owner == s.counter && (nd.owner == pk.dst || nd.nCounts >= 1)
    case Done(owner) => owner == s.counter && owner != pk.dst && nd.nValues == -1
    case Value(_) => nd.owner == s.counter && nd.nValues >= 1
  }

  /** The owner leaves the counting phase only when every item was put. */
  lemma AfterLastItem<V(!new)>(c: Config<V>, s: State<V>)
    requires ValidConfig(c) && Inv(c, s)
    ensures s.outs != [] ==> s.counter >= 0
    ensures s.counter >= 0 && s.nodes[s.counter].status != CNT_AVAILABLE ==> |s.items| == c.total
    ensures OutputByOwner(s) && (s.outs != [] ==> |s.items| == c.total)
  {
    if s.counter >= 0 && |s.items| < c.total {
      StillCounting(c, s, s.counter);
    }
  }

  /** Count conservation: every item put so far is counted in exactly one node or one message. */
  lemma CountsConserved<V(!new)>(c: Config<V>, ss: seq<State<V>>, es: seq<Event<V>>, i: nat)
    requires ValidConfig(c) && Run(c, ss, es) && i < |ss|
    requires ss[i].exact && ss[i].outs == []
    ensures Sum(ss[i].nodes, Counted()) + Sum(ss[i].net, Carried()) == |ss[i].items|
  {
    RunInv(c, ss, es, i);
  }

  /** Value conservation in every reachable state. */
  lemma ValuesConserved<V(!new)>(c: Config<V>, ss: seq<State<V>>, es: seq<Event<V>>, i: nat)
    requires ValidConfig(c) && Run(c, ss, es) && i < |ss|
    ensures Conserved(c, ss[i])
  {
    hide Conserved;
    RunInv(c, ss, es, i);
  }

  /*** the value ***/

  /** A process at the bottom of the tree that got no item. */
  ghost predicate BareLeaf<V>(c: Config<V>, items: seq<(nat, V)>, root: nat, q: nat)
    requires q < c.P && root < c.P
  {
    Kids(q, root, c.P) == [] && NoItemAt(items, q)
  }

  ghost function BareLeaves<V>(c: Config<V>, items: seq<(nat, V)>, root: nat, q: nat): nat
    requires q <= c.P && root < c.P
    decreases c.P - q
  {
    if q == c.P then 0 else (if BareLeaf(c, items, root, q) then 1 else 0) + BareLeaves(c, items, root, q + 1)
  }

  /** The reduction finished without a message being sent: all items were put where the count was put, and earlier. */
  ghost predicate AllLocal<V>(c: Config<V>, s: State<V>)
    requires Typed(c, s) && s.counter >= 0
  {
    s.nodes[s.counter].owner == -1
  }

  /** How often the default value enters the result. */
  ghost function Defaults<V>(c: Config<V>, s: State<V>): nat
    requires Typed(c, s) && s.counter >= 0
  {
    if AllLocal(c, s) then (if c.total == 0 then 1 else 0) else BareLeaves(c, s.items, s.counter, 0)
  }

  /** Once the owner is done, everybody is. */
  lemma {:induction false} AllDone<V(!new)>(c: Config<V>, s: State<V>, q: nat)
    requires Typed(c, s) && s.counter >= 0 && Gathering(c, s) && s.nodes[s.counter].status == DONE && q < c.P
    ensures s.nodes[q].status == DONE && s.nodes[q].nValues == 0 && Count(s.net, KValue, q) == 0
    decreases Rank(q, s.counter, c.P)
  {
    hide BcastOk, DoneOk, GatherOk, PacketOk;
    if q != s.counter {
      TreeRanks(q, s.counter, c.P);
      var up := Parent(q, s.counter, c.P);
      AllDone(c, s, up);
      assert ValueOk(c, s, up);
      KidSumBounds(c, s.nodes, up, s.counter, NotDone());
      CountNonNegative(s.net, KValue, up);
      assert NotDone<V>()(s.nodes[q]) == 0;
    }
    assert NodeShape(c, s, q) && ValueOk(c, s, q);
    KidSumBounds(c, s.nodes, q, s.counter, NotDone());
    CountNonNegative(s.net, KValue, q);
  }

  lemma {:induction false} DefaultedAreBareLeaves<V>(c: Config<V>, s: State<V>, q: nat)
    requires Typed(c, s) && s.counter >= 0 && q <= c.P
    requires forall p :: 0 <= p < c.P ==> s.nodes[p].status == DONE && s.nodes[p].nValues == 0 && EmptyOk(c, s, p)
    ensures Sum(s.nodes[q..], Defaulted()) == BareLeaves(c, s.items, s.counter, q)
    decreases c.P - q
  {
    if q < c.P {
      DefaultedAreBareLeaves(c, s, q + 1);
      assert s.nodes[q..][1..] == s.nodes[q + 1..];
      assert EmptyOk(c, s, q);
    }
  }

  /** If nothing but the output holds a value, the output is the fold of the items and the defaults. */
  lemma OutputHoldsAll<V(!new)>(c: Config<V>, s: State<V>)
    requires ValidConfig(c) && Conserved(c, s) && |s.outs| == 1
    requires Fold(c.o, s.nodes, Contribution(c.o)) == c.o.identity
    requires Fold(c.o, s.net, PacketValue(c.o)) == c.o.identity
    ensures s.outs[0].1 == c.o.op(Fold(c.o, s.items, Snd()), DefaultPower(c, s))
  {
    FoldOne(c.o, s.outs[0], Snd());
    assert s.outs == [s.outs[0]];
    Laws(c.o, c.o.identity, c.o.identity, c.o.identity);
    Laws(c.o, s.outs[0].1, c.o.identity, c.o.identity);
  }

  lemma LocalResult<V(!new)>(c: Config<V>, s: State<V>)
    requires ValidConfig(c) && Inv(c, s) && s.counter >= 0 && LocalDone(c, s)
    ensures |s.outs| == 1
    ensures s.outs[0].1 == c.o.op(Fold(c.o, s.items, Snd()), Power(c.o, c.o.dflt, if c.total == 0 then 1 else 0))
  {
    hide Conserved;
    forall q | 0 <= q < c.P ensures Contribution(c.o)(s.nodes[q]) == c.o.identity {
      if q != s.counter { TotalEmpty(c.o, s.nodes[q].locals); }
    }
    FoldOfIdentities(c.o, s.nodes, Contribution(c.o));
    SumSingle(s.nodes, s.counter, Defaulted());
    OutputHoldsAll(c, s);
  }

  lemma GatheredResult<V(!new)>(c: Config<V>, s: State<V>)
    requires ValidConfig(c) && Inv(c, s) && s.counter >= 0 && Gathering(c, s) && s.outs != []
    ensures |s.outs| == 1
    ensures s.outs[0].1 == c.o.op(Fold(c.o, s.items, Snd()), Power(c.o, c.o.dflt, BareLeaves(c, s.items, s.counter, 0)))
  {
    hide Conserved, EmptyOk, NodeShape, BcastOk, DoneOk, GatherOk, ValueOk;
    forall q | 0 <= q < c.P
      ensures s.nodes[q].status == DONE && s.nodes[q].nValues == 0 && Count(s.net, KValue, q) == 0
    {
      AllDone(c, s, q);
    }
    FoldOfIdentities(c.o, s.nodes, Contribution(c.o));
    forall j | 0 <= j < |s.net| ensures !s.net[j].msg.Value? {
      assert PacketOk(c, s, s.net[j]);
      CountNonNegative(s.net, KValue, s.net[j].dst);
    }
    FoldNoValue(c.o, s.net);
    DefaultedAreBareLeaves(c, s, 0);
    assert s.nodes[0..] == s.nodes;
    OutputHoldsAll(c, s);
  }

  /** The value put is the fold of all items and of one default value per bare leaf. */
  lemma Result<V(!new)>(c: Config<V>, ss: seq<State<V>>, es: seq<Event<V>>, i: nat)
    requires ValidConfig(c) && Run(c, ss, es) && i < |ss| && ss[i].outs != []
    ensures Typed(c, ss[i]) && 0 <= ss[i].counter < c.P && |ss[i].items| == c.total
    ensures ss[i].outs ==
            [(ss[i].counter, c.o.op(Fold(c.o, ss[i].items, Snd()), Power(c.o, c.o.dflt, Defaults(c, ss[i]))))]
  {
    RunInv(c, ss, es, i);
    ResultOf(c, ss[i]);
  }

  lemma ResultOf<V(!new)>(c: Config<V>, s: State<V>)
    requires ValidConfig(c) && Inv(c, s) && s.outs != []
    ensures 0 <= s.counter < c.P && |s.items| == c.total
    ensures s.outs == [(s.counter, c.o.op(Fold(c.o, s.items, Snd()), Power(c.o, c.o.dflt, Defaults(c, s))))]
  {
    hide Conserved, Gathering, BareLeaves;
    AfterLastItem(c, s);
    if AllLocal(c, s) { LocalResult(c, s); } else { GatheredResult(c, s); }
  }

  /** The reduction is exact whenever the default value is the identity. */
  lemma ExactWithNeutralDefault<V(!new)>(c: Config<V>, ss: seq<State<V>>, es: seq<Event<V>>, i: nat)
    requires ValidConfig(c) && Run(c, ss, es) && i < |ss| && ss[i].outs != [] && c.o.dflt == c.o.identity
    ensures ss[i].outs == [(ss[i].counter, Fold(c.o, ss[i].items, Snd()))]
  {
    Result(c, ss, es, i);
    PowerOfIdentity(c.o, Defaults(c, ss[i]));
    Laws(c.o, Fold(c.o, ss[i].items, Snd()), c.o.identity, c.o.identity);
  }

  ghost predicate Cancellative<V(!new)>(o: Operator<V>) {
    forall a, b, c :: o.op(a, b) == o.op(a, c) ==> b == c
  }

  /** The reduction is exact if and only if the fold of the items absorbs the defaults; so it is if these combine to
      the identity, and only then if the operator can be cancelled. */
  lemma ExactIff<V(!new)>(c: Config<V>, ss: seq<State<V>>, es: seq<Event<V>>, i: nat)
    requires ValidConfig(c) && Run(c, ss, es) && i < |ss| && ss[i].outs != []
    ensures Typed(c, ss[i]) && ss[i].counter >= 0
    ensures var k, total := Defaults(c, ss[i]), Fold(c.o, ss[i].items, Snd());
            var power := Power(c.o, c.o.dflt, k);
            && (ss[i].outs[0].1 == total <==> c.o.op(total, power) == total)
            && (power == c.o.identity ==> ss[i].outs[0].1 == total)
            && (Cancellative(c.o) ==> (ss[i].outs[0].1 == total <==> power == c.o.identity))
  {
    Result(c, ss, es, i);
    var total := Fold(c.o, ss[i].items, Snd());
    Laws(c.o, total, c.o.identity, c.o.identity);
  }

  /** Where every leaf process gets an item and there is an item at all, no default enters. */
  lemma NoDefaults<V(!new)>(c: Config<V>, ss: seq<State<V>>, es: seq<Event<V>>, i: nat)
    requires ValidConfig(c) && Run(c, ss, es) && i < |ss| && ss[i].outs != [] && c.total > 0
    requires forall q :: 0 <= q < c.P && 0 <= ss[i].counter < c.P && Kids(q, ss[i].counter, c.P) == [] ==>
        !NoItemAt(ss[i].items, q)
    ensures ss[i].outs == [(ss[i].counter, Fold(c.o, ss[i].items, Snd()))]
  {
    Result(c, ss, es, i);
    NoBareLeaves(c, ss[i].items, ss[i].counter, 0);
    Laws(c.o, Fold(c.o, ss[i].items, Snd()), c.o.identity, c.o.identity);
  }

  lemma {:induction false} NoBareLeaves<V>(c: Config<V>, items: seq<(nat, V)>, root: nat, q: nat)
    requires q <= c.P && root < c.P
    requires forall p :: 0 <= p < c.P && Kids(p, root, c.P) == [] ==> !NoItemAt(items, p)
    ensures BareLeaves(c, items, root, q) == 0
    decreases c.P - q
  {
    if q < c.P { NoBareLeaves(c, items, root, q + 1); }
  }

  /*** progress ***/

  /** Every run is short: at most two steps per item and six per process, and three more. */
  lemma {:induction false} RunsAreBounded<V(!new)>(c: Config<V>, ss: seq<State<V>>, es: seq<Event<V>>)
    requires ValidConfig(c) && Run(c, ss, es)
    ensures |es| <= 2 * c.total + 6 * c.P + 3
  {
    WorkShrinks(c, ss, es, |es|);
    RunInv(c, ss, es, |es|);
  }

  lemma {:induction false} WorkShrinks<V(!new)>(c: Config<V>, ss: seq<State<V>>, es: seq<Event<V>>, i: nat)
    requires ValidConfig(c) && Run(c, ss, es) && i < |ss|
    ensures Inv(c, ss[i]) && Work(c, ss[i]) + i <= 2 * c.total + 6 * c.P + 3
  {
    hide Apply, Enabled;
    RunInv(c, ss, es, i);
    if i > 0 {
      WorkShrinks(c, ss, es, i - 1);
      assert Enabled(c, ss[i - 1], es[i - 1]);
      StepKeepsInv(c, ss[i - 1], es[i - 1]);
      ProgressInv(c, ss[i - 1], ss[i]);
    }
  }

  /** All items and the count are put and no message is in flight. */
  ghost predicate Quiet<V>(c: Config<V>, s: State<V>) {
    s.counter >= 0 && |s.items| == c.total && s.net == []
  }

  /** Before that, something can happen. */
  lemma CanGoOn<V(!new)>(c: Config<V>, s: State<V>) returns (e: Event<V>)
    requires ValidConfig(c) && Inv(c, s) && !Quiet(c, s)
    ensures Enabled(c, s, e)
  {
    if s.counter < 0 {
      e := PutCount(0);
    } else if |s.items| < c.total {
      e := PutItem(0, 0, c.o.identity);
    } else {
      e := Deliver(0, 0);
    }
  }

  /** With no message in flight everybody knows the count. */
  lemma {:induction false} AllKnowCount<V(!new)>(c: Config<V>, s: State<V>, q: nat)
    requires Typed(c, s) && s.counter >= 0 && Gathering(c, s) && s.net == [] && s.exact && q < c.P
    ensures s.nodes[q].n != M1
    decreases Rank(q, s.counter, c.P)
  {
    if q == s.counter {
      assert NodeShape(c, s, q);
    } else {
      TreeRanks(q, s.counter, c.P);
      AllKnowCount(c, s, Parent(q, s.counter, c.P));
      assert BcastOk(c, s, q);
    }
  }

  /** ... and everybody but the owner has reported all it counted. */
  lemma {:induction false} AllReported<V(!new)>(c: Config<V>, s: State<V>, q: nat)
    requires Typed(c, s) && s.counter >= 0 && Gathering(c, s) && s.net == [] && s.exact && q < c.P
    ensures s.nodes[q].nCounts <= 0
    ensures q != s.counter ==> s.nodes[q].nreduced == 0
    decreases c.P - Rank(q, s.counter, c.P)
  {
    hide BcastOk, DoneOk, ValueOk, PacketOk, Parent, Kids, Rank;
    RankInjective(q, q, s.counter, c.P);
    AllKnowCount(c, s, q);
    forall p | 0 <= p < c.P && p != s.counter && Parent(p, s.counter, c.P) == q
      ensures Unsent<V>()(s.nodes[p]) == 0
    {
      ParentDiffers(p, s.counter, c.P);
      RankInjective(p, p, s.counter, c.P);
      AllReported(c, s, p);
      AllKnowCount(c, s, p);
    }
    KidSumBounds(c, s.nodes, q, s.counter, Unsent());
    assert GatherOk(c, s, q) && NodeShape(c, s, q);
  }

  /** With no message in flight and all items put, the owner has started the DONE phase. */
  lemma OwnerStarted<V(!new)>(c: Config<V>, s: State<V>)
    requires Typed(c, s) && Quiet(c, s) && Gathering(c, s)
    ensures s.nodes[s.counter].nValues != -1
  {
    hide BcastOk, DoneOk, GatherOk, ValueOk, PacketOk, Parent, Kids, Rank;
    assert NodeShape(c, s, s.counter);
    if s.exact {
      forall q | 0 <= q < c.P ensures s.nodes[q].nCounts <= 0 && (q != s.counter ==> s.nodes[q].nreduced == 0) {
        AllReported(c, s, q);
      }
      SumSingle(s.nodes, s.counter, Counted());
    }
  }

  lemma {:induction false} AllSawDone<V(!new)>(c: Config<V>, s: State<V>, q: nat)
    requires Typed(c, s) && Quiet(c, s) && Gathering(c, s) && q < c.P
    ensures s.nodes[q].nValues != -1
    decreases Rank(q, s.counter, c.P)
  {
    if q == s.counter {
      OwnerStarted(c, s);
    } else {
      TreeRanks(q, s.counter, c.P);
      AllSawDone(c, s, Parent(q, s.counter, c.P));
      assert DoneOk(c, s, q);
    }
  }

  lemma {:induction false} AllFinished<V(!new)>(c: Config<V>, s: State<V>, q: nat)
    requires Typed(c, s) && Quiet(c, s) && Gathering(c, s) && q < c.P
    ensures s.nodes[q].status == DONE
    decreases c.P - Rank(q, s.counter, c.P)
  {
    hide BcastOk, DoneOk, GatherOk, PacketOk, Parent, Kids, Rank;
    RankInjective(q, q, s.counter, c.P);
    AllSawDone(c, s, q);
    forall p | 0 <= p < c.P && p != s.counter && Parent(p, s.counter, c.P) == q
      ensures NotDone<V>()(s.nodes[p]) == 0
    {
      ParentDiffers(p, s.counter, c.P);
      RankInjective(p, p, s.counter, c.P);
      AllFinished(c, s, p);
    }
    KidSumBounds(c, s.nodes, q, s.counter, NotDone());
    assert ValueOk(c, s, q) && NodeShape(c, s, q);
  }

  /** Nothing gets stuck: with everything put and no message in flight the result is out. */
  lemma QuietMeansFinished<V(!new)>(c: Config<V>, s: State<V>)
    requires ValidConfig(c) && Inv(c, s) && Quiet(c, s)
    ensures |s.outs| == 1
  {
    if s.nodes[s.counter].owner != -1 {
      AllFinished(c, s, s.counter);
    }
  }

  /** Every run that cannot be continued has put the result, exactly once. Together with
      RunsAreBounded: however the events interleave, the result comes out. */
  lemma CompleteRunsDeliver<V(!new)>(c: Config<V>, ss: seq<State<V>>, es: seq<Event<V>>)
    requires ValidConfig(c) && Run(c, ss, es) && Complete(c, ss[|es|])
    ensures Typed(c, ss[|es|]) && 0 <= ss[|es|].counter < c.P && |ss[|es|].items| == c.total
    ensures ss[|es|].outs ==
            [(ss[|es|].counter, c.o.op(Fold(c.o, ss[|es|].items, Snd()), Power(c.o, c.o.dflt, Defaults(c, ss[|es|]))))]
  {
    var s := ss[|es|];
    RunInv(c, ss, es, |es|);
    if !Quiet(c, s) { var e := CanGoOn(c, s); }
    QuietMeansFinished(c, s);
    ResultOf(c, s);
  }
}
