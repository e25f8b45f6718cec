/** When a distributed reduction yields the fold of the items, for every lawful operator, in terms that are
    known beforehand: where the items and the count are put, and whether the count comes first. */
module ReduceExact {
  import opened Monoids
  import opened Sums
  import opened ReduceTree
  import opened ReduceNode
  import opened ReduceProtocol
  import opened ReducePuts
  import opened ReduceTheorems

  /** places: the process each item is put at, in order; root: where the count is put, or the done-flag; before:
      how many items are put before it. */
  datatype Plan = Plan(places: seq<nat>, root: nat, before: nat, flag: bool)

  predicate ValidPlan<V>(c: Config<V>, plan: Plan) {
    && |plan.places| == c.total && plan.root < c.P && plan.before <= c.total
    && (plan.flag ==> plan.before == c.total)
    && forall i :: 0 <= i < c.total ==> plan.places[i] < c.P
  }

  function Places<V>(items: seq<(nat, V)>): seq<nat> { seq(|items|, i requires 0 <= i < |items| => items[i].0) }

  /** Event j puts the count or the done-flag as planned. */
  ghost predicate CountsAt<V>(ss: seq<State<V>>, es: seq<Event<V>>, plan: Plan, j: nat) {
    && j < |es| <= |ss| && |ss[j].items| == plan.before
    && es[j] == if plan.flag then PutFlag(plan.root) else PutCount(plan.root)
  }

  /** A run that carries out the plan and has put its result. */
  ghost predicate Follows<V>(c: Config<V>, ss: seq<State<V>>, es: seq<Event<V>>, plan: Plan) {
    && Run(c, ss, es) && ss[|es|].outs != []
    && Places(ss[|es|].items) == plan.places
    && exists j: nat :: CountsAt(ss, es, plan, j)
  }

  /** All items are put at the process of the count, and before it. */
  predicate Local(plan: Plan) {
    !plan.flag && plan.before == |plan.places| && forall i :: 0 <= i < |plan.places| ==> plan.places[i] == plan.root
  }

  /** The processes without children in the tree that no item is put at. */
  function UnusedLeaves(P: nat, plan: Plan): set<nat>
    requires plan.root < P
  {
    set q: nat | q < P && Kids(q, plan.root, P) == [] && q !in plan.places
  }

  /** How often the default value will enter the result. */
  function PlannedDefaults(P: nat, plan: Plan): nat
    requires plan.root < P
  {
    if Local(plan) then (if plan.places == [] then 1 else 0) else |UnusedLeaves(P, plan)|
  }

  /*** the number of defaults is that of the plan ***/

  lemma {:induction false} UnusedAreBare<V>(c: Config<V>, items: seq<(nat, V)>, plan: Plan, q: nat)
    requires plan.root < c.P && q <= c.P && Places(items) == plan.places
    ensures BareLeaves(c, items, plan.root, q) == |set p | p in UnusedLeaves(c.P, plan) && p >= q|
    decreases c.P - q
  {
    var rest := set p | p in UnusedLeaves(c.P, plan) && p >= q;
    if q < c.P {
      UnusedAreBare(c, items, plan, q + 1);
      var next := set p | p in UnusedLeaves(c.P, plan) && p >= q + 1;
      NotPlaced(items, plan, q);
      assert rest == if q in UnusedLeaves(c.P, plan) then next + {q} else next;
    } else {
      assert rest == {};
    }
  }

  lemma NotPlaced<V>(items: seq<(nat, V)>, plan: Plan, q: nat)
    requires Places(items) == plan.places
    ensures NoItemAt(items, q) <==> q !in plan.places
  {
    assert forall i :: 0 <= i < |items| ==> items[i].0 == plan.places[i];
  }

  /** Before the count is put, a node has counted all items exactly if all are put, and put there. */
  lemma CountedAll<V(!new)>(c: Config<V>, s: State<V>, p: nat)
    requires Inv(c, s) && s.counter == -1 && p < c.P && forall i :: 0 <= i < |s.items| ==> s.items[i].0 < c.P
    ensures s.nodes[p].nreduced == c.total <==>
            |s.items| == c.total && forall i :: 0 <= i < |s.items| ==> s.items[i].0 == p
  {
    hide Conserved;
    SumNonNegative(s.nodes, Counted());
    assert forall q :: 0 <= q < c.P ==> Counted<V>()(s.nodes[q]) == s.nodes[q].nreduced;
    if s.nodes[p].nreduced == c.total {
      forall i | 0 <= i < |s.items| ensures s.items[i].0 == p {
        var q := s.items[i].0;
        if q != p {
          assert EmptyOk(c, s, q);
          SumTwo(s.nodes, if p < q then p else q, if p < q then q else p, Counted());
        }
      }
    } else if |s.items| == c.total && forall i :: 0 <= i < |s.items| ==> s.items[i].0 == p {
      forall q | 0 <= q < c.P && q != p ensures s.nodes[q].nreduced == 0 { assert EmptyOk(c, s, q); }
      SumSingle(s.nodes, p, Counted());
    }
  }

  /** Items stay put. */
  lemma ItemsStep<V>(c: Config<V>, s: State<V>, e: Event<V>)
    requires Enabled(c, s, e)
    ensures s.items <= Apply(c, s, e).items
  {
    hide OnItemPut, OnCountPut, RecvMsg, MsgOk;
  }

  lemma {:induction false} ItemsStay<V>(c: Config<V>, ss: seq<State<V>>, es: seq<Event<V>>, i: nat, k: nat)
    requires Run(c, ss, es) && i <= k < |ss|
    ensures ss[i].items <= ss[k].items
    decreases k
  {
    if i < k {
      ItemsStay(c, ss, es, i, k - 1);
      assert Enabled(c, ss[k - 1], es[k - 1]);
      ItemsStep(c, ss[k - 1], es[k - 1]);
    }
  }

  /** A process that knows the owner never forgets it. */
  lemma OwnerStep<V>(c: Config<V>, s: State<V>, e: Event<V>, q: nat)
    requires Enabled(c, s, e) && s.counter != -1 && q < |s.nodes| == c.P && s.nodes[q].owner != -1
    ensures var s' := Apply(c, s, e);
            s'.counter == s.counter && |s'.nodes| == c.P && s'.nodes[q].owner != -1
  {
    hide Bcast, Kids, Parent, AddValue, Combined, Tagged;
  }

  lemma {:induction false} OwnerStays<V>(c: Config<V>, ss: seq<State<V>>, es: seq<Event<V>>, i: nat, k: nat)
    requires Run(c, ss, es) && i <= k < |ss| && ss[i].counter >= 0 && ss[i].counter < |ss[i].nodes| == c.P
    requires ss[i].nodes[ss[i].counter].owner != -1
    ensures var s := ss[k];
            s.counter == ss[i].counter && |s.nodes| == c.P && s.nodes[ss[i].counter].owner != -1
    decreases k
  {
    hide Apply, Enabled;
    if i < k {
      OwnerStays(c, ss, es, i, k - 1);
      assert Enabled(c, ss[k - 1], es[k - 1]);
      OwnerStep(c, ss[k - 1], es[k - 1], ss[i].counter);
    }
  }

  /** Putting the count finishes the reduction at once exactly if the process has counted all items. */
  lemma CountStep<V(!new)>(c: Config<V>, s: State<V>, p: nat, flag: bool)
    requires Inv(c, s) && Enabled(c, s, if flag then PutFlag(p) else PutCount(p))
    ensures var s' := Apply(c, s, if flag then PutFlag(p) else PutCount(p));
            && s'.counter == p && |s'.nodes| == c.P && s'.items == s.items
            && (s'.nodes[p].owner == -1 <==> !flag && s.nodes[p].nreduced == c.total)
  {
    hide Bcast, Kids, Parent, Combined, Tagged, EmptyOk, Conserved;
  }

  /** What a planned run has come to when the count is put. */
  lemma AtCount<V(!new)>(c: Config<V>, ss: seq<State<V>>, es: seq<Event<V>>, plan: Plan, j: nat)
    requires ValidConfig(c) && ValidPlan(c, plan) && Run(c, ss, es) && CountsAt(ss, es, plan, j)
    requires Places(ss[|es|].items) == plan.places
    ensures var s' := ss[j + 1];
            && s'.counter == plan.root && |s'.nodes| == c.P
            && (s'.nodes[plan.root].owner == -1 <==> Local(plan))
  {
    var s := ss[j];
    assert Enabled(c, s, es[j]) && ss[j + 1] == Apply(c, s, es[j]);
    RunInv(c, ss, es, j);
    ItemsStay(c, ss, es, j, |es|);
    forall i | 0 <= i < |s.items| ensures s.items[i].0 == plan.places[i] {
      assert s.items[i] == ss[|es|].items[i];
    }
    CountStep(c, s, plan.root, plan.flag);
    CountedAll(c, s, plan.root);
  }

  lemma LocalIsOver<V(!new)>(c: Config<V>, s: State<V>, e: Event<V>)
    requires Typed(c, s) && s.counter >= 0 && LocalDone(c, s)
    ensures !Enabled(c, s, e)
  {
  }

  /** A reduction that is finished at once ends there. */
  lemma LocalIsLast<V(!new)>(c: Config<V>, ss: seq<State<V>>, es: seq<Event<V>>, i: nat)
    requires ValidConfig(c) && Run(c, ss, es) && i < |ss| && ss[i].counter >= 0
    requires ss[i].counter < |ss[i].nodes| && ss[i].nodes[ss[i].counter].owner == -1
    ensures i == |es|
  {
    RunInv(c, ss, es, i);
    assert LocalDone(c, ss[i]);
    hide LocalDone;
    if i < |es| { LocalIsOver(c, ss[i], es[i]); }
  }

  /** The number of defaults in the result is known from the plan. */
  lemma DefaultsPlanned<V(!new)>(c: Config<V>, ss: seq<State<V>>, es: seq<Event<V>>, plan: Plan)
    requires ValidConfig(c) && ValidPlan(c, plan) && Follows(c, ss, es, plan)
    ensures Typed(c, ss[|es|]) && ss[|es|].counter == plan.root
    ensures Defaults(c, ss[|es|]) == PlannedDefaults(c.P, plan)
  {
    hide Inv;
    var j: nat :| CountsAt(ss, es, plan, j);
    var s := ss[|es|];
    Result(c, ss, es, |es|);
    AtCount(c, ss, es, plan, j);
    if Local(plan) {
      LocalIsLast(c, ss, es, j + 1);
    } else {
      OwnerStays(c, ss, es, j + 1, |es|);
      UnusedAreBare(c, s.items, plan, 0);
      assert UnusedLeaves(c.P, plan) == set p | p in UnusedLeaves(c.P, plan) && p >= 0;
    }
  }

  /*** every plan can be carried out, with any value ***/

  /** Longer runs. */
  ghost predicate Extends<V>(ss: seq<State<V>>, es: seq<Event<V>>, ss': seq<State<V>>, es': seq<Event<V>>) {
    ss <= ss' && es <= es' && |ss| == |es| + 1 && |ss'| == |es'| + 1
  }

  lemma OneMore<V>(c: Config<V>, ss: seq<State<V>>, es: seq<Event<V>>, e: Event<V>)
    requires Run(c, ss, es) && Enabled(c, ss[|es|], e)
    ensures Run(c, ss + [Apply(c, ss[|es|], e)], es + [e])
    ensures Extends(ss, es, ss + [Apply(c, ss[|es|], e)], es + [e])
  {
    hide Enabled, Apply, Init;
  }

  /** The first n items of the plan are put, each with value v. */
  ghost predicate PutSoFar<V>(s: State<V>, plan: Plan, v: V, n: nat) {
    && n <= |plan.places| && Places(s.items) == plan.places[..n]
    && forall i :: 0 <= i < |s.items| ==> s.items[i].1 == v
  }

  lemma PutOne<V(!new)>(c: Config<V>, s: State<V>, plan: Plan, v: V, n: nat)
    requires ValidConfig(c) && ValidPlan(c, plan) && Inv(c, s) && PutSoFar(s, plan, v, n) && n < c.total
    ensures Enabled(c, s, PutItem(plan.places[n], 0, v))
    ensures var s' := Apply(c, s, PutItem(plan.places[n], 0, v));
            PutSoFar(s', plan, v, n + 1) && s'.counter == s.counter
  {
    hide OnItemPut, Conserved, EmptyOk, Phase;
    assert |s.items| == |Places(s.items)| == n;
    var s' := Apply(c, s, PutItem(plan.places[n], 0, v));
    assert s'.items == s.items + [(plan.places[n], v)];
    assert Places(s'.items) == Places(s.items) + [plan.places[n]];
  }

  lemma {:induction false} PutUpTo<V(!new)>(c: Config<V>, ss: seq<State<V>>, es: seq<Event<V>>,
                                            plan: Plan, v: V, k: nat, n: nat)
    returns (ss': seq<State<V>>, es': seq<Event<V>>)
    requires ValidConfig(c) && ValidPlan(c, plan) && Run(c, ss, es)
    requires PutSoFar(ss[|es|], plan, v, k) && k <= n <= c.total
    ensures Run(c, ss', es') && Extends(ss, es, ss', es')
    ensures PutSoFar(ss'[|es'|], plan, v, n) && ss'[|es'|].counter == ss[|es|].counter
    decreases n - k
  {
    if k == n {
      ss', es' := ss, es;
    } else {
      var s, e := ss[|es|], PutItem(plan.places[k], 0, v);
      RunInv(c, ss, es, |es|);
      PutOne(c, s, plan, v, k);
      OneMore(c, ss, es, e);
      hide Run, PutSoFar, Apply, Enabled, Inv;
      ss', es' := PutUpTo(c, ss + [Apply(c, s, e)], es + [e], plan, v, k + 1, n);
    }
  }

  lemma DeliverOne<V(!new)>(c: Config<V>, s: State<V>)
    requires ValidConfig(c) && Inv(c, s) && s.net != []
    ensures Enabled(c, s, Deliver(0, 0))
    ensures var s' := Apply(c, s, Deliver(0, 0));
            s'.items == s.items && s'.counter == s.counter && Inv(c, s') && Work(c, s') < Work(c, s)
  {
    StepKeepsInv(c, s, Deliver(0, 0));
    ProgressInv(c, s, Apply(c, s, Deliver(0, 0)));
    hide Inv, RecvMsg, MsgOk;
  }

  lemma {:induction false} DeliverAll<V(!new)>(c: Config<V>, ss: seq<State<V>>, es: seq<Event<V>>)
    returns (ss': seq<State<V>>, es': seq<Event<V>>)
    requires ValidConfig(c) && Run(c, ss, es) && Inv(c, ss[|es|])
    ensures Run(c, ss', es') && Extends(ss, es, ss', es')
    ensures var s, s' := ss[|es|], ss'[|es'|]; s'.net == [] && s'.items == s.items && s'.counter == s.counter
    decreases Work(c, ss[|es|])
  {
    if ss[|es|].net == [] {
      ss', es' := ss, es;
    } else {
      DeliverOne(c, ss[|es|]);
      OneMore(c, ss, es, Deliver(0, 0));
      hide Run, Inv, Apply, Enabled, Work;
      ss', es' := DeliverAll(c, ss + [Apply(c, ss[|es|], Deliver(0, 0))], es + [Deliver(0, 0)]);
    }
  }

  /** Up to and including the count. */
  lemma StartPlan<V(!new)>(c: Config<V>, plan: Plan, v: V) returns (ss: seq<State<V>>, es: seq<Event<V>>, j: nat)
    requires ValidConfig(c) && ValidPlan(c, plan)
    ensures Run(c, ss, es) && CountsAt(ss, es, plan, j)
    ensures PutSoFar(ss[|es|], plan, v, plan.before) && ss[|es|].counter == plan.root
  {
    assert Run(c, [Init(c)], []);
    ss, es := PutUpTo(c, [Init(c)], [], plan, v, 0, plan.before);
    j := |es|;
    var s: State<V>, e: Event<V> := ss[j], if plan.flag then PutFlag(plan.root) else PutCount(plan.root);
    RunInv(c, ss, es, j);
    assert |s.items| == |Places(s.items)| == plan.before;
    CountStep(c, s, plan.root, plan.flag);
    OneMore(c, ss, es, e);
    hide Run, Inv, Apply, Enabled;
    ss, es := ss + [Apply(c, s, e)], es + [e];
  }

  /** For every plan and every value there is a run that carries out the plan with that value for all items. */
  lemma Realize<V(!new)>(c: Config<V>, plan: Plan, v: V) returns (ss: seq<State<V>>, es: seq<Event<V>>)
    requires ValidConfig(c) && ValidPlan(c, plan)
    ensures Follows(c, ss, es, plan)
    ensures forall i :: 0 <= i < |ss[|es|].items| ==> ss[|es|].items[i].1 == v
  {
    var ss1, es1, j := StartPlan(c, plan, v);
    var ss2, es2 := PutUpTo(c, ss1, es1, plan, v, plan.before, c.total);
    RunInv(c, ss2, es2, |es2|);
    ss, es := DeliverAll(c, ss2, es2);
    var s := ss[|es|];
    RunInv(c, ss, es, |es|);
    assert plan.places[..c.total] == plan.places;
    assert |s.items| == |Places(s.items)| == c.total;
    QuietMeansFinished(c, s);
    hide Run, Inv;
    assert CountsAt(ss, es, plan, j);
  }

  /*** exactness ***/

  /** The one output is the fold of the items. */
  ghost predicate Exact<V>(c: Config<V>, s: State<V>) { s.outs == [(s.counter, Fold(c.o, s.items, Snd()))] }

  /** The result of a plan: the items and as many defaults as planned. */
  lemma PlannedResult<V(!new)>(c: Config<V>, ss: seq<State<V>>, es: seq<Event<V>>, plan: Plan)
    requires ValidConfig(c) && ValidPlan(c, plan) && Follows(c, ss, es, plan)
    ensures var s := ss[|es|];
            s.outs == [(plan.root, c.o.op(Fold(c.o, s.items, Snd()), Power(c.o, c.o.dflt, PlannedDefaults(c.P, plan))))]
            && s.counter == plan.root
  {
    hide Enabled, Apply, Init;
    Result(c, ss, es, |es|);
    DefaultsPlanned(c, ss, es, plan);
  }

  /** A plan yields the fold of the items in every run, with all values, if and only if the planned defaults
      combine to the identity. */
  lemma PlanExactIff<V(!new)>(c: Config<V>, plan: Plan)
    requires ValidConfig(c) && ValidPlan(c, plan)
    ensures (forall ss, es :: Follows(c, ss, es, plan) ==> Exact(c, ss[|es|])) <==>
            Power(c.o, c.o.dflt, PlannedDefaults(c.P, plan)) == c.o.identity
  {
    hide Enabled, Apply, Init;
    var power := Power(c.o, c.o.dflt, PlannedDefaults(c.P, plan));
    if power == c.o.identity {
      forall ss: seq<State<V>>, es: seq<Event<V>> | Follows(c, ss, es, plan) ensures Exact(c, ss[|es|]) {
        PlannedResult(c, ss, es, plan);
        Laws(c.o, Fold(c.o, ss[|es|].items, Snd()), power, power);
      }
    } else {
      var ss, es := Realize(c, plan, c.o.identity);
      PlannedResult(c, ss, es, plan);
      FoldOfIdentities(c.o, ss[|es|].items, Snd());
      Laws(c.o, power, power, power);
      assert !Exact(c, ss[|es|]);
    }
  }

  lemma {:induction false} PowerOfIdempotent<V(!new)>(o: Operator<V>, k: nat)
    requires Lawful(o) && o.op(o.dflt, o.dflt) == o.dflt && k > 0
    ensures Power(o, o.dflt, k) == o.dflt
  {
    if k == 1 { Laws(o, o.dflt, o.dflt, o.dflt); } else { PowerOfIdempotent(o, k - 1); }
  }

  /** A single run, where a default combined with itself is that default, as 0 is in a product and every value in a
      minimum, a maximum, a conjunction or a disjunction: it yields the fold of the items if and only if no default
      is planned, or the fold absorbs it. */
  lemma AbsorbedIff<V(!new)>(c: Config<V>, ss: seq<State<V>>, es: seq<Event<V>>, plan: Plan)
    requires ValidConfig(c) && ValidPlan(c, plan) && Follows(c, ss, es, plan) && c.o.op(c.o.dflt, c.o.dflt) == c.o.dflt
    ensures var total := Fold(c.o, ss[|es|].items, Snd());
            Exact(c, ss[|es|]) <==> PlannedDefaults(c.P, plan) == 0 || c.o.op(total, c.o.dflt) == total
  {
    hide Enabled, Apply, Init;
    PlannedResult(c, ss, es, plan);
    var total, k := Fold(c.o, ss[|es|].items, Snd()), PlannedDefaults(c.P, plan);
    if k == 0 { Laws(c.o, total, total, total); } else { PowerOfIdempotent(c.o, k); }
  }
}
