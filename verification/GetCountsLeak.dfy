/** A run of distributed garbage collection in which the item is never reclaimed. */
module GetCountsLeak {
  import opened Sums
  import opened GetCounts

  function LeakEvents(): seq<Event> { [Copy(1), Commit(1), Flush(1), Receive(0), Put] }

  function LeakStates(): seq<State> {
    var copy := Entry(true, 0, 0);
    [State([NoEntry, NoEntry], [0, 0], [], [0, 0], [false, false], false, false, false),
     State([NoEntry, copy], [0, 0], [], [0, 0], [false, true], false, false, false),
     State([NoEntry, copy], [0, 1], [], [0, 1], [false, true], false, false, false),
     State([NoEntry, copy], [0, 0], [1], [0, 1], [false, true], false, false, false),
     State([Entry(false, -1, NO_OWNER), copy], [0, 0], [], [0, 1], [false, true], false, false, false),
     State([Entry(true, 0, 0), copy], [0, 0], [], [0, 1], [true, true], false, true, false)]
  }

  ghost predicate LeakStep(i: nat)
    requires i < 5
  {
    var c, ss, es := Config(2, 0, 1), LeakStates(), LeakEvents();
    Enabled(c, ss[i], es[i]) && ss[i + 1] == Apply(c, ss[i], es[i])
  }

  lemma TwoTotal(a: nat, b: nat)
    ensures Total([a, b]) == a + b
  {
    SumOne(a, Number());
    AppendTotal([a], b);
    assert [a] + [b] == [a, b];
  }

  lemma LeakStarts()
    ensures LeakStates()[0] == Init(Config(2, 0, 1)) && |LeakStates()| == 6 && |LeakEvents()| == 5
  {
  }

  lemma LeakCopies()
    ensures LeakStep(0) && LeakStep(1)
  {
    TwoTotal(0, 0);
    hide Total;
  }

  lemma LeakReports()
    ensures LeakStep(2) && LeakStep(4)
  {
    hide Total;
  }

  lemma LeakReceives()
    ensures LeakStep(3)
  {
    hide Total;
    var c, s := Config(2, 0, 1), LeakStates()[3];
    var s1 := s.(net := []);
    assert s.net[..0] + s.net[1..] == [];
    assert DecrementAll(c, s1, 1) == Decrement(c, s1);
  }

  lemma LeakRuns()
    ensures Run(Config(2, 0, 1), LeakStates(), LeakEvents())
  {
    LeakStarts();
    LeakCopies();
    LeakReports();
    LeakReceives();
    hide LeakStates, LeakEvents, Enabled, Apply, Init;
    forall i | 0 <= i < 5 ensures LeakStep(i) {}
  }

  /** A run in which the item stays forever: process 0, which creates and owns it, delivers it to process 1 before
      it puts it into its own table; process 1 gets it, commits the one get and reports that, and the report is
      received before the put. */
  lemma Leak()
    ensures Run(Config(2, 0, 1), LeakStates(), LeakEvents())
    ensures Settled(Config(2, 0, 1), LeakStates()[5]) && !LeakStates()[5].erased
  {
    LeakRuns();
    hide Run;
    TwoTotal(0, 0);
    TwoTotal(0, 1);
  }
}
