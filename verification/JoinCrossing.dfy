/** A run of the distributed join in which two announcements cross and a pair is never put. */
module JoinCrossing {
  import opened Joins

  function CrossEvents(a: A, b: B): seq<Event> {
    [AnnounceA(a, 0), AnnounceB(b, 1), Receive(0), Receive(0), InsertA(a), InsertB(b)]
  }

  function CrossStates(a: A, b: B): seq<State> {
    var ha, hb, none := map[a := 0], map[b := 1], multiset{};
    [Init(),
     State(ha, map[], {}, {}, [JoinA(a, 1)], {}, {}, {}, {}, none),
     State(ha, hb, {}, {}, [JoinA(a, 1), JoinB(b, 0)], {}, {}, {}, {}, none),
     State(ha, hb, {}, {}, [JoinB(b, 0)], {(a, 1)}, {}, {}, {}, none),
     State(ha, hb, {}, {}, [], {(a, 1)}, {(b, 0)}, {}, {}, none),
     State(ha, hb, {a}, {}, [], {(a, 1)}, {(b, 0)}, {}, {(a, b)}, none),
     State(ha, hb, {a}, {b}, [], {(a, 1)}, {(b, 0)}, {(a, b)}, {(a, b)}, none)]
  }

  ghost predicate CrossStep(a: A, b: B, i: nat)
    requires i < 6
  {
    Enabled(2, CrossStates(a, b)[i], CrossEvents(a, b)[i]) &&
    CrossStates(a, b)[i + 1] == Apply(2, CrossStates(a, b)[i], CrossEvents(a, b)[i])
  }

  lemma BcastOfTwo(a: A, b: B)
    ensures BcastA(a, 0, 0, 2) == [JoinA(a, 1)] && BcastB(b, 1, 0, 2) == [JoinB(b, 0)]
  {
    assert BcastA(a, 0, 2, 2) == [] && BcastB(b, 1, 2, 2) == [];
    assert BcastA(a, 0, 1, 2) == [JoinA(a, 1)] && BcastB(b, 1, 1, 2) == [];
  }

  lemma CrossAnnouncedA(a: A, b: B)
    ensures CrossStep(a, b, 0)
  {
    BcastOfTwo(a, b);
    hide BcastA, BcastB;
    assert CrossStates(a, b)[0].net == [];
  }

  lemma CrossAnnouncedB(a: A, b: B)
    ensures CrossStep(a, b, 1)
  {
    BcastOfTwo(a, b);
    hide BcastA, BcastB;
  }

  lemma CrossReceivedA(a: A, b: B)
    ensures CrossStep(a, b, 2)
  {
    var s := CrossStates(a, b)[2];
    assert s.net[..0] + s.net[1..] == [JoinB(b, 0)];
    assert PairsOfA(s, a, 1) == {};
    hide PairsOfA, PairsOfB;
  }

  lemma CrossReceivedB(a: A, b: B)
    ensures CrossStep(a, b, 3)
  {
    var s := CrossStates(a, b)[3];
    assert s.net[..0] + s.net[1..] == [];
    assert PairsOfB(s, b, 0) == {};
    hide PairsOfA, PairsOfB;
  }

  lemma CrossInsertedA(a: A, b: B)
    ensures CrossStep(a, b, 4)
  {
    var s := CrossStates(a, b)[4];
    assert PairsOfA(s, a, 0) == {};
    hide PairsOfA, PairsOfB;
    assert s.recvB == {(b, 0)};
    assert (set x | x in s.recvB && x.1 == 0 :: (a, x.0)) == {(a, b)} by { assert (b, 0) in s.recvB; }
  }

  lemma CrossInsertedB(a: A, b: B)
    ensures CrossStep(a, b, 5)
  {
    var s := CrossStates(a, b)[5];
    assert PairsOfB(s, b, 1) == {};
    hide PairsOfA, PairsOfB;
    assert s.recvA == {(a, 1)};
    assert (set x | x in s.recvA && x.1 == 1 :: (x.0, b)) == {(a, b)} by { assert (a, 1) in s.recvA; }
  }

  lemma CrossLengths(a: A, b: B)
    ensures |CrossStates(a, b)| == 7 && |CrossEvents(a, b)| == 6 && CrossStates(a, b)[0] == Init()
  {
  }

  lemma CrossRuns(a: A, b: B)
    ensures Run(2, CrossStates(a, b), CrossEvents(a, b))
  {
    CrossLengths(a, b);
    CrossAnnouncedA(a, b);
    CrossAnnouncedB(a, b);
    CrossReceivedA(a, b);
    CrossReceivedB(a, b);
    CrossInsertedA(a, b);
    CrossInsertedB(a, b);
    hide CrossStates, CrossEvents, Enabled, Apply, Init;
    forall i | 0 <= i < 6 ensures CrossStep(a, b, i) {}
  }

  /** A run of the code's order, announcing before inserting, that never puts the pair (a, b): both
      announcements arrive before either tag is inserted. */
  lemma CrossingMisses(a: A, b: B)
    ensures Run(2, CrossStates(a, b), CrossEvents(a, b))
    ensures var s := CrossStates(a, b)[6]; Settled(s) && a in s.homeA && b in s.homeB && s.out[(a, b)] == 0
  {
    CrossRuns(a, b);
    hide Run;
    assert CrossStates(a, b)[6].homeA.Keys == {a} && CrossStates(a, b)[6].homeB.Keys == {b};
  }
}
