/** Garbage collection by get-counts for one item, on one or several processes
    (cnc/internal/item_collection_base.h, item_properties.h, get_list.h, hash_item_table.h).
    The owning process stores the item with the number g of gets the program will commit; other
    processes hold copies, and ship the gets committed there to the owner. */
module GetCounts {
  import opened Sums

  const NO_GET_COUNT: int := -0x8000_0000
  const UNSET_GET_COUNT: int := -0x7FFF_FFFF
  const NO_OWNER: int := -1

  /** The table entry of the item on one process; a placeholder has no item. */
  datatype Slot = NoEntry | Entry(item: bool, count: int, owner: int)

  datatype Config = Config(P: nat, owner: nat, g: nat)

  predicate ValidConfig(c: Config) { c.owner < c.P && c.g < 0x7FFF_FFFF }

  /** got: the process received the item at some time; commits: gets committed by each process;
      buffered: commits not yet sent; net: messages with commits on their way to the owner;
      early: at the put, all commits were known already; failed: an assertion or abort was hit. */
  datatype State = State(slots: seq<Slot>, buffered: seq<nat>, net: seq<nat>, commits: seq<nat>, got: seq<bool>,
                         erased: bool, early: bool, failed: bool)

  datatype Event = Put | Copy(p: nat) | Commit(p: nat) | Flush(p: nat) | Receive(i: nat) | EraseAlien(p: nat)

  function Init(c: Config): State {
    State(seq(c.P, i => NoEntry), seq(c.P, i => 0), [], seq(c.P, i => 0), seq(c.P, i => false), false, false, false)
  }

  function Number(): nat -> int { (n: nat) => n }

  ghost function Total(xs: seq<nat>): int { Sum(xs, Number()) }

  /** The get-count given with the item is the number of gets that are committed. */
  ghost predicate Enabled(c: Config, s: State, e: Event) {
    && Shape(c, s)
    && match e
       case Put => !s.got[c.owner]
       case Copy(p) => p < c.P && p != c.owner && !s.got[p]
       case Commit(p) => p < c.P && s.got[p] && Total(s.commits) < c.g
       case Flush(p) => p < c.P && s.buffered[p] > 0
       case Receive(i) => i < |s.net|
       case EraseAlien(p) => p < c.P && p != c.owner && s.erased
  }

  predicate Shape(c: Config, s: State) {
    ValidConfig(c) && |s.slots| == |s.buffered| == |s.commits| == |s.got| == c.P
  }

  /** set_or_increment_get_count: the new count; an unset count is replaced. */
  function SetOrIncrement(count: int, cnt: int): int {
    if count == UNSET_GET_COUNT then cnt else count + cnt
  }

  function CountOf(slot: Slot): int { if slot.Entry? then slot.count else UNSET_GET_COUNT }

  /** One decrement that was received from another process: a missing entry is created with count 0. */
  function Decrement(c: Config, s: State): (next: State)
    requires Shape(c, s)
    ensures Shape(c, next) && next.early == s.early
  {
    match s.slots[c.owner]
    case NoEntry => s.(slots := s.slots[c.owner := Entry(false, -1, NO_OWNER)])
    case Entry(item, count, owner) =>
      if count == NO_GET_COUNT || (owner == c.owner && count <= 0) then s.(failed := true)
      else
        var count' := SetOrIncrement(count, -1);
        if count' == 0 then s.(slots := s.slots[c.owner := NoEntry], erased := true)
        else s.(slots := s.slots[c.owner := Entry(item, count', owner)])
  }

  function DecrementAll(c: Config, s: State, n: nat): (next: State)
    requires Shape(c, s)
    ensures Shape(c, next) && next.early == s.early
    decreases n
  {
    if n == 0 then s else DecrementAll(c, Decrement(c, s), n - 1)
  }

  ghost function Apply(c: Config, s: State, e: Event): State
    requires Enabled(c, s, e)
  {
    match e
    case Put =>
      var s1 := s.(got := s.got[c.owner := true]);
      if c.g == 0 then s1.(erased := true)
      else
        var count := SetOrIncrement(CountOf(s.slots[c.owner]), c.g);
        s1.(slots := s.slots[c.owner := Entry(true, count, c.owner)], early := count == 0)
    case Copy(p) =>
      s.(got := s.got[p := true],
         slots := s.slots[p := Entry(true, SetOrIncrement(CountOf(s.slots[p]), 0), c.owner)])
    case Commit(p) =>
      var s1 := s.(commits := s.commits[p := s.commits[p] + 1]);
      if !s.slots[p].Entry? || !s.slots[p].item then s1.(failed := true)   // "initial ref count was too low"
      else if p == c.owner then Decrement(c, s1)
      else
        var count := SetOrIncrement(s.slots[p].count, -1);
        if count >= 0 then s1.(failed := true)
        else s1.(slots := s.slots[p := s.slots[p].(count := 0)],   // collect
                 buffered := s.buffered[p := s.buffered[p] - count])
    case Flush(p) => s.(net := s.net + [s.buffered[p]], buffered := s.buffered[p := 0])
    case Receive(i) => DecrementAll(c, s.(net := s.net[..i] + s.net[i + 1..]), s.net[i])
    case EraseAlien(p) => s.(slots := s.slots[p := NoEntry])
  }

  /** Commits the owner knows of, its own included. */
  ghost function Known(s: State): int {
    Total(s.commits) - Total(s.buffered) - Total(s.net)
  }

  ghost predicate OwnerOk(c: Config, s: State)
    requires Shape(c, s)
  {
    var slot := s.slots[c.owner];
    if s.erased then slot.NoEntry? && s.got[c.owner] && Known(s) == c.g && !s.early
    else if s.got[c.owner] then
      && slot.Entry? && slot.item && slot.owner == c.owner
      && slot.count == c.g - Known(s) && slot.count >= 0 && (slot.count == 0 <==> s.early)
    else
      && !s.early && s.commits[c.owner] == 0
      && (slot.NoEntry? ==> Known(s) == 0)
      && (slot.Entry? ==> !slot.item && slot.owner == NO_OWNER && slot.count == -Known(s) && Known(s) > 0)
  }

  ghost predicate AlienOk(c: Config, s: State, p: nat)
    requires Shape(c, s) && p < c.P
  {
    p != c.owner ==>
      && (s.slots[p].Entry? ==> s.slots[p].item && s.slots[p].count == 0)
      && (s.got[p] && !s.erased ==> s.slots[p].Entry?)
      && (!s.got[p] ==> s.commits[p] == 0 && s.slots[p].NoEntry?)
  }

  ghost predicate Inv(c: Config, s: State) {
    && Shape(c, s) && !s.failed
    && OwnerOk(c, s)
    && (forall p :: 0 <= p < c.P ==> AlienOk(c, s, p))
    && 0 <= Known(s) <= Total(s.commits) <= c.g
    && s.buffered[c.owner] == 0
  }

  lemma TotalUpdate(xs: seq<nat>, p: nat, n: nat)
    requires p < |xs|
    ensures Total(xs[p := n]) == Total(xs) - xs[p] + n
  {
    SumUpdate(xs, p, n, Number());
  }

  lemma TotalNonNegative(xs: seq<nat>)
    ensures Total(xs) >= 0 && forall i :: 0 <= i < |xs| ==> xs[i] <= Total(xs)
  {
    SumNonNegative(xs, Number());
    assert forall i :: 0 <= i < |xs| ==> Number()(xs[i]) == xs[i];
  }

  /** The owner's entry after n more decrements. */
  lemma {:induction false} DecrementsKnown(c: Config, s: State, n: nat)
    requires Shape(c, s) && !s.failed && !s.erased
    requires var slot := s.slots[c.owner];
             && (slot.Entry? && slot.item ==> slot.owner == c.owner && slot.count >= n && (slot.count == 0 ==> n == 0))
             && (slot.Entry? && !slot.item ==>
                   slot.owner == NO_OWNER && slot.count < 0 && slot.count - n > UNSET_GET_COUNT)
             && (slot.NoEntry? ==> 0 - n > UNSET_GET_COUNT)
    ensures var slot, s' := s.slots[c.owner], DecrementAll(c, s, n);
            && !s'.failed && s' == s.(slots := s.slots[c.owner := s'.slots[c.owner]], erased := s'.erased)
            && if n == 0 then s' == s
               else if slot.NoEntry? then !s'.erased && s'.slots[c.owner] == Entry(false, 0 - n, NO_OWNER)
               else if slot.item && slot.count == n then s'.erased && s'.slots[c.owner].NoEntry?
               else !s'.erased && s'.slots[c.owner] == slot.(count := slot.count - n)
    decreases n
  {
    if n > 0 {
      var s1 := Decrement(c, s);
      if !s1.erased { DecrementsKnown(c, s1, n - 1); }
    }
  }

  lemma InitInv(c: Config)
    requires ValidConfig(c)
    ensures Inv(c, Init(c))
  {
    SumZero(Init(c).commits, Number());
  }

  lemma StepKeepsInv(c: Config, s: State, e: Event)
    requires Inv(c, s) && Enabled(c, s, e)
    ensures Inv(c, Apply(c, s, e))
  {
    hide Total;
    TotalNonNegative(s.commits);
    TotalNonNegative(s.buffered);
    TotalNonNegative(s.net);
    match e {
      case Put => PutKeeps(c, s);
      case Copy(p) => CopyKeeps(c, s, p);
      case Commit(p) => CommitKeeps(c, s, p);
      case Flush(p) => FlushKeeps(c, s, p);
      case Receive(i) => ReceiveKeeps(c, s, i);
      case EraseAlien(p) => EraseKeeps(c, s, p);
    }
  }

  lemma PutKeeps(c: Config, s: State)
    requires Inv(c, s) && Enabled(c, s, Put)
    ensures Inv(c, Apply(c, s, Put))
  {
    hide Total;
    var s' := Apply(c, s, Put);
    forall p | 0 <= p < c.P ensures AlienOk(c, s', p) { assert AlienOk(c, s, p); }
  }

  lemma CopyKeeps(c: Config, s: State, p: nat)
    requires Inv(c, s) && Enabled(c, s, Copy(p))
    ensures Inv(c, Apply(c, s, Copy(p)))
  {
    hide Total;
    var s' := Apply(c, s, Copy(p));
    forall q | 0 <= q < c.P ensures AlienOk(c, s', q) { assert AlienOk(c, s, q); }
  }

  lemma CommitKeeps(c: Config, s: State, p: nat)
    requires Inv(c, s) && Enabled(c, s, Commit(p))
    ensures Inv(c, Apply(c, s, Commit(p)))
  {
    hide Total;
    var s' := Apply(c, s, Commit(p));
    TotalUpdate(s.commits, p, s.commits[p] + 1);
    TotalNonNegative(s.buffered);
    TotalNonNegative(s.net);
    assert AlienOk(c, s, p);
    if p != c.owner { TotalUpdate(s.buffered, p, s.buffered[p] + 1); }
    forall q | 0 <= q < c.P ensures AlienOk(c, s', q) { assert AlienOk(c, s, q); }
  }

  lemma FlushKeeps(c: Config, s: State, p: nat)
    requires Inv(c, s) && Enabled(c, s, Flush(p))
    ensures Inv(c, Apply(c, s, Flush(p)))
  {
    hide Total;
    var s' := Apply(c, s, Flush(p));
    TotalUpdate(s.buffered, p, 0);
    AppendTotal(s.net, s.buffered[p]);
    forall q | 0 <= q < c.P ensures AlienOk(c, s', q) { assert AlienOk(c, s, q); }
  }

  lemma AppendTotal(xs: seq<nat>, n: nat)
    ensures Total(xs + [n]) == Total(xs) + n
  {
    SumAppend(xs, [n], Number());
    SumOne(n, Number());
  }

  lemma RemoveTotal(xs: seq<nat>, i: nat)
    requires i < |xs|
    ensures Total(xs[..i] + xs[i + 1..]) == Total(xs) - xs[i]
  {
    SumRemove(xs, i, Number());
  }

  lemma ReceiveKeeps(c: Config, s: State, i: nat)
    requires Inv(c, s) && Enabled(c, s, Receive(i))
    ensures Inv(c, Apply(c, s, Receive(i)))
  {
    hide Total;
    var s1, s' := s.(net := s.net[..i] + s.net[i + 1..]), Apply(c, s, Receive(i));
    RemoveTotal(s.net, i);
    TotalNonNegative(s.net);
    TotalNonNegative(s1.net);
    TotalNonNegative(s.buffered);
    if s.net[i] > 0 { DecrementsKnown(c, s1, s.net[i]); }
    forall q | 0 <= q < c.P ensures AlienOk(c, s', q) { assert AlienOk(c, s, q); }
  }

  lemma EraseKeeps(c: Config, s: State, p: nat)
    requires Inv(c, s) && Enabled(c, s, EraseAlien(p))
    ensures Inv(c, Apply(c, s, EraseAlien(p)))
  {
    hide Total;
    var s' := Apply(c, s, EraseAlien(p));
    forall q | 0 <= q < c.P ensures AlienOk(c, s', q) { assert AlienOk(c, s, q); }
  }

  /*** theorems ***/

  ghost predicate Run(c: Config, ss: seq<State>, es: seq<Event>) {
    && ValidConfig(c) && |ss| == |es| + 1 && ss[0] == Init(c)
    && forall i :: 0 <= i < |es| ==> Enabled(c, ss[i], es[i]) && ss[i + 1] == Apply(c, ss[i], es[i])
  }

  lemma {:induction false} RunInv(c: Config, ss: seq<State>, es: seq<Event>, i: nat)
    requires Run(c, ss, es) && i < |ss|
    ensures Inv(c, ss[i])
  {
    hide Inv, Apply, Enabled;
    if i == 0 {
      InitInv(c);
    } else {
      RunInv(c, ss, es, i - 1);
      assert Enabled(c, ss[i - 1], es[i - 1]);
      StepKeepsInv(c, ss[i - 1], es[i - 1]);
    }
  }

  /** Conservation: while the owner stores the item, its count less what is buffered or in flight is g minus
      the committed gets; the counts of the copies are 0. No assertion fails, no get finds the item gone. */
  lemma Conservation(c: Config, ss: seq<State>, es: seq<Event>, i: nat)
    requires Run(c, ss, es) && i < |ss|
    ensures Shape(c, ss[i]) && !ss[i].failed
    ensures var s := ss[i];
            s.got[c.owner] && !s.erased ==>
              s.slots[c.owner].Entry? &&
              s.slots[c.owner].count - Total(s.buffered) - Total(s.net) == c.g - Total(s.commits)
    ensures forall p :: 0 <= p < c.P && p != c.owner && ss[i].slots[p].Entry? ==> ss[i].slots[p].count == 0
  {
    RunInv(c, ss, es, i);
    var s := ss[i];
    forall p | 0 <= p < c.P && p != c.owner && s.slots[p].Entry? ensures s.slots[p].count == 0 {
      assert AlienOk(c, s, p);
    }
  }

  /** What the code asserts when gets are counted holds: a commit finds the item, with gets left to count at the owner;
      decrements that arrive at the stored item do not exceed its count. */
  lemma AssertionsHold(c: Config, ss: seq<State>, es: seq<Event>, i: nat)
    requires Run(c, ss, es) && i < |es|
    ensures es[i].Commit? ==>
              var p := es[i].p;
              && p < |ss[i].slots| && ss[i].slots[p].Entry? && ss[i].slots[p].item
              && (p == c.owner ==> ss[i].slots[p].count >= 1)
    ensures es[i].Receive? && c.owner < |ss[i].slots| && ss[i].slots[c.owner].Entry? && ss[i].slots[c.owner].item ==>
              es[i].i < |ss[i].net| && ss[i].net[es[i].i] <= ss[i].slots[c.owner].count
  {
    hide Total;
    RunInv(c, ss, es, i);
    assert Enabled(c, ss[i], es[i]);
    var s := ss[i];
    TotalNonNegative(s.buffered);
    TotalNonNegative(s.net);
    if es[i].Commit? { assert AlienOk(c, s, es[i].p); }
  }

  /** Safety: the owner erases the item only after all g gets are committed, and no copy is dropped before. */
  lemma ErasedLate(c: Config, ss: seq<State>, es: seq<Event>, i: nat)
    requires Run(c, ss, es) && i < |ss|
    ensures ss[i].erased ==> Total(ss[i].commits) == c.g
    ensures Shape(c, ss[i])
    ensures forall p :: 0 <= p < c.P && ss[i].got[p] && Total(ss[i].commits) < c.g ==>
              ss[i].slots[p].Entry? && ss[i].slots[p].item
  {
    RunInv(c, ss, es, i);
    var s := ss[i];
    forall p | 0 <= p < c.P && s.got[p] && Total(s.commits) < c.g ensures s.slots[p].Entry? && s.slots[p].item {
      assert AlienOk(c, s, p);
    }
  }

  /** Everything is put, committed and delivered. */
  ghost predicate Settled(c: Config, s: State) {
    Shape(c, s) && s.got[c.owner] && Total(s.commits) == c.g && Total(s.buffered) == 0 && Total(s.net) == 0
  }

  /** Commits, flushes, receipts, copies and erasures of copies leave `early` and the owner's `got` alone. */
  lemma OnlyPutDecides(c: Config, s: State, e: Event)
    requires Enabled(c, s, e) && e != Put
    ensures Apply(c, s, e).early == s.early && Apply(c, s, e).got[c.owner] == s.got[c.owner]
  {
    hide Total;
    if e.Receive? { DecrementsKeepGot(c, s.(net := s.net[..e.i] + s.net[e.i + 1..]), s.net[e.i]); }
  }

  lemma {:induction false} DecrementsKeepGot(c: Config, s: State, n: nat)
    requires Shape(c, s)
    ensures DecrementAll(c, s, n).got == s.got
    decreases n
  {
    if n > 0 { DecrementsKeepGot(c, Decrement(c, s), n - 1); }
  }

  /** The owner puts once, and `early` records whether the put found all g decrements there. */
  lemma {:induction false} PutDecides(c: Config, ss: seq<State>, es: seq<Event>, i: nat)
    requires Run(c, ss, es) && i < |ss|
    ensures Shape(c, ss[i]) && (ss[i].got[c.owner] <==> Put in es[..i])
    ensures forall j :: 0 <= j < i && es[j] == Put ==> (ss[i].early <==> c.g > 0 && Known(ss[j]) == c.g)
  {
    hide Known, Apply, Total;
    RunInv(c, ss, es, i);
    if i > 0 {
      var s, e := ss[i - 1], es[i - 1];
      PutDecides(c, ss, es, i - 1);
      RunInv(c, ss, es, i - 1);
      assert Enabled(c, s, e) && ss[i] == Apply(c, s, e);
      assert es[..i] == es[..i - 1] + [e];
      if e == Put { PutEarly(c, s); } else { OnlyPutDecides(c, s, e); }
      forall j | 0 <= j < i - 1 && es[j] == Put ensures e != Put { assert es[..i - 1][j] == Put; }
    }
  }

  lemma PutEarly(c: Config, s: State)
    requires Inv(c, s) && Enabled(c, s, Put)
    ensures Apply(c, s, Put).early <==> c.g > 0 && Known(s) == c.g
    ensures Apply(c, s, Put).got[c.owner]
  {
    hide Total;
  }

  lemma {:induction false} DecrementsKeepOthers(c: Config, s: State, n: nat, p: nat)
    requires Shape(c, s) && p < c.P && p != c.owner
    ensures var s' := DecrementAll(c, s, n); s'.slots[p] == s.slots[p] && s'.got == s.got && (s.erased ==> s'.erased)
    decreases n
  {
    if n > 0 { DecrementsKeepOthers(c, Decrement(c, s), n - 1, p); }
  }

  /** The copy that p received is gone. */
  predicate CopyGone(c: Config, s: State, p: nat) {
    Shape(c, s) && p < c.P && p != c.owner && s.erased && s.got[p] && s.slots[p].NoEntry?
  }

  lemma StaysGone(c: Config, s: State, e: Event, p: nat)
    requires Inv(c, s) && Enabled(c, s, e) && CopyGone(c, s, p)
    ensures CopyGone(c, Apply(c, s, e), p)
  {
    hide Total;
    TotalNonNegative(s.buffered);
    TotalNonNegative(s.net);
    if e.Receive? { DecrementsKeepOthers(c, s.(net := s.net[..e.i] + s.net[e.i + 1..]), s.net[e.i], p); }
  }

  /** A copy that was there when the erasure reached its process is erased for good. */
  lemma {:induction false} CopiesErased(c: Config, ss: seq<State>, es: seq<Event>, j: nat, i: nat, p: nat)
    requires Run(c, ss, es) && j < i < |ss| && es[j] == EraseAlien(p) && p < |ss[j].got| && ss[j].got[p]
    ensures CopyGone(c, ss[i], p)
    decreases i
  {
    hide Inv, Apply, CopyGone;
    var s, e := ss[i - 1], es[i - 1];
    RunInv(c, ss, es, i - 1);
    assert Enabled(c, s, e) && ss[i] == Apply(c, s, e);
    if j < i - 1 {
      CopiesErased(c, ss, es, j, i - 1, p);
      StaysGone(c, s, e, p);
    } else {
      ErasureErases(c, s, p);
    }
  }

  lemma ErasureErases(c: Config, s: State, p: nat)
    requires Inv(c, s) && Enabled(c, s, EraseAlien(p)) && s.got[p]
    ensures CopyGone(c, Apply(c, s, EraseAlien(p)), p)
  {
  }

  /** In the end the item is reclaimed, if and only if the owner's put, of which there is one, did not come after
      all of the (one or more) decrements: if it did, it makes the count 0 and nobody looks at it again. */
  lemma ReclaimedIff(c: Config, ss: seq<State>, es: seq<Event>, i: nat)
    requires Run(c, ss, es) && i < |ss| && Settled(c, ss[i])
    ensures exists j :: 0 <= j < i && es[j] == Put
    ensures forall j :: 0 <= j < i && es[j] == Put ==> (ss[i].erased <==> !(c.g > 0 && Known(ss[j]) == c.g))
  {
    hide Total;
    RunInv(c, ss, es, i);
    PutDecides(c, ss, es, i);
    var j :| 0 <= j < i && es[..i][j] == Put;
    assert es[j] == Put;
  }
}
