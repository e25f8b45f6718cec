/** The list of counted gets of one run of a step. Committing the run takes every get off the count of
    its item, and erases items whose count becomes 0; a run that is replayed counts nothing
    (cnc/internal/get_list.h, tagged_step_instance.h, item_collection_base.h). */
module GetLists {

  type Tag(==, !new)

  function Occurs(tags: seq<Tag>, t: Tag): nat {
    if tags == [] then 0 else (if tags[0] == t then 1 else 0) + Occurs(tags[1..], t)
  }

  lemma {:induction false} OccursSnoc(tags: seq<Tag>, u: Tag, t: Tag)
    ensures Occurs(tags + [u], t) == Occurs(tags, t) + if u == t then 1 else 0
  {
    if tags == [] {
      assert [u][1..] == [];
    } else {
      assert (tags + [u])[1..] == tags[1..] + [u];
      OccursSnoc(tags[1..], u, t);
    }
  }

  lemma {:induction false} OccursPrefix(tags: seq<Tag>, i: nat, t: Tag)
    requires i <= |tags|
    ensures Occurs(tags[..i], t) <= Occurs(tags, t)
    decreases |tags| - i
  {
    if i == |tags| {
      assert tags[..i] == tags;
    } else {
      OccursPrefix(tags, i + 1, t);
      assert tags[..i + 1] == tags[..i] + [tags[i]];
      OccursSnoc(tags[..i], tags[i], t);
    }
  }

  /** now is before, less the gets in tags; items whose count reached 0 are gone. */
  ghost predicate Reduced(before: map<Tag, int>, tags: seq<Tag>, now: map<Tag, int>) {
    && (forall t :: t in now <==> t in before && before[t] != Occurs(tags, t))
    && (forall t :: t in now ==> now[t] == before[t] - Occurs(tags, t))
  }

  /** Enough gets were announced: the initial counts are not too low. */
  ghost predicate Covers(counts: map<Tag, int>, tags: seq<Tag>) {
    forall t :: t in tags ==> t in counts && counts[t] >= Occurs(tags, t)
  }

  /** The counts of the items that are stored. */
  class ItemTable {
    var counts: map<Tag, int>

    ghost predicate Valid()
      reads this
    {
      forall t :: t in counts ==> counts[t] > 0
    }

    constructor ()
      ensures Valid() && counts == map[]
    {
      counts := map[];
    }

    /** A put with get-count g: with a count of 0 the item is not stored at all. */
    method Put(t: Tag, g: nat)
      requires Valid() && t !in counts
      modifies this
      ensures Valid() && counts == if g == 0 then old(counts) else old(counts)[t := g]
    {
      if g != 0 { counts := counts[t := g]; }
    }

    /** The result is false if the item is not there: its initial count was too low. */
    method DecrementRefCount(t: Tag) returns (found: bool)
      requires Valid()
      modifies this
      ensures Valid() && (found <==> t in old(counts))
      ensures found ==> counts == if old(counts)[t] == 1 then old(counts) - {t}
          else old(counts)[t := old(counts)[t] - 1]
      ensures !found ==> counts == old(counts)
    {
      found := t in counts;
      if found {
        var gc := counts[t] - 1;
        if gc == 0 { counts := counts - {t}; } else { counts := counts[t := gc]; }
      }
    }
  }

  class GetList {
    var list: seq<Tag>

    constructor ()
      ensures list == []
    {
      list := [];
    }

    method Push(t: Tag)
      modifies this
      ensures list == old(list) + [t]
    {
      list := list + [t];
    }

    method Clear()
      modifies this
      ensures list == []
    {
      list := [];
    }

    /** Without announced counts that cover the list, some get finds its item gone. */
    method Decrement(table: ItemTable) returns (ok: bool)
      requires table.Valid()
      modifies table
      ensures table.Valid() && (ok <==> Covers(old(table.counts), list))
      ensures ok ==> Reduced(old(table.counts), list, table.counts)
    {
      ok := true;
      ghost var before := table.counts;
      var i := 0;
      while i < |list|
        invariant 0 <= i <= |list| && table.Valid()
        invariant ok <==> Covers(before, list[..i])
        invariant ok ==> Reduced(before, list[..i], table.counts)
      {
        ghost var counts := table.counts;
        var found := table.DecrementRefCount(list[i]);
        OneMore(before, list, i, counts, table.counts, ok, found);
        ok := ok && found;
        i := i + 1;
      }
      assert list[..i] == list;
    }

    /** do_execute of a step that gets these items: the run counts if it succeeds, and not otherwise. */
    method RunStep(gets: seq<Tag>, success: bool, table: ItemTable) returns (ok: bool)
      requires table.Valid() && list == []
      modifies this, table
      ensures list == [] && table.Valid()
      ensures !success ==> ok && table.counts == old(table.counts)
      ensures success ==>
                (ok <==> Covers(old(table.counts), gets)) && (ok ==> Reduced(old(table.counts), gets, table.counts))
    {
      var i := 0;
      while i < |gets|
        invariant 0 <= i <= |gets| && list == gets[..i] && table.Valid() && table.counts == old(table.counts)
      {
        Push(gets[i]);
        i := i + 1;
      }
      assert gets[..i] == gets;
      ok := true;
      if success { ok := Decrement(table); }
      Clear();
    }
  }

  lemma OneMore(before: map<Tag, int>, list: seq<Tag>, i: nat, counts: map<Tag, int>, counts': map<Tag, int>,
      ok: bool, found: bool)
    requires i < |list| && (forall t :: t in before ==> before[t] > 0)
    requires ok <==> Covers(before, list[..i])
    requires ok ==> Reduced(before, list[..i], counts)
    requires found <==> list[i] in counts
    requires found ==> counts' == if counts[list[i]] == 1 then counts - {list[i]}
        else counts[list[i] := counts[list[i]] - 1]
    ensures ok && found <==> Covers(before, list[..i + 1])
    ensures ok && found ==> Reduced(before, list[..i + 1], counts')
  {
    var u, now := list[i], list[..i + 1];
    assert now == list[..i] + [u];
    forall t ensures Occurs(now, t) == Occurs(list[..i], t) + (if u == t then 1 else 0) { OccursSnoc(list[..i], u, t); }
    forall t ensures t in now <==> t in list[..i] || t == u {}
    assert u in now;
    if ok {
      if u in counts { assert before[u] - Occurs(list[..i], u) != 0; InCovered(before, list[..i], u); }
    }
  }

  lemma InCovered(before: map<Tag, int>, tags: seq<Tag>, u: Tag)
    requires Covers(before, tags) && u in before && before[u] > 0
    ensures before[u] >= Occurs(tags, u)
  {
    if u !in tags { NotIn(tags, u); }
  }

  lemma {:induction false} NotIn(tags: seq<Tag>, u: Tag)
    requires u !in tags
    ensures Occurs(tags, u) == 0
  {
    if tags != [] { NotIn(tags[1..], u); }
  }

  /** Committed runs, one after the other, take the gets of all of them off the counts: an item is
      erased by exactly the run that brings the total to its get-count. */
  lemma CommitsAddUp(c0: map<Tag, int>, a: seq<Tag>, c1: map<Tag, int>, b: seq<Tag>, c2: map<Tag, int>)
    requires forall t :: t in c0 ==> c0[t] > 0
    requires Covers(c0, a) && Reduced(c0, a, c1) && Covers(c1, b) && Reduced(c1, b, c2)
    ensures Covers(c0, a + b) && Reduced(c0, a + b, c2)
  {
    forall t ensures Occurs(a + b, t) == Occurs(a, t) + Occurs(b, t) { OccursAppend(a, b, t); }
    forall t | t in c0 ensures c0[t] >= Occurs(a, t) { InCovered(c0, a, t); }
    forall t | t !in b ensures Occurs(b, t) == 0 { NotIn(b, t); }
    forall t | t !in a ensures Occurs(a, t) == 0 { NotIn(a, t); }
  }

  lemma {:induction false} OccursAppend(a: seq<Tag>, b: seq<Tag>, t: Tag)
    ensures Occurs(a + b, t) == Occurs(a, t) + Occurs(b, t)
  {
    if a == [] {
      assert a + b == b;
    } else {
      assert (a + b)[1..] == a[1..] + b;
      OccursAppend(a[1..], b, t);
    }
  }
}
