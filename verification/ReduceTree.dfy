/** The broadcast/gather tree that every reduction owner is the root of
    (cnc/reduce.h: my_parent_for_root and bcast). Processes are 0..P-1. */
module ReduceTree {
  import opened Division

  /** Position of process `me` in the tree rooted at `root`; the root has rank 0. */
  function Rank(me: nat, root: nat, P: nat): nat
    requires me < P && root < P
  {
    if me >= root then me - root else me + P - root
  }

  /** The remainder of a by P, one multiple of P at a time (see ModIsRemainder). */
  function Mod(a: nat, P: nat): (r: nat)
    requires P > 0
    ensures r < P
    decreases a
  {
    if a < P then a else Mod(a - P, P)
  }

  lemma {:induction false} ModQuotient(a: nat, P: nat) returns (q: nat)
    requires P > 0
    ensures a == q * P + Mod(a, P)
    decreases a
  {
    if a < P {
      q := 0;
    } else {
      q := ModQuotient(a - P, P);
      q := q + 1;
    }
  }

  lemma ModIsRemainder(a: nat, P: nat)
    requires P > 0
    ensures Mod(a, P) == a % P
  {
    var q := ModQuotient(a, P);
    DivUnique(a, P, q, Mod(a, P));
  }

  /** my_parent_for_root */
  function Parent(me: nat, root: nat, P: nat): nat
    requires me < P && root < P && me != root
  {
    Mod((Rank(me, root, P) - 1) / 2 + root, P)
  }

  /** The recipients bcast sends to. */
  function Kids(me: nat, root: nat, P: nat): seq<nat>
    requires me < P && root < P
  {
    var r1 := (Rank(me, root, P) + 1) * 2 - 1;
    if r1 < P then
      var k := Mod(root + r1, P);
      if r1 < P - 1 then [k, Mod(k + 1, P)] else [k]
    else []
  }

  /** All deliveries of one broadcast that is forwarded from `me` downwards. */
  function Deliveries(me: nat, root: nat, P: nat): seq<nat>
    requires me < P && root < P
    decreases P - Rank(me, root, P), 1
  {
    KidsInTree(me, root, P);
    Forward(Kids(me, root, P), me, root, P)
  }

  function Forward(ks: seq<nat>, me: nat, root: nat, P: nat): seq<nat>
    requires me < P && root < P
    requires forall i :: 0 <= i < |ks| ==> ks[i] < P && Rank(ks[i], root, P) > Rank(me, root, P)
    decreases P - Rank(me, root, P), 0, |ks|
  {
    if ks == [] then []
    else [ks[0]] + Deliveries(ks[0], root, P) + Forward(ks[1..], me, root, P)
  }

  lemma ModAdd(a: nat, P: nat)
    requires a < 2 * P
    ensures Mod(a, P) == if a < P then a else a - P
  {
    if a >= P {
      assert a == P * 1 + (a - P);
    }
  }

  lemma RankOfShift(r: nat, root: nat, P: nat)
    requires r < P && root < P
    ensures Mod(root + r, P) < P
    ensures Rank(Mod(root + r, P), root, P) == r
  {
    ModAdd(root + r, P);
  }

  lemma RankInjective(a: nat, b: nat, root: nat, P: nat)
    requires a < P && b < P && root < P
    ensures Rank(a, root, P) < P
    ensures Rank(a, root, P) == Rank(b, root, P) ==> a == b
    ensures Rank(a, root, P) == 0 <==> a == root
  {
  }

  /** Ranks of parent and children, from which everything else follows. */
  lemma TreeRanks(me: nat, root: nat, P: nat)
    requires me < P && root < P
    ensures me != root ==> Parent(me, root, P) < P &&
                           Rank(Parent(me, root, P), root, P) == (Rank(me, root, P) - 1) / 2
    ensures var r, ks := Rank(me, root, P), Kids(me, root, P);
            && |ks| == (if 2 * r + 2 < P then 2 else if 2 * r + 1 < P then 1 else 0)
            && (forall i :: 0 <= i < |ks| ==> ks[i] < P && Rank(ks[i], root, P) == 2 * r + 1 + i)
  {
    var r := Rank(me, root, P);
    if me != root { RankOfShift((r - 1) / 2, root, P); }
    var r1 := (r + 1) * 2 - 1;
    if r1 < P {
      var k := Mod(root + r1, P);
      RankOfShift(r1, root, P);
      if r1 < P - 1 {
        RankOfShift(r1 + 1, root, P);
        ModAdd(root + r1, P);
        ModAdd(k + 1, P);
        ModAdd(root + r1 + 1, P);
      }
    }
  }

  lemma ParentDiffers(q: nat, root: nat, P: nat)
    requires q < P && root < P && q != root
    ensures Parent(q, root, P) < P && Parent(q, root, P) != q
    ensures Rank(Parent(q, root, P), root, P) < Rank(q, root, P)
  {
    TreeRanks(q, root, P);
  }

  lemma KidsInTree(me: nat, root: nat, P: nat)
    requires me < P && root < P
    ensures var ks := Kids(me, root, P);
            forall i :: 0 <= i < |ks| ==> ks[i] < P && Rank(ks[i], root, P) > Rank(me, root, P)
  {
    TreeRanks(me, root, P);
  }

  /** Parent and children are mutually inverse: p broadcasts to q exactly if q reports to p.
      No process is listed twice. */
  lemma KidsAndParent(p: nat, q: nat, root: nat, P: nat)
    requires p < P && q < P && root < P
    ensures q in Kids(p, root, P) <==> q != root && Parent(q, root, P) == p
    ensures |Kids(p, root, P)| == 2 ==> Kids(p, root, P)[0] != Kids(p, root, P)[1]
  {
    TreeRanks(p, root, P);
    TreeRanks(q, root, P);
    var ks, r, rq := Kids(p, root, P), Rank(p, root, P), Rank(q, root, P);
    if q != root && Parent(q, root, P) == p {
      var i := rq - 1 - 2 * r;
      assert 0 <= i < |ks|;
      RankInjective(ks[i], q, root, P);
    }
    if q in ks {
      var i :| 0 <= i < |ks| && ks[i] == q;
      assert (2 * r + 1 + i - 1) / 2 == r;
      RankInjective(Parent(q, root, P), p, root, P);
    }
  }

  /** q lies below (or is) p. */
  ghost predicate Below(q: nat, p: nat, root: nat, P: nat)
    requires p < P && q < P && root < P
    decreases Rank(q, root, P)
  {
    q == p || (q != root && (TreeRanks(q, root, P); Below(Parent(q, root, P), p, root, P)))
  }

  /** Every parent chain ends at the root. */
  lemma {:induction false} AllBelowRoot(q: nat, root: nat, P: nat)
    requires q < P && root < P
    ensures Below(q, root, root, P)
    decreases Rank(q, root, P)
  {
    if q != root {
      TreeRanks(q, root, P);
      AllBelowRoot(Parent(q, root, P), root, P);
    }
  }

  lemma {:induction false} BelowRank(q: nat, p: nat, root: nat, P: nat)
    requires p < P && q < P && root < P
    requires Below(q, p, root, P)
    ensures Rank(q, root, P) >= Rank(p, root, P)
    decreases Rank(q, root, P)
  {
    if q != p {
      TreeRanks(q, root, P);
      BelowRank(Parent(q, root, P), p, root, P);
    }
  }

  /** A proper descendant of p lies below exactly one child of p. */
  lemma {:induction false} BelowKid(q: nat, p: nat, root: nat, P: nat) returns (i: nat)
    requires p < P && q < P && root < P && q != p
    requires Below(q, p, root, P)
    ensures i < |Kids(p, root, P)|
    ensures Kids(p, root, P)[i] < P && Below(q, Kids(p, root, P)[i], root, P)
    decreases Rank(q, root, P)
  {
    TreeRanks(q, root, P);
    TreeRanks(p, root, P);
    var par := Parent(q, root, P);
    if par == p {
      KidsAndParent(p, q, root, P);
      i :| 0 <= i < |Kids(p, root, P)| && Kids(p, root, P)[i] == q;
    } else {
      i := BelowKid(par, p, root, P);
    }
  }

  lemma {:induction false} BelowUnique(q: nat, a: nat, b: nat, root: nat, P: nat)
    requires a < P && b < P && q < P && root < P
    requires Below(q, a, root, P) && Below(q, b, root, P)
    ensures Below(a, b, root, P) || Below(b, a, root, P)
    decreases Rank(q, root, P)
  {
    if q != a && q != b {
      TreeRanks(q, root, P);
      BelowUnique(Parent(q, root, P), a, b, root, P);
    }
  }

  lemma KidNotBelowSibling(p: nat, i: nat, j: nat, root: nat, P: nat)
    requires p < P && root < P
    requires i < |Kids(p, root, P)| && j < |Kids(p, root, P)| && i != j
    requires Kids(p, root, P)[i] < P && Kids(p, root, P)[j] < P
    ensures !Below(Kids(p, root, P)[i], Kids(p, root, P)[j], root, P)
  {
    var ks := Kids(p, root, P);
    TreeRanks(p, root, P);
    KidsAndParent(p, ks[i], root, P);
    assert ks[i] in ks;
    if Below(ks[i], ks[j], root, P) {
      assert Below(p, ks[j], root, P);
      BelowRank(p, ks[j], root, P);
    }
  }

  /** A broadcast forwarded from p delivers once to each proper descendant of p, and to nobody else. */
  lemma {:induction false} DeliveriesExact(p: nat, q: nat, root: nat, P: nat)
    requires p < P && q < P && root < P
    ensures multiset(Deliveries(p, root, P))[q] == if q != p && Below(q, p, root, P) then 1 else 0
    decreases P - Rank(p, root, P), 1
  {
    TreeRanks(p, root, P);
    KidsInTree(p, root, P);
    var ks := Kids(p, root, P);
    forall i | 0 <= i < |ks| ensures ks[i] < P {}
    ForwardExact(0, p, q, root, P);
    assert ks[0..] == ks;
    if q != p && Below(q, p, root, P) {
      var i := BelowKid(q, p, root, P);
      assert exists i :: 0 <= i < |ks| && Below(q, ks[i], root, P);
    } else {
      forall i | 0 <= i < |ks| ensures !Below(q, ks[i], root, P) {
        if Below(q, ks[i], root, P) {
          assert ks[i] in ks;
          KidsAndParent(p, ks[i], root, P);
          BelowTrans(q, ks[i], p, root, P);
          BelowRank(q, ks[i], root, P);
        }
      }
    }
  }

  lemma {:induction false} BelowTrans(q: nat, k: nat, p: nat, root: nat, P: nat)
    requires p < P && q < P && k < P && root < P && k != root
    requires Below(q, k, root, P) && Parent(k, root, P) == p
    ensures Below(q, p, root, P)
    decreases Rank(q, root, P)
  {
    TreeRanks(q, root, P);
    if q == k {
      assert Below(Parent(q, root, P), p, root, P);
    } else {
      BelowTrans(Parent(q, root, P), k, p, root, P);
    }
  }

  lemma {:induction false} ForwardExact(from: nat, p: nat, q: nat, root: nat, P: nat)
    requires p < P && q < P && root < P && from <= |Kids(p, root, P)|
    requires forall i :: 0 <= i < |Kids(p, root, P)| ==>
               Kids(p, root, P)[i] < P && Rank(Kids(p, root, P)[i], root, P) > Rank(p, root, P)
    ensures multiset(Forward(Kids(p, root, P)[from..], p, root, P))[q] ==
            if exists i :: from <= i < |Kids(p, root, P)| && Below(q, Kids(p, root, P)[i], root, P) then 1 else 0
    decreases P - Rank(p, root, P), 0, |Kids(p, root, P)| - from
  {
    var ks := Kids(p, root, P);
    var rest := ks[from..];
    if from < |ks| {
      assert rest[0] == ks[from] && rest[1..] == ks[from + 1..];
      var k := ks[from];
      DeliveriesExact(k, q, root, P);
      ForwardExact(from + 1, p, q, root, P);
      var d, f := Deliveries(k, root, P), Forward(ks[from + 1..], p, root, P);
      assert Forward(rest, p, root, P) == [k] + d + f;
      assert multiset(Forward(rest, p, root, P)) == multiset([k]) + multiset(d) + multiset(f);
      if Below(q, k, root, P) {
        forall i | from + 1 <= i < |ks| ensures !Below(q, ks[i], root, P) {
          if Below(q, ks[i], root, P) {
            BelowUnique(q, k, ks[i], root, P);
            KidNotBelowSibling(p, from, i, root, P);
            KidNotBelowSibling(p, i, from, root, P);
          }
        }
      }
    }
  }

  /** One broadcast reaches every process but the root exactly once, with P-1 messages. */
  lemma BroadcastReachesAllOnce(root: nat, P: nat)
    requires root < P
    ensures forall q: nat :: q < P ==> multiset(Deliveries(root, root, P))[q] == if q == root then 0 else 1
    ensures forall q :: q in Deliveries(root, root, P) ==> q < P
    ensures |Deliveries(root, root, P)| == P - 1
  {
    var d: multiset<nat> := multiset(Deliveries(root, root, P));
    forall q: nat | q < P ensures d[q] == if q == root then 0 else 1 {
      DeliveriesExact(root, q, root, P);
      AllBelowRoot(q, root, P);
    }
    DeliveriesInTree(root, root, P);
    assert forall q :: q in d ==> q in Deliveries(root, root, P);
    CountBelow(d, root, P);
  }

  lemma {:induction false} DeliveriesInTree(p: nat, root: nat, P: nat)
    requires p < P && root < P
    ensures forall q :: q in Deliveries(p, root, P) ==> q < P
    decreases P - Rank(p, root, P), 1
  {
    KidsInTree(p, root, P);
    ForwardInTree(Kids(p, root, P), p, root, P);
  }

  lemma {:induction false} ForwardInTree(ks: seq<nat>, p: nat, root: nat, P: nat)
    requires p < P && root < P
    requires forall i :: 0 <= i < |ks| ==> ks[i] < P && Rank(ks[i], root, P) > Rank(p, root, P)
    ensures forall q :: q in Forward(ks, p, root, P) ==> q < P
    decreases P - Rank(p, root, P), 0, |ks|
  {
    if ks != [] {
      DeliveriesInTree(ks[0], root, P);
      ForwardInTree(ks[1..], p, root, P);
    }
  }

  lemma {:induction false} CountBelow(m: multiset<nat>, root: nat, n: nat)
    requires forall q :: q in m ==> q < n
    requires forall q: nat :: q < n && q != root ==> m[q] == 1
    requires root < n ==> m[root] == 0
    ensures |m| == if root < n then n - 1 else n
    decreases n
  {
    if n == 0 {
      assert m == multiset{};
    } else {
      var m' := m[n - 1 := 0];
      CountBelow(m', root, n - 1);
      assert m == m'[n - 1 := m[n - 1]];
    }
  }
}
