/** Steps as objects with a suspend counter, the groups they wait in, and the loops that wake a group
    and prepare a step (cnc/internal/schedulable.h, suspend_group.h, step_instance.h,
    src/scheduler_i.cpp). A null member of a group stands for the environment's thread. */
module Schedulables {

  datatype Status = Unprepared | Prepared | Unfinished | Done

  class Schedulable {
    var nSuspenders: int
    var wasSuspendedSinceReset: bool
    var status: Status

    constructor ()
      ensures nSuspenders == 0 && !wasSuspendedSinceReset && status == Unprepared
    {
      nSuspenders, wasSuspendedSinceReset, status := 0, false, Unprepared;
    }

    method Suspend()
      modifies this
      ensures nSuspenders == old(nSuspenders) + 1 && wasSuspendedSinceReset && status == old(status)
    {
      nSuspenders := nSuspenders + 1;
      wasSuspendedSinceReset := true;
    }

    method Unsuspend() returns (last: bool)
      requires nSuspenders >= 1
      modifies this`nSuspenders
      ensures nSuspenders == old(nSuspenders) - 1
      ensures last <==> nSuspenders == 0
    {
      nSuspenders := nSuspenders - 1;
      last := nSuspenders + 1 == 1;
    }
  }

  function Occurs(members: seq<Schedulable?>, s: Schedulable?): (k: nat)
    ensures k > 0 <==> s in members
  {
    if members == [] then 0 else (if members[0] == s then 1 else 0) + Occurs(members[1..], s)
  }

  lemma {:induction false} OccursSnoc(members: seq<Schedulable?>, m: Schedulable?, s: Schedulable?)
    ensures Occurs(members + [m], s) == Occurs(members, s) + if m == s then 1 else 0
  {
    if members == [] {
      assert [m][1..] == [];
    } else {
      assert (members + [m])[1..] == members[1..] + [m];
      OccursSnoc(members[1..], m, s);
    }
  }

  lemma {:induction false} OccursPrefix(members: seq<Schedulable?>, i: nat, s: Schedulable?)
    requires i <= |members|
    ensures Occurs(members[..i], s) <= Occurs(members, s)
    decreases |members| - i
  {
    if i == |members| {
      assert members[..i] == members;
    } else {
      OccursPrefix(members, i + 1, s);
      assert members[..i + 1] == members[..i] + [members[i]];
      OccursSnoc(members[..i], members[i], s);
    }
  }

  /** The steps that the first i members wake, in order, when n gives the counters before. */
  ghost function Woken(members: seq<Schedulable?>, i: nat, n: map<Schedulable, int>): seq<Schedulable>
    requires i <= |members| && forall s: Schedulable :: s in members ==> s in n
  {
    if i == 0 then []
    else
      var m := members[i - 1];
      Woken(members, i - 1, n) + if m != null && n[m] == Occurs(members[..i], m) then [m] else []
  }

  lemma CountSnoc(list: seq<Schedulable>, m: Schedulable, s: Schedulable)
    ensures multiset(list + [m])[s] == multiset(list)[s] + if m == s then 1 else 0
  {
  }

  /** Woken are exactly the steps that wait for nothing but this group, each once. */
  lemma {:induction false} WokenOnce(members: seq<Schedulable?>, i: nat, n: map<Schedulable, int>, s: Schedulable)
    requires i <= |members| && forall s: Schedulable :: s in members ==> s in n
    requires s in n
    ensures multiset(Woken(members, i, n))[s] == if 0 < n[s] <= Occurs(members[..i], s) then 1 else 0
  {
    if i == 0 {
      NoneYet(members, n);
    } else {
      hide Occurs, Woken;
      WokenOnce(members, i - 1, n, s);
      NextMember(members, i - 1, n);
      var m := members[i - 1];
      assert m in members;
      if m != null { CountSnoc(Woken(members, i - 1, n), m, s); }
    }
  }

  class Scheduler {
    var userStepsInFlight: int
    var queue: seq<Schedulable>

    constructor ()
      ensures userStepsInFlight == 0 && queue == []
    {
      userStepsInFlight, queue := 0, [];
    }

    /** schedule, without bypass and outside of sequentialized steps. */
    method Schedule(s: Schedulable, current: Schedulable?)
      modifies this
      ensures if s == current then queue == old(queue) && userStepsInFlight == old(userStepsInFlight)
              else queue == old(queue) + [s] && userStepsInFlight == old(userStepsInFlight) + 1
    {
      if s == current { return; }
      userStepsInFlight := userStepsInFlight + 1;
      queue := queue + [s];
    }

    /** suspend: join a group, creating it when there is none (an empty group here). */
    method SuspendIn(current: Schedulable?, group: SuspendGroup)
      modifies group, current
      ensures group.members == old(group.members) + [current]
      ensures current != null ==> current.nSuspenders == old(current.nSuspenders) + 1 && current.wasSuspendedSinceReset
    {
      if current != null { current.Suspend(); }
      group.members := group.members + [current];
    }

    /** One member of a group. */
    method WakeOne(m: Schedulable?, current: Schedulable?) returns (environment: bool)
      requires m != null ==> m.nSuspenders >= 1 && (m == current ==> m.nSuspenders >= 2)
      modifies this, if m == null then {} else {m}
      ensures environment <==> m == null
      ensures m != null ==> m.nSuspenders == old(m.nSuspenders) - 1 && m.status == old(m.status)
      ensures m != null ==> m.wasSuspendedSinceReset == old(m.wasSuspendedSinceReset)
      ensures var woken := if m != null && old(m.nSuspenders) == 1 then [m] else [];
              queue == old(queue) + woken && userStepsInFlight == old(userStepsInFlight) + |woken|
    {
      if m == null { return true; }
      var last := m.Unsuspend();
      if last { Schedule(m, current); }
      return false;
    }

    /** resume: every member is taken out of the group once per membership; exactly those that wait
        for nothing else are queued and counted, each once (WokenOnce); the result says whether the
        environment waited. */
    method Resume(group: SuspendGroup, current: Schedulable?,
                  ghost all: set<Schedulable>, ghost n: map<Schedulable, int>)
      returns (environment: bool)
      requires forall s: Schedulable :: s in group.members ==> s in all
      requires forall s: Schedulable :: s in all ==>
                 && s in n && n[s] == s.nSuspenders >= Occurs(group.members, s)
                 && (s == current ==> n[s] > Occurs(group.members, s))   // the executing step is guarded
      modifies this, group, all
      ensures group.members == [] && (environment <==> null in old(group.members))
      ensures forall s: Schedulable :: s in all ==> s.nSuspenders == n[s] - Occurs(old(group.members), s)
      ensures var woken := Woken(old(group.members), |old(group.members)|, n);
              queue == old(queue) + woken && userStepsInFlight == old(userStepsInFlight) + |woken|
    {
      hide Occurs, Woken;
      ghost var members := group.members;
      environment := false;
      var i := 0;
      NoneYet(members, n);
      while i < |group.members|
        invariant group.members == members && 0 <= i <= |members|
        invariant environment <==> Occurs(members[..i], null) > 0
        invariant forall s: Schedulable :: s in all ==> s.nSuspenders == n[s] - Occurs(members[..i], s)
        invariant queue == old(queue) + Woken(members, i, n)
        invariant userStepsInFlight == old(userStepsInFlight) + |Woken(members, i, n)|
      {
        var m := group.members[i];
        assert m in members;
        NextMember(members, i, n);
        OccursPrefix(members, i + 1, m);
        var env := WakeOne(m, current);
        environment := environment || env;
        i := i + 1;
      }
      assert members[..i] == members;
      group.members := [];
    }
  }

  lemma NoneYet(members: seq<Schedulable?>, n: map<Schedulable, int>)
    requires forall s: Schedulable :: s in members ==> s in n
    ensures Woken(members, 0, n) == [] && forall s :: Occurs(members[..0], s) == 0
  {
  }

  lemma NextMember(members: seq<Schedulable?>, i: nat, n: map<Schedulable, int>)
    requires i < |members| && forall s: Schedulable :: s in members ==> s in n
    ensures forall s: Schedulable? ::
              Occurs(members[..i + 1], s) == Occurs(members[..i], s) + if members[i] == s then 1 else 0
    ensures var m := members[i];
            Woken(members, i + 1, n) ==
            Woken(members, i, n) + if m != null && n[m] == Occurs(members[..i + 1], m) then [m] else []
  {
    assert members[..i + 1] == members[..i] + [members[i]];
    forall s: Schedulable?
      ensures Occurs(members[..i + 1], s) == Occurs(members[..i], s) + (if members[i] == s then 1 else 0)
    {
      OccursSnoc(members[..i], members[i], s);
    }
  }

  class SuspendGroup {
    var members: seq<Schedulable?>

    constructor (s: Schedulable?)
      ensures members == [s]
    {
      members := [s];
    }
  }
}
