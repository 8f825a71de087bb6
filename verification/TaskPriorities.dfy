/**
 What inheriting, giving back and the end of a wait do to the scheduler: the priority each leads
 to, and the ready list and the turn that go with it.
 */
module TaskPriorities {
  import opened Wrappers
  import opened ListView
  import opened Tasks
  import opened TaskPartition
  import opened TaskTime
  import opened TaskTurns

  /** All that is not about state items, control blocks and ready lists is as before. */
  predicate SameElsewhere(s: Sched, s': Sched) {
    && s'.eventLists == s.eventLists && s'.pendingReady == s.pendingReady && s'.clock == s.clock
    && s'.nextUnblock == s.nextUnblock && s'.current == s.current && s'.numTasks == s.numTasks
    && s'.yieldPending == s.yieldPending
  }

  /**
   Task `t` now has this priority. If it is ready, it is in the ready list of it, where it comes
   last if it is new there; nobody else's turn or state is touched.
   */
  ghost predicate HasPriority(s: Sched, s': Sched, t: TaskId, prio: nat) {
    && t in s.tcb && t in s'.tcb && SameElsewhere(s, s') && Partition(s')
    && s'.tcb[t].prio == prio && s'.tcb[t].base == s.tcb[t].base && s'.tcb[t].event == s.tcb[t].event && s'.tcb[t].wake == s.tcb[t].wake
    && s'.tcb[t].place == (if s.tcb[t].place.Ready? then Ready(prio) else s.tcb[t].place)
    && (s'.tcb[t].place.Ready? ==> t in ListAt(s', Ready(prio)))
    && (forall u :: u != t ==> (u in s'.tcb <==> u in s.tcb) && Get(s', u) == Get(s, u))
    && (forall q: Place :: !q.Ready? ==> ListAt(s', q) == ListAt(s, q))
    && (forall q: nat :: TurnsFollow(s, s', t, q, prio))
  }

  /** The turns at priority `q` after task `t` went to priority `prio`. */
  ghost predicate TurnsFollow(s: Sched, s': Sched, t: TaskId, q: nat, prio: nat)
    requires t in s.tcb
  {
    if !s.tcb[t].place.Ready? || s.tcb[t].prio == prio || (q != s.tcb[t].prio && q != prio) then Turns(s', q) == Turns(s, q)
    else if q != prio then Turns(s', q) == Minus(Turns(s, q), t)
    else if ViewAt(s, Ready(q)).index == 0 then Turns(s', q) == Turns(s, q) + [t]
    else Turns(s, q) != [] && Turns(s', q) == Turns(s, q)[..|Turns(s, q)| - 1] + [t, Turns(s, q)[|Turns(s, q)| - 1]]
  }

  /** The event item value a task of this priority sorts by, unless an event group has borrowed it. */
  predicate EventItemFollows(before: Tcb, after: Tcb) {
    after.evt == if before.prio == after.prio || before.evt >= IN_USE then before.evt else PRIORITIES - after.prio
  }

  lemma Reprioritised(s: Sched, t: TaskId, tcb: Tcb)
    requires Partition(s) && t in s.tcb && tcb.prio < PRIORITIES && tcb.base == s.tcb[t].base && tcb.event == s.tcb[t].event
    requires tcb.wake == s.tcb[t].wake && tcb.place == if s.tcb[t].place.Ready? then Ready(tcb.prio) else s.tcb[t].place
    ensures HasPriority(s, Reprioritise(s, t, tcb), t, tcb.prio) && Get(Reprioritise(s, t, tcb), t) == tcb
  {
    var s' := Reprioritise(s, t, tcb);
    ReprioritiseKeeps(s, t, tcb);
    ReprioritiseEffect(s, t, tcb);
    assert IsList(tcb.place) && Holds(s', tcb.place);
    forall q: nat ensures TurnsFollow(s, s', t, q, tcb.prio) { TurnsMove(s, t, tcb, q); }
  }

  lemma ReprioritiseEffect(s: Sched, t: TaskId, tcb: Tcb)
    requires Partition(s) && t in s.tcb && tcb.place == if s.tcb[t].place.Ready? then Ready(tcb.prio) else s.tcb[t].place
    ensures var s' := Reprioritise(s, t, tcb);
            s'.tcb == s.tcb[t := tcb] && SameElsewhere(s, s') && forall q: Place :: !q.Ready? ==> ListAt(s', q) == ListAt(s, q)
  {
    if s.tcb[t].place == Ready(s.tcb[t].prio) && tcb.prio != s.tcb[t].prio {
      var s1, loose := Unlink(s, t), tcb.(place := Loose);
      var s2 := SetTcb(s1, t, loose);
      assert Reprioritise(s, t, tcb) == AddToReady(s2, t);
      SetTwice(s.tcb, t, s1.tcb[t], loose);
      SetTwice(s.tcb, t, loose, tcb);
      forall q: Place | !q.Ready? ensures ListAt(AddToReady(s2, t), q) == ListAt(s, q) { UnlinkView(s, t, q); }
    }
  }

  lemma UnlinkView(s: Sched, t: TaskId, place: Place)
    requires Get(s, t).place != place
    ensures ViewAt(Unlink(s, t), place) == ViewAt(s, place)
  {}

  lemma TurnsMove(s: Sched, t: TaskId, tcb: Tcb, q: nat)
    requires Partition(s) && t in s.tcb && tcb.prio < PRIORITIES && tcb.base < PRIORITIES
    requires tcb.place == if s.tcb[t].place.Ready? then Ready(tcb.prio) else s.tcb[t].place
    ensures TurnsFollow(s, Reprioritise(s, t, tcb), t, q, tcb.prio)
  {
    if s.tcb[t].place == Ready(s.tcb[t].prio) && tcb.prio != s.tcb[t].prio {
      var s1 := Unlink(s, t);
      var s2 := SetTcb(s1, t, tcb.(place := Loose));
      UnlinkKeeps(s, t, {});
      assert {} + {t} == {t};
      SamePlace(s1, t, tcb.(place := Loose), {t});
      assert Reprioritise(s, t, tcb) == AddToReady(s2, t);
      assert ViewAt(s2, Ready(q)) == ViewAt(s1, Ready(q));
      ReadyComesLast(s2, t, q);
      if q == s.tcb[t].prio {
        LeavingKeepsTurns(s, t, q);
      } else {
        UnlinkView(s, t, Ready(q));
      }
    }
  }

  /** A holder inherits: it has the larger of its own and the caller's priority. */
  lemma InheritExact(s: Sched, h: TaskId)
    requires Partition(s) && h in s.tcb && s.current in s.tcb
    ensures var s', mine, theirs := PriorityInherit(s, h), s.tcb[s.current].prio, s.tcb[h].prio;
            && HasPriority(s, s', h, if theirs < mine then mine else theirs)
            && s'.tcb[h].held == s.tcb[h].held && EventItemFollows(s.tcb[h], s'.tcb[h])
  {
    Reprioritised(s, h, InheritTcb(s.tcb[h], s.tcb[s.current].prio));
  }

  /** The giver of its last mutex falls to its base priority; giving any other keeps the priority. */
  lemma DisinheritExact(s: Sched, h: TaskId)
    requires Partition(s) && h in s.tcb && s.tcb[h].held > 0 && s.tcb[h].place.Ready?
    ensures var s' := PriorityDisinherit(s, h);
            && HasPriority(s, s', h, if s.tcb[h].held == 1 then s.tcb[h].base else s.tcb[h].prio)
            && s'.tcb[h].held == s.tcb[h].held - 1
            && s'.tcb[h].evt == if s'.tcb[h].prio == s.tcb[h].prio then s.tcb[h].evt else PRIORITIES - s'.tcb[h].prio
  {
    Reprioritised(s, h, DisinheritTcb(s.tcb[h]));
  }

  /**
   The loan of a waiter that gave up ends: a holder of one mutex falls, or rises, to the best of
   its base priority and the waiters left; a holder of several mutexes stays as it is.
   */
  lemma TimeoutExact(s: Sched, h: TaskId, highestWaiting: nat)
    requires Partition(s) && h in s.tcb && highestWaiting < PRIORITIES
    ensures var s', tcb := DisinheritAfterTimeout(s, h, highestWaiting), s.tcb[h];
            && h in s'.tcb
            && (if tcb.held == 1 then
                  && tcb.base <= s'.tcb[h].prio && highestWaiting <= s'.tcb[h].prio
                  && (s'.tcb[h].prio == tcb.base || s'.tcb[h].prio == highestWaiting)
                  && HasPriority(s, s', h, s'.tcb[h].prio) && s'.tcb[h].held == 1 && EventItemFollows(tcb, s'.tcb[h])
                else s' == s)
  {
    Reprioritised(s, h, AfterTimeoutTcb(s.tcb[h], highestWaiting));
    assert s.tcb[h := s.tcb[h]] == s.tcb;
  }
}
