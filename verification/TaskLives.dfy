/** Tasks that come and go: what creation, deletion and the idle task's clean-up do to all the lists. */
module TaskLives {
  import opened Wrappers
  import opened ListView
  import opened Tasks
  import opened TaskPartition
  import opened TaskTime
  import opened TaskRuns
  import opened TaskTurns
  import opened TaskPriorities

  ghost predicate NewAmong(s: Sched, s': Sched, t: TaskId, prio: nat, p: nat) {
    ComeLast(s, s', p, if p == prio then [t] else [])
  }

  /** A new task runs at its own priority, holds and waits for nothing, and comes last among its equals. */
  lemma CreateExact(s: Sched, t: TaskId, prio: nat)
    requires Partition(s) && t !in s.tcb && prio < PRIORITIES
    ensures var s' := AddNewTask(s, t, prio);
            && Partition(s') && s'.numTasks == s.numTasks + 1 && SameElsewhere(s.(numTasks := s'.numTasks), s')
            && t in s'.tcb && s'.tcb[t] == Tcb(Ready(prio), 0, NoEvent, PRIORITIES - prio, prio, prio, 0)
            && t in ListAt(s', Ready(prio)) && (forall u :: u != t ==> (u in s'.tcb <==> u in s.tcb) && Get(s', u) == Get(s, u))
            && (forall p: nat :: NewAmong(s, s', t, prio, p))
  {
    var s' := AddNewTask(s, t, prio);
    AddNewTaskKeeps(s, t, prio);
    CreateEffect(s, t, prio);
    assert Holds(s', Ready(prio));
    forall p: nat ensures NewAmong(s, s', t, prio, p) { CreatedTurns(s, t, prio, p); }
  }

  lemma CreatedTurns(s: Sched, t: TaskId, prio: nat, p: nat)
    ensures NewAmong(s, AddNewTask(s, t, prio), t, prio, p)
  {
    var s1 := SetTcb(s, t, NewTcb(prio)).(numTasks := s.numTasks + 1);
    ReadyJoins(s1, t, p);
    assert ViewAt(s1, Ready(p)) == ViewAt(s, Ready(p));
    InsertedComeLast(s, AddToReady(s1, t), p, If(s1, t, p));
  }

  /** The task is out of its lists, and nobody else's turn or place in an event list has changed. */
  ghost predicate OutOfLists(s: Sched, s': Sched, t: TaskId)
    requires t in s.tcb
  {
    && (forall p: nat :: Turns(s', p) == if s.tcb[t].place == Ready(p) then Minus(Turns(s, p), t) else Turns(s, p))
    && (forall id: nat :: EventList(s', id) == if s.tcb[t].event == OnEvent(id) then Minus(EventList(s, id), t) else EventList(s, id))
    && s'.pendingReady == (if s.tcb[t].event == PendingReady then Minus(s.pendingReady, t) else s.pendingReady)
  }

  lemma Detached(s: Sched, t: TaskId)
    requires Partition(s) && t in s.tcb
    ensures var s2 := UnlinkEvent(Unlink(s, t), t);
            OutOfLists(s, s2, t) && s2.tcb == s.tcb[t := s.tcb[t].(place := Loose, event := NoEvent)] && s2.numTasks == s.numTasks
  {
    var s1 := Unlink(s, t);
    var s2 := UnlinkEvent(s1, t);
    UnlinkEffect(s, t);
    UnlinkEventEffect(s1, t);
    SetTwice(s.tcb, t, s1.tcb[t], s2.tcb[t]);
    forall p: nat ensures Turns(s2, p) == if s.tcb[t].place == Ready(p) then Minus(Turns(s, p), t) else Turns(s, p) {
      DetachedTurns(s, t, p);
    }
  }

  lemma DetachedTurns(s: Sched, t: TaskId, p: nat)
    requires Partition(s) && t in s.tcb
    ensures Turns(UnlinkEvent(Unlink(s, t), t), p) == if s.tcb[t].place == Ready(p) then Minus(Turns(s, p), t) else Turns(s, p)
  {
    LeavingKeepsTurns(s, t, p);
    assert ViewAt(UnlinkEvent(Unlink(s, t), t), Ready(p)) == ViewAt(Unlink(s, t), Ready(p));
  }

  /** A task that another deletes is gone at once. */
  lemma DeletedIsGone(s: Sched, t: TaskId)
    requires Partition(s) && t in s.tcb && t != s.current
    ensures var s' := DeleteTask(s, t);
            && Partition(s') && s'.tcb == s.tcb - {t} && s'.numTasks == s.numTasks - 1 && OutOfLists(s, s', t)
            && s'.clock == s.clock && s'.current == s.current && s'.yieldPending == s.yieldPending
  {
    var s2, s' := UnlinkEvent(Unlink(s, t), t), DeleteTask(s, t);
    Detached(s, t);
    DeleteTaskKeeps(s, t);
    SomeTask(s, t);
    assert s' == s2.(numTasks := s'.numTasks, tcb := s2.tcb - {t}, nextUnblock := s'.nextUnblock);
    assert s2.tcb - {t} == s.tcb - {t};
    StillOut(s, s2, s', t);
  }

  lemma StillOut(s: Sched, s2: Sched, s': Sched, t: TaskId)
    requires t in s.tcb && OutOfLists(s, s2, t) && s'.eventLists == s2.eventLists && s'.pendingReady == s2.pendingReady
    requires forall p: nat :: ViewAt(s', Ready(p)) == ViewAt(s2, Ready(p))
    ensures OutOfLists(s, s', t)
  {
    forall p: nat ensures Turns(s', p) == Turns(s2, p) { assert ViewAt(s', Ready(p)) == ViewAt(s2, Ready(p)); }
    forall id: nat ensures EventList(s', id) == EventList(s2, id) {}
  }

  lemma SomeTask(s: Sched, t: TaskId)
    requires Partition(s) && t in s.tcb
    ensures s.numTasks > 0
  {
    var place := s.tcb[t].place;
    assert IsList(place) && Holds(s, place) && t in ListAt(s, place);
    if place.Ready? { ReadyTotalAtLeast(s, place.p, PRIORITIES); }
  }

  /** A task that deletes itself still counts, and waits for the idle task behind those that did so before. */
  lemma DeletedItself(s: Sched)
    requires Partition(s) && s.current in s.tcb && s.tcb[s.current].place.Ready? && ViewAt(s, Termination).index == 0
    ensures var t, s' := s.current, DeleteTask(s, s.current);
            && Partition(s') && s'.numTasks == s.numTasks && OutOfLists(s, s', t)
            && s'.tcb == s.tcb[t := s.tcb[t].(place := Termination, event := NoEvent)]
            && ListAt(s', Termination) == ListAt(s, Termination) + [t] && ViewAt(s', Termination).index == 0
            && s'.clock == s.clock && s'.current == s.current && s'.yieldPending == s.yieldPending
  {
    DeleteTaskKeeps(s, s.current);
    TerminationJoined(s, s.current);
    ItselfTcb(s);
    ItselfOut(s);
  }

  lemma ItselfTcb(s: Sched)
    requires Partition(s) && s.current in s.tcb
    ensures var t, s2, s' := s.current, UnlinkEvent(Unlink(s, s.current), s.current), DeleteTask(s, s.current);
            && s' == LinkEnd(s2, Termination, t) && s'.numTasks == s.numTasks
            && s'.tcb == s.tcb[t := s.tcb[t].(place := Termination, event := NoEvent)]
            && s'.clock == s.clock && s'.current == s.current && s'.yieldPending == s.yieldPending
  {
    var t, s2, s' := s.current, UnlinkEvent(Unlink(s, s.current), s.current), DeleteTask(s, s.current);
    Detached(s, t);
    assert s' == LinkEnd(s2, Termination, t);
    SetTwice(s.tcb, t, s2.tcb[t], s'.tcb[t]);
  }

  lemma ItselfOut(s: Sched)
    requires Partition(s) && s.current in s.tcb
    ensures OutOfLists(s, DeleteTask(s, s.current), s.current)
  {
    var t, s2, s' := s.current, UnlinkEvent(Unlink(s, s.current), s.current), DeleteTask(s, s.current);
    Detached(s, t);
    assert s' == LinkEnd(s2, Termination, t);
    forall p: nat ensures ViewAt(s', Ready(p)) == ViewAt(s2, Ready(p)) {}
    StillOut(s, s2, s', t);
  }

  lemma TerminationJoined(s: Sched, t: TaskId)
    requires t in s.tcb && s.tcb[t].place.Ready? && ViewAt(s, Termination).index == 0
    ensures var s' := LinkEnd(UnlinkEvent(Unlink(s, t), t), Termination, t);
            ListAt(s', Termination) == ListAt(s, Termination) + [t] && ViewAt(s', Termination).index == 0
  {
    assert ViewAt(UnlinkEvent(Unlink(s, t), t), Termination) == ViewAt(s, Termination);
  }

  /** The idle task frees the one that has waited longest; nobody walks that list, so its index stays on the end marker. */
  lemma ReapsFirst(s: Sched)
    requires Partition(s) && ListAt(s, Termination) != [] && ViewAt(s, Termination).index == 0
    ensures var t, s' := ListAt(s, Termination)[0], CleanUp(s);
            && Partition(s') && t in s.tcb && s'.tcb == s.tcb - {t} && s'.numTasks == s.numTasks - 1
            && ListAt(s', Termination) == ListAt(s, Termination)[1..] && ViewAt(s', Termination).index == 0
            && (forall q: Place :: q != Termination ==> ViewAt(s', q) == ViewAt(s, q))
            && s'.eventLists == s.eventLists && s'.pendingReady == s.pendingReady
  {
    var list := ListAt(s, Termination);
    CleanUpEffect(s);
    CleanUpKeeps(s);
    SomeTask(s, list[0]);
    assert IndexOf(list, list[0]) == 0 && Without(list, 0) == list[1..];
  }
}
