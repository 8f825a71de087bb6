/**
 Every task's state item is in exactly one list, a ready task in the list of its priority;
 the task count is the total over all lists; `topReady` bounds the non-empty ready lists.
 */
module TaskPartition {
  import opened Wrappers
  import opened Word32
  import opened ListView
  import opened Tasks

  predicate IsList(place: Place) {
    place != Loose && (place.Ready? ==> place.p < PRIORITIES)
  }

  /** The list holds exactly the tasks whose state item says so, each once. */
  ghost predicate Holds(s: Sched, place: Place) {
    && NoDuplicates(ListAt(s, place))
    && (place in s.lists ==> s.lists[place].Valid())
    && forall t :: t in ListAt(s, place) <==> t in s.tcb && s.tcb[t].place == place
  }

  /** Each list holds its own; `Loose` tasks are between two lists. */
  ghost predicate Homes(s: Sched) {
    forall place: Place :: IsList(place) ==> Holds(s, place)
  }

  ghost predicate PrioritiesOk(s: Sched) {
    forall t :: t in s.tcb ==>
      && s.tcb[t].prio < PRIORITIES && s.tcb[t].base < PRIORITIES
      && (s.tcb[t].place.Ready? ==> s.tcb[t].place.p == s.tcb[t].prio)
  }

  ghost predicate TopBounds(s: Sched) {
    s.topReady < PRIORITIES && forall p :: 0 <= p < PRIORITIES && ListAt(s, Ready(p)) != [] ==> p <= s.topReady
  }

  function ReadyTotal(s: Sched, n: nat): nat {
    if n == 0 then 0 else ReadyTotal(s, n - 1) + |ListAt(s, Ready(n - 1))|
  }

  /** The items of all the lists a state item can be in. */
  function Total(s: Sched): nat {
    ReadyTotal(s, PRIORITIES) + |ListAt(s, Delayed1)| + |ListAt(s, Delayed2)| + |ListAt(s, SuspendedList)| + |ListAt(s, Termination)|
  }

  /** All state items but those of `loose` are in a list, and the kernel's count is right. */
  ghost predicate PartitionBut(s: Sched, loose: set<TaskId>) {
    && Homes(s) && PrioritiesOk(s) && TopBounds(s)
    && (forall t :: t in s.tcb ==> (s.tcb[t].place == Loose <==> t in loose))
    && (forall t :: t in loose ==> t in s.tcb)
    && s.numTasks == Total(s) + |loose|
  }

  ghost predicate Partition(s: Sched) {
    PartitionBut(s, {})
  }

  // ---------- One list changes ----------

  lemma InsertEndFacts(v: View<TaskId>, t: TaskId)
    requires v.Valid() && NoDuplicates(v.items) && t !in v.items
    ensures NoDuplicates(InsertEnd(v, t).items) && InsertEnd(v, t).Valid()
    ensures |InsertEnd(v, t).items| == |v.items| + 1
    ensures forall u :: u in InsertEnd(v, t).items <==> u in v.items || u == t
  {
    if v.index > 0 { InsertFacts(v.items, v.index - 1, t); }
  }

  lemma {:induction false} ReadyTotalUpdate(s: Sched, s': Sched, place: Place, n: nat)
    requires forall q: Place :: q != place ==> ListAt(s', q) == ListAt(s, q)
    ensures ReadyTotal(s', n) == ReadyTotal(s, n) + (if place.Ready? && place.p < n then |ListAt(s', place)| - |ListAt(s, place)| else 0)
  {
    if n > 0 { ReadyTotalUpdate(s, s', place, n - 1); }
  }

  /** Changing one list changes the total by that list's difference. */
  lemma TotalUpdate(s: Sched, s': Sched, place: Place)
    requires IsList(place) && forall q: Place :: q != place ==> ListAt(s', q) == ListAt(s, q)
    ensures Total(s') == Total(s) + |ListAt(s', place)| - |ListAt(s, place)|
  {
    ReadyTotalUpdate(s, s', place, PRIORITIES);
  }

  /** A step that touches neither the lists nor the control blocks. */
  lemma SameLists(s: Sched, s': Sched, loose: set<TaskId>)
    requires PartitionBut(s, loose) && s'.lists == s.lists && s'.tcb == s.tcb
    requires s'.topReady == s.topReady && s'.numTasks == s.numTasks
    ensures PartitionBut(s', loose)
  {
    TotalUpdate(s, s', Delayed1);
    forall place: Place | IsList(place) ensures Holds(s', place) { assert Holds(s, place); }
  }

  /** A task's control block changes, but not where its state item is. */
  lemma SamePlace(s: Sched, t: TaskId, tcb: Tcb, loose: set<TaskId>)
    requires PartitionBut(s, loose) && t in s.tcb && tcb.place == s.tcb[t].place
    requires tcb.prio < PRIORITIES && tcb.base < PRIORITIES && (tcb.place.Ready? ==> tcb.place.p == tcb.prio)
    ensures PartitionBut(SetTcb(s, t, tcb), loose)
  {
    var s' := SetTcb(s, t, tcb);
    TotalUpdate(s, s', Delayed1);
    forall place: Place | IsList(place) ensures Holds(s', place) { assert Holds(s, place); }
  }

  /** An item leaves its list. */
  lemma LeaveList(s: Sched, s': Sched, t: TaskId, loose: set<TaskId>)
    requires PartitionBut(s, loose) && t in s.tcb && t !in loose
    requires s'.tcb == s.tcb[t := s.tcb[t].(place := Loose)] && s'.topReady == s.topReady && s'.numTasks == s.numTasks
    requires var place := s.tcb[t].place;
             && IsList(place) && t in ListAt(s, place)
             && s'.lists == s.lists[place := Remove(ViewAt(s, place), IndexOf(ListAt(s, place), t))]
    ensures PartitionBut(s', loose + {t})
  {
    var from := s.tcb[t].place;
    assert Holds(s, from);
    LeftLists(s, s', t);
    TotalUpdate(s, s', from);
    forall place: Place | IsList(place) ensures Holds(s', place) {
      assert Holds(s, place);
      LeftHolds(s, s', t, place);
    }
    assert |loose + {t}| == |loose| + 1;
  }

  /** The lists after an item left its own. */
  lemma LeftLists(s: Sched, s': Sched, t: TaskId)
    requires t in s.tcb && var place := s.tcb[t].place;
             && Holds(s, place) && t in ListAt(s, place)
             && s'.lists == s.lists[place := Remove(ViewAt(s, place), IndexOf(ListAt(s, place), t))]
    ensures var place, list := s.tcb[t].place, ListAt(s', s.tcb[t].place);
            && (forall q: Place :: q != place ==> ListAt(s', q) == ListAt(s, q))
            && s'.lists[place].Valid() && NoDuplicates(list) && |list| == |ListAt(s, place)| - 1
            && forall u :: u in list <==> u in ListAt(s, place) && u != t
  {
    var place := s.tcb[t].place;
    MinusFacts(ListAt(s, place), t);
    RemoveOrder(ViewAt(s, place), IndexOf(ListAt(s, place), t));
  }

  lemma LeftHolds(s: Sched, s': Sched, t: TaskId, place: Place)
    requires t in s.tcb && s'.tcb == s.tcb[t := s.tcb[t].(place := Loose)] && IsList(place) && Holds(s, place)
    requires var from := s.tcb[t].place;
             && Holds(s, from) && t in ListAt(s, from)
             && s'.lists == s.lists[from := Remove(ViewAt(s, from), IndexOf(ListAt(s, from), t))]
    ensures Holds(s', place)
  {
    LeftLists(s, s', t);
  }

  /** A loose item enters a list, its control block possibly changed on the way. */
  lemma EnterList(s: Sched, s': Sched, t: TaskId, place: Place, v: View<TaskId>, loose: set<TaskId>)
    requires PartitionBut(s, loose) && t in loose && IsList(place)
    requires t in s'.tcb && s'.tcb == s.tcb[t := s'.tcb[t]] && s'.tcb[t].place == place
    requires s'.tcb[t].prio < PRIORITIES && s'.tcb[t].base < PRIORITIES && (place.Ready? ==> place.p == s'.tcb[t].prio <= s'.topReady)
    requires s.topReady <= s'.topReady < PRIORITIES && s'.numTasks == s.numTasks
    requires v.Valid() && NoDuplicates(v.items) && |v.items| == |ListAt(s, place)| + 1
    requires forall u :: u in v.items <==> u in ListAt(s, place) || u == t
    requires s'.lists == s.lists[place := v]
    ensures PartitionBut(s', loose - {t})
  {
    assert forall q: Place :: q != place ==> ListAt(s', q) == ListAt(s, q);
    TotalUpdate(s, s', place);
    forall q: Place | IsList(q) ensures Holds(s', q) { assert Holds(s, q); }
    assert loose == loose - {t} + {t};
    forall p | 0 <= p < PRIORITIES && ListAt(s', Ready(p)) != [] ensures p <= s'.topReady {
      if Ready(p) != place { assert ListAt(s', Ready(p)) == ListAt(s, Ready(p)); }
    }
  }

  lemma UnlinkKeeps(s: Sched, t: TaskId, loose: set<TaskId>)
    requires PartitionBut(s, loose) && t in s.tcb && t !in loose
    ensures PartitionBut(Unlink(s, t), loose + {t})
  {
    assert IsList(s.tcb[t].place) && Holds(s, s.tcb[t].place);
    LeaveList(s, Unlink(s, t), t, loose);
  }

  lemma LinkEndKeeps(s: Sched, place: Place, t: TaskId, loose: set<TaskId>)
    requires PartitionBut(s, loose) && t in loose && IsList(place) && !place.Ready?
    ensures PartitionBut(LinkEnd(s, place, t), loose - {t})
  {
    assert Holds(s, place);
    InsertEndFacts(ViewAt(s, place), t);
    EnterList(s, LinkEnd(s, place, t), t, place, InsertEnd(ViewAt(s, place), t), loose);
  }

  lemma AddToReadyKeeps(s: Sched, t: TaskId, loose: set<TaskId>)
    requires PartitionBut(s, loose) && t in loose
    ensures PartitionBut(AddToReady(s, t), loose - {t})
  {
    var place := Ready(s.tcb[t].prio);
    assert Holds(s, place);
    InsertEndFacts(ViewAt(s, place), t);
    EnterList(s, AddToReady(s, t), t, place, InsertEnd(ViewAt(s, place), t), loose);
  }

  lemma LinkByWakeTimeKeeps(s: Sched, place: Place, t: TaskId, wake: Tick, loose: set<TaskId>)
    requires PartitionBut(s, loose) && t in loose && (place == Delayed1 || place == Delayed2)
    ensures PartitionBut(LinkByWakeTime(s, place, t, wake), loose - {t})
  {
    assert Holds(s, place);
    var s' := LinkByWakeTime(s, place, t, wake);
    InsertFacts(ListAt(s, place), FirstGreater(WakeTimes(s, ListAt(s, place)), wake), t);
    EnterList(s, s', t, place, s'.lists[place], loose);
  }

  lemma UnlinkEventKeeps(s: Sched, t: TaskId, loose: set<TaskId>)
    requires PartitionBut(s, loose) && t in s.tcb
    ensures PartitionBut(UnlinkEvent(s, t), loose)
  {
    var s' := SetTcb(s, t, s.tcb[t].(event := NoEvent));
    SamePlace(s, t, s.tcb[t].(event := NoEvent), loose);
    SameLists(s', UnlinkEvent(s, t), loose);
  }

  // ---------- Every operation keeps the partition ----------

  lemma ReprioritiseKeeps(s: Sched, t: TaskId, tcb: Tcb)
    requires Partition(s) && t in s.tcb && tcb.prio < PRIORITIES && tcb.base < PRIORITIES
    requires tcb.place == if s.tcb[t].place.Ready? then Ready(tcb.prio) else s.tcb[t].place
    ensures Partition(Reprioritise(s, t, tcb))
  {
    if s.tcb[t].place == Ready(s.tcb[t].prio) && tcb.prio != s.tcb[t].prio {
      var s1 := Unlink(s, t);
      UnlinkKeeps(s, t, {});
      assert {} + {t} == {t} && {t} - {t} == {};
      SamePlace(s1, t, tcb.(place := Loose), {t});
      AddToReadyKeeps(SetTcb(s1, t, tcb.(place := Loose)), t, {t});
    } else {
      SamePlace(s, t, tcb, {});
    }
  }

  /** Inheriting, disinheriting and disinheriting after a timeout move a ready holder along. */
  lemma InheritanceKeeps(s: Sched, holder: TaskId, highestWaiting: nat)
    requires Partition(s) && holder in s.tcb && s.current in s.tcb && highestWaiting < PRIORITIES
    ensures Partition(PriorityInherit(s, holder))
    ensures Partition(DisinheritAfterTimeout(s, holder, highestWaiting))
    ensures s.tcb[holder].held > 0 && s.tcb[holder].place.Ready? ==> Partition(PriorityDisinherit(s, holder))
  {
    ReprioritiseKeeps(s, holder, InheritTcb(s.tcb[holder], s.tcb[s.current].prio));
    ReprioritiseKeeps(s, holder, AfterTimeoutTcb(s.tcb[holder], highestWaiting));
    if s.tcb[holder].held > 0 && s.tcb[holder].place.Ready? {
      ReprioritiseKeeps(s, holder, DisinheritTcb(s.tcb[holder]));
    }
  }

  lemma AddCurrentToDelayedKeeps(s: Sched, ticksToWait: Tick, canBlockIndefinitely: bool)
    requires Partition(s) && s.current in s.tcb
    ensures Partition(AddCurrentToDelayed(s, ticksToWait, canBlockIndefinitely))
  {
    var t, s1 := s.current, Unlink(s, s.current);
    UnlinkKeeps(s, t, {});
    assert {} + {t} == {t} && {t} - {t} == {};
    var wake, s' := Add(s.clock.tick, ticksToWait), AddCurrentToDelayed(s, ticksToWait, canBlockIndefinitely);
    if ticksToWait == MAX_DELAY && canBlockIndefinitely {
      assert s' == LinkEnd(s1, SuspendedList, t);
      LinkEndKeeps(s1, SuspendedList, t, {t});
    } else if wake < s.clock.tick {
      assert s' == LinkByWakeTime(s1, OverflowDelayed(s), t, wake);
      LinkByWakeTimeKeeps(s1, OverflowDelayed(s), t, wake, {t});
    } else {
      var s2 := LinkByWakeTime(s1, CurrentDelayed(s), t, wake);
      assert s' == s2.(nextUnblock := s'.nextUnblock);
      LinkByWakeTimeKeeps(s1, CurrentDelayed(s), t, wake, {t});
      SameLists(s2, s', {});
    }
  }

  lemma OnEventListKeeps(s: Sched, id: nat)
    requires Partition(s) && s.current in s.tcb
    ensures Partition(OnEventList(s, id))
  {
    var tcb := s.tcb[s.current].(event := OnEvent(id));
    SamePlace(s, s.current, tcb, {});
    SameLists(SetTcb(s, s.current, tcb), OnEventList(s, id), {});
  }

  /** Unlinking a task and making it ready. */
  lemma ReadyAgainKeeps(s: Sched, t: TaskId)
    requires Partition(s) && t in s.tcb
    ensures Partition(AddToReady(Unlink(s, t), t))
  {
    UnlinkKeeps(s, t, {});
    assert {} + {t} == {t} && {t} - {t} == {};
    AddToReadyKeeps(Unlink(s, t), t, {t});
  }

  lemma RemoveFromEventListKeeps(s: Sched, id: nat)
    requires Partition(s) && EventList(s, id) != [] && EventList(s, id)[0] in s.tcb
    ensures Partition(RemoveFromEventList(s, id))
  {
    var t := EventList(s, id)[0];
    var s0 := SetTcb(s, t, s.tcb[t].(event := NoEvent));
    SamePlace(s, t, s.tcb[t].(event := NoEvent), {});
    var s1 := s0.(eventLists := s.eventLists[id := EventList(s, id)[1..]]);
    SameLists(s0, s1, {});
    var s' := RemoveFromEventList(s, id);
    if s.clock.suspended == 0 {
      ReadyAgainKeeps(s1, t);
      var s2 := AddToReady(Unlink(s1, t), t);
      assert s' == s2.(yieldPending := s'.yieldPending);
      SameLists(s2, s', {});
    } else {
      var s2 := SetTcb(s1, t, s1.tcb[t].(event := PendingReady));
      SamePlace(s1, t, s1.tcb[t].(event := PendingReady), {});
      assert s' == s2.(yieldPending := s'.yieldPending, pendingReady := s'.pendingReady);
      SameLists(s2, s', {});
    }
  }

  lemma WakeHeadKeeps(s: Sched)
    requires Partition(s) && ListAt(s, CurrentDelayed(s)) != []
    ensures Partition(WakeHead(s))
  {
    var here := CurrentDelayed(s);
    var v := ViewAt(s, here);
    var t := v.items[0];
    assert Holds(s, here);
    var s1 := SetPlace(s, t, Loose).(lists := s.lists[here := Remove(v, 0)]);
    assert IndexOf(v.items, t) == 0;
    LeaveList(s, s1, t, {});
    assert {} + {t} == {t} && {t} - {t} == {};
    UnlinkEventKeeps(s1, t, {t});
    AddToReadyKeeps(UnlinkEvent(s1, t), t, {t});
  }

  lemma {:induction false} WakeDueKeeps(s: Sched)
    requires Partition(s)
    ensures Partition(WakeDue(s))
    decreases |ListAt(s, CurrentDelayed(s))|
  {
    var list := ListAt(s, CurrentDelayed(s));
    if list == [] || s.clock.tick < Get(s, list[0]).wake {
      SameLists(s, WakeDue(s), {});
    } else {
      WakeHeadKeeps(s);
      WakeDueKeeps(WakeHead(s));
    }
  }

  lemma IncrementTickKeeps(s: Sched)
    requires Partition(s)
    ensures Partition(IncrementTick(s).0)
  {
    if s.clock.suspended > 0 {
      SameLists(s, IncrementTick(s).0, {});
    } else {
      SameLists(s, AdvanceTick(s), {});
      WakeDueKeeps(AdvanceTick(s));
    }
  }

  lemma {:induction false} ReplayTicksKeeps(s: Sched, n: nat)
    requires Partition(s)
    ensures Partition(ReplayTicks(s, n))
    decreases n
  {
    if n > 0 {
      IncrementTickKeeps(s);
      SameLists(IncrementTick(s).0, ReplayTick(s), {});
      ReplayTicksKeeps(ReplayTick(s), n - 1);
    }
  }

  lemma MoveOneKeeps(s: Sched)
    requires Partition(s) && s.pendingReady != [] && s.pendingReady[0] in s.tcb
    ensures Partition(MoveOne(s)) && forall t :: t in MoveOne(s).tcb <==> t in s.tcb
  {
    var t := s.pendingReady[0];
    var s0 := SetTcb(s, t, s.tcb[t].(event := NoEvent));
    SamePlace(s, t, s.tcb[t].(event := NoEvent), {});
    var s1 := s0.(pendingReady := s.pendingReady[1..]);
    SameLists(s0, s1, {});
    ReadyAgainKeeps(s1, t);
    SameLists(AddToReady(Unlink(s1, t), t), MoveOne(s), {});
  }

  lemma {:induction false} MovePendingKeeps(s: Sched)
    requires Partition(s) && forall t :: t in s.pendingReady ==> t in s.tcb
    ensures Partition(MovePending(s))
    decreases |s.pendingReady|
  {
    if s.pendingReady != [] {
      MoveOneKeeps(s);
      MovePendingKeeps(MoveOne(s));
    }
  }

  lemma ReadyPendingKeeps(s: Sched)
    requires Partition(s) && forall t :: t in s.pendingReady ==> t in s.tcb
    ensures Partition(ReadyPending(s))
  {
    MovePendingKeeps(s);
    SameLists(MovePending(s), ReadyPending(s), {});
  }

  lemma ResumeAllKeeps(s: Sched)
    requires Partition(s) && s.clock.suspended > 0 && forall t :: t in s.pendingReady ==> t in s.tcb
    ensures Partition(ResumeAll(s))
  {
    var s1 := s.(clock := s.clock.(suspended := s.clock.suspended - 1));
    SameLists(s, s1, {});
    if s1.clock.suspended == 0 && s1.numTasks != 0 {
      ReadyPendingKeeps(s1);
      var s2 := ReadyPending(s1);
      ReplayTicksKeeps(s2, s2.clock.pended);
      SameLists(ReplayTicks(s2, s2.clock.pended), ResumeAll(s), {});
    }
  }

  lemma AddNewTaskKeeps(s: Sched, t: TaskId, prio: nat)
    requires Partition(s) && t !in s.tcb && prio < PRIORITIES
    ensures Partition(AddNewTask(s, t, prio))
  {
    var tcb := Tcb(Loose, 0, NoEvent, EventValue(prio), prio, prio, 0);
    NewLoose(s, t, tcb);
    assert {t} - {t} == {};
    var s1 := SetTcb(s, t, tcb).(numTasks := s.numTasks + 1);
    assert AddNewTask(s, t, prio) == AddToReady(s1, t);
    AddToReadyKeeps(s1, t, {t});
  }

  /** A new task that is in no list yet. */
  lemma NewLoose(s: Sched, t: TaskId, tcb: Tcb)
    requires Partition(s) && t !in s.tcb && tcb.place == Loose && tcb.prio < PRIORITIES && tcb.base < PRIORITIES
    ensures PartitionBut(SetTcb(s, t, tcb).(numTasks := s.numTasks + 1), {t})
  {
    var s1 := SetTcb(s, t, tcb).(numTasks := s.numTasks + 1);
    assert Total(s1) == Total(s) by { TotalUpdate(s, s1, Delayed1); }
    assert PrioritiesOk(s1) && TopBounds(s1);
    forall place: Place | IsList(place) ensures Holds(s1, place) { assert Holds(s, place); }
  }

  /** A loose task is forgotten. */
  lemma ForgetKeeps(s: Sched, s': Sched, t: TaskId)
    requires PartitionBut(s, {t})
    requires s'.tcb == s.tcb - {t} && s'.lists == s.lists && s'.topReady == s.topReady
    requires s'.numTasks == if s.numTasks > 0 then s.numTasks - 1 else 0
    ensures Partition(s')
  {
    forall place: Place | IsList(place) ensures Holds(s', place) { assert Holds(s, place); }
    TotalUpdate(s, s', Delayed1);
  }

  lemma DeleteTaskKeeps(s: Sched, t: TaskId)
    requires Partition(s) && t in s.tcb
    ensures Partition(DeleteTask(s, t))
  {
    UnlinkKeeps(s, t, {});
    assert {} + {t} == {t} && {t} - {t} == {};
    UnlinkEventKeeps(Unlink(s, t), t, {t});
    var s1 := UnlinkEvent(Unlink(s, t), t);
    if t == s.current {
      LinkEndKeeps(s1, Termination, t, {t});
    } else {
      ForgetKeeps(s1, DeleteTask(s, t), t);
    }
  }

  lemma CleanUpKeeps(s: Sched)
    requires Partition(s) && ListAt(s, Termination) != []
    ensures Partition(CleanUp(s))
  {
    var t := ListAt(s, Termination)[0];
    assert Holds(s, Termination);
    UnlinkKeeps(s, t, {});
    assert {} + {t} == {t};
    ForgetKeeps(Unlink(s, t), CleanUp(s), t);
  }

  // ---------- The task that runs ----------

  lemma {:induction false} SomeReadyAbove(s: Sched, p: nat, top: nat)
    requires p <= top && ListAt(s, Ready(p)) != []
    ensures SomeReady(s, top)
  {
    if ListAt(s, Ready(top)) == [] { SomeReadyAbove(s, p, top - 1); }
  }

  /** The idle task is ready (it never blocks), or any other task is. */
  ghost predicate SomeTaskReady(s: Sched) {
    exists t :: t in s.tcb && s.tcb[t].place.Ready?
  }

  /** The index of one ready list moves, and the bound becomes that of the highest non-empty one. */
  lemma TurnKeeps(s: Sched, s': Sched, p: nat)
    requires Partition(s) && p < PRIORITIES && s'.tcb == s.tcb && s'.numTasks == s.numTasks && s'.topReady == p
    requires exists v: View<TaskId> :: v.Valid() && v.items == ListAt(s, Ready(p)) && s'.lists == s.lists[Ready(p) := v]
    requires forall q :: p < q <= s.topReady ==> ListAt(s, Ready(q)) == []
    ensures Partition(s')
  {
    assert forall q: Place :: ListAt(s', q) == ListAt(s, q);
    TotalUpdate(s, s', Delayed1);
    forall place: Place | IsList(place) ensures Holds(s', place) { assert Holds(s, place); }
  }

  /** A context switch picks a ready task that no ready task outranks, and tightens the bound. */
  lemma SwitchContextPicksHighest(s: Sched)
    requires Partition(s) && SomeTaskReady(s) && s.clock.suspended == 0
    ensures var s' := SwitchContext(s);
            && Partition(s')
            && s'.current in s'.tcb && s'.tcb == s.tcb && s'.tcb[s'.current].place.Ready?
            && (forall t :: t in s'.tcb && s'.tcb[t].place.Ready? ==> s'.tcb[t].prio <= s'.tcb[s'.current].prio)
            && s'.topReady == s'.tcb[s'.current].prio
  {
    var u :| u in s.tcb && s.tcb[u].place.Ready?;
    assert Holds(s, Ready(s.tcb[u].prio));
    SomeReadyAbove(s, s.tcb[u].prio, s.topReady);
    var p := HighestReady(s, s.topReady);
    assert Holds(s, Ready(p));
    NextVisitsFirst(ViewAt(s, Ready(p)));
    TurnKeeps(s, SwitchContext(s), p);
    forall t | t in s.tcb && s.tcb[t].place.Ready? ensures s.tcb[t].prio <= p {
      assert Holds(s, Ready(s.tcb[t].prio));
      assert t in ListAt(s, Ready(s.tcb[t].prio));
    }
  }
}
