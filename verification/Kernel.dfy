/**
 The functions of tasks.c as they change the file-scope variables of the kernel, step by step
 and loop by loop. Each is proved to compute what the function of the same purpose in module
 Tasks says, so everything proved about runs there holds of this code.
 */
module Kernels {
  import opened Wrappers
  import opened Word32
  import opened ListView
  import opened Tasks
  import opened TaskPartition

  /** The head of the current delayed list is unlinked like any state item. */
  lemma HeadUnlinks(s: Sched)
    requires Partition(s) && ListAt(s, CurrentDelayed(s)) != []
    ensures var t := ListAt(s, CurrentDelayed(s))[0];
            t in s.tcb && WakeHead(s) == AddToReady(UnlinkEvent(Unlink(s, t), t), t)
  {
    assert Holds(s, CurrentDelayed(s));
    var v := ViewAt(s, CurrentDelayed(s));
    assert v.items[0] in v.items && IndexOf(v.items, v.items[0]) == 0;
  }

  class Kernel {
    var lists: map<Place, View<TaskId>>         // the ready, delayed, suspended and termination lists
    var tcb: map<TaskId, Tcb>
    var eventLists: map<nat, seq<TaskId>>
    var pendingReady: seq<TaskId>               // xPendingReadyList
    var tick: Tick                              // xTickCount
    var overflows: nat                          // xNumOfOverflows
    var pended: Tick                            // xPendedTicks
    var suspended: nat                          // uxSchedulerSuspended
    var firstIsCurrent: bool                    // which list pxDelayedTaskList points to
    var nextUnblock: Tick                       // xNextTaskUnblockTime
    var current: TaskId                         // pxCurrentTCB
    var numTasks: nat                           // uxCurrentNumberOfTasks
    var topReady: nat                           // uxTopReadyPriority
    var yieldPending: bool                      // xYieldPending

    function State(): Sched
      reads this
    {
      Sched(lists, tcb, eventLists, pendingReady, Clock(tick, overflows, pended, suspended, firstIsCurrent),
            nextUnblock, current, numTasks, topReady, yieldPending)
    }

    /** Before the scheduler starts: one ready task. */
    constructor (first: TaskId, prio: nat, initialTick: Tick)
      requires prio < PRIORITIES
      ensures State() == Sched(map[Ready(prio) := View([first], 0)],
                               map[first := Tcb(Ready(prio), 0, NoEvent, EventValue(prio), prio, prio, 0)],
                               map[], [], Clock(initialTick, 0, 0, 0, true), MAX_DELAY, first, 1, prio, false)
    {
      lists := map[Ready(prio) := View([first], 0)];
      tcb := map[first := Tcb(Ready(prio), 0, NoEvent, EventValue(prio), prio, prio, 0)];
      eventLists, pendingReady := map[], [];
      tick, overflows, pended, suspended, firstIsCurrent := initialTick, 0, 0, 0, true;
      nextUnblock, current, numTasks, topReady, yieldPending := MAX_DELAY, first, 1, prio, false;
    }

    // ---------- Lists ----------

    method RemoveStateItem(t: TaskId)
      modifies this`tcb, this`lists
      ensures State() == Unlink(old(State()), t)
    {
      var place := Get(State(), t).place;
      var v := ViewAt(State(), place);
      var k := IndexOf(v.items, t);
      if k < |v.items| { lists := lists[place := ListView.Remove(v, k)]; }
      tcb := tcb[t := Get(State(), t).(place := Loose)];
    }

    method InsertStateItemEnd(place: Place, t: TaskId)
      modifies this`tcb, this`lists
      ensures State() == LinkEnd(old(State()), place, t)
    {
      lists := lists[place := InsertEnd(ViewAt(State(), place), t)];
      tcb := tcb[t := Get(State(), t).(place := place)];
    }

    method RemoveEventItem(t: TaskId)
      modifies this`tcb, this`eventLists, this`pendingReady
      ensures State() == UnlinkEvent(old(State()), t)
    {
      match Get(State(), t).event {
        case OnEvent(id) => eventLists := eventLists[id := Minus(EventList(State(), id), t)];
        case PendingReady => pendingReady := Minus(pendingReady, t);
        case NoEvent =>
      }
      tcb := tcb[t := Get(State(), t).(event := NoEvent)];
    }

    /** `prvAddTaskToReadyList`. */
    method AddTaskToReadyList(t: TaskId)
      modifies this`tcb, this`lists, this`topReady
      ensures State() == AddToReady(old(State()), t)
    {
      var prio := Get(State(), t).prio;
      if prio > topReady { topReady := prio; }
      InsertStateItemEnd(Ready(prio), t);
    }

    // ---------- Time ----------

    /** `prvResetNextTaskUnblockTime`. */
    method ResetNextTaskUnblockTime()
      modifies this`nextUnblock
      ensures State() == ResetNextUnblock(old(State()))
    {
      var list := ListAt(State(), CurrentDelayed(State()));
      if list == [] {
        nextUnblock := MAX_DELAY;
      } else {
        nextUnblock := Get(State(), list[0]).wake;
      }
    }

    /** `prvAddCurrentTaskToDelayedList`. */
    method AddCurrentTaskToDelayedList(ticksToWait: Tick, canBlockIndefinitely: bool)
      modifies this`tcb, this`lists, this`nextUnblock
      ensures State() == AddCurrentToDelayed(old(State()), ticksToWait, canBlockIndefinitely)
    {
      var t := current;
      RemoveStateItem(t);
      if ticksToWait == MAX_DELAY && canBlockIndefinitely {
        InsertStateItemEnd(SuspendedList, t);
      } else {
        var wake := Add(tick, ticksToWait);
        if wake < tick {
          InsertByWakeTime(OverflowDelayed(State()), t, wake);
        } else {
          InsertByWakeTime(CurrentDelayed(State()), t, wake);
          if wake < nextUnblock { nextUnblock := wake; }
        }
      }
    }

    /** `vListInsert` of a state item. */
    method InsertByWakeTime(place: Place, t: TaskId, wake: Tick)
      modifies this`tcb, this`lists
      ensures State() == LinkByWakeTime(old(State()), place, t, wake)
    {
      var v := ViewAt(State(), place);
      var k := FirstGreater(WakeTimes(State(), v.items), wake);
      lists := lists[place := View(InsertAt(v.items, k, t), if k < v.index then v.index + 1 else v.index)];
      tcb := tcb[t := Get(State(), t).(place := place, wake := wake)];
    }

    /** The tick count advances, with `taskSWITCH_DELAYED_LISTS` at zero. */
    method AdvanceTick()
      modifies this`tick, this`firstIsCurrent, this`overflows, this`nextUnblock
      ensures State() == Tasks.AdvanceTick(old(State()))
    {
      tick := Add(tick, 1);
      if tick == 0 {
        firstIsCurrent, overflows := !firstIsCurrent, overflows + 1;
        ResetNextTaskUnblockTime();
      }
    }

    /** `xTaskIncrementTick`. */
    method IncrementTick() returns (switchRequired: bool)
      requires Partition(State())
      modifies this
      ensures State() == Tasks.IncrementTick(old(State())).0
      ensures switchRequired == Tasks.IncrementTick(old(State())).1
    {
      switchRequired := false;
      if suspended > 0 {
        pended := Add(pended, 1);
      } else {
        IncrementTickKeeps(State());
        AdvanceTick();
        if tick >= nextUnblock {
          SameLists(old(State()), State(), {});
          switchRequired := UnblockDueTasks();
        }
        if |ListAt(State(), Ready(Get(State(), current).prio))| > 1 { switchRequired := true; }
        if yieldPending { switchRequired := true; }
      }
    }

    /** The loop that empties the due part of the current delayed list. */
    method UnblockDueTasks() returns (switchRequired: bool)
      requires Partition(State())
      modifies this`tcb, this`lists, this`topReady, this`eventLists, this`pendingReady, this`nextUnblock
      ensures State() == WakeDue(old(State()))
      ensures switchRequired == WakesPreemptor(old(State()))
    {
      switchRequired := false;
      ghost var s, m := State(), State();
      while true
        invariant State() == m && Partition(m)
        invariant WakeDue(m) == WakeDue(s)
        invariant WakesPreemptor(s) == (switchRequired || WakesPreemptor(m))
        decreases |Sleepers(m)|
      {
        var head := DueHead();
        if head.None? { break; }
        if Get(State(), head.value).prio >= Get(State(), current).prio { switchRequired := true; }
        UnblockHead(head.value);
        m := WakeHead(m);
      }
    }

    /** The two tests at the start of its body; when one ends the loop, it leaves the next wake time. */
    method DueHead() returns (head: Option<TaskId>)
      modifies this`nextUnblock
      ensures var s := old(State());
              if head.None? then State() == WakeDue(s) && !WakesPreemptor(s)
              else && State() == s && Sleepers(s) != [] && head.value == Sleepers(s)[0]
                   && WakeDue(s) == WakeDue(WakeHead(s))
                   && WakesPreemptor(s) == (Get(s, head.value).prio >= Get(s, s.current).prio || WakesPreemptor(WakeHead(s)))
    {
      var list := ListAt(State(), CurrentDelayed(State()));
      WakeDueUnfolds(State());
      if list == [] {
        nextUnblock := MAX_DELAY;
        return None;
      }
      if tick < Get(State(), list[0]).wake {
        nextUnblock := Get(State(), list[0]).wake;
        return None;
      }
      head := Some(list[0]);
    }

    /** The rest of its body: the head of the list becomes ready. */
    method UnblockHead(t: TaskId)
      requires Partition(State()) && ListAt(State(), CurrentDelayed(State())) != []
      requires t == ListAt(State(), CurrentDelayed(State()))[0]
      modifies this`tcb, this`lists, this`topReady, this`eventLists, this`pendingReady
      ensures State() == WakeHead(old(State())) && Partition(State())
    {
      HeadUnlinks(State());
      WakeHeadKeeps(State());
      RemoveStateItem(t);
      if Get(State(), t).event != NoEvent {
        RemoveEventItem(t);
      } else {
        NoEventToUnlink(State(), t);
      }
      AddTaskToReadyList(t);
    }

    /** `xTaskResumeAll`. */
    method ResumeAll() returns (alreadyYielded: bool)
      requires Partition(State()) && suspended > 0 && forall t :: t in pendingReady ==> t in tcb
      modifies this
      ensures State() == Tasks.ResumeAll(old(State()))
      ensures alreadyYielded == (old(suspended) == 1 && old(numTasks) > 0 && yieldPending)
    {
      suspended := suspended - 1;
      alreadyYielded := false;
      if suspended == 0 && numTasks > 0 {
        SameLists(old(State()), State(), {});
        MovePendingTasks();
        ReplayPendedTicks();
        if yieldPending { alreadyYielded := true; }
      }
    }

    method MovePendingTasks()
      requires Partition(State()) && forall t :: t in pendingReady ==> t in tcb
      modifies this`tcb, this`lists, this`topReady, this`pendingReady, this`yieldPending, this`nextUnblock
      ensures State() == ReadyPending(old(State())) && Partition(State())
    {
      ghost var s := State();
      ReadyPendingKeeps(s);
      var moved := false;
      while pendingReady != []
        invariant Partition(State()) && (forall t :: t in pendingReady ==> t in tcb)
        invariant MovePending(State()) == MovePending(s)
        invariant moved == (|pendingReady| < |s.pendingReady|) && |pendingReady| <= |s.pendingReady|
        decreases |pendingReady|
      {
        MoveOneKeeps(State());
        MoveFirstPending();
        moved := true;
      }
      if moved { ResetNextTaskUnblockTime(); }
    }

    method MoveFirstPending()
      requires pendingReady != []
      modifies this`tcb, this`lists, this`topReady, this`pendingReady, this`yieldPending
      ensures State() == MoveOne(old(State()))
    {
      ghost var s := State();
      var t := pendingReady[0];
      tcb := tcb[t := Get(State(), t).(event := NoEvent)];
      pendingReady := pendingReady[1..];
      ghost var s1 := State();
      assert s1 == SetTcb(s, t, Get(s, t).(event := NoEvent)).(pendingReady := s.pendingReady[1..]);
      RemoveStateItem(t);
      AddTaskToReadyList(t);
      assert State() == AddToReady(Unlink(s1, t), t);
      yieldPending := yieldPending || Get(State(), t).prio >= Get(State(), current).prio;
    }

    method ReplayPendedTicks()
      requires Partition(State()) && suspended == 0
      modifies this
      ensures State() == var s := ReplayTicks(old(State()), old(pended)); s.(clock := s.clock.(pended := 0))
    {
      ghost var s := State();
      var left: nat := pended;
      while left > 0
        invariant left <= s.clock.pended && Partition(State()) && suspended == 0
        invariant ReplayTicks(State(), left) == ReplayTicks(s, s.clock.pended)
      {
        ReplayPendedTick();
        left := left - 1;
      }
      pended := 0;
    }

    method ReplayPendedTick()
      requires Partition(State()) && suspended == 0
      modifies this
      ensures State() == ReplayTick(old(State())) && Partition(State()) && suspended == 0
    {
      ghost var s := State();
      IncrementTickKeeps(s);
      SameLists(Tasks.IncrementTick(s).0, ReplayTick(s), {});
      WakeDueClock(Tasks.AdvanceTick(s));
      var switchRequired := IncrementTick();
      yieldPending := yieldPending || switchRequired;
    }

    // ---------- Choosing a task ----------

    /** `vTaskSwitchContext`: the search runs down from the bound. */
    method SwitchContext()
      requires suspended == 0 ==> SomeReady(State(), topReady)
      modifies this
      ensures State() == Tasks.SwitchContext(old(State()))
    {
      if suspended > 0 {
        yieldPending := true;
      } else {
        yieldPending := false;
        var top := topReady;
        while ListAt(State(), Ready(top)) == []
          invariant SomeReady(old(State()), top)
          invariant HighestReady(old(State()), top) == HighestReady(old(State()), old(topReady))
          decreases top
        {
          top := top - 1;
        }
        lists := lists[Ready(top) := Next(ViewAt(State(), Ready(top)))];
        current := ListView.Current(lists[Ready(top)]);
        topReady := top;
      }
    }

    // ---------- Events ----------

    /** `vTaskPlaceOnEventList`. */
    method PlaceOnEventList(id: nat, ticksToWait: Tick)
      modifies this
      ensures State() == Tasks.PlaceOnEventList(old(State()), id, ticksToWait)
    {
      var list := EventList(State(), id);
      eventLists := eventLists[id := InsertAt(list, FirstGreater(EventValues(State(), list), Get(State(), current).evt), current)];
      tcb := tcb[current := Get(State(), current).(event := OnEvent(id))];
      assert State() == OnEventList(old(State()), id);
      AddCurrentTaskToDelayedList(ticksToWait, true);
    }

    /** `xTaskRemoveFromEventList`. */
    method RemoveFromEventList(id: nat) returns (higher: bool)
      requires EventList(State(), id) != []
      modifies this
      ensures State() == Tasks.RemoveFromEventList(old(State()), id)
      ensures higher <==> old(Get(State(), EventList(State(), id)[0]).prio > Get(State(), current).prio)
    {
      ghost var s := State();
      var t := EventList(State(), id)[0];
      higher := Get(State(), t).prio > Get(State(), current).prio;
      tcb := tcb[t := Get(State(), t).(event := NoEvent)];
      eventLists := eventLists[id := EventList(State(), id)[1..]];
      ghost var s1 := State();
      assert s1 == SetTcb(s, t, Get(s, t).(event := NoEvent)).(eventLists := s.eventLists[id := EventList(s, id)[1..]]);
      if suspended == 0 {
        RemoveStateItem(t);
        AddTaskToReadyList(t);
        assert State() == AddToReady(Unlink(s1, t), t);
      } else {
        pendingReady := pendingReady + [t];
        tcb := tcb[t := Get(State(), t).(event := PendingReady)];
      }
      if higher { yieldPending := true; }
    }

    // ---------- Priority inheritance ----------

    /** Moves a ready task to the list of its new priority. */
    method ChangePriority(t: TaskId, value: Tcb)
      modifies this
      ensures State() == Reprioritise(old(State()), t, value)
    {
      if Get(State(), t).place == Ready(Get(State(), t).prio) && value.prio != Get(State(), t).prio {
        RemoveStateItem(t);
        tcb := tcb[t := value.(place := Loose)];
        AddTaskToReadyList(t);
      } else {
        tcb := tcb[t := value];
      }
    }

    /** `xTaskPriorityInherit`; it reports whether the holder runs on an inherited priority. */
    method PriorityInherit(holder: TaskId) returns (inherited: bool)
      requires holder in tcb && current in tcb
      modifies this
      ensures State() == Tasks.PriorityInherit(old(State()), holder)
      ensures inherited <==> old(tcb[holder].prio < tcb[current].prio || tcb[holder].base < tcb[current].prio)
    {
      var h, prio := tcb[holder], tcb[current].prio;
      if h.prio < prio {
        ChangePriority(holder, InheritTcb(h, prio));
        inherited := true;
      } else {
        inherited := h.base < prio;
        tcb := tcb[holder := h];
      }
    }

    /** `xTaskPriorityDisinherit` by the running task; it reports whether the priority changed. */
    method PriorityDisinherit() returns (lowered: bool)
      requires current in tcb && tcb[current].held > 0
      requires tcb[current].place == Ready(tcb[current].prio)
      modifies this
      ensures State() == Tasks.PriorityDisinherit(old(State()), old(current))
      ensures lowered <==> old(tcb[current].prio != tcb[current].base && tcb[current].held == 1)
    {
      var h := tcb[current];
      lowered := h.prio != h.base && h.held == 1;
      if lowered {
        ChangePriority(current, DisinheritTcb(h));
      } else {
        tcb := tcb[current := h.(held := h.held - 1)];
      }
    }

    /** `vTaskPriorityDisinheritAfterTimeout`. */
    method DisinheritAfterTimeout(holder: TaskId, highestWaiting: nat)
      requires holder in tcb && tcb[holder].held > 0
      modifies this
      ensures State() == Tasks.DisinheritAfterTimeout(old(State()), holder, highestWaiting)
    {
      var h := tcb[holder];
      var prio := if h.base < highestWaiting then highestWaiting else h.base;
      if h.prio != prio && h.held == 1 {
        ChangePriority(holder, AfterTimeoutTcb(h, highestWaiting));
      } else {
        tcb := tcb[holder := h];
      }
    }
  }

  lemma NoEventToUnlink(s: Sched, t: TaskId)
    requires t in s.tcb && s.tcb[t].event == NoEvent
    ensures UnlinkEvent(s, t) == s
  {}

  lemma WakeDueUnfolds(s: Sched)
    ensures Sleepers(s) == [] ==> WakeDue(s) == s.(nextUnblock := MAX_DELAY) && !WakesPreemptor(s)
    ensures Sleepers(s) != [] && s.clock.tick < Get(s, Sleepers(s)[0]).wake ==>
              WakeDue(s) == s.(nextUnblock := Get(s, Sleepers(s)[0]).wake) && !WakesPreemptor(s)
    ensures Sleepers(s) != [] && s.clock.tick >= Get(s, Sleepers(s)[0]).wake ==>
              && WakeDue(s) == WakeDue(WakeHead(s))
              && WakesPreemptor(s) == (Get(s, Sleepers(s)[0]).prio >= Get(s, s.current).prio || WakesPreemptor(WakeHead(s)))
  {}

  lemma {:induction false} WakeDueClock(s: Sched)
    ensures WakeDue(s).clock == s.clock
    decreases |ListAt(s, CurrentDelayed(s))|
  {
    var list := ListAt(s, CurrentDelayed(s));
    if list != [] && s.clock.tick >= Get(s, list[0]).wake { WakeDueClock(WakeHead(s)); }
  }
}
