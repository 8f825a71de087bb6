/**
 The scheduler state of tasks.c and what its functions do to it. Each list that a state item
 can be in is seen through module ListView and named by a `Place`; the container pointer of a
 state item is the field `place`, the container of an event item the field `event`. Both
 delayed lists stay where they are in memory, and `firstIsCurrent` says which one
 `pxDelayedTaskList` points to.
 */
module Tasks {
  import opened Word32
  import opened Wrappers
  import opened ListView

  const PRIORITIES: nat := 56

  datatype Place = Loose | Ready(p: nat) | Delayed1 | Delayed2 | SuspendedList | Termination

  datatype EventPlace = NoEvent | OnEvent(list: nat) | PendingReady

  datatype Tcb = Tcb(place: Place, wake: Tick, event: EventPlace, evt: nat, prio: nat, base: nat, held: nat)

  /** `xTickCount`, `xNumOfOverflows`, `xPendedTicks`, `uxSchedulerSuspended`, the list pointers. */
  datatype Clock = Clock(tick: Tick, overflows: nat, pended: Tick, suspended: nat, firstIsCurrent: bool)

  datatype Sched = Sched(
    lists: map<Place, View<TaskId>>,
    tcb: map<TaskId, Tcb>,
    eventLists: map<nat, seq<TaskId>>,
    pendingReady: seq<TaskId>,
    clock: Clock,
    nextUnblock: Tick,
    current: TaskId,
    numTasks: nat,
    topReady: nat,
    yieldPending: bool)

  // ---------- Reading the state ----------

  function Get(s: Sched, t: TaskId): Tcb {
    if t in s.tcb then s.tcb[t] else Tcb(Loose, 0, NoEvent, PRIORITIES, 0, 0, 0)
  }

  function ViewAt(s: Sched, place: Place): (v: View<TaskId>)
    ensures v.Valid()
  {
    if place in s.lists && s.lists[place].Valid() then s.lists[place] else View([], 0)
  }

  function ListAt(s: Sched, place: Place): seq<TaskId> {
    ViewAt(s, place).items
  }

  /** The list `pxDelayedTaskList` points to, and the other one. */
  function CurrentDelayed(s: Sched): Place {
    if s.clock.firstIsCurrent then Delayed1 else Delayed2
  }

  function OverflowDelayed(s: Sched): Place {
    if s.clock.firstIsCurrent then Delayed2 else Delayed1
  }

  function Sleepers(s: Sched): seq<TaskId> {
    ListAt(s, CurrentDelayed(s))
  }

  function LaterSleepers(s: Sched): seq<TaskId> {
    ListAt(s, OverflowDelayed(s))
  }

  function EventList(s: Sched, id: nat): seq<TaskId> {
    if id in s.eventLists then s.eventLists[id] else []
  }

  function WakeTimes(s: Sched, list: seq<TaskId>): (times: seq<nat>)
    ensures |times| == |list| && forall k :: 0 <= k < |list| ==> times[k] == Get(s, list[k]).wake
  {
    seq(|list|, k requires 0 <= k < |list| => Get(s, list[k]).wake)
  }

  function EventValues(s: Sched, list: seq<TaskId>): (values: seq<nat>)
    ensures |values| == |list| && forall k :: 0 <= k < |list| ==> values[k] == Get(s, list[k]).evt
  {
    seq(|list|, k requires 0 <= k < |list| => Get(s, list[k]).evt)
  }

  // ---------- Moving state items ----------

  function SetTcb(s: Sched, t: TaskId, tcb: Tcb): Sched {
    s.(tcb := s.tcb[t := tcb])
  }

  function SetPlace(s: Sched, t: TaskId, place: Place): Sched {
    SetTcb(s, t, Get(s, t).(place := place))
  }

  /** `uxListRemove` of a state item from the list that holds it. */
  function Unlink(s: Sched, t: TaskId): Sched {
    var place := Get(s, t).place;
    var v := ViewAt(s, place);
    var k := IndexOf(v.items, t);
    SetPlace(s, t, Loose).(lists := if k < |v.items| then s.lists[place := Remove(v, k)] else s.lists)
  }

  function Max(a: nat, b: nat): nat {
    if a < b then b else a
  }

  /** `vListInsertEnd` of a state item. */
  function LinkEnd(s: Sched, place: Place, t: TaskId): Sched {
    SetPlace(s, t, place).(lists := s.lists[place := InsertEnd(ViewAt(s, place), t)])
  }

  /** `prvAddTaskToReadyList`. */
  function AddToReady(s: Sched, t: TaskId): Sched {
    LinkEnd(s, Ready(Get(s, t).prio), t).(topReady := Max(s.topReady, Get(s, t).prio))
  }

  /** `vListInsert` of a state item in wake time order. */
  function LinkByWakeTime(s: Sched, place: Place, t: TaskId, wake: Tick): Sched {
    var v := ViewAt(s, place);
    var k := FirstGreater(WakeTimes(s, v.items), wake);
    SetTcb(s, t, Get(s, t).(place := place, wake := wake))
      .(lists := s.lists[place := View(InsertAt(v.items, k, t), if k < v.index then v.index + 1 else v.index)])
  }

  /** Takes an event item off its event list or off the pending ready list. */
  function UnlinkEvent(s: Sched, t: TaskId): Sched {
    var event := Get(s, t).event;
    SetTcb(s, t, Get(s, t).(event := NoEvent)).(
      eventLists := if event.OnEvent? then s.eventLists[event.list := Minus(EventList(s, event.list), t)] else s.eventLists,
      pendingReady := if event.PendingReady? then Minus(s.pendingReady, t) else s.pendingReady)
  }

  // ---------- Time ----------

  /** `prvResetNextTaskUnblockTime`. */
  function ResetNextUnblock(s: Sched): Sched {
    var list := ListAt(s, CurrentDelayed(s));
    s.(nextUnblock := if list == [] then MAX_DELAY else Get(s, list[0]).wake)
  }

  /** `taskSWITCH_DELAYED_LISTS`. */
  function SwitchDelayedLists(s: Sched): Sched {
    ResetNextUnblock(s.(clock := s.clock.(firstIsCurrent := !s.clock.firstIsCurrent, overflows := s.clock.overflows + 1)))
  }

  /** `prvAddCurrentTaskToDelayedList`. */
  function AddCurrentToDelayed(s: Sched, ticksToWait: Tick, canBlockIndefinitely: bool): Sched {
    var t := s.current;
    var s1 := Unlink(s, t);
    if ticksToWait == MAX_DELAY && canBlockIndefinitely then LinkEnd(s1, SuspendedList, t)
    else
      var wake := Add(s.clock.tick, ticksToWait);
      if wake < s.clock.tick then LinkByWakeTime(s1, OverflowDelayed(s), t, wake)
      else
        var s2 := LinkByWakeTime(s1, CurrentDelayed(s), t, wake);
        if wake < s.nextUnblock then s2.(nextUnblock := wake) else s2
  }

  /** One sleeper at the head of the current delayed list becomes ready. */
  function WakeHead(s: Sched): (s': Sched)
    requires ListAt(s, CurrentDelayed(s)) != []
    ensures s'.clock == s.clock
    ensures ListAt(s', CurrentDelayed(s)) == ListAt(s, CurrentDelayed(s))[1..]
  {
    var v := ViewAt(s, CurrentDelayed(s));
    var s1 := SetPlace(s, v.items[0], Loose).(lists := s.lists[CurrentDelayed(s) := Remove(v, 0)]);
    AddToReady(UnlinkEvent(s1, v.items[0]), v.items[0])
  }

  /** The loop of `xTaskIncrementTick` over the current delayed list. */
  function WakeDue(s: Sched): Sched
    decreases |ListAt(s, CurrentDelayed(s))|
  {
    var list := ListAt(s, CurrentDelayed(s));
    if list == [] then s.(nextUnblock := MAX_DELAY)
    else if s.clock.tick < Get(s, list[0]).wake then s.(nextUnblock := Get(s, list[0]).wake)
    else WakeDue(WakeHead(s))
  }

  /** The loop asks for a switch when it wakes a task of at least the running priority. */
  function WakesPreemptor(s: Sched): bool
    decreases |ListAt(s, CurrentDelayed(s))|
  {
    var list := ListAt(s, CurrentDelayed(s));
    if list == [] || s.clock.tick < Get(s, list[0]).wake then false
    else Get(s, list[0]).prio >= Get(s, s.current).prio || WakesPreemptor(WakeHead(s))
  }

  /** The tick count advances; at zero the delayed lists change places. */
  function AdvanceTick(s: Sched): Sched {
    var s1 := s.(clock := s.clock.(tick := Add(s.clock.tick, 1)));
    if s1.clock.tick == 0 then SwitchDelayedLists(s1) else s1
  }

  /** `xTaskIncrementTick`; the flag is its return value. */
  function IncrementTick(s: Sched): (Sched, bool) {
    if s.clock.suspended > 0 then (s.(clock := s.clock.(pended := Add(s.clock.pended, 1))), false)
    else
      var s1 := AdvanceTick(s);
      var s2 := if s1.clock.tick >= s1.nextUnblock then WakeDue(s1) else s1;
      var woke := s1.clock.tick >= s1.nextUnblock && WakesPreemptor(s1);
      (s2, woke || |ListAt(s2, Ready(Get(s2, s2.current).prio))| > 1 || s2.yieldPending)
  }

  /** The first pending task becomes ready. */
  function MoveOne(s: Sched): (s': Sched)
    requires s.pendingReady != []
    ensures s'.pendingReady == s.pendingReady[1..]
  {
    var t := s.pendingReady[0];
    var s1 := SetTcb(s, t, Get(s, t).(event := NoEvent)).(pendingReady := s.pendingReady[1..]);
    var s2 := AddToReady(Unlink(s1, t), t);
    s2.(yieldPending := s2.yieldPending || Get(s2, t).prio >= Get(s2, s2.current).prio)
  }

  /** The loop of `xTaskResumeAll` over the pending ready list. */
  function MovePending(s: Sched): Sched
    decreases |s.pendingReady|
  {
    if s.pendingReady == [] then s else MovePending(MoveOne(s))
  }

  /** One tick that was held back. */
  function ReplayTick(s: Sched): Sched {
    var (s1, switch) := IncrementTick(s);
    s1.(yieldPending := s1.yieldPending || switch)
  }

  /** The loop of `xTaskResumeAll` over the ticks that were held back. */
  function ReplayTicks(s: Sched, n: nat): Sched
    decreases n
  {
    if n == 0 then s else ReplayTicks(ReplayTick(s), n - 1)
  }

  function SuspendAll(s: Sched): Sched {
    s.(clock := s.clock.(suspended := s.clock.suspended + 1))
  }

  /** What the last resume does before it replays the ticks. */
  function ReadyPending(s: Sched): Sched {
    var s1 := MovePending(s);
    if s.pendingReady != [] then ResetNextUnblock(s1) else s1
  }

  /** `xTaskResumeAll`. */
  function ResumeAll(s: Sched): Sched
    requires s.clock.suspended > 0
  {
    var s1 := s.(clock := s.clock.(suspended := s.clock.suspended - 1));
    if s1.clock.suspended > 0 || s1.numTasks == 0 then s1
    else
      var s2 := ReadyPending(s1);
      var s3 := ReplayTicks(s2, s2.clock.pended);
      s3.(clock := s3.clock.(pended := 0))
  }

  // ---------- Events ----------

  /** The current task's event item goes onto an event list, in priority order. */
  function OnEventList(s: Sched, id: nat): Sched {
    var list := EventList(s, id);
    SetTcb(s, s.current, Get(s, s.current).(event := OnEvent(id)))
      .(eventLists := s.eventLists[id := InsertAt(list, FirstGreater(EventValues(s, list), Get(s, s.current).evt), s.current)])
  }

  /** `vTaskPlaceOnEventList`. */
  function PlaceOnEventList(s: Sched, id: nat, ticksToWait: Tick): Sched {
    AddCurrentToDelayed(OnEventList(s, id), ticksToWait, true)
  }

  /** `xTaskRemoveFromEventList` on a list that is not empty. */
  function RemoveFromEventList(s: Sched, id: nat): Sched
    requires EventList(s, id) != []
  {
    var t := EventList(s, id)[0];
    var s1 := SetTcb(s, t, Get(s, t).(event := NoEvent)).(eventLists := s.eventLists[id := EventList(s, id)[1..]]);
    var s2 := if s.clock.suspended == 0 then AddToReady(Unlink(s1, t), t)
              else SetTcb(s1, t, Get(s1, t).(event := PendingReady)).(pendingReady := s1.pendingReady + [t]);
    if Get(s, t).prio > Get(s, s.current).prio then s2.(yieldPending := true) else s2
  }

  // ---------- Creation and deletion ----------

  /** `prvAddNewTaskToReadyList` while the scheduler runs. */
  function AddNewTask(s: Sched, t: TaskId, prio: nat): Sched {
    AddToReady(SetTcb(s, t, Tcb(Loose, 0, NoEvent, EventValue(prio), prio, prio, 0)).(numTasks := s.numTasks + 1), t)
  }

  /** `vTaskDelete`: a task that deletes itself waits for the idle task to free it. */
  function DeleteTask(s: Sched, t: TaskId): Sched {
    var s1 := UnlinkEvent(Unlink(s, t), t);
    if t == s.current then LinkEnd(s1, Termination, t)
    else ResetNextUnblock(s1.(numTasks := if s.numTasks > 0 then s.numTasks - 1 else 0, tcb := s1.tcb - {t}))
  }

  /** One round of `prvCheckTasksWaitingTermination`. */
  function CleanUp(s: Sched): Sched
    requires ListAt(s, Termination) != []
  {
    var t := ListAt(s, Termination)[0];
    var s1 := Unlink(s, t);
    s1.(numTasks := if s.numTasks > 0 then s.numTasks - 1 else 0, tcb := s1.tcb - {t})
  }

  // ---------- Choosing a task ----------

  /** A ready list at or below `top` has a task. */
  predicate SomeReady(s: Sched, top: nat) {
    ListAt(s, Ready(top)) != [] || (top > 0 && SomeReady(s, top - 1))
  }

  function HighestReady(s: Sched, top: nat): (p: nat)
    requires SomeReady(s, top)
    ensures p <= top && ListAt(s, Ready(p)) != []
    ensures forall q :: p < q <= top ==> ListAt(s, Ready(q)) == []
  {
    if ListAt(s, Ready(top)) != [] then top else HighestReady(s, top - 1)
  }

  /** `vTaskSwitchContext`. */
  function SwitchContext(s: Sched): Sched {
    if s.clock.suspended > 0 then s.(yieldPending := true)
    else if !SomeReady(s, s.topReady) then s
    else
      var p := HighestReady(s, s.topReady);
      var list := Next(ViewAt(s, Ready(p)));
      s.(lists := s.lists[Ready(p) := list], current := ListView.Current(list), topReady := p, yieldPending := false)
  }

  // ---------- Priority inheritance ----------

  /** The event item value that makes an event list run from high to low priority. */
  function EventValue(prio: nat): nat {
    if prio <= PRIORITIES then PRIORITIES - prio else 0
  }

  /** `taskEVENT_LIST_ITEM_VALUE_IN_USE`: an event group has borrowed the item value. */
  const IN_USE: nat := 0x8000_0000

  /** A new priority; the event item value follows unless it is borrowed, the ready list if in it. */
  function WithPriority(tcb: Tcb, prio: nat): Tcb {
    tcb.(prio := prio,
         evt := if tcb.evt < IN_USE then EventValue(prio) else tcb.evt,
         place := if tcb.place == Ready(tcb.prio) then Ready(prio) else tcb.place)
  }

  /** What `xTaskPriorityInherit` writes into the holder's control block. */
  function InheritTcb(holder: Tcb, prio: nat): Tcb {
    if holder.prio < prio then WithPriority(holder, prio) else holder
  }

  /** What `xTaskPriorityDisinherit` writes into the giving task's control block. */
  function DisinheritTcb(holder: Tcb): Tcb
    requires holder.held > 0
  {
    var less := holder.(held := holder.held - 1);
    if holder.prio != holder.base && less.held == 0 then
      less.(prio := holder.base, evt := EventValue(holder.base), place := Ready(holder.base))
    else less
  }

  /** What `vTaskPriorityDisinheritAfterTimeout` writes, given the best waiter that is left. */
  function AfterTimeoutTcb(holder: Tcb, highestWaiting: nat): Tcb {
    var prio := Max(holder.base, highestWaiting);
    if holder.prio != prio && holder.held == 1 then WithPriority(holder, prio) else holder
  }

  /** Gives a task a new control block that may name another ready list, and moves it there. */
  function Reprioritise(s: Sched, t: TaskId, tcb: Tcb): Sched {
    if Get(s, t).place == Ready(Get(s, t).prio) && tcb.prio != Get(s, t).prio then
      AddToReady(SetTcb(Unlink(s, t), t, tcb.(place := Loose)), t)
    else SetTcb(s, t, tcb)
  }

  function PriorityInherit(s: Sched, holder: TaskId): Sched {
    Reprioritise(s, holder, InheritTcb(Get(s, holder), Get(s, s.current).prio))
  }

  function PriorityDisinherit(s: Sched, holder: TaskId): Sched
    requires Get(s, holder).held > 0
  {
    Reprioritise(s, holder, DisinheritTcb(Get(s, holder)))
  }

  function DisinheritAfterTimeout(s: Sched, holder: TaskId, highestWaiting: nat): Sched {
    Reprioritise(s, holder, AfterTimeoutTcb(Get(s, holder), highestWaiting))
  }
}
