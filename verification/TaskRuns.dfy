/** Whole runs of the scheduler: every sequence of the calls that module Tasks models. */
module TaskRuns {
  import opened Wrappers
  import opened Word32
  import opened ListView
  import opened Tasks
  import opened TaskPartition
  import opened TaskTime

  // ---------- Event items ----------

  function Members(s: Sched, e: EventPlace): seq<TaskId> {
    match e
    case NoEvent => []
    case OnEvent(id) => EventList(s, id)
    case PendingReady => s.pendingReady
  }

  ghost predicate HoldsEvents(s: Sched, e: EventPlace) {
    && NoDuplicates(Members(s, e))
    && forall t :: t in Members(s, e) <==> t in s.tcb && s.tcb[t].event == e
  }

  predicate Blocked(place: Place) {
    place == Delayed1 || place == Delayed2 || place == SuspendedList
  }

  /** A task waits for at most one event, and only while its state item is in a blocked list. */
  ghost predicate EventsOk(s: Sched) {
    && (forall e: EventPlace :: e != NoEvent ==> HoldsEvents(s, e))
    && (forall t :: t in s.tcb && s.tcb[t].event != NoEvent ==> Blocked(s.tcb[t].place) || s.tcb[t].place == Loose)
  }

  /** Steps that leave event items where they are. */
  lemma SameEvents(s: Sched, s': Sched)
    requires EventsOk(s) && s'.eventLists == s.eventLists && s'.pendingReady == s.pendingReady
    requires forall t :: t in s'.tcb && t !in s.tcb ==> s'.tcb[t].event == NoEvent
    requires forall t :: t in s.tcb && t !in s'.tcb ==> s.tcb[t].event == NoEvent
    requires forall t :: t in s.tcb && t in s'.tcb ==>
               s'.tcb[t].event == s.tcb[t].event
               && (s'.tcb[t].place == s.tcb[t].place || s.tcb[t].event == NoEvent || Blocked(s'.tcb[t].place) || s'.tcb[t].place == Loose)
    ensures EventsOk(s')
  {
    forall e: EventPlace | e != NoEvent ensures HoldsEvents(s', e) { assert HoldsEvents(s, e); }
  }

  lemma UnlinkEventOk(s: Sched, t: TaskId)
    requires EventsOk(s) && t in s.tcb
    ensures EventsOk(UnlinkEvent(s, t))
  {
    var s', from := UnlinkEvent(s, t), s.tcb[t].event;
    if from != NoEvent {
      assert HoldsEvents(s, from);
      MinusFacts(Members(s, from), t);
      forall e: EventPlace | e != NoEvent ensures HoldsEvents(s', e) { assert HoldsEvents(s, e); }
    } else {
      SameEvents(s, s');
    }
  }

  lemma HeadLeaves(list: seq<TaskId>)
    requires NoDuplicates(list) && list != []
    ensures NoDuplicates(list[1..]) && forall t :: t in list[1..] <==> t in list && t != list[0]
  {
    assert list == [list[0]] + list[1..];
  }

  /** The first member of an event list (or of the pending list) leaves it. */
  lemma HeadEventOk(s: Sched, s': Sched, e: EventPlace)
    requires EventsOk(s) && e != NoEvent && Members(s, e) != []
    requires var t := Members(s, e)[0]; t in s.tcb && s'.tcb == s.tcb[t := s.tcb[t].(event := NoEvent)]
    requires forall f: EventPlace :: f != NoEvent ==> Members(s', f) == if f == e then Members(s, e)[1..] else Members(s, f)
    ensures EventsOk(s')
  {
    assert HoldsEvents(s, e);
    HeadLeaves(Members(s, e));
    forall f: EventPlace | f != NoEvent ensures HoldsEvents(s', f) { assert HoldsEvents(s, f); }
  }

  /** A blocked task without an event joins an event list. */
  lemma JoinEventOk(s: Sched, s': Sched, e: EventPlace, t: TaskId, k: nat)
    requires EventsOk(s) && e != NoEvent && t in s.tcb && s.tcb[t].event == NoEvent && k <= |Members(s, e)|
    requires t in s'.tcb && s'.tcb == s.tcb[t := s'.tcb[t]] && s'.tcb[t].event == e && (Blocked(s'.tcb[t].place) || s'.tcb[t].place == Loose)
    requires forall f: EventPlace :: f != NoEvent ==> Members(s', f) == if f == e then InsertAt(Members(s, e), k, t) else Members(s, f)
    ensures EventsOk(s')
  {
    assert HoldsEvents(s, e);
    InsertFacts(Members(s, e), k, t);
    forall f: EventPlace | f != NoEvent ensures HoldsEvents(s', f) { assert HoldsEvents(s, f); }
  }

  lemma WakeHeadEvents(s: Sched)
    requires Partition(s) && EventsOk(s) && Sleepers(s) != []
    ensures EventsOk(WakeHead(s))
    ensures s.pendingReady == [] ==> WakeHead(s).pendingReady == []
  {
    var v := ViewAt(s, CurrentDelayed(s));
    var t := v.items[0];
    assert Holds(s, CurrentDelayed(s));
    var s1 := SetPlace(s, t, Loose).(lists := s.lists[CurrentDelayed(s) := Remove(v, 0)]);
    SameEvents(s, s1);
    UnlinkEventOk(s1, t);
    assert UnlinkEvent(s1, t).tcb[t].event == NoEvent;
    SameEvents(UnlinkEvent(s1, t), WakeHead(s));
    if s.pendingReady == [] && s.tcb[t].event == PendingReady { assert HoldsEvents(s, PendingReady); }
  }

  lemma {:induction false} WakeDueEvents(s: Sched)
    requires Partition(s) && EventsOk(s)
    ensures EventsOk(WakeDue(s))
    ensures s.pendingReady == [] ==> WakeDue(s).pendingReady == []
    decreases |Sleepers(s)|
  {
    var list := Sleepers(s);
    if list == [] || s.clock.tick < Get(s, list[0]).wake {
      SameEvents(s, WakeDue(s));
    } else {
      WakeHeadKeeps(s);
      WakeHeadEvents(s);
      WakeDueEvents(WakeHead(s));
    }
  }

  lemma TickEvents(s: Sched)
    requires Partition(s) && EventsOk(s)
    ensures EventsOk(IncrementTick(s).0)
    ensures s.pendingReady == [] ==> IncrementTick(s).0.pendingReady == []
  {
    if s.clock.suspended > 0 {
      SameEvents(s, IncrementTick(s).0);
    } else {
      SameLists(s, AdvanceTick(s), {});
      SameEvents(s, AdvanceTick(s));
      WakeDueEvents(AdvanceTick(s));
    }
  }

  lemma {:induction false} ReplayEvents(s: Sched, n: nat)
    requires Partition(s) && EventsOk(s) && s.pendingReady == []
    ensures EventsOk(ReplayTicks(s, n)) && ReplayTicks(s, n).pendingReady == []
    decreases n
  {
    if n > 0 {
      TickEvents(s);
      IncrementTickKeeps(s);
      SameLists(IncrementTick(s).0, ReplayTick(s), {});
      SameEvents(IncrementTick(s).0, ReplayTick(s));
      ReplayEvents(ReplayTick(s), n - 1);
    }
  }

  /** Unlinking a task without an event and making it ready. */
  lemma ReadyAgainEvents(s: Sched, t: TaskId)
    requires EventsOk(s) && t in s.tcb && s.tcb[t].event == NoEvent
    ensures EventsOk(AddToReady(Unlink(s, t), t))
  {
    SameEvents(s, AddToReady(Unlink(s, t), t));
  }

  lemma MoveOneEvents(s: Sched)
    requires EventsOk(s) && s.pendingReady != [] && s.pendingReady[0] in s.tcb
    ensures EventsOk(MoveOne(s))
  {
    var t := s.pendingReady[0];
    var s1 := SetTcb(s, t, Get(s, t).(event := NoEvent)).(pendingReady := s.pendingReady[1..]);
    HeadEventOk(s, s1, PendingReady);
    ReadyAgainEvents(s1, t);
    SameEvents(AddToReady(Unlink(s1, t), t), MoveOne(s));
  }

  lemma {:induction false} MovePendingEvents(s: Sched)
    requires Partition(s) && EventsOk(s)
    ensures EventsOk(MovePending(s)) && MovePending(s).pendingReady == []
    decreases |s.pendingReady|
  {
    if s.pendingReady != [] {
      assert HoldsEvents(s, PendingReady);
      MoveOneKeeps(s);
      MoveOneEvents(s);
      MovePendingEvents(MoveOne(s));
    }
  }

  lemma ResumeEvents(s: Sched)
    requires Partition(s) && EventsOk(s) && s.clock.suspended > 0 && s.numTasks > 0
    ensures EventsOk(ResumeAll(s))
    ensures ResumeAll(s).clock.suspended == 0 ==> ResumeAll(s).pendingReady == []
  {
    assert HoldsEvents(s, PendingReady);
    var s1 := s.(clock := s.clock.(suspended := s.clock.suspended - 1));
    SameLists(s, s1, {});
    SameEvents(s, s1);
    if s1.clock.suspended == 0 {
      MovePendingEvents(s1);
      ReadyPendingKeeps(s1);
      var s2 := ReadyPending(s1);
      assert s2 == MovePending(s1).(nextUnblock := s2.nextUnblock);
      SameEvents(MovePending(s1), s2);
      ReplayEvents(s2, s2.clock.pended);
      var s3 := ReplayTicks(s2, s2.clock.pended);
      assert ResumeAll(s) == s3.(clock := s3.clock.(pended := 0));
      SameEvents(s3, ResumeAll(s));
    }
  }

  /** What blocking writes: the caller's state item, and nothing about events. */
  lemma DelayTcb(s: Sched, ticksToWait: Tick, canBlockIndefinitely: bool)
    requires s.current in s.tcb
    ensures var s', t := AddCurrentToDelayed(s, ticksToWait, canBlockIndefinitely), s.current;
            && s'.eventLists == s.eventLists && s'.pendingReady == s.pendingReady && s'.current == t && s'.clock == s.clock
            && t in s'.tcb && Blocked(s'.tcb[t].place)
            && s'.tcb == s.tcb[t := s.tcb[t].(place := s'.tcb[t].place, wake := s'.tcb[t].wake)]
  {
    var t, s1, s' := s.current, Unlink(s, s.current), AddCurrentToDelayed(s, ticksToWait, canBlockIndefinitely);
    assert s1.tcb == s.tcb[t := s.tcb[t].(place := Loose)];
    var wake := Add(s.clock.tick, ticksToWait);
    if ticksToWait == MAX_DELAY && canBlockIndefinitely {
      assert s' == LinkEnd(s1, SuspendedList, t);
    } else if wake < s.clock.tick {
      assert s' == LinkByWakeTime(s1, OverflowDelayed(s), t, wake);
    } else {
      assert s' == LinkByWakeTime(s1, CurrentDelayed(s), t, wake).(nextUnblock := s'.nextUnblock);
    }
    SetTwice(s.tcb, t, s1.tcb[t], s'.tcb[t]);
  }

  lemma DelayEvents(s: Sched, ticksToWait: Tick, canBlockIndefinitely: bool)
    requires EventsOk(s) && s.current in s.tcb
    ensures EventsOk(AddCurrentToDelayed(s, ticksToWait, canBlockIndefinitely))
  {
    DelayTcb(s, ticksToWait, canBlockIndefinitely);
    SameEvents(s, AddCurrentToDelayed(s, ticksToWait, canBlockIndefinitely));
  }

  lemma WaitTcb(s: Sched, id: nat, ticksToWait: Tick)
    requires s.current in s.tcb
    ensures var s', t := PlaceOnEventList(s, id, ticksToWait), s.current;
            && s'.pendingReady == s.pendingReady && s'.current == t && s'.clock == s.clock
            && t in s'.tcb && Blocked(s'.tcb[t].place) && s'.tcb[t].event == OnEvent(id) && s'.tcb == s.tcb[t := s'.tcb[t]]
            && s'.eventLists == OnEventList(s, id).eventLists
  {
    DelayTcb(OnEventList(s, id), ticksToWait, true);
    SetTwice(s.tcb, s.current, OnEventList(s, id).tcb[s.current], PlaceOnEventList(s, id, ticksToWait).tcb[s.current]);
  }

  lemma PlaceEvents(s: Sched, id: nat, ticksToWait: Tick)
    requires Partition(s) && EventsOk(s) && s.current in s.tcb && s.tcb[s.current].place.Ready?
    ensures EventsOk(PlaceOnEventList(s, id, ticksToWait))
  {
    var t, list, s' := s.current, EventList(s, id), PlaceOnEventList(s, id, ticksToWait);
    WaitTcb(s, id, ticksToWait);
    JoinEventOk(s, s', OnEvent(id), t, FirstGreater(EventValues(s, list), s.tcb[t].evt));
  }

  lemma RemoveEvents(s: Sched, id: nat)
    requires Partition(s) && EventsOk(s) && EventList(s, id) != [] && EventList(s, id)[0] in s.tcb
    ensures EventsOk(RemoveFromEventList(s, id))
    ensures s.clock.suspended == 0 ==> RemoveFromEventList(s, id).pendingReady == s.pendingReady
  {
    assert HoldsEvents(s, OnEvent(id));
    var t := EventList(s, id)[0];
    var s1 := SetTcb(s, t, Get(s, t).(event := NoEvent)).(eventLists := s.eventLists[id := EventList(s, id)[1..]]);
    HeadEventOk(s, s1, OnEvent(id));
    if s.clock.suspended == 0 {
      ReadyAgainEvents(s1, t);
      SameEvents(AddToReady(Unlink(s1, t), t), RemoveFromEventList(s, id));
    } else {
      var s2 := SetTcb(s1, t, Get(s1, t).(event := PendingReady)).(pendingReady := s1.pendingReady + [t]);
      JoinEventOk(s1, s2, PendingReady, t, |s1.pendingReady|);
      SameEvents(s2, RemoveFromEventList(s, id));
    }
  }

  lemma ReprioritiseEvents(s: Sched, t: TaskId, tcb: Tcb)
    requires Partition(s) && EventsOk(s) && t in s.tcb && tcb.event == s.tcb[t].event
    requires tcb.place == if s.tcb[t].place.Ready? then Ready(tcb.prio) else s.tcb[t].place
    ensures EventsOk(Reprioritise(s, t, tcb))
  {
    ReprioritisedTcb(s, t, tcb);
    SameEvents(s, Reprioritise(s, t, tcb));
  }

  lemma ReprioritisedTcb(s: Sched, t: TaskId, tcb: Tcb)
    requires t in s.tcb && tcb.place == if s.tcb[t].place.Ready? then Ready(tcb.prio) else s.tcb[t].place
    ensures var s' := Reprioritise(s, t, tcb);
            s'.tcb == s.tcb[t := tcb] && s'.eventLists == s.eventLists && s'.pendingReady == s.pendingReady
  {
    SetTwice(s.tcb, t, s.tcb[t].(place := Loose), tcb.(place := Loose));
    SetTwice(s.tcb, t, tcb.(place := Loose), tcb);
  }

  lemma DeleteEvents(s: Sched, t: TaskId)
    requires Partition(s) && EventsOk(s) && t in s.tcb
    ensures EventsOk(DeleteTask(s, t)) && (s.pendingReady == [] ==> DeleteTask(s, t).pendingReady == [])
  {
    var s1 := Unlink(s, t);
    SameEvents(s, s1);
    UnlinkEventOk(s1, t);
    UnlinkEventEffect(s1, t);
    var s2, s' := UnlinkEvent(s1, t), DeleteTask(s, t);
    if t == s.current {
      assert s' == LinkEnd(s2, Termination, t);
    } else {
      assert s' == s2.(numTasks := s'.numTasks, tcb := s2.tcb - {t}, nextUnblock := s'.nextUnblock);
    }
    DeleteEventsEnd(s2, s', t);
  }

  lemma DeleteEventsEnd(s: Sched, s': Sched, t: TaskId)
    requires EventsOk(s) && t in s.tcb && s.tcb[t].event == NoEvent
    requires s'.eventLists == s.eventLists && s'.pendingReady == s.pendingReady
    requires s'.tcb == s.tcb - {t} || s'.tcb == s.tcb[t := s.tcb[t].(place := Termination)]
    ensures EventsOk(s')
  {
    SameEvents(s, s');
  }

  lemma CleanUpEvents(s: Sched)
    requires Partition(s) && EventsOk(s) && ListAt(s, Termination) != []
    ensures EventsOk(CleanUp(s))
  {
    assert Holds(s, Termination);
    SameEvents(s, CleanUp(s));
  }

  // ---------- Runs ----------

  datatype Action =
    | Tick
    | Delay(ticksToWait: Tick)                          // vTaskDelay, xTaskDelayUntil
    | WaitForEvent(id: nat, ticksToWait: Tick)          // vTaskPlaceOnEventList
    | SignalEvent(id: nat)                              // xTaskRemoveFromEventList
    | Suspend
    | Resume
    | Switch
    | Create(t: TaskId, prio: nat)
    | Delete(t: TaskId)
    | Reap                                              // prvCheckTasksWaitingTermination
    | CountMutex                                        // pvTaskIncrementMutexHeldCount
    | Inherit(t: TaskId)
    | Disinherit
    | AfterTimeout(t: TaskId, highestWaiting: nat)

  predicate Enabled(s: Sched, a: Action) {
    var running := s.current in s.tcb && s.tcb[s.current].place.Ready?;
    match a
    case Tick => true
    case Delay(ticks) => running && 0 < ticks
    case WaitForEvent(_, ticks) => running && 0 < ticks
    case SignalEvent(id) => EventList(s, id) != []
    case Suspend => true
    case Resume => s.clock.suspended > 0
    case Switch => SomeReady(s, s.topReady)
    case Create(t, prio) => t !in s.tcb && prio < PRIORITIES
    case Delete(t) => t in s.tcb && s.tcb[t].place != Termination
    case Reap => ListAt(s, Termination) != [] && ListAt(s, Termination)[0] != s.current
    case CountMutex => true
    case Inherit(t) => t in s.tcb
    case Disinherit => running && s.tcb[s.current].held > 0
    case AfterTimeout(t, highest) => t in s.tcb && highest < PRIORITIES
  }

  function Step(s: Sched, a: Action): Sched {
    if !Enabled(s, a) then s else
    match a
    case Tick => IncrementTick(s).0
    case Delay(ticks) => AddCurrentToDelayed(s, ticks, false)
    case WaitForEvent(id, ticks) => PlaceOnEventList(s, id, ticks)
    case SignalEvent(id) => RemoveFromEventList(s, id)
    case Suspend => SuspendAll(s)
    case Resume => ResumeAll(s)
    case Switch => SwitchContext(s)
    case Create(t, prio) => AddNewTask(s, t, prio)
    case Delete(t) => DeleteTask(s, t)
    case Reap => CleanUp(s)
    case CountMutex => SetTcb(s, s.current, Get(s, s.current).(held := Get(s, s.current).held + 1))
    case Inherit(t) => PriorityInherit(s, t)
    case Disinherit => PriorityDisinherit(s, s.current)
    case AfterTimeout(t, highest) => DisinheritAfterTimeout(s, t, highest)
  }

  function Exec(s: Sched, run: seq<Action>): Sched
    decreases |run|
  {
    if run == [] then s else Exec(Step(s, run[0]), run[1..])
  }

  ghost predicate Inv(s: Sched) {
    && Partition(s) && TimeOk(s) && EventsOk(s) && s.current in s.tcb
    && (s.clock.suspended == 0 ==> s.pendingReady == [])
  }

  /** `prvInitialiseTaskLists` and the first task, before the first tick. */
  ghost predicate Init(s: Sched) {
    && s.lists == map[Ready(s.topReady) := View([s.current], 0)]
    && s.topReady < PRIORITIES && s.numTasks == 1
    && s.tcb == map[s.current := Tcb(Ready(s.topReady), 0, NoEvent, EventValue(s.topReady), s.topReady, s.topReady, 0)]
    && s.eventLists == map[] && s.pendingReady == []
    && s.clock == Clock(s.clock.tick, 0, 0, 0, true) && s.nextUnblock == MAX_DELAY
  }

  lemma InitInv(s: Sched)
    requires Init(s)
    ensures Inv(s)
  {
    forall place: Place | IsList(place) ensures Holds(s, place) {}
    forall e: EventPlace | e != NoEvent ensures HoldsEvents(s, e) {}
    InitTotal(s, PRIORITIES);
  }

  lemma {:induction false} InitTotal(s: Sched, n: nat)
    requires s.lists == map[Ready(s.topReady) := View([s.current], 0)]
    ensures ReadyTotal(s, n) == if s.topReady < n then 1 else 0
  {
    if n > 0 { InitTotal(s, n - 1); }
  }

  lemma {:induction false} ReadyTotalAtLeast(s: Sched, p: nat, n: nat)
    requires p < n
    ensures |ListAt(s, Ready(p))| <= ReadyTotal(s, n)
  {
    if p < n - 1 { ReadyTotalAtLeast(s, p, n - 1); }
  }

  lemma SomeTasks(s: Sched)
    requires Partition(s) && s.current in s.tcb
    ensures s.numTasks > 0
  {
    var place := s.tcb[s.current].place;
    assert IsList(place) && Holds(s, place) && s.current in ListAt(s, place);
    if place.Ready? { ReadyTotalAtLeast(s, place.p, PRIORITIES); }
  }

  /** The reasons other than time for which a sleeper stops sleeping. */
  predicate WokenEarly(s: Sched, a: Action, t: TaskId) {
    || (a.SignalEvent? && EventList(s, a.id) != [] && EventList(s, a.id)[0] == t && s.clock.suspended == 0)
    || (a.Delete? && a.t == t)
    || (a.Resume? && t in s.pendingReady)
  }

  /** How one step treats time: the clock, and every sleeper that nothing else wakes. */
  ghost predicate TimePasses(s: Sched, s': Sched, a: Action) {
    && Now(s) <= Now(s')
    && forall t :: Sleeping(s, t) && !WokenEarly(s, a, t) ==>
         if Now(s') < Deadline(s, t) then Sleeping(s', t) && Deadline(s', t) == Deadline(s, t)
         else t in s'.tcb && s'.tcb[t] == WokenTcb(s.tcb[t])
  }

  lemma TickStep(s: Sched)
    requires Inv(s)
    ensures Inv(IncrementTick(s).0) && TimePasses(s, IncrementTick(s).0, Tick)
  {
    var s' := IncrementTick(s).0;
    IncrementTickKeeps(s);
    TickEvents(s);
    forall t | Sleeping(s, t) ensures Now(s) < Deadline(s, t) { DeadlinesByEpoch(s, t); }
    if s.clock.suspended > 0 {
      ClockFrame(s, s');
    } else {
      TickWakesExactly(s);
    }
  }

  lemma ResumeStep(s: Sched)
    requires Inv(s) && s.clock.suspended > 0
    ensures Inv(ResumeAll(s)) && TimePasses(s, ResumeAll(s), Resume)
  {
    var s' := ResumeAll(s);
    assert HoldsEvents(s, PendingReady);
    SomeTasks(s);
    ResumeAllKeeps(s);
    ResumeEvents(s);
    if s.clock.suspended == 1 {
      ResumeWakesExactly(s);
      ElapsedPasses(s, s');
    } else {
      ClockFrame(s, s');
      ClockStandsStill(s, s', Resume);
    }
  }

  lemma ElapsedPasses(s: Sched, s': Sched)
    requires Now(s) <= Now(s') && Elapsed(s, s', s.pendingReady) && Partition(s) && TimeOk(s) && Partition(s')
    ensures TimePasses(s, s', Resume)
  {
    forall t | Sleeping(s, t) && !WokenEarly(s, Resume, t)
      ensures if Now(s') < Deadline(s, t) then Sleeping(s', t) && Deadline(s', t) == Deadline(s, t)
              else t in s'.tcb && s'.tcb[t] == WokenTcb(s.tcb[t])
    {
      assert ElapsedFor(s, s', s.pendingReady, t);
    }
  }

  /** A step that leaves the tick alone and does not touch the sleepers it does not wake. */
  lemma ClockStandsStill(s: Sched, s': Sched, a: Action)
    requires Partition(s) && TimeOk(s)
    requires s'.clock.tick == s.clock.tick && s'.clock.overflows == s.clock.overflows && s'.clock.firstIsCurrent == s.clock.firstIsCurrent
    requires forall t :: Sleeping(s, t) && !WokenEarly(s, a, t) ==>
               t in s'.tcb && s'.tcb[t].place == s.tcb[t].place && s'.tcb[t].wake == s.tcb[t].wake
    ensures TimePasses(s, s', a)
  {
    forall t | Sleeping(s, t) ensures Now(s) < Deadline(s, t) { DeadlinesByEpoch(s, t); }
  }

  /** A step that writes no control block but the caller's. */
  lemma CallerBlocks(s: Sched, s': Sched, a: Action)
    requires Inv(s) && Partition(s') && TimeOk(s') && EventsOk(s') && s.tcb[s.current].place.Ready?
    requires s'.pendingReady == s.pendingReady && s'.current == s.current && s'.clock == s.clock
    requires s.current in s'.tcb && s'.tcb == s.tcb[s.current := s'.tcb[s.current]]
    ensures Inv(s') && TimePasses(s, s', a)
  {
    ClockStandsStill(s, s', a);
  }

  lemma DelayStep(s: Sched, a: Action)
    requires Inv(s) && Enabled(s, a) && a.Delay?
    ensures Inv(Step(s, a)) && TimePasses(s, Step(s, a), a)
  {
    DelaySetsDeadline(s, a.ticksToWait, false);
    DelayTcb(s, a.ticksToWait, false);
    DelayEvents(s, a.ticksToWait, false);
    CallerBlocks(s, Step(s, a), a);
  }

  lemma WaitKeeps(s: Sched, id: nat, ticksToWait: Tick)
    requires Inv(s) && s.tcb[s.current].place.Ready? && 0 < ticksToWait
    ensures Partition(PlaceOnEventList(s, id, ticksToWait)) && TimeOk(PlaceOnEventList(s, id, ticksToWait))
  {
    var s1 := OnEventList(s, id);
    OnEventListKeeps(s, id);
    TimeFrame(s, s1);
    DelaySetsDeadline(s1, ticksToWait, true);
  }

  lemma WaitStep(s: Sched, a: Action)
    requires Inv(s) && Enabled(s, a) && a.WaitForEvent?
    ensures Inv(Step(s, a)) && TimePasses(s, Step(s, a), a)
  {
    assert Step(s, a) == PlaceOnEventList(s, a.id, a.ticksToWait);
    WaitKeeps(s, a.id, a.ticksToWait);
    WaitTcb(s, a.id, a.ticksToWait);
    PlaceEvents(s, a.id, a.ticksToWait);
    CallerBlocks(s, PlaceOnEventList(s, a.id, a.ticksToWait), a);
  }

  lemma SignalStep(s: Sched, a: Action)
    requires Inv(s) && Enabled(s, a) && a.SignalEvent?
    ensures Inv(Step(s, a)) && TimePasses(s, Step(s, a), a)
  {
    assert HoldsEvents(s, OnEvent(a.id));
    RemoveFromEventListKeeps(s, a.id);
    EventWakeTime(s, a.id);
    RemoveEvents(s, a.id);
    ClockStandsStill(s, Step(s, a), a);
  }

  lemma SuspendStep(s: Sched)
    requires Inv(s)
    ensures Inv(SuspendAll(s)) && TimePasses(s, SuspendAll(s), Suspend)
  {
    SameLists(s, SuspendAll(s), {});
    ClockFrame(s, SuspendAll(s));
    SameEvents(s, SuspendAll(s));
    ClockStandsStill(s, SuspendAll(s), Suspend);
  }

  lemma SwitchStep(s: Sched)
    requires Inv(s) && SomeReady(s, s.topReady)
    ensures Inv(SwitchContext(s)) && TimePasses(s, SwitchContext(s), Switch)
  {
    var s' := SwitchContext(s);
    SwitchKeeps(s);
    assert s'.tcb == s.tcb && s'.clock == s.clock && s'.eventLists == s.eventLists && s'.pendingReady == s.pendingReady;
    SameEvents(s, s');
    ClockStandsStill(s, s', Switch);
  }

  lemma SwitchKeeps(s: Sched)
    requires Partition(s) && TimeOk(s) && s.current in s.tcb && SomeReady(s, s.topReady)
    ensures Partition(SwitchContext(s)) && TimeOk(SwitchContext(s)) && SwitchContext(s).current in s.tcb
  {
    SwitchTime(s);
    if s.clock.suspended > 0 {
      SameLists(s, SwitchContext(s), {});
    } else {
      var p := HighestReady(s, s.topReady);
      assert Holds(s, Ready(p)) && ListAt(s, Ready(p))[0] in ListAt(s, Ready(p));
      SwitchContextPicksHighest(s);
    }
  }

  lemma SwitchTime(s: Sched)
    requires TimeOk(s)
    ensures TimeOk(SwitchContext(s))
  {
    SameTimes(s, SwitchContext(s), Sleepers(s));
    SameTimes(s, SwitchContext(s), LaterSleepers(s));
  }

  function NewTcb(prio: nat): Tcb {
    Tcb(Loose, 0, NoEvent, EventValue(prio), prio, prio, 0)
  }

  /** A task that no list holds yet. */
  lemma NewTaskTime(s: Sched, s1: Sched, t: TaskId)
    requires Partition(s) && TimeOk(s) && t !in s.tcb
    requires s1.lists == s.lists && s1.clock == s.clock && s1.nextUnblock == s.nextUnblock
    requires forall u :: u != t ==> Get(s1, u).wake == Get(s, u).wake
    ensures TimeOk(s1)
  {
    assert Holds(s, Delayed1) && Holds(s, Delayed2);
    SameTimes(s, s1, Sleepers(s));
    SameTimes(s, s1, LaterSleepers(s));
  }

  lemma CreateTime(s: Sched, t: TaskId, prio: nat)
    requires Partition(s) && TimeOk(s) && t !in s.tcb
    ensures TimeOk(AddNewTask(s, t, prio))
  {
    var s1 := SetTcb(s, t, NewTcb(prio)).(numTasks := s.numTasks + 1);
    assert AddNewTask(s, t, prio) == AddToReady(s1, t);
    NewTaskTime(s, s1, t);
    ReadyKeepsTime(s1, t);
  }

  lemma CreateEffect(s: Sched, t: TaskId, prio: nat)
    ensures var s' := AddNewTask(s, t, prio);
            && s'.clock == s.clock && s'.current == s.current && s'.eventLists == s.eventLists && s'.pendingReady == s.pendingReady
            && s'.tcb == s.tcb[t := NewTcb(prio).(place := Ready(prio))]
  {
    SetTwice(s.tcb, t, NewTcb(prio), NewTcb(prio).(place := Ready(prio)));
  }

  lemma CreateStep(s: Sched, a: Action)
    requires Inv(s) && Enabled(s, a) && a.Create?
    ensures Inv(Step(s, a)) && TimePasses(s, Step(s, a), a)
  {
    AddNewTaskKeeps(s, a.t, a.prio);
    CreateTime(s, a.t, a.prio);
    CreateEffect(s, a.t, a.prio);
    SameEvents(s, Step(s, a));
    ClockStandsStill(s, Step(s, a), a);
  }

  /** The first half of a deletion: both items of the task are out of their lists. */
  lemma DetachedTime(s: Sched, t: TaskId)
    requires Partition(s) && TimeOk(s) && t in s.tcb
    ensures var s2 := UnlinkEvent(Unlink(s, t), t);
            && TimeOk(s2) && SameClock(s, s2) && PartitionBut(s2, {t})
            && s2.tcb == s.tcb[t := s.tcb[t].(place := Loose, event := NoEvent)]
  {
    var s1 := Unlink(s, t);
    UnlinkEffect(s, t);
    UnlinkEventEffect(s1, t);
    SetTwice(s.tcb, t, s1.tcb[t], UnlinkEvent(s1, t).tcb[t]);
    DetachedKeeps(s, t);
    DetachedKeepsTime(s, t);
  }

  lemma DetachedKeeps(s: Sched, t: TaskId)
    requires Partition(s) && t in s.tcb
    ensures PartitionBut(UnlinkEvent(Unlink(s, t), t), {t})
  {
    UnlinkKeeps(s, t, {});
    assert {} + {t} == {t};
    UnlinkEventKeeps(Unlink(s, t), t, {t});
  }

  lemma DetachedKeepsTime(s: Sched, t: TaskId)
    requires Partition(s) && TimeOk(s) && t in s.tcb
    ensures TimeOk(UnlinkEvent(Unlink(s, t), t))
  {
    var s1 := Unlink(s, t);
    UnlinkKeepsTime(s, t);
    UnlinkEffect(s, t);
    UnlinkEventEffect(s1, t);
    TimeFrame(s1, UnlinkEvent(s1, t));
  }

  lemma DeleteTime(s: Sched, t: TaskId)
    requires Partition(s) && TimeOk(s) && t in s.tcb
    ensures TimeOk(DeleteTask(s, t))
  {
    var s2, s' := UnlinkEvent(Unlink(s, t), t), DeleteTask(s, t);
    DetachedTime(s, t);
    if t == s.current {
      assert s' == LinkEnd(s2, Termination, t);
      LinkEndKeepsTime(s2, Termination, t);
    } else {
      assert s' == ResetNextUnblock(s2.(numTasks := s'.numTasks, tcb := s2.tcb - {t}));
      ForgottenTime(s2, s2, s', t);
    }
  }

  lemma DeleteEffect(s: Sched, t: TaskId)
    requires t in s.tcb
    ensures var s' := DeleteTask(s, t);
            && s'.clock == s.clock && s'.current == s.current && (t == s.current ==> t in s'.tcb)
            && forall u :: u in s.tcb && u != t ==> u in s'.tcb && s'.tcb[u] == s.tcb[u]
  {}

  lemma DeleteStep(s: Sched, a: Action)
    requires Inv(s) && Enabled(s, a) && a.Delete?
    ensures Inv(Step(s, a)) && TimePasses(s, Step(s, a), a)
  {
    DeleteTaskKeeps(s, a.t);
    DeleteEvents(s, a.t);
    DeleteTime(s, a.t);
    DeleteEffect(s, a.t);
    ClockStandsStill(s, DeleteTask(s, a.t), a);
  }

  /** Forgetting a loose task changes no sleeper. */
  lemma ForgottenTime(s0: Sched, s: Sched, s': Sched, t: TaskId)
    requires PartitionBut(s0, {t}) && s.lists == s0.lists && s.clock == s0.clock && TimeOk(s)
    requires s'.tcb == s.tcb - {t} && s'.lists == s.lists && s'.clock == s.clock
    requires s'.nextUnblock == s.nextUnblock || s' == ResetNextUnblock(s')
    ensures TimeOk(s')
  {
    assert Holds(s0, Delayed1) && Holds(s0, Delayed2);
    assert t !in Sleepers(s) && t !in LaterSleepers(s);
    SameTimes(s, s', Sleepers(s));
    SameTimes(s, s', LaterSleepers(s));
  }

  lemma CleanUpTime(s: Sched)
    requires Partition(s) && TimeOk(s) && ListAt(s, Termination) != []
    ensures TimeOk(CleanUp(s))
  {
    var t := ListAt(s, Termination)[0];
    assert Holds(s, Termination);
    UnlinkKeepsTime(s, t);
    UnlinkKeeps(s, t, {});
    assert {} + {t} == {t};
    ForgottenTime(Unlink(s, t), Unlink(s, t), CleanUp(s), t);
  }

  lemma CleanUpEffect(s: Sched)
    requires Partition(s) && ListAt(s, Termination) != []
    ensures var s', t := CleanUp(s), ListAt(s, Termination)[0];
            && s'.clock == s.clock && s'.current == s.current && s'.pendingReady == s.pendingReady
            && t in s.tcb && s.tcb[t].place == Termination && s'.tcb == s.tcb - {t}
  {
    assert Holds(s, Termination);
    assert CleanUp(s).tcb == s.tcb - {ListAt(s, Termination)[0]};
  }

  lemma ReapStep(s: Sched, a: Action)
    requires Inv(s) && Enabled(s, a) && a.Reap?
    ensures Inv(Step(s, a)) && TimePasses(s, Step(s, a), a)
  {
    assert Step(s, a) == CleanUp(s);
    CleanUpKeeps(s);
    CleanUpEvents(s);
    CleanUpTime(s);
    CleanUpEffect(s);
    TaskForgotten(s, CleanUp(s), ListAt(s, Termination)[0], a);
  }

  lemma TaskForgotten(s: Sched, s': Sched, t: TaskId, a: Action)
    requires Inv(s) && Partition(s') && TimeOk(s') && EventsOk(s')
    requires t in s.tcb && t != s.current && s.tcb[t].place == Termination && s'.tcb == s.tcb - {t}
    requires s'.clock == s.clock && s'.current == s.current && s'.pendingReady == s.pendingReady
    ensures Inv(s') && TimePasses(s, s', a)
  {
    ClockStandsStill(s, s', a);
  }

  /** Moving a task between ready lists leaves the clock facts and the other tasks alone. */
  lemma ReprioritiseTime(s: Sched, t: TaskId, tcb: Tcb)
    requires Partition(s) && TimeOk(s) && t in s.tcb && tcb.wake == s.tcb[t].wake
    requires tcb.place == if s.tcb[t].place.Ready? then Ready(tcb.prio) else s.tcb[t].place
    ensures var s' := Reprioritise(s, t, tcb);
            && TimeOk(s') && s'.clock == s.clock && s'.current == s.current && s'.pendingReady == s.pendingReady
            && s'.tcb == s.tcb[t := tcb]
  {
    if s.tcb[t].place == Ready(s.tcb[t].prio) && tcb.prio != s.tcb[t].prio {
      var s1, loose := Unlink(s, t), tcb.(place := Loose);
      UnlinkKeepsTime(s, t);
      UnlinkEffect(s, t);
      TimeFrame(s1, SetTcb(s1, t, loose));
      ReadyKeepsTime(SetTcb(s1, t, loose), t);
      AddToReadyEffect(SetTcb(s1, t, loose), t);
      SetTwice(s.tcb, t, s1.tcb[t], loose);
      SetTwice(s.tcb, t, loose, tcb);
    } else {
      TimeFrame(s, Reprioritise(s, t, tcb));
    }
  }

  lemma ReprioritiseStep(s: Sched, t: TaskId, tcb: Tcb, a: Action)
    requires Inv(s) && t in s.tcb && tcb.event == s.tcb[t].event && tcb.wake == s.tcb[t].wake
    requires tcb.prio < PRIORITIES && tcb.base < PRIORITIES
    requires tcb.place == if s.tcb[t].place.Ready? then Ready(tcb.prio) else s.tcb[t].place
    ensures Inv(Reprioritise(s, t, tcb)) && TimePasses(s, Reprioritise(s, t, tcb), a)
  {
    ReprioritiseKeeps(s, t, tcb);
    ReprioritiseEvents(s, t, tcb);
    ReprioritiseTime(s, t, tcb);
    ClockStandsStill(s, Reprioritise(s, t, tcb), a);
  }

  lemma CountStep(s: Sched, a: Action)
    requires Inv(s) && a == CountMutex
    ensures Inv(Step(s, a)) && TimePasses(s, Step(s, a), a)
  {
    var tcb := s.tcb[s.current].(held := s.tcb[s.current].held + 1);
    var s' := SetTcb(s, s.current, tcb);
    assert Step(s, a) == s';
    SamePlace(s, s.current, tcb, {});
    TimeFrame(s, s');
    SameEvents(s, s');
    ClockStandsStill(s, s', a);
  }

  lemma PriorityStep(s: Sched, a: Action)
    requires Inv(s) && Enabled(s, a) && (a.Inherit? || a.Disinherit? || a.AfterTimeout?)
    ensures Inv(Step(s, a)) && TimePasses(s, Step(s, a), a)
  {
    match a
    case Inherit(t) => ReprioritiseStep(s, t, InheritTcb(s.tcb[t], s.tcb[s.current].prio), a);
    case Disinherit => ReprioritiseStep(s, s.current, DisinheritTcb(s.tcb[s.current]), a);
    case AfterTimeout(t, highest) => ReprioritiseStep(s, t, AfterTimeoutTcb(s.tcb[t], highest), a);
  }

  lemma StepKeeps(s: Sched, a: Action)
    requires Inv(s)
    ensures Inv(Step(s, a)) && (Enabled(s, a) ==> TimePasses(s, Step(s, a), a))
  {
    if Enabled(s, a) {
      match a
      case Tick => TickStep(s);
      case Delay(_) => DelayStep(s, a);
      case WaitForEvent(_, _) => WaitStep(s, a);
      case SignalEvent(_) => SignalStep(s, a);
      case Suspend => SuspendStep(s);
      case Resume => ResumeStep(s);
      case Switch => SwitchStep(s);
      case Create(_, _) => CreateStep(s, a);
      case Delete(_) => DeleteStep(s, a);
      case Reap => ReapStep(s, a);
      case CountMutex => CountStep(s, a);
      case _ => PriorityStep(s, a);
    }
  }

  /** Every run of the scheduler keeps the partition, the clock and the event lists in order. */
  lemma {:induction false} RunKeeps(s: Sched, run: seq<Action>)
    requires Inv(s)
    ensures Inv(Exec(s, run))
    decreases |run|
  {
    if run != [] {
      StepKeeps(s, run[0]);
      RunKeeps(Step(s, run[0]), run[1..]);
    }
  }

  // ---------- What holds over all runs ----------

  function Ticks(run: seq<Action>): nat {
    if run == [] then 0 else (if run[0] == Tick then 1 else 0) + Ticks(run[1..])
  }

  /** The count of held-back ticks never wraps: under 2^32 ticks between suspend and resume. */
  predicate PendedInRange(s: Sched, run: seq<Action>)
    decreases |run|
  {
    run == [] || ((run[0] == Tick && s.clock.suspended > 0 ==> s.clock.pended != MAX_DELAY) && PendedInRange(Step(s, run[0]), run[1..]))
  }

  function Delivered(s: Sched): nat {
    Now(s) + s.clock.pended
  }

  lemma ResumeDelivers(s: Sched)
    requires Inv(s) && s.clock.suspended > 0
    ensures Delivered(ResumeAll(s)) == Delivered(s)
  {
    assert HoldsEvents(s, PendingReady);
    SomeTasks(s);
    if s.clock.suspended == 1 { ResumeWakesExactly(s); }
  }

  lemma ClockKept(s: Sched, a: Action)
    requires Enabled(s, a) && !a.Tick? && !a.Resume? && !a.WaitForEvent? && !a.Delay?
    ensures Step(s, a).clock.(suspended := 0) == s.clock.(suspended := 0)
  {
    if a.Inherit? || a.Disinherit? || a.AfterTimeout? { PriorityClock(s, a); }
  }

  lemma PriorityClock(s: Sched, a: Action)
    requires Enabled(s, a) && (a.Inherit? || a.Disinherit? || a.AfterTimeout?)
    ensures Step(s, a).clock == s.clock
  {}

  lemma StepDelivers(s: Sched, a: Action)
    requires Inv(s) && (a == Tick && s.clock.suspended > 0 ==> s.clock.pended != MAX_DELAY)
    ensures Delivered(Step(s, a)) == Delivered(s) + (if a == Tick then 1 else 0)
  {
    if Enabled(s, a) {
      match a
      case Tick => if s.clock.suspended == 0 { TickWakesExactly(s); }
      case Resume => ResumeDelivers(s);
      case WaitForEvent(id, ticks) => DelayTcb(OnEventList(s, id), ticks, true);
      case Delay(ticks) => DelayTcb(s, ticks, false);
      case _ => ClockKept(s, a);
    }
  }

  /** No tick is lost: those delivered are the wraps, the count and the ones held back. */
  lemma {:induction false} TicksAccounted(s: Sched, run: seq<Action>)
    requires Inv(s) && PendedInRange(s, run)
    ensures Delivered(Exec(s, run)) == Delivered(s) + Ticks(run)
    decreases |run|
  {
    if run != [] {
      StepKeeps(s, run[0]);
      StepDelivers(s, run[0]);
      TicksAccounted(Step(s, run[0]), run[1..]);
    }
  }

  /** Nothing but time ends this sleep of `t` in the run. */
  predicate Undisturbed(s: Sched, run: seq<Action>, t: TaskId)
    decreases |run|
  {
    run == [] || !Sleeping(s, t) || (!WokenEarly(s, run[0], t) && Undisturbed(Step(s, run[0]), run[1..], t))
  }

  /** The state right after the sleep of `t` ended, or the last one. */
  function UntilAwake(s: Sched, run: seq<Action>, t: TaskId): Sched
    decreases |run|
  {
    if run == [] || !Sleeping(s, t) then s else UntilAwake(Step(s, run[0]), run[1..], t)
  }

  /**
   Over any run, a sleeper that nothing else wakes sleeps on while the processed ticks are
   short of its deadline, and is ready in the step whose ticks reach it: never early, never late.
   */
  lemma {:induction false} SleepsExactly(s: Sched, run: seq<Action>, t: TaskId)
    requires Inv(s) && Sleeping(s, t) && Undisturbed(s, run, t)
    ensures var e := UntilAwake(s, run, t);
            if Now(e) < Deadline(s, t) then e == Exec(s, run) && Sleeping(e, t) && Deadline(e, t) == Deadline(s, t)
            else t in e.tcb && e.tcb[t].place == Ready(e.tcb[t].prio)
    decreases |run|
  {
    DeadlinesByEpoch(s, t);
    if run != [] {
      var s' := Step(s, run[0]);
      StepKeeps(s, run[0]);
      if Sleeping(s', t) { SleepsExactly(s', run[1..], t); }
    }
  }

  /** From start-up: every task in one list, the right one if ready, counted, bounded by the top. */
  lemma PartitionAlways(s: Sched, run: seq<Action>)
    requires Init(s)
    ensures var e := Exec(s, run);
            && (forall t :: t in e.tcb ==> IsList(e.tcb[t].place))
            && (forall t, place: Place :: t in e.tcb && IsList(place) ==> (t in ListAt(e, place) <==> place == e.tcb[t].place))
            && (forall t :: t in e.tcb && e.tcb[t].place.Ready? ==> t in ListAt(e, Ready(e.tcb[t].prio)))
            && e.numTasks == Total(e)
            && (forall p :: 0 <= p < PRIORITIES && ListAt(e, Ready(p)) != [] ==> p <= e.topReady)
  {
    InitInv(s);
    RunKeeps(s, run);
    var e := Exec(s, run);
    forall t, place: Place | t in e.tcb && IsList(place)
      ensures t in ListAt(e, place) <==> place == e.tcb[t].place
    {
      assert Holds(e, place);
    }
    forall t | t in e.tcb ensures IsList(e.tcb[t].place) && t in ListAt(e, e.tcb[t].place) {
      assert Holds(e, e.tcb[t].place);
    }
  }
}
