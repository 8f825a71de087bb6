/**
 The two delayed lists and the 32-bit tick refine an unbounded clock: a sleeper has one
 absolute deadline, and it is woken by exactly the tick that reaches it.
 */
module TaskTime {
  import opened Wrappers
  import opened Word32
  import opened ListView
  import opened Tasks
  import opened TaskPartition

  /** Ticks processed since the count was zero, without wrapping. */
  function Now(s: Sched): nat {
    s.clock.overflows * WRAP + s.clock.tick
  }

  predicate Sleeping(s: Sched, t: TaskId) {
    t in s.tcb && (s.tcb[t].place == Delayed1 || s.tcb[t].place == Delayed2)
  }

  /** The unbounded wake time that a place in one of the two lists stands for. */
  function Deadline(s: Sched, t: TaskId): nat {
    (if Get(s, t).place == OverflowDelayed(s) then s.clock.overflows + 1 else s.clock.overflows) * WRAP + Get(s, t).wake
  }

  ghost predicate InWakeOrder(s: Sched, list: seq<TaskId>) {
    Sorted(WakeTimes(s, list))
  }

  /** `xNextTaskUnblockTime` never lies past the first sleeper. */
  ghost predicate Cached(s: Sched) {
    Sleepers(s) != [] ==> s.nextUnblock <= Get(s, Sleepers(s)[0]).wake
  }

  /** Whom `bound` has not passed; `bound` is the tick, or one more while a tick is processed. */
  ghost predicate NotBefore(s: Sched, bound: nat) {
    forall t :: t in Sleepers(s) ==> bound <= Get(s, t).wake
  }

  /** The overflow list holds sleepers that the next wrap brings within reach. */
  ghost predicate LaterOnes(s: Sched) {
    forall t :: t in LaterSleepers(s) ==> Get(s, t).wake < s.clock.tick
  }

  ghost predicate TimeOk(s: Sched) {
    && InWakeOrder(s, Sleepers(s)) && InWakeOrder(s, LaterSleepers(s))
    && Cached(s) && NotBefore(s, s.clock.tick + 1) && LaterOnes(s)
  }

  /** In these terms: the current list is this epoch's, the overflow list the next one's. */
  lemma DeadlinesByEpoch(s: Sched, t: TaskId)
    requires Partition(s) && TimeOk(s) && Sleeping(s, t)
    ensures Now(s) < Deadline(s, t) < Now(s) + WRAP
    ensures t in Sleepers(s) <==> Epoch(Deadline(s, t)) == Epoch(Now(s))
    ensures t in LaterSleepers(s) <==> Epoch(Deadline(s, t)) == Epoch(Now(s)) + 1
  {
    assert Holds(s, Delayed1) && Holds(s, Delayed2);
  }

  // ---------- Waking the sleepers whose time has come ----------

  function WokenTcb(tcb: Tcb): Tcb {
    tcb.(place := Ready(tcb.prio), event := NoEvent)
  }

  predicate Due(s: Sched, t: TaskId) {
    t in s.tcb && s.tcb[t].place == CurrentDelayed(s) && s.tcb[t].wake == s.clock.tick
  }

  /** The clock, and everything that waking tasks leaves alone. */
  ghost predicate SameClock(s: Sched, s': Sched) {
    && s'.clock == s.clock && s'.current == s.current
    && forall t :: t in s'.tcb <==> t in s.tcb
  }

  lemma WakeHeadEffect(s: Sched)
    requires Partition(s) && Sleepers(s) != []
    ensures var s', t := WakeHead(s), Sleepers(s)[0];
            && t in s.tcb && s.tcb[t].place == CurrentDelayed(s)
            && SameClock(s, s') && s'.tcb == s.tcb[t := WokenTcb(s.tcb[t])]
            && Sleepers(s') == Sleepers(s)[1..] && LaterSleepers(s') == LaterSleepers(s)
  {
    var here := CurrentDelayed(s);
    var v := ViewAt(s, here);
    var t := v.items[0];
    assert Holds(s, here);
    var s1 := SetPlace(s, t, Loose).(lists := s.lists[here := Remove(v, 0)]);
    UnlinkEventEffect(s1, t);
    AddToReadyEffect(UnlinkEvent(s1, t), t);
    assert Remove(v, 0).items == v.items[1..];
  }

  lemma UnlinkEventEffect(s: Sched, t: TaskId)
    requires t in s.tcb
    ensures var s' := UnlinkEvent(s, t);
            SameClock(s, s') && s'.tcb == s.tcb[t := s.tcb[t].(event := NoEvent)] && s'.lists == s.lists && s'.nextUnblock == s.nextUnblock
  {}

  lemma AddToReadyEffect(s: Sched, t: TaskId)
    requires t in s.tcb
    ensures var s' := AddToReady(s, t);
            && SameClock(s, s') && s'.tcb == s.tcb[t := s.tcb[t].(place := Ready(s.tcb[t].prio))] && s'.nextUnblock == s.nextUnblock
            && ListAt(s', Delayed1) == ListAt(s, Delayed1) && ListAt(s', Delayed2) == ListAt(s, Delayed2)
  {}

  lemma SortedTail(s: Sched, list: seq<TaskId>)
    requires InWakeOrder(s, list) && list != []
    ensures InWakeOrder(s, list[1..])
  {
    assert WakeTimes(s, list[1..]) == WakeTimes(s, list)[1..];
  }

  lemma SameTimes(s: Sched, s': Sched, list: seq<TaskId>)
    requires forall t :: t in list ==> Get(s', t).wake == Get(s, t).wake
    ensures WakeTimes(s', list) == WakeTimes(s, list)
  {}

  /** The loop wakes exactly the sleepers of the current list whose wake time is this tick. */
  lemma {:induction false} WakeDueEffect(s: Sched)
    requires Partition(s) && InWakeOrder(s, Sleepers(s)) && NotBefore(s, s.clock.tick)
    ensures var s' := WakeDue(s);
            && SameClock(s, s') && LaterSleepers(s') == LaterSleepers(s)
            && InWakeOrder(s', Sleepers(s')) && Cached(s') && NotBefore(s', s'.clock.tick + 1)
            && forall t :: t in s.tcb ==> s'.tcb[t] == if Due(s, t) then WokenTcb(s.tcb[t]) else s.tcb[t]
    decreases |Sleepers(s)|
  {
    var list := Sleepers(s);
    if list == [] || s.clock.tick < Get(s, list[0]).wake {
      LoopEnds(s);
    } else {
      var m := WakeHead(s);
      HeadIsDue(s);
      WakeDueEffect(m);
      assert WakeDue(s) == WakeDue(m);
      WokenBefore(s, m, WakeDue(m), list[0]);
    }
  }

  /** Nobody is due, and the loop only repairs the cached time. */
  lemma LoopEnds(s: Sched)
    requires Partition(s) && InWakeOrder(s, Sleepers(s)) && NotBefore(s, s.clock.tick)
    requires Sleepers(s) == [] || s.clock.tick < Get(s, Sleepers(s)[0]).wake
    ensures var s' := WakeDue(s);
            && SameClock(s, s') && s'.tcb == s.tcb && LaterSleepers(s') == LaterSleepers(s)
            && InWakeOrder(s', Sleepers(s')) && Cached(s') && NotBefore(s', s'.clock.tick + 1)
            && forall t :: t in s.tcb ==> !Due(s, t)
  {
    assert Holds(s, CurrentDelayed(s));
    if Sleepers(s) != [] { NoneDue(s); }
    SameTimes(s, WakeDue(s), Sleepers(s));
  }

  lemma StillNotBefore(s: Sched, m: Sched)
    requires Partition(s) && NotBefore(s, s.clock.tick) && Sleepers(s) != [] && m == WakeHead(s)
    ensures NotBefore(m, m.clock.tick)
  {
    WakeHeadEffect(s);
    assert forall t :: t in Sleepers(s)[1..] ==> t in Sleepers(s);
  }

  /** The head is due, and waking it leaves a state like the one before. */
  lemma HeadIsDue(s: Sched)
    requires Partition(s) && InWakeOrder(s, Sleepers(s)) && NotBefore(s, s.clock.tick)
    requires Sleepers(s) != [] && s.clock.tick >= Get(s, Sleepers(s)[0]).wake
    ensures var m, t := WakeHead(s), Sleepers(s)[0];
            && Due(s, t) && SameClock(s, m) && m.tcb == s.tcb[t := WokenTcb(s.tcb[t])] && LaterSleepers(m) == LaterSleepers(s)
            && Partition(m) && InWakeOrder(m, Sleepers(m)) && NotBefore(m, m.clock.tick) && |Sleepers(m)| < |Sleepers(s)|
  {
    WakeHeadEffect(s);
    WakeHeadKeeps(s);
    TailInOrder(s);
    StillNotBefore(s, WakeHead(s));
  }

  lemma TailInOrder(s: Sched)
    requires Partition(s) && InWakeOrder(s, Sleepers(s)) && Sleepers(s) != []
    ensures InWakeOrder(WakeHead(s), Sleepers(WakeHead(s)))
  {
    WakeHeadEffect(s);
    SortedTail(s, Sleepers(s));
    SameTimes(s, WakeHead(s), Sleepers(s)[1..]);
  }

  /** One task was woken, then the others that were due. */
  lemma WokenBefore(s: Sched, m: Sched, s': Sched, t: TaskId)
    requires Due(s, t) && m.tcb == s.tcb[t := WokenTcb(s.tcb[t])] && m.clock == s.clock
    requires forall u :: u in s'.tcb <==> u in m.tcb
    requires forall u :: u in m.tcb ==> s'.tcb[u] == if Due(m, u) then WokenTcb(m.tcb[u]) else m.tcb[u]
    ensures forall u :: u in s'.tcb <==> u in s.tcb
    ensures forall u :: u in s.tcb ==> s'.tcb[u] == if Due(s, u) then WokenTcb(s.tcb[u]) else s.tcb[u]
  {}

  /** The list is sorted, so a head that is not due means that nobody is. */
  lemma NoneDue(s: Sched)
    requires InWakeOrder(s, Sleepers(s)) && Sleepers(s) != [] && s.clock.tick < Get(s, Sleepers(s)[0]).wake
    ensures NotBefore(s, s.clock.tick + 1)
  {
    var list := Sleepers(s);
    forall t | t in list ensures s.clock.tick + 1 <= Get(s, t).wake {
      var k :| 0 <= k < |list| && list[k] == t;
      assert WakeTimes(s, list)[0] <= WakeTimes(s, list)[k];
    }
  }

  lemma AdvanceEffect(s: Sched)
    requires Partition(s) && TimeOk(s)
    ensures var s' := AdvanceTick(s);
            && Partition(s') && Now(s') == Now(s) + 1 && s'.tcb == s.tcb && s'.current == s.current
            && s'.clock.suspended == s.clock.suspended && s'.clock.pended == s.clock.pended
            && InWakeOrder(s', Sleepers(s')) && InWakeOrder(s', LaterSleepers(s'))
            && Cached(s') && NotBefore(s', s'.clock.tick) && LaterOnes(s')
  {
    var s' := AdvanceTick(s);
    SameLists(s, s', {});
    SameTimes(s, s', Sleepers(s));
    SameTimes(s, s', LaterSleepers(s));
    if s'.clock.tick == 0 {
      SwitchFindsEmptyList(s);
    }
  }

  /** Also when the lists change places. */
  lemma AdvanceDeadlines(s: Sched, t: TaskId)
    requires Partition(s) && TimeOk(s) && Sleeping(s, t)
    ensures Deadline(AdvanceTick(s), t) == Deadline(s, t)
  {
    assert Holds(s, Delayed1) && Holds(s, Delayed2);
    if AdvanceTick(s).clock.tick == 0 { SwitchFindsEmptyList(s); }
  }

  /** The assertion in `taskSWITCH_DELAYED_LISTS`: when the tick wraps, nobody is left behind. */
  lemma SwitchFindsEmptyList(s: Sched)
    requires TimeOk(s) && Add(s.clock.tick, 1) == 0
    ensures Sleepers(s) == []
  {
    SomeMember(Sleepers(s));
  }

  /**
   One tick, scheduler running: the unbounded clock advances by one, exactly the sleepers whose
   deadline it reaches become ready (and leave their event lists), all others keep their
   deadline, and no other task is touched.
   */
  lemma TickWakesExactly(s: Sched)
    requires Partition(s) && TimeOk(s) && s.clock.suspended == 0
    ensures var s' := IncrementTick(s).0;
            && Partition(s') && TimeOk(s') && Now(s') == Now(s) + 1
            && s'.clock.pended == s.clock.pended && s'.clock.suspended == s.clock.suspended && s'.current == s.current && (forall t :: t in s'.tcb <==> t in s.tcb)
            && (forall t :: t in s.tcb ==>
                  s'.tcb[t] == if Sleeping(s, t) && Deadline(s, t) == Now(s') then WokenTcb(s.tcb[t]) else s.tcb[t])
            && (forall t :: Sleeping(s', t) ==> Sleeping(s, t) && Deadline(s', t) == Deadline(s, t))
  {
    var s1, s' := AdvanceTick(s), IncrementTick(s).0;
    AdvanceEffect(s);
    IncrementTickKeeps(s);
    TickEffect(s1);
    assert Holds(s1, Delayed1) && Holds(s1, Delayed2);
    forall t | t in s.tcb
      ensures s'.tcb[t] == if Sleeping(s, t) && Deadline(s, t) == Now(s') then WokenTcb(s.tcb[t]) else s.tcb[t]
      ensures Sleeping(s', t) ==> Sleeping(s, t) && Deadline(s', t) == Deadline(s, t)
    {
      if Sleeping(s, t) { AdvanceDeadlines(s, t); }
      TickFor(s, s1, s', t);
    }
  }

  /** What the tick does to one task. */
  lemma TickFor(s: Sched, s1: Sched, s': Sched, t: TaskId)
    requires s1.tcb == s.tcb && t in s.tcb && t in s'.tcb && Holds(s1, Delayed1) && Holds(s1, Delayed2) && s'.clock == s1.clock
    requires LaterOnes(s1) && (Sleeping(s, t) ==> Deadline(s1, t) == Deadline(s, t))
    requires s'.tcb[t] == if Due(s1, t) then WokenTcb(s.tcb[t]) else s.tcb[t]
    ensures s'.tcb[t] == if Sleeping(s, t) && Deadline(s, t) == Now(s') then WokenTcb(s.tcb[t]) else s.tcb[t]
    ensures Sleeping(s', t) ==> Sleeping(s, t) && Deadline(s', t) == Deadline(s, t)
  {
    DueMeansDeadline(s, s1, t);
  }

  lemma DueMeansDeadline(s: Sched, s1: Sched, t: TaskId)
    requires s1.tcb == s.tcb && t in s.tcb && Holds(s1, Delayed1) && Holds(s1, Delayed2)
    requires Sleeping(s, t) ==> Deadline(s1, t) == Deadline(s, t)
    requires LaterOnes(s1)
    ensures Due(s1, t) <==> Sleeping(s, t) && Deadline(s, t) == Now(s1)
  {}

  /** The second half of the tick: the cached time decides whether the loop runs at all. */
  lemma TickEffect(s: Sched)
    requires Partition(s) && InWakeOrder(s, Sleepers(s)) && InWakeOrder(s, LaterSleepers(s))
    requires Cached(s) && NotBefore(s, s.clock.tick) && LaterOnes(s)
    ensures var s' := if s.clock.tick >= s.nextUnblock then WakeDue(s) else s;
            && TimeOk(s') && SameClock(s, s')
            && forall t :: t in s.tcb ==> s'.tcb[t] == if Due(s, t) then WokenTcb(s.tcb[t]) else s.tcb[t]
  {
    assert Holds(s, Delayed1) && Holds(s, Delayed2);
    if s.clock.tick >= s.nextUnblock {
      WakeDueEffect(s);
      SameTimes(s, WakeDue(s), LaterSleepers(s));
    } else if Sleepers(s) != [] {
      NoneDue(s);
    }
  }

  predicate Preempts(s: Sched, t: TaskId) {
    Due(s, t) && s.tcb[t].prio >= Get(s, s.current).prio
  }

  /** The loop asks for a switch exactly if it wakes a task of at least the running priority. */
  lemma {:induction false} PreemptorExact(s: Sched)
    requires Partition(s) && InWakeOrder(s, Sleepers(s)) && NotBefore(s, s.clock.tick)
    ensures WakesPreemptor(s) <==> exists t :: Preempts(s, t)
    decreases |Sleepers(s)|
  {
    var list := Sleepers(s);
    assert Holds(s, CurrentDelayed(s));
    if list != [] && s.clock.tick >= Get(s, list[0]).wake {
      var m := WakeHead(s);
      HeadIsDue(s);
      PreemptorExact(m);
      PreemptorStep(s, m, list[0]);
    } else if list != [] {
      NoneDue(s);
    }
  }

  lemma PreemptorStep(s: Sched, m: Sched, t: TaskId)
    requires Due(s, t) && m.tcb == s.tcb[t := WokenTcb(s.tcb[t])] && m.clock == s.clock && m.current == s.current
    ensures (exists u :: Preempts(s, u)) <==> s.tcb[t].prio >= Get(s, s.current).prio || exists u :: Preempts(m, u)
  {
    assert forall u :: u != t ==> Preempts(m, u) == Preempts(s, u);
    if s.tcb[t].prio >= Get(s, s.current).prio { assert Preempts(s, t); }
  }

  // ---------- Going to sleep ----------

  lemma UnlinkEffect(s: Sched, t: TaskId)
    requires Partition(s) && t in s.tcb
    ensures var s' := Unlink(s, t);
            && SameClock(s, s') && s'.tcb == s.tcb[t := s.tcb[t].(place := Loose)] && s'.nextUnblock == s.nextUnblock
            && (forall q: Place :: q != s.tcb[t].place ==> ListAt(s', q) == ListAt(s, q))
            && ListAt(s', s.tcb[t].place) == Minus(ListAt(s, s.tcb[t].place), t)
            && (forall u :: u in ListAt(s', s.tcb[t].place) ==> u in ListAt(s, s.tcb[t].place))
  {
    assert IsList(s.tcb[t].place) && Holds(s, s.tcb[t].place);
    MinusFacts(ListAt(s, s.tcb[t].place), t);
  }

  /** Sorting a task in by its wake time keeps the list sorted. */
  lemma SortedIn(s: Sched, s': Sched, place: Place, t: TaskId, wake: Tick)
    requires s' == LinkByWakeTime(s, place, t, wake) && t in s.tcb && t !in ListAt(s, place)
    requires InWakeOrder(s, ListAt(s, place))
    ensures InWakeOrder(s', ListAt(s', place))
  {
    var list := ListAt(s, place);
    var times := WakeTimes(s, list);
    var k := FirstGreater(times, wake);
    SortedInsert(times, wake);
    TimesInserted(s, s', list, k, t);
    assert ListAt(s', place) == InsertAt(list, k, t) && Get(s', t).wake == wake;
  }

  lemma TimesInserted(s: Sched, s': Sched, list: seq<TaskId>, k: nat, t: TaskId)
    requires k <= |list| && forall u :: u in list ==> Get(s', u).wake == Get(s, u).wake
    ensures WakeTimes(s', InsertAt(list, k, t)) == InsertAt(WakeTimes(s, list), k, Get(s', t).wake)
  {
    var more, times := InsertAt(list, k, t), InsertAt(WakeTimes(s, list), k, Get(s', t).wake);
    forall i | 0 <= i < |more| ensures WakeTimes(s', more)[i] == times[i] {
      assert more[i] == if i < k then list[i] else if i == k then t else list[i - 1];
    }
  }

  /** The two lists of sleepers before and after a task that is not in them leaves its list. */
  lemma UnlinkTime(s: Sched, t: TaskId)
    requires Partition(s) && TimeOk(s) && t in s.tcb && s.tcb[t].place.Ready?
    ensures var s' := Unlink(s, t);
            && TimeOk(s') && Sleepers(s') == Sleepers(s) && LaterSleepers(s') == LaterSleepers(s)
            && t !in Sleepers(s) && t !in LaterSleepers(s)
  {
    UnlinkEffect(s, t);
    assert Holds(s, Delayed1) && Holds(s, Delayed2);
    SameTimes(s, Unlink(s, t), Sleepers(s));
    SameTimes(s, Unlink(s, t), LaterSleepers(s));
  }

  lemma SetTwice(tcbs: map<TaskId, Tcb>, t: TaskId, a: Tcb, b: Tcb)
    ensures tcbs[t := a][t := b] == tcbs[t := b]
  {}

  lemma LinkedTcb(s: Sched, place: Place, t: TaskId, wake: Tick)
    requires t in s.tcb
    ensures var s' := LinkByWakeTime(s, place, t, wake);
            && SameClock(s, s') && s'.tcb == s.tcb[t := s.tcb[t].(place := place, wake := wake)] && s'.nextUnblock == s.nextUnblock
            && forall q: Place :: q != place ==> ListAt(s', q) == ListAt(s, q)
  {}

  /** Sorting a task into the overflow list. */
  lemma LinkLater(s: Sched, t: TaskId, wake: Tick)
    requires TimeOk(s) && t in s.tcb && t !in Sleepers(s) && t !in LaterSleepers(s) && wake < s.clock.tick
    ensures var s' := LinkByWakeTime(s, OverflowDelayed(s), t, wake);
            TimeOk(s') && SameClock(s, s') && s'.tcb == s.tcb[t := s.tcb[t].(place := OverflowDelayed(s), wake := wake)]
  {
    var s' := LinkByWakeTime(s, OverflowDelayed(s), t, wake);
    LinkedTcb(s, OverflowDelayed(s), t, wake);
    SortedIn(s, s', OverflowDelayed(s), t, wake);
    SameTimes(s, s', Sleepers(s));
    forall u | u in LaterSleepers(s') ensures Get(s', u).wake < s.clock.tick {
      LinkedMembers(s, OverflowDelayed(s), t, wake, u);
    }
  }

  /** Sorting a task into the current list, before the cached time is lowered. */
  lemma LinkNow(s: Sched, t: TaskId, wake: Tick)
    requires TimeOk(s) && t in s.tcb && t !in Sleepers(s) && t !in LaterSleepers(s) && s.clock.tick < wake
    ensures var s' := LinkByWakeTime(s, CurrentDelayed(s), t, wake);
            && InWakeOrder(s', Sleepers(s')) && InWakeOrder(s', LaterSleepers(s'))
            && NotBefore(s', s'.clock.tick + 1) && LaterOnes(s')
            && SameClock(s, s') && s'.tcb == s.tcb[t := s.tcb[t].(place := CurrentDelayed(s), wake := wake)]
            && s'.nextUnblock == s.nextUnblock
            && (Sleepers(s') != [] ==> wake <= Get(s', Sleepers(s')[0]).wake || s.nextUnblock <= Get(s', Sleepers(s')[0]).wake)
  {
    var s' := LinkByWakeTime(s, CurrentDelayed(s), t, wake);
    LinkedTcb(s, CurrentDelayed(s), t, wake);
    SortedIn(s, s', CurrentDelayed(s), t, wake);
    SameTimes(s, s', LaterSleepers(s));
    LinkedHead(s, CurrentDelayed(s), t, wake);
    forall u | u in Sleepers(s') ensures s.clock.tick + 1 <= Get(s', u).wake {
      LinkedMembers(s, CurrentDelayed(s), t, wake, u);
    }
  }

  lemma LinkedHead(s: Sched, place: Place, t: TaskId, wake: Tick)
    requires t !in ListAt(s, place)
    ensures var s' := LinkByWakeTime(s, place, t, wake);
            && ListAt(s', place) != []
            && (if ListAt(s', place)[0] == t then Get(s', ListAt(s', place)[0]).wake == wake
                else ListAt(s, place) != [] && ListAt(s', place)[0] == ListAt(s, place)[0])
  {}

  lemma LinkedMembers(s: Sched, place: Place, t: TaskId, wake: Tick, u: TaskId)
    requires u in ListAt(LinkByWakeTime(s, place, t, wake), place)
    ensures u == t || u in ListAt(s, place)
  {}

  lemma DelayForever(s: Sched)
    requires Partition(s) && TimeOk(s) && s.current in s.tcb && s.tcb[s.current].place.Ready?
    ensures var s' := AddCurrentToDelayed(s, MAX_DELAY, true);
            && TimeOk(s') && SameClock(s, s') && s'.tcb == s.tcb[s.current := s.tcb[s.current].(place := SuspendedList)]
  {
    var s' := AddCurrentToDelayed(s, MAX_DELAY, true);
    var s1 := Unlink(s, s.current);
    UnlinkTime(s, s.current);
    UnlinkEffect(s, s.current);
    assert s' == LinkEnd(s1, SuspendedList, s.current);
    LinkEndKeepsTime(s1, SuspendedList, s.current);
    SetTwice(s.tcb, s.current, s1.tcb[s.current], s'.tcb[s.current]);
  }

  lemma LinkEndKeepsTime(s: Sched, place: Place, t: TaskId)
    requires TimeOk(s) && t in s.tcb && place != Delayed1 && place != Delayed2
    ensures TimeOk(LinkEnd(s, place, t))
  {
    SameTimes(s, LinkEnd(s, place, t), Sleepers(s));
    SameTimes(s, LinkEnd(s, place, t), LaterSleepers(s));
  }

  lemma DelayPastWrap(s: Sched, ticksToWait: Tick, canBlockIndefinitely: bool)
    requires Partition(s) && TimeOk(s) && s.current in s.tcb && s.tcb[s.current].place.Ready?
    requires !(ticksToWait == MAX_DELAY && canBlockIndefinitely) && Add(s.clock.tick, ticksToWait) < s.clock.tick
    ensures var s' := AddCurrentToDelayed(s, ticksToWait, canBlockIndefinitely);
            && TimeOk(s') && SameClock(s, s')
            && s'.tcb == s.tcb[s.current := s.tcb[s.current].(place := OverflowDelayed(s), wake := Add(s.clock.tick, ticksToWait))]
  {
    var t, s1, wake := s.current, Unlink(s, s.current), Add(s.clock.tick, ticksToWait);
    UnlinkEffect(s, t);
    UnlinkTime(s, t);
    LinkLater(s1, t, wake);
    SetTwice(s.tcb, t, s1.tcb[t], s1.tcb[t].(place := OverflowDelayed(s), wake := wake));
  }

  lemma DelayThisEpoch(s: Sched, ticksToWait: Tick, canBlockIndefinitely: bool)
    requires Partition(s) && TimeOk(s) && s.current in s.tcb && s.tcb[s.current].place.Ready?
    requires !(ticksToWait == MAX_DELAY && canBlockIndefinitely) && s.clock.tick < Add(s.clock.tick, ticksToWait)
    ensures var s' := AddCurrentToDelayed(s, ticksToWait, canBlockIndefinitely);
            && TimeOk(s') && SameClock(s, s')
            && s'.tcb == s.tcb[s.current := s.tcb[s.current].(place := CurrentDelayed(s), wake := Add(s.clock.tick, ticksToWait))]
  {
    var t, s1, wake := s.current, Unlink(s, s.current), Add(s.clock.tick, ticksToWait);
    UnlinkEffect(s, t);
    UnlinkTime(s, t);
    LinkNow(s1, t, wake);
    SetTwice(s.tcb, t, s1.tcb[t], s1.tcb[t].(place := CurrentDelayed(s), wake := wake));
    LowerUnblock(LinkByWakeTime(s1, CurrentDelayed(s), t, wake), AddCurrentToDelayed(s, ticksToWait, canBlockIndefinitely), wake);
  }

  /** Lowering the cached time to the new wake time repairs the cache. */
  lemma LowerUnblock(s: Sched, s': Sched, wake: Tick)
    requires s' == s.(nextUnblock := if wake < s.nextUnblock then wake else s.nextUnblock)
    requires InWakeOrder(s, Sleepers(s)) && InWakeOrder(s, LaterSleepers(s))
    requires NotBefore(s, s.clock.tick + 1) && LaterOnes(s)
    requires Sleepers(s) != [] ==> wake <= Get(s, Sleepers(s)[0]).wake || s.nextUnblock <= Get(s, Sleepers(s)[0]).wake
    ensures TimeOk(s') && SameClock(s, s')
  {
    SameTimes(s, s', Sleepers(s));
    SameTimes(s, s', LaterSleepers(s));
  }

  lemma DelayEffect(s: Sched, ticksToWait: Tick, canBlockIndefinitely: bool)
    requires Partition(s) && TimeOk(s) && s.current in s.tcb && s.tcb[s.current].place.Ready? && 0 < ticksToWait
    ensures var s', t := AddCurrentToDelayed(s, ticksToWait, canBlockIndefinitely), s.current;
            && TimeOk(s') && SameClock(s, s') && t in s'.tcb && s'.tcb == s.tcb[t := s'.tcb[t]]
            && (if ticksToWait == MAX_DELAY && canBlockIndefinitely then s'.tcb[t].place == SuspendedList
                else Sleeping(s', t) && Deadline(s', t) == Now(s) + ticksToWait)
  {
    if ticksToWait == MAX_DELAY && canBlockIndefinitely {
      DelayForever(s);
    } else if Add(s.clock.tick, ticksToWait) < s.clock.tick {
      DelayPastWrap(s, ticksToWait, canBlockIndefinitely);
    } else {
      DelayThisEpoch(s, ticksToWait, canBlockIndefinitely);
    }
  }

  /**
   A task that blocks for `ticksToWait` sleeps until exactly that many ticks after the tick
   count it saw; with no time limit it is on the suspended list and no tick wakes it.
   */
  lemma DelaySetsDeadline(s: Sched, ticksToWait: Tick, canBlockIndefinitely: bool)
    requires Partition(s) && TimeOk(s) && s.current in s.tcb && s.tcb[s.current].place.Ready?
    requires 0 < ticksToWait
    ensures var s' := AddCurrentToDelayed(s, ticksToWait, canBlockIndefinitely);
            && Partition(s') && TimeOk(s') && SameClock(s, s')
            && (forall t :: t in s.tcb && t != s.current ==> s'.tcb[t] == s.tcb[t])
            && (if ticksToWait == MAX_DELAY && canBlockIndefinitely then s'.tcb[s.current].place == SuspendedList
                else Sleeping(s', s.current) && Deadline(s', s.current) == Now(s) + ticksToWait)
  {
    DelayEffect(s, ticksToWait, canBlockIndefinitely);
    AddCurrentToDelayedKeeps(s, ticksToWait, canBlockIndefinitely);
  }

  // ---------- Woken by something else ----------

  /** Any task leaves its list: the clock facts stay. */
  lemma UnlinkKeepsTime(s: Sched, t: TaskId)
    requires Partition(s) && TimeOk(s) && t in s.tcb
    ensures TimeOk(Unlink(s, t))
  {
    var s' := Unlink(s, t);
    UnlinkEffect(s, t);
    LeftList(s, t, CurrentDelayed(s));
    LeftList(s, t, OverflowDelayed(s));
    TimeFromLists(s, s');
  }

  /** From `s` to `s'` tasks may have left a list, and nothing else happened to it. */
  ghost predicate Shorter(s: Sched, s': Sched, place: Place) {
    && InWakeOrder(s', ListAt(s', place))
    && (forall u :: u in ListAt(s', place) ==> u in ListAt(s, place) && Get(s', u).wake == Get(s, u).wake)
    && (ListAt(s', place) != [] ==> ListAt(s, place) != [] && Get(s, ListAt(s, place)[0]).wake <= Get(s', ListAt(s', place)[0]).wake)
  }

  lemma LeftList(s: Sched, t: TaskId, place: Place)
    requires Partition(s) && t in s.tcb && IsList(place) && InWakeOrder(s, ListAt(s, place))
    ensures Shorter(s, Unlink(s, t), place)
  {
    assert Holds(s, place);
    UnlinkEffect(s, t);
    LeftTime(s, Unlink(s, t), place, t);
  }

  lemma TimeFromLists(s: Sched, s': Sched)
    requires TimeOk(s) && s'.clock == s.clock && s'.nextUnblock == s.nextUnblock
    requires Shorter(s, s', CurrentDelayed(s)) && Shorter(s, s', OverflowDelayed(s))
    ensures TimeOk(s')
  {}

  lemma LeftTime(s: Sched, s': Sched, place: Place, t: TaskId)
    requires ListAt(s', place) == ListAt(s, place) || ListAt(s', place) == Minus(ListAt(s, place), t)
    requires NoDuplicates(ListAt(s, place)) && forall u :: Get(s', u).wake == Get(s, u).wake
    requires InWakeOrder(s, ListAt(s, place))
    ensures InWakeOrder(s', ListAt(s', place))
    ensures forall u :: u in ListAt(s', place) ==> u in ListAt(s, place) && Get(s', u).wake == Get(s, u).wake
    ensures ListAt(s', place) != [] ==> ListAt(s, place) != [] && Get(s, ListAt(s, place)[0]).wake <= Get(s', ListAt(s', place)[0]).wake
  {
    var list := ListAt(s, place);
    if t in list && ListAt(s', place) == Minus(list, t) {
      MinusFacts(list, t);
      LeftOwnList(s, s', list, IndexOf(list, t));
    } else {
      SameTimes(s, s', list);
    }
  }

  lemma LeftOwnList(s: Sched, s': Sched, list: seq<TaskId>, k: nat)
    requires k < |list| && InWakeOrder(s, list) && forall t :: t in list ==> Get(s', t).wake == Get(s, t).wake
    ensures var rest := Without(list, k);
            InWakeOrder(s', rest) && (rest != [] ==> Get(s, list[0]).wake <= Get(s', rest[0]).wake)
  {
    TimesWithout(s, s', list, k);
    SortedWithout(WakeTimes(s, list), k);
  }

  lemma TimesWithout(s: Sched, s': Sched, list: seq<TaskId>, k: nat)
    requires k < |list| && InWakeOrder(s, list) && forall t :: t in list ==> Get(s', t).wake == Get(s, t).wake
    ensures WakeTimes(s', Without(list, k)) == Without(WakeTimes(s, list), k)
    ensures Without(list, k) != [] ==> Get(s, list[0]).wake <= Get(s', Without(list, k)[0]).wake
  {
    var rest := Without(list, k);
    forall i | 0 <= i < |rest| ensures WakeTimes(s', rest)[i] == Without(WakeTimes(s, list), k)[i] {
      assert rest[i] == list[if i < k then i else i + 1];
    }
    if rest != [] { assert WakeTimes(s', rest)[0] == WakeTimes(s, list)[if k == 0 then 1 else 0]; }
  }

  /** Making a task ready that is in neither list. */
  lemma ReadyKeepsTime(s: Sched, t: TaskId)
    requires TimeOk(s) && t in s.tcb
    ensures TimeOk(AddToReady(s, t))
  {
    AddToReadyEffect(s, t);
    SameTimes(s, AddToReady(s, t), Sleepers(s));
    SameTimes(s, AddToReady(s, t), LaterSleepers(s));
  }

  /** Fields that the clock facts do not read may change. */
  lemma TimeFrame(s: Sched, s': Sched)
    requires TimeOk(s) && s'.lists == s.lists && s'.clock == s.clock && s'.nextUnblock == s.nextUnblock
    requires forall t :: Get(s', t).wake == Get(s, t).wake
    ensures TimeOk(s')
  {
    SameTimes(s, s', Sleepers(s));
    SameTimes(s, s', LaterSleepers(s));
  }

  /** A task is readied before its time; the others keep their deadlines. */
  lemma ReadyAgainTime(s: Sched, t: TaskId)
    requires Partition(s) && TimeOk(s) && t in s.tcb
    ensures var s' := AddToReady(Unlink(s, t), t);
            TimeOk(s') && SameClock(s, s') && s'.tcb == s.tcb[t := s.tcb[t].(place := Ready(s.tcb[t].prio))]
  {
    UnlinkKeepsTime(s, t);
    UnlinkEffect(s, t);
    ReadyKeepsTime(Unlink(s, t), t);
    AddToReadyEffect(Unlink(s, t), t);
  }

  lemma EventWakeTcb(s: Sched, id: nat)
    requires EventList(s, id) != [] && EventList(s, id)[0] in s.tcb
    ensures var s', t := RemoveFromEventList(s, id), EventList(s, id)[0];
            && s'.clock == s.clock && s'.current == s.current
            && s'.tcb == s.tcb[t := if s.clock.suspended == 0 then WokenTcb(s.tcb[t]) else s.tcb[t].(event := PendingReady)]
  {
    var t := EventList(s, id)[0];
    SetTwice(s.tcb, t, s.tcb[t].(event := NoEvent), s.tcb[t].(event := PendingReady));
    SetTwice(s.tcb, t, s.tcb[t].(event := NoEvent), s.tcb[t].(event := NoEvent, place := Loose));
    SetTwice(s.tcb, t, s.tcb[t].(event := NoEvent, place := Loose), WokenTcb(s.tcb[t]));
  }

  /** An event item leaves its list. */
  lemma EventItemOff(s: Sched, s1: Sched, t: TaskId)
    requires Partition(s) && TimeOk(s) && t in s.tcb
    requires s1 == SetTcb(s, t, s.tcb[t].(event := NoEvent)).(eventLists := s1.eventLists, pendingReady := s1.pendingReady)
    ensures Partition(s1) && TimeOk(s1)
  {
    SamePlace(s, t, s.tcb[t].(event := NoEvent), {});
    SameLists(SetTcb(s, t, s.tcb[t].(event := NoEvent)), s1, {});
    TimeFrame(s, s1);
  }

  lemma EventWakeKeepsTime(s: Sched, id: nat)
    requires Partition(s) && TimeOk(s) && EventList(s, id) != [] && EventList(s, id)[0] in s.tcb
    ensures TimeOk(RemoveFromEventList(s, id))
  {
    var t, s' := EventList(s, id)[0], RemoveFromEventList(s, id);
    var s1 := SetTcb(s, t, s.tcb[t].(event := NoEvent)).(eventLists := s.eventLists[id := EventList(s, id)[1..]]);
    EventItemOff(s, s1, t);
    if s.clock.suspended == 0 {
      assert s' == AddToReady(Unlink(s1, t), t).(yieldPending := s'.yieldPending);
      ReadyAgainTime(s1, t);
      TimeFrame(AddToReady(Unlink(s1, t), t), s');
    } else {
      EventWakeTcb(s, id);
      assert s'.lists == s.lists && s'.nextUnblock == s.nextUnblock;
      TimeFrame(s, s');
    }
  }

  lemma EventWakeTime(s: Sched, id: nat)
    requires Partition(s) && TimeOk(s) && EventList(s, id) != [] && EventList(s, id)[0] in s.tcb
    ensures var s', t := RemoveFromEventList(s, id), EventList(s, id)[0];
            && TimeOk(s') && s'.clock == s.clock && s'.current == s.current && (forall t :: t in s'.tcb <==> t in s.tcb)
            && (forall u :: u in s.tcb && u != t ==> s'.tcb[u] == s.tcb[u])
            && s'.tcb[t] == (if s.clock.suspended == 0 then WokenTcb(s.tcb[t]) else s.tcb[t].(event := PendingReady))
  {
    EventWakeTcb(s, id);
    EventWakeKeepsTime(s, id);
  }

  // ---------- Resuming the scheduler ----------

  lemma MoveOneTime(s: Sched)
    requires Partition(s) && TimeOk(s) && s.pendingReady != [] && s.pendingReady[0] in s.tcb
    ensures var s', t := MoveOne(s), s.pendingReady[0];
            && TimeOk(s') && s'.clock == s.clock && s'.current == s.current
            && s'.tcb == s.tcb[t := WokenTcb(s.tcb[t])]
  {
    var t := s.pendingReady[0];
    var s1 := SetTcb(s, t, s.tcb[t].(event := NoEvent)).(pendingReady := s.pendingReady[1..]);
    EventItemOff(s, s1, t);
    ReadyAgainTime(s1, t);
    TimeFrame(AddToReady(Unlink(s1, t), t), MoveOne(s));
    SetTwice(s.tcb, t, s1.tcb[t], WokenTcb(s.tcb[t]));
  }

  /** Pending tasks become ready; every other task keeps its control block. */
  lemma {:induction false} MovePendingTime(s: Sched)
    requires Partition(s) && TimeOk(s) && forall t :: t in s.pendingReady ==> t in s.tcb
    ensures var s' := MovePending(s);
            && TimeOk(s') && s'.clock == s.clock && s'.current == s.current && (forall t :: t in s'.tcb <==> t in s.tcb)
            && forall t :: t in s.tcb ==> s'.tcb[t] == if t in s.pendingReady then WokenTcb(s.tcb[t]) else s.tcb[t]
    decreases |s.pendingReady|
  {
    if s.pendingReady != [] {
      MoveOneTime(s);
      MoveOneKeeps(s);
      MovePendingTime(MoveOne(s));
      WokenTwice(s, MoveOne(s), MovePending(s));
    }
  }

  lemma WokenTwice(s: Sched, s1: Sched, s2: Sched)
    requires s.pendingReady != [] && s.pendingReady[0] in s.tcb && s1.tcb == s.tcb[s.pendingReady[0] := WokenTcb(s.tcb[s.pendingReady[0]])]
    requires forall t :: t in s2.tcb <==> t in s1.tcb
    requires forall t :: t in s1.tcb ==> s2.tcb[t] == if t in s.pendingReady[1..] then WokenTcb(s1.tcb[t]) else s1.tcb[t]
    ensures forall t :: t in s2.tcb <==> t in s.tcb
    ensures forall t :: t in s.tcb ==> s2.tcb[t] == if t in s.pendingReady then WokenTcb(s.tcb[t]) else s.tcb[t]
  {
    assert s.pendingReady == [s.pendingReady[0]] + s.pendingReady[1..];
  }

  lemma ReadyPendingTime(s: Sched)
    requires Partition(s) && TimeOk(s) && forall t :: t in s.pendingReady ==> t in s.tcb
    ensures var s' := ReadyPending(s);
            && TimeOk(s') && s'.clock == s.clock && s'.current == s.current && (forall t :: t in s'.tcb <==> t in s.tcb)
            && forall t :: t in s.tcb ==> s'.tcb[t] == if t in s.pendingReady then WokenTcb(s.tcb[t]) else s.tcb[t]
  {
    MovePendingTime(s);
    ResetTime(MovePending(s));
  }

  /** From `s` to `s'`: tasks of `early` and sleepers whose deadline has come run, all else stays. */
  ghost predicate Elapsed(s: Sched, s': Sched, early: seq<TaskId>) {
    && (forall t :: t in s'.tcb <==> t in s.tcb) && s'.current == s.current
    && (forall t :: t in s.tcb ==> ElapsedFor(s, s', early, t))
  }

  ghost predicate ElapsedFor(s: Sched, s': Sched, early: seq<TaskId>, t: TaskId)
    requires t in s.tcb && t in s'.tcb
  {
    && s'.tcb[t] == (if t in early || (Sleeping(s, t) && Deadline(s, t) <= Now(s')) then WokenTcb(s.tcb[t]) else s.tcb[t])
    && (Sleeping(s', t) ==> Sleeping(s, t) && Deadline(s', t) == Deadline(s, t))
  }

  lemma ElapsedTwice(s: Sched, s1: Sched, s2: Sched, early: seq<TaskId>)
    requires Elapsed(s, s1, early) && Elapsed(s1, s2, []) && Now(s1) <= Now(s2)
    requires forall t :: Sleeping(s, t) && t !in early && Now(s1) < Deadline(s, t) ==> Deadline(s1, t) == Deadline(s, t)
    ensures Elapsed(s, s2, early)
  {
    forall t | t in s.tcb ensures ElapsedFor(s, s2, early, t) {
      assert ElapsedFor(s, s1, early, t) && ElapsedFor(s1, s2, [], t);
    }
  }

  lemma ReplayKeeps(s: Sched)
    requires Partition(s) && TimeOk(s) && s.clock.suspended == 0
    ensures var s' := ReplayTick(s);
            && Partition(s') && TimeOk(s') && Now(s') == Now(s) + 1
            && s'.clock.suspended == 0 && s'.clock.pended == s.clock.pended
  {
    TickWakesExactly(s);
    SameLists(IncrementTick(s).0, ReplayTick(s), {});
    TimeFrame(IncrementTick(s).0, ReplayTick(s));
  }

  lemma TickElapses(s: Sched)
    requires Partition(s) && TimeOk(s) && s.clock.suspended == 0
    ensures var s' := ReplayTick(s);
            && Elapsed(s, s', [])
            && forall t :: Sleeping(s, t) && Now(s') < Deadline(s, t) ==> Deadline(s', t) == Deadline(s, t)
  {
    TickWakesExactly(s);
    ElapsedByTick(s, IncrementTick(s).0);
    ElapsedFrame(s, IncrementTick(s).0, ReplayTick(s), []);
  }

  lemma ElapsedByTick(s: Sched, s': Sched)
    requires Partition(s) && TimeOk(s) && Now(s') == Now(s) + 1 && s'.current == s.current && forall t :: t in s'.tcb <==> t in s.tcb
    requires forall t :: t in s.tcb ==>
               s'.tcb[t] == if Sleeping(s, t) && Deadline(s, t) == Now(s') then WokenTcb(s.tcb[t]) else s.tcb[t]
    requires forall t :: Sleeping(s', t) ==> Sleeping(s, t) && Deadline(s', t) == Deadline(s, t)
    ensures Elapsed(s, s', [])
    ensures forall t :: Sleeping(s, t) && Now(s') < Deadline(s, t) ==> Deadline(s', t) == Deadline(s, t)
  {
    forall t | t in s.tcb ensures ElapsedFor(s, s', [], t) { TickElapsedFor(s, s', t); }
    forall t | Sleeping(s, t) && Now(s') < Deadline(s, t) ensures Deadline(s', t) == Deadline(s, t) {
      assert Sleeping(s', t);
    }
  }

  lemma TickElapsedFor(s: Sched, s': Sched, t: TaskId)
    requires Partition(s) && TimeOk(s) && Now(s') == Now(s) + 1 && t in s.tcb && t in s'.tcb
    requires s'.tcb[t] == if Sleeping(s, t) && Deadline(s, t) == Now(s') then WokenTcb(s.tcb[t]) else s.tcb[t]
    requires Sleeping(s', t) ==> Sleeping(s, t) && Deadline(s', t) == Deadline(s, t)
    ensures ElapsedFor(s, s', [], t)
  {
    if Sleeping(s, t) { DeadlinesByEpoch(s, t); }
  }

  lemma NothingElapses(s: Sched)
    requires Partition(s) && TimeOk(s)
    ensures Elapsed(s, s, [])
  {
    forall t | t in s.tcb ensures ElapsedFor(s, s, [], t) {
      if Sleeping(s, t) { DeadlinesByEpoch(s, t); }
    }
  }

  /** The ticks held back are replayed one by one, so each sleeper wakes at its own tick. */
  lemma {:induction false} ReplayTime(s: Sched, n: nat)
    requires Partition(s) && TimeOk(s) && s.clock.suspended == 0
    ensures var s' := ReplayTicks(s, n);
            && Partition(s') && TimeOk(s') && Now(s') == Now(s) + n
            && s'.clock.suspended == 0 && s'.clock.pended == s.clock.pended && Elapsed(s, s', [])
    decreases n
  {
    if n == 0 {
      NothingElapses(s);
    } else {
      ReplayKeeps(s);
      TickElapses(s);
      assert ReplayTicks(s, n) == ReplayTicks(ReplayTick(s), n - 1);
      ReplayTime(ReplayTick(s), n - 1);
      ElapsedTwice(s, ReplayTick(s), ReplayTicks(s, n), []);
    }
  }

  lemma PendingElapses(s: Sched, s': Sched)
    requires Partition(s) && TimeOk(s)
    requires s'.clock.tick == s.clock.tick && s'.clock.overflows == s.clock.overflows && s'.clock.firstIsCurrent == s.clock.firstIsCurrent
    requires s'.current == s.current && (forall t :: t in s'.tcb <==> t in s.tcb)
    requires forall t :: t in s.tcb ==> s'.tcb[t] == if t in s.pendingReady then WokenTcb(s.tcb[t]) else s.tcb[t]
    ensures Elapsed(s, s', s.pendingReady)
    ensures forall t :: Sleeping(s, t) && t !in s.pendingReady ==> Deadline(s', t) == Deadline(s, t)
  {
    forall t | t in s.tcb ensures ElapsedFor(s, s', s.pendingReady, t) {
      if Sleeping(s, t) { DeadlinesByEpoch(s, t); }
    }
  }

  /**
   Resuming for the last time: tasks that an event readied meanwhile run, the ticks held back
   count, and each remaining sleeper is woken exactly if one of those ticks is its deadline.
   */
  lemma ResumeWakesExactly(s: Sched)
    requires Partition(s) && TimeOk(s) && s.clock.suspended == 1 && s.numTasks > 0
    requires forall t :: t in s.pendingReady ==> t in s.tcb
    ensures var s' := ResumeAll(s);
            && Partition(s') && TimeOk(s') && Now(s') == Now(s) + s.clock.pended
            && s'.clock.pended == 0 && s'.clock.suspended == 0 && Elapsed(s, s', s.pendingReady)
  {
    ResumeAllKeeps(s);
    var s1 := s.(clock := s.clock.(suspended := 0));
    SameLists(s, s1, {});
    ClockFrame(s, s1);
    ReadyPendingTime(s1);
    ReadyPendingKeeps(s1);
    var s2 := ReadyPending(s1);
    PendingElapses(s, s2);
    ReplayTime(s2, s2.clock.pended);
    var s3 := ReplayTicks(s2, s2.clock.pended);
    ElapsedTwice(s, s2, s3, s.pendingReady);
    ClockFrame(s3, ResumeAll(s));
    ElapsedFrame(s, s3, ResumeAll(s), s.pendingReady);
  }

  lemma ElapsedFrame(s: Sched, s1: Sched, s2: Sched, early: seq<TaskId>)
    requires Elapsed(s, s1, early) && s2.tcb == s1.tcb && s2.current == s1.current
    requires s2.clock.tick == s1.clock.tick && s2.clock.overflows == s1.clock.overflows && s2.clock.firstIsCurrent == s1.clock.firstIsCurrent
    ensures Elapsed(s, s2, early)
  {
    forall t | t in s.tcb ensures ElapsedFor(s, s2, early, t) { assert ElapsedFor(s, s1, early, t); }
  }

  lemma ClockFrame(s: Sched, s': Sched)
    requires TimeOk(s) && s' == s.(clock := s'.clock)
    requires s'.clock.tick == s.clock.tick && s'.clock.overflows == s.clock.overflows && s'.clock.firstIsCurrent == s.clock.firstIsCurrent
    ensures TimeOk(s')
  {
    SameTimes(s, s', Sleepers(s));
    SameTimes(s, s', LaterSleepers(s));
  }

  lemma ResetTime(s: Sched)
    requires TimeOk(s)
    ensures TimeOk(ResetNextUnblock(s))
  {
    SameTimes(s, ResetNextUnblock(s), Sleepers(s));
    SameTimes(s, ResetNextUnblock(s), LaterSleepers(s));
  }
}
