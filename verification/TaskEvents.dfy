/**
 The order of event lists. Waiters are sorted in by priority behind their equals, so a signal
 wakes the best of them that has waited longest. The source does not sort a list again when the
 priority of a task on it changes; the order survives a run exactly if no such change moves a
 waiter past its neighbours.
 */
module TaskEvents {
  import opened Wrappers
  import opened Word32
  import opened ListView
  import opened Tasks
  import opened TaskPartition
  import opened TaskTime
  import opened TaskRuns
  import opened TaskPriorities

  function PrioOf(s: Sched, t: TaskId): nat {
    Get(s, t).prio
  }

  /** An event list from high to low priority. */
  predicate Falling(s: Sched, list: seq<TaskId>) {
    forall i, j :: 0 <= i < j < |list| ==> PrioOf(s, list[j]) <= PrioOf(s, list[i])
  }

  ghost predicate Ordered(s: Sched) {
    forall id {:trigger EventList(s, id)} :: Falling(s, EventList(s, id))
  }

  /** Event items are sorted by these values; no event group has borrowed one. */
  ghost predicate Ranked(s: Sched) {
    forall t {:trigger PrioOf(s, t)} :: Get(s, t).evt == EventValue(PrioOf(s, t)) && PrioOf(s, t) < PRIORITIES
  }

  // ---------- Waiting and waking ----------

  /** The caller waits behind every task that it does not outrank, and before the rest. */
  lemma PlaceExact(s: Sched, id: nat, ticksToWait: Tick)
    requires Ranked(s) && Falling(s, EventList(s, id)) && s.current in s.tcb
    ensures var s', list, c := PlaceOnEventList(s, id, ticksToWait), EventList(s, id), s.current;
            && (exists k: nat :: BehindEquals(s, list, k, c) && EventList(s', id) == InsertAt(list, k, c))
            && (forall e :: e != id ==> EventList(s', e) == EventList(s, e))
            && SameRanks(s, s') && Falling(s', EventList(s', id))
  {
    var s', list, c := PlaceOnEventList(s, id, ticksToWait), EventList(s, id), s.current;
    var k := FirstGreater(EventValues(s, list), Get(s, c).evt);
    WaitTcb(s, id, ticksToWait);
    PlacedRank(s, id, ticksToWait);
    SortedBehindEquals(s, list, c);
    InsertedFalling(s, list, k, c);
    SameFalling(s, s', InsertAt(list, k, c));
  }

  /** Position `k` is behind all that `t` does not outrank, and before the rest. */
  predicate BehindEquals(s: Sched, list: seq<TaskId>, k: nat, t: TaskId) {
    && k <= |list|
    && (forall i :: 0 <= i < k ==> PrioOf(s, t) <= PrioOf(s, list[i]))
    && (forall i :: k <= i < |list| ==> PrioOf(s, list[i]) < PrioOf(s, t))
  }

  lemma SameFalling(s: Sched, s': Sched, list: seq<TaskId>)
    requires SameRanks(s, s') && Falling(s, list)
    ensures Falling(s', list)
  {}

  lemma SortedBehindEquals(s: Sched, list: seq<TaskId>, t: TaskId)
    requires Ranked(s) && Falling(s, list)
    ensures BehindEquals(s, list, FirstGreater(EventValues(s, list), Get(s, t).evt), t)
  {
    var values := EventValues(s, list);
    SortedValues(s, list);
    SortedInsert(values, Get(s, t).evt);
    forall i | 0 <= i < |list| ensures values[i] == PRIORITIES - PrioOf(s, list[i]) {}
    assert Get(s, t).evt == PRIORITIES - PrioOf(s, t);
  }

  lemma SortedValues(s: Sched, list: seq<TaskId>)
    requires Ranked(s)
    ensures Falling(s, list) <==> Sorted(EventValues(s, list))
  {
    forall i | 0 <= i < |list| ensures EventValues(s, list)[i] == PRIORITIES - PrioOf(s, list[i]) {}
  }

  lemma InsertedFalling(s: Sched, list: seq<TaskId>, k: nat, t: TaskId)
    requires Falling(s, list) && BehindEquals(s, list, k, t)
    ensures Falling(s, InsertAt(list, k, t))
  {
    var more := InsertAt(list, k, t);
    forall i, j | 0 <= i < j < |more| ensures PrioOf(s, more[j]) <= PrioOf(s, more[i]) {
      assert more[i] == if i < k then list[i] else if i == k then t else list[i - 1];
      assert more[j] == if j < k then list[j] else if j == k then t else list[j - 1];
    }
  }

  lemma PlacedRank(s: Sched, id: nat, ticksToWait: Tick)
    requires s.current in s.tcb
    ensures SameRanks(s, PlaceOnEventList(s, id, ticksToWait))
  {
    DelayTcb(OnEventList(s, id), ticksToWait, true);
  }

  /** The one that a signal wakes is the best of those that wait, and the one of these that came first. */
  lemma SignalTakesBest(s: Sched, id: nat)
    requires Partition(s) && EventsOk(s) && Ordered(s) && EventList(s, id) != []
    ensures var s', t := RemoveFromEventList(s, id), EventList(s, id)[0];
            && EventList(s', id) == EventList(s, id)[1..] && (forall e :: e != id ==> EventList(s', e) == EventList(s, e))
            && (forall u :: u in EventList(s', id) ==> u != t && PrioOf(s, u) <= PrioOf(s, t))
            && t in s'.tcb && (if s.clock.suspended == 0 then s'.tcb[t].place == Ready(PrioOf(s, t)) && s'.pendingReady == s.pendingReady
                               else s'.tcb[t].place == Get(s, t).place && s'.pendingReady == s.pendingReady + [t])
  {
    var list := EventList(s, id);
    assert HoldsEvents(s, OnEvent(id));
    HeadLeaves(list);
    forall u | u in list[1..] ensures PrioOf(s, u) <= PrioOf(s, list[0]) {
      var k :| 0 <= k < |list[1..]| && list[1..][k] == u;
      assert list[k + 1] == u;
    }
  }

  // ---------- What steps leave alone ----------

  predicate SameRank(a: Tcb, b: Tcb) {
    b.prio == a.prio && b.evt == a.evt
  }

  ghost predicate SameRanks(s: Sched, s': Sched) {
    forall t {:trigger Get(s', t)} {:trigger PrioOf(s', t)} :: SameRank(Get(s, t), Get(s', t))
  }

  lemma SameOrder(s: Sched, s': Sched)
    requires SameRanks(s, s') && s'.eventLists == s.eventLists
    ensures (Ranked(s) ==> Ranked(s')) && (Ordered(s) ==> Ordered(s'))
  {
    if Ordered(s) {
      forall id: nat ensures Falling(s', EventList(s', id)) { assert Falling(s, EventList(s, id)); }
    }
    if Ranked(s) {
      forall t ensures Get(s', t).evt == EventValue(PrioOf(s', t)) && PrioOf(s', t) < PRIORITIES { assert PrioOf(s, t) < PRIORITIES; }
    }
  }

  lemma FallingWithout(s: Sched, s': Sched, list: seq<TaskId>, k: nat)
    requires Falling(s, list) && k < |list| && SameRanks(s, s')
    ensures Falling(s', Without(list, k))
  {
    var rest := Without(list, k);
    forall i, j | 0 <= i < j < |rest| ensures PrioOf(s', rest[j]) <= PrioOf(s', rest[i]) {
      assert rest[i] == list[if i < k then i else i + 1] && rest[j] == list[if j < k then j else j + 1];
    }
  }

  /** A task leaves the event list it is on. */
  lemma UnlinkEventOrder(s: Sched, t: TaskId)
    requires Ranked(s) && Ordered(s)
    ensures SameRanks(s, UnlinkEvent(s, t)) && Ranked(UnlinkEvent(s, t)) && Ordered(UnlinkEvent(s, t))
  {
    var s', event := UnlinkEvent(s, t), Get(s, t).event;
    forall u ensures SameRank(Get(s, u), Get(s', u)) {}
    forall id: nat ensures Falling(s', EventList(s', id)) {
      assert Falling(s, EventList(s, id));
      if event == OnEvent(id) && IndexOf(EventList(s, id), t) < |EventList(s, id)| {
        FallingWithout(s, s', EventList(s, id), IndexOf(EventList(s, id), t));
      }
    }
    forall u ensures Get(s', u).evt == EventValue(PrioOf(s', u)) && PrioOf(s', u) < PRIORITIES { assert PrioOf(s, u) < PRIORITIES; }
  }

  lemma ReadyRanks(s: Sched, t: TaskId)
    ensures SameRanks(s, AddToReady(s, t)) && AddToReady(s, t).eventLists == s.eventLists
  {}

  lemma UnlinkRanks(s: Sched, t: TaskId)
    ensures SameRanks(s, Unlink(s, t)) && Unlink(s, t).eventLists == s.eventLists
  {}

  lemma WakeHeadOrder(s: Sched)
    requires Ranked(s) && Ordered(s) && Sleepers(s) != []
    ensures Ranked(WakeHead(s)) && Ordered(WakeHead(s))
  {
    var v := ViewAt(s, CurrentDelayed(s));
    var t := v.items[0];
    var s1 := SetPlace(s, t, Loose).(lists := s.lists[CurrentDelayed(s) := Remove(v, 0)]);
    SameOrder(s, s1);
    UnlinkEventOrder(s1, t);
    var s2 := UnlinkEvent(s1, t);
    ReadyRanks(s2, t);
    SameOrder(s2, AddToReady(s2, t));
    assert WakeHead(s) == AddToReady(s2, t);
  }

  lemma {:induction false} WakeDueOrder(s: Sched)
    requires Ranked(s) && Ordered(s)
    ensures Ranked(WakeDue(s)) && Ordered(WakeDue(s))
    decreases |Sleepers(s)|
  {
    var list := Sleepers(s);
    if list == [] || s.clock.tick < Get(s, list[0]).wake {
      SameOrder(s, WakeDue(s));
    } else {
      WakeHeadOrder(s);
      WakeDueOrder(WakeHead(s));
    }
  }

  lemma TickOrder(s: Sched)
    requires Ranked(s) && Ordered(s)
    ensures Ranked(IncrementTick(s).0) && Ordered(IncrementTick(s).0)
  {
    if s.clock.suspended > 0 {
      SameOrder(s, IncrementTick(s).0);
    } else {
      SameOrder(s, AdvanceTick(s));
      WakeDueOrder(AdvanceTick(s));
    }
  }

  lemma {:induction false} ReplayOrder(s: Sched, n: nat)
    requires Ranked(s) && Ordered(s)
    ensures Ranked(ReplayTicks(s, n)) && Ordered(ReplayTicks(s, n))
    decreases n
  {
    if n > 0 {
      TickOrder(s);
      SameOrder(IncrementTick(s).0, ReplayTick(s));
      ReplayOrder(ReplayTick(s), n - 1);
    }
  }

  lemma MoveOneOrder(s: Sched)
    requires Ranked(s) && Ordered(s) && s.pendingReady != []
    ensures Ranked(MoveOne(s)) && Ordered(MoveOne(s))
  {
    var t := s.pendingReady[0];
    var s1 := SetTcb(s, t, Get(s, t).(event := NoEvent)).(pendingReady := s.pendingReady[1..]);
    SameOrder(s, s1);
    ReadyAgainOrder(s1, t);
    SameOrder(AddToReady(Unlink(s1, t), t), MoveOne(s));
  }

  lemma ReadyAgainOrder(s: Sched, t: TaskId)
    requires Ranked(s) && Ordered(s)
    ensures Ranked(AddToReady(Unlink(s, t), t)) && Ordered(AddToReady(Unlink(s, t), t))
  {
    UnlinkRanks(s, t);
    SameOrder(s, Unlink(s, t));
    ReadyRanks(Unlink(s, t), t);
    SameOrder(Unlink(s, t), AddToReady(Unlink(s, t), t));
  }

  lemma {:induction false} MovePendingOrder(s: Sched)
    requires Ranked(s) && Ordered(s)
    ensures Ranked(MovePending(s)) && Ordered(MovePending(s))
    decreases |s.pendingReady|
  {
    if s.pendingReady != [] {
      MoveOneOrder(s);
      MovePendingOrder(MoveOne(s));
    }
  }

  lemma ResumeOrder(s: Sched)
    requires Ranked(s) && Ordered(s) && s.clock.suspended > 0
    ensures Ranked(ResumeAll(s)) && Ordered(ResumeAll(s))
  {
    var s1 := s.(clock := s.clock.(suspended := s.clock.suspended - 1));
    SameOrder(s, s1);
    if s1.clock.suspended == 0 && s1.numTasks != 0 {
      MovePendingOrder(s1);
      var s2 := ReadyPending(s1);
      SameOrder(MovePending(s1), s2);
      ReplayOrder(s2, s2.clock.pended);
      SameOrder(ReplayTicks(s2, s2.clock.pended), ResumeAll(s));
    }
  }

  /** One task that is on no event list comes, goes or gets another priority. */
  lemma OtherRank(s: Sched, s': Sched, t: TaskId)
    requires Ranked(s) && Ordered(s) && s'.eventLists == s.eventLists && forall id: nat :: t !in EventList(s, id)
    requires forall u :: u != t ==> SameRank(Get(s, u), Get(s', u))
    requires Get(s', t).evt == EventValue(PrioOf(s', t)) && PrioOf(s', t) < PRIORITIES
    ensures Ranked(s') && Ordered(s')
  {
    forall id: nat ensures Falling(s', EventList(s', id)) { assert Falling(s, EventList(s, id)); }
    forall u ensures Get(s', u).evt == EventValue(PrioOf(s', u)) && PrioOf(s', u) < PRIORITIES { assert PrioOf(s, u) < PRIORITIES; }
  }

  lemma NotOnList(s: Sched, t: TaskId)
    requires EventsOk(s) && (t in s.tcb ==> !s.tcb[t].event.OnEvent?)
    ensures forall id: nat :: t !in EventList(s, id)
  {
    forall id: nat ensures t !in EventList(s, id) { assert HoldsEvents(s, OnEvent(id)); }
  }

  lemma DelayOrder(s: Sched, ticksToWait: Tick)
    requires Ranked(s) && Ordered(s) && s.current in s.tcb
    ensures Ranked(AddCurrentToDelayed(s, ticksToWait, false)) && Ordered(AddCurrentToDelayed(s, ticksToWait, false))
  {
    DelayTcb(s, ticksToWait, false);
    SameOrder(s, AddCurrentToDelayed(s, ticksToWait, false));
  }

  lemma WaitOrder(s: Sched, id: nat, ticksToWait: Tick)
    requires Ranked(s) && Ordered(s) && s.current in s.tcb
    ensures Ranked(PlaceOnEventList(s, id, ticksToWait)) && Ordered(PlaceOnEventList(s, id, ticksToWait))
  {
    var s' := PlaceOnEventList(s, id, ticksToWait);
    assert Falling(s, EventList(s, id));
    PlaceExact(s, id, ticksToWait);
    forall e: nat ensures Falling(s', EventList(s', e)) { assert Falling(s, EventList(s, e)); }
    forall u ensures Get(s', u).evt == EventValue(PrioOf(s', u)) && PrioOf(s', u) < PRIORITIES { assert PrioOf(s, u) < PRIORITIES; }
  }

  lemma SignalOrder(s: Sched, id: nat)
    requires Ranked(s) && Ordered(s) && EventList(s, id) != []
    ensures Ranked(RemoveFromEventList(s, id)) && Ordered(RemoveFromEventList(s, id))
  {
    var s', list := RemoveFromEventList(s, id), EventList(s, id);
    SignalRanks(s, id);
    assert list[1..] == Without(list, 0);
    assert Falling(s, list);
    FallingWithout(s, s', list, 0);
    forall e: nat ensures Falling(s', EventList(s', e)) { assert Falling(s, EventList(s, e)); }
    forall u ensures Get(s', u).evt == EventValue(PrioOf(s', u)) && PrioOf(s', u) < PRIORITIES { assert PrioOf(s, u) < PRIORITIES; }
  }

  lemma SignalRanks(s: Sched, id: nat)
    requires EventList(s, id) != []
    ensures SameRanks(s, RemoveFromEventList(s, id))
    ensures RemoveFromEventList(s, id).eventLists == s.eventLists[id := EventList(s, id)[1..]]
  {
    var t := EventList(s, id)[0];
    var s1 := SetTcb(s, t, Get(s, t).(event := NoEvent)).(eventLists := s.eventLists[id := EventList(s, id)[1..]]);
    assert SameRanks(s, s1);
    if s.clock.suspended == 0 {
      UnlinkRanks(s1, t);
      ReadyRanks(Unlink(s1, t), t);
    }
  }

  lemma CreateOrder(s: Sched, t: TaskId, prio: nat)
    requires Ranked(s) && Ordered(s) && EventsOk(s) && t !in s.tcb && prio < PRIORITIES
    ensures Ranked(AddNewTask(s, t, prio)) && Ordered(AddNewTask(s, t, prio))
  {
    CreateEffect(s, t, prio);
    NotOnList(s, t);
    OtherRank(s, AddNewTask(s, t, prio), t);
  }

  lemma DetachOrder(s: Sched, t: TaskId)
    requires Partition(s) && Ranked(s) && Ordered(s) && EventsOk(s) && t in s.tcb
    ensures var s2 := UnlinkEvent(Unlink(s, t), t); Ranked(s2) && Ordered(s2) && forall id: nat :: t !in EventList(s2, id)
  {
    var s1 := Unlink(s, t);
    UnlinkRanks(s, t);
    SameOrder(s, s1);
    UnlinkEventOrder(s1, t);
    UnlinkEffect(s, t);
    SameEvents(s, s1);
    UnlinkEventOk(s1, t);
    UnlinkEventEffect(s1, t);
    NotOnList(UnlinkEvent(s1, t), t);
  }

  lemma DeleteOrder(s: Sched, t: TaskId)
    requires Partition(s) && Ranked(s) && Ordered(s) && EventsOk(s) && t in s.tcb
    ensures Ranked(DeleteTask(s, t)) && Ordered(DeleteTask(s, t))
  {
    var s', s2 := DeleteTask(s, t), UnlinkEvent(Unlink(s, t), t);
    DetachOrder(s, t);
    if t == s.current {
      assert s' == LinkEnd(s2, Termination, t);
    } else {
      assert s' == s2.(numTasks := s'.numTasks, tcb := s2.tcb - {t}, nextUnblock := s'.nextUnblock);
    }
    GoneOrder(s2, s', t);
  }

  lemma GoneOrder(s: Sched, s': Sched, t: TaskId)
    requires Ranked(s) && Ordered(s) && s'.eventLists == s.eventLists && forall id: nat :: t !in EventList(s, id)
    requires s'.tcb == s.tcb - {t} || s'.tcb == s.tcb[t := Get(s, t).(place := Termination)]
    ensures Ranked(s') && Ordered(s')
  {
    assert PrioOf(s, t) < PRIORITIES;
    OtherRank(s, s', t);
  }

  lemma ReapOrder(s: Sched)
    requires Partition(s) && Ranked(s) && Ordered(s) && EventsOk(s) && ListAt(s, Termination) != []
    ensures Ranked(CleanUp(s)) && Ordered(CleanUp(s))
  {
    var t := ListAt(s, Termination)[0];
    CleanUpEffect(s);
    NotOnList(s, t);
    OtherRank(s, CleanUp(s), t);
  }

  // ---------- A waiting task gets another priority ----------

  /** The priority that the step gives a task: the one it inherits, or the one it falls back to. */
  function NextPriority(s: Sched, a: Action): nat
    requires a.Inherit? || a.AfterTimeout?
  {
    match a
    case Inherit(t) => if PrioOf(s, t) < PrioOf(s, s.current) then PrioOf(s, s.current) else PrioOf(s, t)
    case AfterTimeout(t, highest) =>
      if Get(s, t).held != 1 then PrioOf(s, t) else if Get(s, t).base < highest then highest else Get(s, t).base
  }

  /** With this priority a task would still not be above the waiter before it or below the one after it. */
  predicate InPlace(s: Sched, t: TaskId, prio: nat) {
    Get(s, t).event.OnEvent? ==>
      var list := EventList(s, Get(s, t).event.list);
      var k := IndexOf(list, t);
      && (0 < k < |list| ==> prio <= PrioOf(s, list[k - 1]))
      && (k + 1 < |list| ==> PrioOf(s, list[k + 1]) <= prio)
  }

  predicate StaysInPlace(s: Sched, a: Action) {
    Enabled(s, a) && (a.Inherit? || a.AfterTimeout?) ==> InPlace(s, a.t, NextPriority(s, a))
  }

  /** What the step does to the ranks, in every case. */
  lemma PriorityRanks(s: Sched, a: Action)
    requires Inv(s) && Ranked(s) && Enabled(s, a) && (a.Inherit? || a.AfterTimeout?)
    ensures var s' := Step(s, a);
            && Ranked(s') && PrioOf(s', a.t) == NextPriority(s, a)
            && s'.eventLists == s.eventLists && forall u :: u != a.t ==> Get(s', u) == Get(s, u)
  {
    var s', t := Step(s, a), a.t;
    match a {
      case Inherit(_) => InheritExact(s, t);
      case AfterTimeout(_, highest) => TimeoutExact(s, t, highest);
    }
    assert PrioOf(s, t) < PRIORITIES;
    forall u ensures Get(s', u).evt == EventValue(PrioOf(s', u)) && PrioOf(s', u) < PRIORITIES { assert PrioOf(s, u) < PRIORITIES; }
  }

  lemma PriorityOrder(s: Sched, a: Action)
    requires Inv(s) && Ranked(s) && Ordered(s) && Enabled(s, a) && (a.Inherit? || a.AfterTimeout?)
    ensures Ranked(Step(s, a)) && (Ordered(Step(s, a)) <==> StaysInPlace(s, a))
  {
    PriorityRanks(s, a);
    RankMoves(s, Step(s, a), a.t);
  }

  lemma RankMoves(s: Sched, s': Sched, t: TaskId)
    requires EventsOk(s) && Ordered(s) && t in s.tcb
    requires s'.eventLists == s.eventLists && forall u :: u != t ==> Get(s', u) == Get(s, u)
    ensures Ordered(s') <==> InPlace(s, t, PrioOf(s', t))
  {
    if Get(s, t).event.OnEvent? {
      var id := s.tcb[t].event.list;
      var list := EventList(s, id);
      assert HoldsEvents(s, OnEvent(id)) && Falling(s, list);
      OneMoves(s, s', list, t);
      forall e: nat | e != id ensures Falling(s', EventList(s', e)) { OtherFalls(s, s', t, e); }
      assert Ordered(s') ==> Falling(s', EventList(s', id));
    } else {
      NotOnList(s, t);
      forall e: nat ensures Falling(s', EventList(s', e)) { assert Falling(s, EventList(s, e)); }
    }
  }

  lemma OtherFalls(s: Sched, s': Sched, t: TaskId, e: nat)
    requires EventsOk(s) && Ordered(s) && Get(s, t).event != OnEvent(e)
    requires s'.eventLists == s.eventLists && forall u :: u != t ==> Get(s', u) == Get(s, u)
    ensures Falling(s', EventList(s', e))
  {
    assert HoldsEvents(s, OnEvent(e)) && Falling(s, EventList(s, e));
    assert t !in EventList(s, e);
  }

  /** Only the neighbours count. */
  lemma OneMoves(s: Sched, s': Sched, list: seq<TaskId>, t: TaskId)
    requires Falling(s, list) && NoDuplicates(list) && t in list && forall u :: u != t ==> PrioOf(s', u) == PrioOf(s, u)
    ensures var k := IndexOf(list, t);
            Falling(s', list) <==> (0 < k ==> PrioOf(s', t) <= PrioOf(s, list[k - 1])) && (k + 1 < |list| ==> PrioOf(s, list[k + 1]) <= PrioOf(s', t))
  {
    var k := IndexOf(list, t);
    if k > 0 { assert PrioOf(s', list[k - 1]) == PrioOf(s, list[k - 1]); }
    if k + 1 < |list| { assert PrioOf(s', list[k + 1]) == PrioOf(s, list[k + 1]); }
    if (0 < k ==> PrioOf(s', t) <= PrioOf(s, list[k - 1])) && (k + 1 < |list| ==> PrioOf(s, list[k + 1]) <= PrioOf(s', t)) {
      forall i, j | 0 <= i < j < |list| ensures PrioOf(s', list[j]) <= PrioOf(s', list[i]) { PairMoves(s, s', list, k, i, j); }
    }
  }

  lemma PairMoves(s: Sched, s': Sched, list: seq<TaskId>, k: nat, i: nat, j: nat)
    requires Falling(s, list) && NoDuplicates(list) && i < j < |list| && k < |list|
    requires list[i] != list[k] ==> PrioOf(s', list[i]) == PrioOf(s, list[i])
    requires list[j] != list[k] ==> PrioOf(s', list[j]) == PrioOf(s, list[j])
    requires 0 < k ==> PrioOf(s', list[k]) <= PrioOf(s, list[k - 1])
    requires k + 1 < |list| ==> PrioOf(s, list[k + 1]) <= PrioOf(s', list[k])
    ensures PrioOf(s', list[j]) <= PrioOf(s', list[i])
  {
    if i == k {
      assert j == k + 1 || PrioOf(s, list[j]) <= PrioOf(s, list[k + 1]);
    } else if j == k {
      assert i == k - 1 || PrioOf(s, list[k - 1]) <= PrioOf(s, list[i]);
    }
  }

  lemma DisinheritOrder(s: Sched)
    requires Inv(s) && Ranked(s) && Ordered(s) && Enabled(s, Disinherit)
    ensures Ranked(Step(s, Disinherit)) && Ordered(Step(s, Disinherit))
  {
    DisinheritExact(s, s.current);
    NotOnList(s, s.current);
    assert PrioOf(s, s.current) < PRIORITIES;
    OtherRank(s, Step(s, Disinherit), s.current);
  }

  // ---------- Whole runs ----------

  lemma StepOrder(s: Sched, a: Action)
    requires Inv(s) && Ranked(s) && Ordered(s)
    ensures Ranked(Step(s, a)) && (Ordered(Step(s, a)) <==> StaysInPlace(s, a))
  {
    if Enabled(s, a) {
      match a
      case Tick => TickOrder(s);
      case Delay(ticks) => DelayOrder(s, ticks);
      case WaitForEvent(id, ticks) => WaitOrder(s, id, ticks);
      case SignalEvent(id) => SignalOrder(s, id);
      case Suspend => SameOrder(s, SuspendAll(s));
      case Resume => ResumeOrder(s);
      case Switch => SameOrder(s, SwitchContext(s));
      case Create(t, prio) => CreateOrder(s, t, prio);
      case Delete(t) => DeleteOrder(s, t);
      case Reap => ReapOrder(s);
      case CountMutex => SameOrder(s, Step(s, CountMutex));
      case Disinherit => DisinheritOrder(s);
      case _ => PriorityOrder(s, a);
    }
  }

  ghost predicate AlwaysOrdered(s: Sched, run: seq<Action>)
    decreases |run|
  {
    Ordered(s) && (run == [] || AlwaysOrdered(Step(s, run[0]), run[1..]))
  }

  predicate AlwaysInPlace(s: Sched, run: seq<Action>)
    decreases |run|
  {
    run == [] || (StaysInPlace(s, run[0]) && AlwaysInPlace(Step(s, run[0]), run[1..]))
  }

  /**
   In every run, all event lists go from high to low priority in every state if and only if no
   change of priority moves a task past its neighbour on the list it waits on.
   */
  lemma {:induction false} OrderedExactly(s: Sched, run: seq<Action>)
    requires Inv(s) && Ranked(s) && Ordered(s)
    ensures AlwaysOrdered(s, run) <==> AlwaysInPlace(s, run)
    decreases |run|
  {
    if run != [] {
      StepKeeps(s, run[0]);
      StepOrder(s, run[0]);
      if StaysInPlace(s, run[0]) { OrderedExactly(Step(s, run[0]), run[1..]); }
    }
  }

  /** No task changes priority while it is on an event list. */
  predicate WaitersKeepPriority(s: Sched, run: seq<Action>)
    decreases |run|
  {
    run == [] || ((run[0].Inherit? || run[0].AfterTimeout? ==> !Get(s, run[0].t).event.OnEvent?) && WaitersKeepPriority(Step(s, run[0]), run[1..]))
  }

  lemma {:induction false} KeptInPlace(s: Sched, run: seq<Action>)
    requires WaitersKeepPriority(s, run)
    ensures AlwaysInPlace(s, run)
    decreases |run|
  {
    if run != [] { KeptInPlace(Step(s, run[0]), run[1..]); }
  }

  lemma {:induction false} AtTheEnd(s: Sched, run: seq<Action>)
    requires AlwaysOrdered(s, run)
    ensures Ordered(Exec(s, run))
    decreases |run|
  {
    if run != [] { AtTheEnd(Step(s, run[0]), run[1..]); }
  }

  lemma InitOrder(s: Sched)
    requires Init(s)
    ensures Ranked(s) && Ordered(s)
  {}

  /**
   From start-up, after any run in which waiting tasks keep their priority: every event list goes
   from high to low priority, and a signal wakes a task that no other waiter outranks.
   */
  lemma SignalsWakeTheBest(s: Sched, run: seq<Action>, id: nat)
    requires Init(s) && WaitersKeepPriority(s, run) && EventList(Exec(s, run), id) != []
    ensures var e := Exec(s, run);
            && Falling(e, EventList(e, id)) && EventList(RemoveFromEventList(e, id), id) == EventList(e, id)[1..]
            && forall u :: u in EventList(e, id) ==> PrioOf(e, u) <= PrioOf(e, EventList(e, id)[0])
  {
    var e := Exec(s, run);
    FromStart(s, run);
    assert Falling(e, EventList(e, id));
    SignalTakesBest(e, id);
  }

  lemma FromStart(s: Sched, run: seq<Action>)
    requires Init(s) && WaitersKeepPriority(s, run)
    ensures Inv(Exec(s, run)) && Ordered(Exec(s, run))
  {
    InitInv(s);
    InitOrder(s);
    RunKeeps(s, run);
    KeptInPlace(s, run);
    OrderedExactly(s, run);
    AtTheEnd(s, run);
  }
}

/** A run from start-up in which a signal passes over the waiter that has inherited the highest priority. */
module RaisedWaiterExample {
  import opened Wrappers
  import opened Word32
  import opened ListView
  import opened Tasks
  import opened TaskPartition
  import opened TaskTime
  import opened TaskRuns
  import opened TaskPriorities
  import opened TaskEvents

  ghost predicate Reaches(s: Sched, s': Sched) {
    exists run: seq<Action> :: Exec(s, run) == s'
  }

  lemma ReachesItself(s: Sched)
    ensures Reaches(s, s)
  {
    assert Exec(s, []) == s;
  }

  lemma Then(s: Sched, s': Sched, a: Action)
    requires Reaches(s, s')
    ensures Reaches(s, Step(s', a))
  {
    var run :| Exec(s, run) == s';
    OneMore(s, run, a);
  }

  lemma {:induction false} OneMore(s: Sched, run: seq<Action>, a: Action)
    ensures Exec(s, run + [a]) == Step(Exec(s, run), a)
    decreases |run|
  {
    if run == [] {
      assert [] + [a] == [a] && [a][1..] == [];
    } else {
      OneMore(Step(s, run[0]), run[1..], a);
      assert (run + [a])[1..] == run[1..] + [a];
    }
  }

  lemma ReachedInv(s: Sched, s': Sched)
    requires Init(s) && Reaches(s, s')
    ensures Inv(s')
  {
    var run :| Exec(s, run) == s';
    InitInv(s);
    RunKeeps(s, run);
  }

  // ---------- The steps of the run ----------

  /** These tasks with these priorities; those on event list 0 are blocked, the others ready. */
  ghost predicate At(s: Sched, current: TaskId, waiting: seq<TaskId>, prios: map<TaskId, nat>) {
    && Ranked(s) && s.clock.suspended == 0 && s.current == current && current in prios && EventList(s, 0) == waiting
    && (forall t :: t in s.tcb <==> t in prios) && (forall t {:trigger TaskAt(s, waiting, t, prios[t])} :: t in prios ==> TaskAt(s, waiting, t, prios[t]))
  }

  predicate TaskAt(s: Sched, waiting: seq<TaskId>, t: TaskId, prio: nat) {
    && t in s.tcb && s.tcb[t].prio == prio
    && if t in waiting then s.tcb[t].event == OnEvent(0) && !s.tcb[t].place.Ready? else s.tcb[t].place.Ready?
  }

  lemma CreateAt(s0: Sched, s: Sched, current: TaskId, waiting: seq<TaskId>, prios: map<TaskId, nat>, t: TaskId, prio: nat)
    requires Reaches(s0, s) && At(s, current, waiting, prios) && t !in prios && t !in waiting && prio < PRIORITIES
    ensures Reaches(s0, Step(s, Create(t, prio))) && At(Step(s, Create(t, prio)), current, waiting, prios[t := prio])
  {
    var s', after := Step(s, Create(t, prio)), prios[t := prio];
    Then(s0, s, Create(t, prio));
    CreateEffect(s, t, prio);
    assert s' == AddNewTask(s, t, prio);
    SameRanked(s, s', t);
    forall u: TaskId | u in after ensures TaskAt(s', waiting, u, after[u]) {
      assert u != t ==> TaskAt(s, waiting, u, prios[u]);
    }
  }

  lemma SameRanked(s: Sched, s': Sched, t: TaskId)
    requires Ranked(s) && forall u :: u != t ==> SameRank(Get(s, u), Get(s', u))
    requires Get(s', t).evt == EventValue(PrioOf(s', t)) && PrioOf(s', t) < PRIORITIES
    ensures Ranked(s')
  {
    forall u ensures Get(s', u).evt == EventValue(PrioOf(s', u)) && PrioOf(s', u) < PRIORITIES { assert PrioOf(s, u) < PRIORITIES; }
  }

  /** The best ready task runs. */
  lemma SwitchAt(s0: Sched, s: Sched, waiting: seq<TaskId>, prios: map<TaskId, nat>, t: TaskId)
    requires Init(s0) && Reaches(s0, s) && At(s, s.current, waiting, prios) && t in prios && t !in waiting
    requires forall u :: u in prios && u !in waiting && u != t ==> prios[u] < prios[t]
    ensures Reaches(s0, Step(s, Switch)) && At(Step(s, Switch), t, waiting, prios)
  {
    var s' := SwitchContext(s);
    assert TaskAt(s, waiting, t, prios[t]) && PrioOf(s, t) < PRIORITIES;
    Then(s0, s, Switch);
    SwitchRuns(s0, s, t);
    assert Step(s, Switch) == s';
    forall u: TaskId | u in prios ensures TaskAt(s', waiting, u, prios[u]) { assert TaskAt(s, waiting, u, prios[u]); }
    assert TaskAt(s, waiting, s'.current, prios[s'.current]);
    SameRanked(s, s', t);
  }

  lemma SwitchRuns(s0: Sched, s: Sched, t: TaskId)
    requires Init(s0) && Reaches(s0, s) && s.clock.suspended == 0 && t in s.tcb && s.tcb[t].place.Ready?
    ensures var s' := SwitchContext(s);
            && Step(s, Switch) == s' && s'.current in s.tcb && s.tcb[s'.current].place.Ready? && s.tcb[t].prio <= s.tcb[s'.current].prio
            && s'.tcb == s.tcb && s'.clock == s.clock && s'.eventLists == s.eventLists
  {
    ReachedInv(s0, s);
    SwitchContextPicksHighest(s);
    assert Holds(s, s.tcb[t].place) && t in ListAt(s, s.tcb[t].place);
    SomeReadyAbove(s, s.tcb[t].prio, s.topReady);
  }

  /** The running task waits behind those that it does not outrank. */
  lemma WaitAt(s0: Sched, s: Sched, waiting: seq<TaskId>, prios: map<TaskId, nat>)
    requires Reaches(s0, s) && At(s, s.current, waiting, prios) && s.current !in waiting
    requires forall u :: u in waiting ==> u in prios && prios[s.current] <= prios[u]
    ensures var s' := Step(s, WaitForEvent(0, MAX_DELAY)); Reaches(s0, s') && At(s', s.current, waiting + [s.current], prios)
  {
    var c, s', a := s.current, PlaceOnEventList(s, 0, MAX_DELAY), WaitForEvent(0, MAX_DELAY);
    assert TaskAt(s, waiting, c, prios[c]);
    assert Step(s, a) == s';
    Then(s0, s, a);
    WaitTcb(s, 0, MAX_DELAY);
    PlacedRank(s, 0, MAX_DELAY);
    assert PrioOf(s, c) < PRIORITIES;
    SameRanked(s, s', c);
    LastInLine(s, waiting, prios);
    forall u: TaskId | u in prios ensures TaskAt(s', waiting + [c], u, prios[u]) { assert TaskAt(s, waiting, u, prios[u]); }
  }

  lemma LastInLine(s: Sched, waiting: seq<TaskId>, prios: map<TaskId, nat>)
    requires At(s, s.current, waiting, prios)
    requires forall u :: u in waiting ==> u in prios && prios[s.current] <= prios[u]
    ensures FirstGreater(EventValues(s, waiting), Get(s, s.current).evt) == |waiting|
    ensures InsertAt(waiting, |waiting|, s.current) == waiting + [s.current]
  {
    var c := s.current;
    assert TaskAt(s, waiting, c, prios[c]) && PrioOf(s, c) < PRIORITIES;
    forall i | 0 <= i < |waiting| ensures EventValues(s, waiting)[i] <= Get(s, c).evt {
      assert TaskAt(s, waiting, waiting[i], prios[waiting[i]]) && PrioOf(s, waiting[i]) < PRIORITIES;
    }
  }

  lemma CountAt(s0: Sched, s: Sched, waiting: seq<TaskId>, prios: map<TaskId, nat>)
    requires Reaches(s0, s) && At(s, s.current, waiting, prios)
    ensures Reaches(s0, Step(s, CountMutex)) && At(Step(s, CountMutex), s.current, waiting, prios)
  {
    var s' := Step(s, CountMutex);
    Then(s0, s, CountMutex);
    assert PrioOf(s, s.current) < PRIORITIES;
    SameRanked(s, s', s.current);
    forall u: TaskId | u in prios ensures TaskAt(s', waiting, u, prios[u]) { assert TaskAt(s, waiting, u, prios[u]); }
  }

  /** A waiting task inherits the running task's priority, and stays where it is on the list. */
  lemma InheritAt(s0: Sched, s: Sched, waiting: seq<TaskId>, prios: map<TaskId, nat>, t: TaskId)
    requires Init(s0) && Reaches(s0, s) && At(s, s.current, waiting, prios) && t in prios && t in waiting && prios[t] < prios[s.current]
    ensures Reaches(s0, Step(s, Inherit(t))) && At(Step(s, Inherit(t)), s.current, waiting, prios[t := prios[s.current]])
  {
    var s', after := Step(s, Inherit(t)), prios[t := prios[s.current]];
    assert TaskAt(s, waiting, t, prios[t]) && TaskAt(s, waiting, s.current, prios[s.current]);
    Then(s0, s, Inherit(t));
    InheritRuns(s0, s, t);
    forall u: TaskId | u in after ensures TaskAt(s', waiting, u, after[u]) {
      assert TaskAt(s, waiting, u, prios[u]);
      assert u != t ==> Get(s', u) == Get(s, u);
    }
  }

  lemma InheritRuns(s0: Sched, s: Sched, t: TaskId)
    requires Init(s0) && Reaches(s0, s) && Ranked(s) && t in s.tcb && s.current in s.tcb && !s.tcb[t].place.Ready?
    requires s.tcb[t].prio < s.tcb[s.current].prio
    ensures var s' := Step(s, Inherit(t));
            && Ranked(s') && t in s'.tcb && (forall u :: u != t ==> (u in s'.tcb <==> u in s.tcb) && Get(s', u) == Get(s, u))
            && s'.tcb[t].prio == s.tcb[s.current].prio && s'.tcb[t].event == s.tcb[t].event && s'.tcb[t].place == s.tcb[t].place
            && s'.eventLists == s.eventLists && s'.clock == s.clock && s'.current == s.current
  {
    ReachedInv(s0, s);
    PriorityRanks(s, Inherit(t));
    InheritExact(s, t);
  }

  // ---------- The run ----------

  /** Task 2 waits for the event. */
  lemma FirstWaits(s: Sched) returns (e: Sched)
    requires Init(s) && s.current == 0 && s.topReady == 0
    ensures Reaches(s, e) && At(e, 2, [2], map[0 := 0][2 := 2])
  {
    ReachesItself(s);
    InitOrder(s);
    assert At(s, 0, [], map[0 := 0]);
    CreateAt(s, s, 0, [], map[0 := 0], 2, 2);
    e := Step(s, Create(2, 2));
    SwitchAt(s, e, [], map[0 := 0][2 := 2], 2);
    e := Step(e, Switch);
    WaitAt(s, e, [], map[0 := 0][2 := 2]);
    e := Step(e, WaitForEvent(0, MAX_DELAY));
    assert [] + [2] == [2];
  }

  /** Task 1 takes a mutex and waits for the event behind task 2. */
  lemma SecondWaits(s: Sched, s1: Sched) returns (e: Sched)
    requires Init(s) && Reaches(s, s1) && At(s1, 2, [2], map[0 := 0][2 := 2])
    ensures Reaches(s, e) && At(e, 1, [2, 1], map[0 := 0][2 := 2][1 := 1])
  {
    CreateAt(s, s1, 2, [2], map[0 := 0][2 := 2], 1, 1);
    e := Step(s1, Create(1, 1));
    SwitchAt(s, e, [2], map[0 := 0][2 := 2][1 := 1], 1);
    e := Step(e, Switch);
    CountAt(s, e, [2], map[0 := 0][2 := 2][1 := 1]);
    e := Step(e, CountMutex);
    WaitAt(s, e, [2], map[0 := 0][2 := 2][1 := 1]);
    e := Step(e, WaitForEvent(0, MAX_DELAY));
    assert [2] + [1] == [2, 1];
  }

  /** Task 3 runs, and lends its priority to task 1. */
  lemma ThirdLends(s: Sched, s1: Sched) returns (e: Sched)
    requires Init(s) && Reaches(s, s1) && At(s1, 1, [2, 1], map[0 := 0][2 := 2][1 := 1])
    ensures Reaches(s, e) && At(e, 3, [2, 1], map[0 := 0][2 := 2][1 := 1][3 := 3][1 := 3])
  {
    CreateAt(s, s1, 1, [2, 1], map[0 := 0][2 := 2][1 := 1], 3, 3);
    e := Step(s1, Create(3, 3));
    SwitchAt(s, e, [2, 1], map[0 := 0][2 := 2][1 := 1][3 := 3], 3);
    e := Step(e, Switch);
    InheritAt(s, e, [2, 1], map[0 := 0][2 := 2][1 := 1][3 := 3], 1);
    e := Step(e, Inherit(1));
  }

  /**
   Tasks 2 and 1 wait, in this order and with these priorities, for the same event; 1 holds a
   mutex. Task 3 of priority 3 blocks on the mutex, and 1 inherits its priority. The signal then
   wakes task 2, although task 1 outranks it.
   */
  lemma SignalPassesOverTheBest(s: Sched) returns (e: Sched)
    requires Init(s) && s.current == 0 && s.topReady == 0
    ensures Reaches(s, e) && EventList(e, 0) == [2, 1] && PrioOf(e, 2) == 2 && PrioOf(e, 1) == 3
    ensures EventList(Step(e, SignalEvent(0)), 0) == [1] && !Ordered(e)
  {
    e := FirstWaits(s);
    e := SecondWaits(s, e);
    e := ThirdLends(s, e);
    PassesOver(e, map[0 := 0][2 := 2][1 := 1][3 := 3][1 := 3]);
  }

  lemma PassesOver(e: Sched, prios: map<TaskId, nat>)
    requires At(e, 3, [2, 1], prios) && 1 in prios && 2 in prios && prios[2] < prios[1]
    ensures EventList(e, 0) == [2, 1] && PrioOf(e, 2) == prios[2] && PrioOf(e, 1) == prios[1]
    ensures EventList(Step(e, SignalEvent(0)), 0) == [1] && !Ordered(e)
  {
    var list := EventList(e, 0);
    assert TaskAt(e, [2, 1], 2, prios[2]) && TaskAt(e, [2, 1], 1, prios[1]);
    assert PrioOf(e, list[0]) < PrioOf(e, list[1]);
    SignalRanks(e, 0);
    assert list[1..] == [1];
  }
}
