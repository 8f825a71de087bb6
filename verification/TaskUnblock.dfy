/**
 The cached time of the next wakeup, `xNextTaskUnblockTime`: where the code computes it anew it is
 exactly the first wake time in the current delayed list, and blocking keeps it exact. Tasks with
 one wake time sleep, and wake, in the order in which they blocked.
 */
module TaskUnblock {
  import opened Wrappers
  import opened Word32
  import opened ListView
  import opened Tasks
  import opened TaskPartition
  import opened TaskTime
  import opened TaskRuns

  /** The least wake time of the current delayed list, or the maximum if it is empty. */
  ghost predicate CacheExact(s: Sched) {
    if Sleepers(s) == [] then s.nextUnblock == MAX_DELAY
    else (exists t :: WakesAt(s, t, s.nextUnblock)) && forall t :: t in Sleepers(s) ==> s.nextUnblock <= Get(s, t).wake
  }

  predicate WakesAt(s: Sched, t: TaskId, wake: nat) {
    t in Sleepers(s) && Get(s, t).wake == wake
  }

  lemma FirstIsLeast(s: Sched)
    requires InWakeOrder(s, Sleepers(s)) && Sleepers(s) != [] && s.nextUnblock == Get(s, Sleepers(s)[0]).wake
    ensures CacheExact(s)
  {
    var list := Sleepers(s);
    assert WakesAt(s, list[0], s.nextUnblock);
    forall t | t in list ensures s.nextUnblock <= Get(s, t).wake {
      var k :| 0 <= k < |list| && list[k] == t;
      assert WakeTimes(s, list)[0] <= WakeTimes(s, list)[k];
    }
  }

  /** After the cache was computed anew: by a resume that readied a task, a deletion, a list switch. */
  lemma ResetExact(s: Sched)
    requires InWakeOrder(s, Sleepers(s))
    ensures CacheExact(ResetNextUnblock(s))
  {
    var s' := ResetNextUnblock(s);
    SameTimes(s, s', Sleepers(s));
    if Sleepers(s) != [] { FirstIsLeast(s'); }
  }

  lemma DeleteExact(s: Sched, t: TaskId)
    requires Partition(s) && TimeOk(s) && t in s.tcb && t != s.current
    ensures CacheExact(DeleteTask(s, t))
  {
    var s' := DeleteTask(s, t);
    DeleteTime(s, t);
    assert ResetNextUnblock(s') == s';
    ResetExact(s');
  }

  lemma PendingExact(s: Sched)
    requires Partition(s) && TimeOk(s) && s.pendingReady != [] && forall t :: t in s.pendingReady ==> t in s.tcb
    ensures CacheExact(ReadyPending(s))
  {
    MovePendingTime(s);
    ResetExact(MovePending(s));
  }

  /** After the loop over the delayed list. */
  lemma {:induction false} WakeDueExact(s: Sched)
    requires Partition(s) && InWakeOrder(s, Sleepers(s)) && NotBefore(s, s.clock.tick)
    ensures CacheExact(WakeDue(s))
    decreases |Sleepers(s)|
  {
    var list, s' := Sleepers(s), WakeDue(s);
    if list == [] {
    } else if s.clock.tick < Get(s, list[0]).wake {
      SameTimes(s, s', list);
      FirstIsLeast(s');
    } else {
      HeadIsDue(s);
      WakeDueExact(WakeHead(s));
      assert s' == WakeDue(WakeHead(s));
    }
  }

  lemma WrapExact(s: Sched)
    requires TimeOk(s) && AdvanceTick(s).clock.tick == 0
    ensures CacheExact(AdvanceTick(s))
  {
    var flipped := s.(clock := AdvanceTick(s).clock);
    assert Sleepers(flipped) == LaterSleepers(s);
    SameTimes(s, flipped, LaterSleepers(s));
    ResetExact(flipped);
    assert AdvanceTick(s) == ResetNextUnblock(flipped);
  }

  /** A tick keeps the cache exact, also when the lists change places. */
  lemma TickKeepsCache(s: Sched)
    requires Partition(s) && TimeOk(s) && s.clock.suspended == 0 && CacheExact(s)
    ensures CacheExact(IncrementTick(s).0)
  {
    var s1 := AdvanceTick(s);
    AdvanceEffect(s);
    if s1.clock.tick >= s1.nextUnblock {
      WakeDueExact(s1);
    } else if s1.clock.tick == 0 {
      WrapExact(s);
    } else {
      SameCache(s, s1);
    }
  }

  /** The place of the `k`-th sleeper: behind those that wake no later, before those that wake later. */
  ghost predicate SleepsBehind(s: Sched, list: seq<TaskId>, k: nat, wake: nat) {
    && k <= |list|
    && (forall i :: 0 <= i < k ==> Get(s, list[i]).wake <= wake)
    && (forall i :: k <= i < |list| ==> wake < Get(s, list[i]).wake)
  }

  lemma LinkedBehind(s: Sched, place: Place, t: TaskId, wake: Tick)
    requires InWakeOrder(s, ListAt(s, place))
    ensures exists k: nat :: SleepsBehind(s, ListAt(s, place), k, wake) && ListAt(LinkByWakeTime(s, place, t, wake), place) == InsertAt(ListAt(s, place), k, t)
  {
    var list := ListAt(s, place);
    var k := FirstGreater(WakeTimes(s, list), wake);
    SortedInsert(WakeTimes(s, list), wake);
    forall i | 0 <= i < |list| ensures if i < k then Get(s, list[i]).wake <= wake else wake < Get(s, list[i]).wake {
      assert WakeTimes(s, list)[i] == Get(s, list[i]).wake;
    }
    assert SleepsBehind(s, list, k, wake);
  }

  function DelayPlace(s: Sched, wake: Tick): Place {
    if wake < s.clock.tick then OverflowDelayed(s) else CurrentDelayed(s)
  }

  lemma DelayIsLink(s: Sched, ticksToWait: Tick, canBlockIndefinitely: bool)
    requires !(ticksToWait == MAX_DELAY && canBlockIndefinitely)
    ensures var s', wake := AddCurrentToDelayed(s, ticksToWait, canBlockIndefinitely), Add(s.clock.tick, ticksToWait);
            && s' == LinkByWakeTime(Unlink(s, s.current), DelayPlace(s, wake), s.current, wake).(nextUnblock := s'.nextUnblock)
            && s'.nextUnblock == if s.clock.tick <= wake < s.nextUnblock then wake else s.nextUnblock
  {}

  /** The caller, running until now, has left its ready list. */
  lemma CallerLeft(s: Sched)
    requires Partition(s) && TimeOk(s) && s.current in s.tcb && s.tcb[s.current].place.Ready?
    ensures var s1 := Unlink(s, s.current);
            && s1.clock == s.clock && s1.nextUnblock == s.nextUnblock && s.current !in Sleepers(s) && s.current in s1.tcb
            && ListAt(s1, Delayed1) == ListAt(s, Delayed1) && ListAt(s1, Delayed2) == ListAt(s, Delayed2)
            && (forall u :: Get(s1, u).wake == Get(s, u).wake)
            && InWakeOrder(s1, ListAt(s1, Delayed1)) && InWakeOrder(s1, ListAt(s1, Delayed2))
  {
    var s1 := Unlink(s, s.current);
    assert Holds(s, CurrentDelayed(s));
    UnlinkEffect(s, s.current);
    SameTimes(s, s1, Sleepers(s));
    SameTimes(s, s1, LaterSleepers(s));
  }

  lemma SameBehind(s: Sched, s1: Sched, list: seq<TaskId>, k: nat, wake: nat)
    requires SleepsBehind(s1, list, k, wake) && forall u :: Get(s1, u).wake == Get(s, u).wake
    ensures SleepsBehind(s, list, k, wake)
  {}

  /** The caller sleeps behind all that wake no later, in the list that its wake time calls for. */
  lemma SleepsBehindEquals(s: Sched, ticksToWait: Tick, canBlockIndefinitely: bool) returns (k: nat)
    requires Partition(s) && TimeOk(s) && s.current in s.tcb && s.tcb[s.current].place.Ready?
    requires !(ticksToWait == MAX_DELAY && canBlockIndefinitely)
    ensures var s', wake := AddCurrentToDelayed(s, ticksToWait, canBlockIndefinitely), Add(s.clock.tick, ticksToWait);
            var place := DelayPlace(s, wake);
            && SleepsBehind(s, ListAt(s, place), k, wake) && ListAt(s', place) == InsertAt(ListAt(s, place), k, s.current)
  {
    var t, wake := s.current, Add(s.clock.tick, ticksToWait);
    var s1, place := Unlink(s, t), DelayPlace(s, wake);
    DelayIsLink(s, ticksToWait, canBlockIndefinitely);
    CallerLeft(s);
    LinkedBehind(s1, place, t, wake);
    k :| SleepsBehind(s1, ListAt(s1, place), k, wake) && ListAt(LinkByWakeTime(s1, place, t, wake), place) == InsertAt(ListAt(s1, place), k, t);
    SameBehind(s, s1, ListAt(s, place), k, wake);
  }

  /** Blocking lowers the cache exactly if the caller is now the first to wake. */
  lemma DelayKeepsCache(s: Sched, ticksToWait: Tick, canBlockIndefinitely: bool)
    requires Partition(s) && TimeOk(s) && s.current in s.tcb && s.tcb[s.current].place.Ready? && CacheExact(s)
    ensures CacheExact(AddCurrentToDelayed(s, ticksToWait, canBlockIndefinitely))
  {
    if ticksToWait == MAX_DELAY && canBlockIndefinitely {
      DelayForever(s);
      ForeverLists(s);
      SameCache(s, AddCurrentToDelayed(s, ticksToWait, canBlockIndefinitely));
    } else {
      TimedKeepsCache(s, ticksToWait, canBlockIndefinitely);
    }
  }

  lemma TimedKeepsCache(s: Sched, ticksToWait: Tick, canBlockIndefinitely: bool)
    requires Partition(s) && TimeOk(s) && s.current in s.tcb && s.tcb[s.current].place.Ready? && CacheExact(s)
    requires !(ticksToWait == MAX_DELAY && canBlockIndefinitely)
    ensures CacheExact(AddCurrentToDelayed(s, ticksToWait, canBlockIndefinitely))
  {
    var s', wake := AddCurrentToDelayed(s, ticksToWait, canBlockIndefinitely), Add(s.clock.tick, ticksToWait);
    var k := SleepsBehindEquals(s, ticksToWait, canBlockIndefinitely);
    DelayIsLink(s, ticksToWait, canBlockIndefinitely);
    DelayedWakes(s, ticksToWait, canBlockIndefinitely);
    if wake < s.clock.tick {
      SameCache(s, s');
    } else {
      InsertedMembers(Sleepers(s), k, s.current);
      JoinedCache(s, s', s.current, wake);
    }
  }

  lemma ForeverLists(s: Sched)
    requires Partition(s) && TimeOk(s) && s.current in s.tcb && s.tcb[s.current].place.Ready?
    ensures var s' := AddCurrentToDelayed(s, MAX_DELAY, true); Sleepers(s') == Sleepers(s) && s'.nextUnblock == s.nextUnblock
  {
    CallerLeft(s);
    assert AddCurrentToDelayed(s, MAX_DELAY, true) == LinkEnd(Unlink(s, s.current), SuspendedList, s.current);
  }

  lemma DelayedWakes(s: Sched, ticksToWait: Tick, canBlockIndefinitely: bool)
    requires Partition(s) && TimeOk(s) && s.current in s.tcb && s.tcb[s.current].place.Ready?
    requires !(ticksToWait == MAX_DELAY && canBlockIndefinitely)
    ensures var s', wake := AddCurrentToDelayed(s, ticksToWait, canBlockIndefinitely), Add(s.clock.tick, ticksToWait);
            && s'.clock == s.clock && s.current !in Sleepers(s)
            && (forall u :: Get(s', u).wake == if u == s.current then wake else Get(s, u).wake)
            && (wake < s.clock.tick ==> Sleepers(s') == Sleepers(s))
  {
    var wake := Add(s.clock.tick, ticksToWait);
    CallerLeft(s);
    DelayIsLink(s, ticksToWait, canBlockIndefinitely);
    LinkedTcb(Unlink(s, s.current), DelayPlace(s, wake), s.current, wake);
  }

  lemma SameCache(s: Sched, s': Sched)
    requires CacheExact(s) && Sleepers(s') == Sleepers(s) && s'.nextUnblock == s.nextUnblock
    requires forall u :: u in Sleepers(s) ==> Get(s', u).wake == Get(s, u).wake
    ensures CacheExact(s')
  {
    if u :| WakesAt(s, u, s.nextUnblock) { assert WakesAt(s', u, s'.nextUnblock); }
  }

  lemma JoinedCache(s: Sched, s': Sched, t: TaskId, wake: Tick)
    requires CacheExact(s) && Sleepers(s') != [] && forall u :: u in Sleepers(s') <==> u in Sleepers(s) || u == t
    requires t !in Sleepers(s) && Get(s', t).wake == wake && forall u :: u in Sleepers(s) ==> Get(s', u).wake == Get(s, u).wake
    requires s'.nextUnblock == if wake < s.nextUnblock then wake else s.nextUnblock
    ensures CacheExact(s')
  {
    assert WakesAt(s', t, wake);
    if Sleepers(s) != [] {
      var u :| WakesAt(s, u, s.nextUnblock);
      assert WakesAt(s', u, s.nextUnblock);
    }
    forall u | u in Sleepers(s') ensures s'.nextUnblock <= Get(s', u).wake {}
    assert exists u :: WakesAt(s', u, s'.nextUnblock);
  }

  lemma InsertedMembers(list: seq<TaskId>, k: nat, t: TaskId)
    requires k <= |list|
    ensures forall u :: u in InsertAt(list, k, t) <==> u in list || u == t
  {
    assert list == list[..k] + list[k..];
  }
}
