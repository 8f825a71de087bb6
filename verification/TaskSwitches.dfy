/**
 When the scheduler asks for a context switch: exactly for which tasks a tick, an event and a
 resume ask, and over whole runs that no ready task outranks the running one unless a switch has
 been asked for.
 */
module TaskSwitches {
  import opened Wrappers
  import opened Word32
  import opened ListView
  import opened Tasks
  import opened TaskPartition
  import opened TaskTime
  import opened TaskRuns
  import opened TaskPriorities
  import opened TaskEvents

  /** Two tasks share the running priority, so a tick ends a time slice. */
  ghost predicate SharesTime(s: Sched) {
    exists t, u :: t != u && ReadyAt(s, t, PrioOf(s, s.current)) && ReadyAt(s, u, PrioOf(s, s.current))
  }

  predicate ReadyAt(s: Sched, t: TaskId, p: nat) {
    t in s.tcb && s.tcb[t].place == Ready(p)
  }

  lemma SharingIsLength(s: Sched)
    requires Partition(s) && s.current in s.tcb
    ensures SharesTime(s) <==> |ListAt(s, Ready(PrioOf(s, s.current)))| > 1
  {
    var p := PrioOf(s, s.current);
    var list := ListAt(s, Ready(p));
    assert Holds(s, Ready(p));
    if |list| > 1 { assert ReadyAt(s, list[0], p) && ReadyAt(s, list[1], p); }
    if t, u :| t != u && ReadyAt(s, t, p) && ReadyAt(s, u, p) {
      assert t in list && u in list;
      var i :| 0 <= i < |list| && list[i] == t;
      var j :| 0 <= j < |list| && list[j] == u;
    }
  }

  /** A sleeper of at least the running priority whose deadline comes no later than `time`. */
  predicate Challenges(s: Sched, t: TaskId, time: nat) {
    Sleeping(s, t) && Deadline(s, t) <= time && PrioOf(s, s.current) <= PrioOf(s, t)
  }

  ghost predicate Challenged(s: Sched, time: nat) {
    exists t :: Challenges(s, t, time)
  }

  // ---------- The tick ----------

  lemma {:induction false} WakeDueYield(s: Sched)
    ensures WakeDue(s).yieldPending == s.yieldPending
    decreases |Sleepers(s)|
  {
    var list := Sleepers(s);
    if list != [] && s.clock.tick >= Get(s, list[0]).wake { WakeDueYield(WakeHead(s)); }
  }

  /** The cached unblock time never hides a task that is due. */
  lemma WakesWhenDue(s: Sched, s1: Sched)
    requires Partition(s) && TimeOk(s) && s1 == AdvanceTick(s)
    ensures s1.clock.tick >= s1.nextUnblock && WakesPreemptor(s1) <==> exists t :: Preempts(s1, t)
  {
    AdvanceEffect(s);
    PreemptorExact(s1);
    assert Holds(s1, CurrentDelayed(s1));
    if s1.clock.tick < s1.nextUnblock && Sleepers(s1) != [] { NoneDue(s1); }
  }

  lemma DueChallenges(s: Sched, t: TaskId)
    requires Partition(s) && TimeOk(s) && s.current in s.tcb
    ensures Preempts(AdvanceTick(s), t) <==> Challenges(s, t, Now(s) + 1)
  {
    var s1 := AdvanceTick(s);
    AdvanceEffect(s);
    assert Holds(s1, Delayed1) && Holds(s1, Delayed2);
    if Sleeping(s, t) {
      AdvanceDeadlines(s, t);
      DeadlinesByEpoch(s, t);
    }
    if t in s.tcb { DueMeansDeadline(s, s1, t); }
  }

  /**
   A tick asks for a switch exactly if one is pending, if it wakes a task of at least the running
   priority, or if another task shares that priority; while the scheduler is suspended it does not ask.
   */
  lemma TickAsksExactly(s: Sched)
    requires Partition(s) && TimeOk(s) && s.current in s.tcb
    ensures var (s', switch) := IncrementTick(s);
            && s'.yieldPending == s.yieldPending
            && (switch <==> s.clock.suspended == 0 && (s.yieldPending || SharesTime(s') || Challenged(s, Now(s) + 1)))
  {
    if s.clock.suspended == 0 {
      var s1, s' := AdvanceTick(s), IncrementTick(s).0;
      WakesWhenDue(s, s1);
      WakeDueYield(s1);
      TickWakesExactly(s);
      SharingIsLength(s');
      assert Get(s', s'.current).prio == PrioOf(s', s'.current);
      ChallengedByDue(s, Now(s) + 1);
    }
  }

  lemma ChallengedByDue(s: Sched, time: nat)
    requires Partition(s) && TimeOk(s) && s.current in s.tcb && time == Now(s) + 1
    ensures Challenged(s, time) <==> exists t :: Preempts(AdvanceTick(s), t)
  {
    if t :| Preempts(AdvanceTick(s), t) { DueChallenges(s, t); }
    if t :| Challenges(s, t, time) { DueChallenges(s, t); }
  }

  // ---------- Events ----------

  /** A signal leaves a switch pending exactly if one was, or if the task it wakes outranks the running one. */
  lemma SignalAsksExactly(s: Sched, id: nat)
    requires EventList(s, id) != []
    ensures var s' := RemoveFromEventList(s, id);
            s'.yieldPending <==> s.yieldPending || PrioOf(s, s.current) < PrioOf(s, EventList(s, id)[0])
  {}

  // ---------- The resume ----------

  lemma {:induction false} MovePendingAsks(s: Sched)
    requires Partition(s) && TimeOk(s) && s.current in s.tcb && forall t :: t in s.pendingReady ==> t in s.tcb
    ensures MovePending(s).yieldPending <==> s.yieldPending || Pressing(s, s.pendingReady)
    decreases |s.pendingReady|
  {
    if s.pendingReady != [] {
      var m := MoveOne(s);
      MoveOneTime(s);
      MoveOneKeeps(s);
      MovePendingAsks(m);
      MoveOneAsks(s);
      assert MovePending(s) == MovePending(m);
    }
  }

  /** A task of the list has at least the running priority. */
  ghost predicate Pressing(s: Sched, list: seq<TaskId>) {
    exists t :: t in list && PrioOf(s, s.current) <= PrioOf(s, t)
  }

  lemma PressingInTurn(s: Sched, m: Sched, list: seq<TaskId>)
    requires list != [] && m.current == s.current && forall t :: PrioOf(m, t) == PrioOf(s, t)
    ensures Pressing(s, list) <==> PrioOf(s, s.current) <= PrioOf(s, list[0]) || Pressing(m, list[1..])
  {
    assert list == [list[0]] + list[1..];
    if PrioOf(s, s.current) <= PrioOf(s, list[0]) { assert list[0] in list; }
    if t :| t in list && PrioOf(s, s.current) <= PrioOf(s, t) {
      assert t == list[0] || (t in list[1..] && PrioOf(m, m.current) <= PrioOf(m, t));
    }
    if t :| t in list[1..] && PrioOf(m, m.current) <= PrioOf(m, t) { assert t in list; }
  }

  lemma MoveOneAsks(s: Sched)
    requires Partition(s) && TimeOk(s) && s.pendingReady != [] && s.pendingReady[0] in s.tcb && s.current in s.tcb
    ensures MoveOne(s).yieldPending || Pressing(MoveOne(s), MoveOne(s).pendingReady) <==> s.yieldPending || Pressing(s, s.pendingReady)
  {
    MoveOneTime(s);
    MoveOneYield(s);
    PressingInTurn(s, MoveOne(s), s.pendingReady);
  }

  lemma MoveOneYield(s: Sched)
    requires s.pendingReady != [] && s.pendingReady[0] in s.tcb && s.current in s.tcb
    ensures MoveOne(s).yieldPending <==> s.yieldPending || PrioOf(s, s.current) <= PrioOf(s, s.pendingReady[0])
  {}

  /** Tasks that are ready stay so while time passes. */
  lemma SharingStays(s: Sched, s': Sched)
    requires SharesTime(s) && Elapsed(s, s', []) && s.current in s.tcb
    ensures SharesTime(s')
  {
    var t, u :| t != u && ReadyAt(s, t, PrioOf(s, s.current)) && ReadyAt(s, u, PrioOf(s, s.current));
    assert ElapsedFor(s, s', [], t) && ElapsedFor(s, s', [], u) && ElapsedFor(s, s', [], s.current);
    assert ReadyAt(s', t, PrioOf(s', s'.current)) && ReadyAt(s', u, PrioOf(s', s'.current));
  }

  /** The first of several ticks, and the rest of them. */
  lemma ChallengedInTurn(s: Sched, m: Sched, time: nat)
    requires s.current in s.tcb && Elapsed(s, m, []) && Now(m) == Now(s) + 1 <= time
    requires forall t :: Sleeping(s, t) && Now(m) < Deadline(s, t) ==> Deadline(m, t) == Deadline(s, t)
    ensures Challenged(s, time) <==> Challenged(s, Now(m)) || Challenged(m, time)
  {
    assert ElapsedFor(s, m, [], s.current);
    if t :| Challenges(s, t, time) {
      assert ElapsedFor(s, m, [], t);
      assert Challenges(s, t, Now(m)) || Challenges(m, t, time);
    }
    if t :| Challenges(m, t, time) {
      assert ElapsedFor(s, m, [], t);
      assert Challenges(s, t, time);
    }
    if t :| Challenges(s, t, Now(m)) { assert Challenges(s, t, time); }
  }

  /** What one tick does to time and tasks. */
  ghost predicate TickPasses(s: Sched, m: Sched) {
    && Now(m) == Now(s) + 1 && Elapsed(s, m, [])
    && forall t :: Sleeping(s, t) && Now(m) < Deadline(s, t) ==> Deadline(m, t) == Deadline(s, t)
  }

  lemma FirstTick(s: Sched)
    requires Partition(s) && TimeOk(s) && s.clock.suspended == 0 && s.current in s.tcb
    ensures var m := ReplayTick(s);
            Partition(m) && TimeOk(m) && Now(m) == Now(s) + 1 && m.clock.suspended == 0 && m.current in m.tcb
  {
    ReplayKeeps(s);
    TickElapses(s);
  }

  /** The first tick asks, or one of the others. */
  lemma AskedInTurn(s: Sched, m: Sched, s': Sched, last: bool, time: nat)
    ensures s.current in s.tcb && TickPasses(s, m) && Now(m) <= time
              && (m.yieldPending <==> s.yieldPending || SharesTime(m) || Challenged(s, Now(s) + 1))
              && (SharesTime(m) ==> SharesTime(s')) && (last ==> s' == m)
              && (s'.yieldPending <==> m.yieldPending || (!last && SharesTime(s')) || Challenged(m, time))
            ==> (s'.yieldPending <==> s.yieldPending || SharesTime(s') || Challenged(s, time))
  {
    if s.current in s.tcb && TickPasses(s, m) && Now(m) <= time { ChallengedInTurn(s, m, time); }
  }

  /** The first tick in these terms, and the others keep what it made ready. */
  lemma FirstAsks(s: Sched, n: nat)
    requires Partition(s) && TimeOk(s) && s.clock.suspended == 0 && s.current in s.tcb
    ensures var m := ReplayTick(s);
            && TickPasses(s, m) && (m.yieldPending <==> s.yieldPending || SharesTime(m) || Challenged(s, Now(s) + 1))
            && (SharesTime(m) ==> SharesTime(ReplayTicks(m, n))) && (n == 0 ==> ReplayTicks(m, n) == m)
  {
    ReplayKeeps(s);
    TickElapses(s);
    ReplayYield(s);
    SharedLater(s, n);
  }

  lemma SharedLater(s: Sched, n: nat)
    requires Partition(s) && TimeOk(s) && s.clock.suspended == 0 && s.current in s.tcb
    ensures var m := ReplayTick(s);
            m.current in m.tcb && (SharesTime(m) ==> SharesTime(ReplayTicks(m, n))) && (n == 0 ==> ReplayTicks(m, n) == m)
  {
    var m := ReplayTick(s);
    FirstTick(s);
    ReplayTime(m, n);
    if SharesTime(m) { SharingStays(m, ReplayTicks(m, n)); }
  }

  lemma RestAsks(s: Sched, n: nat, time: nat)
    requires Partition(s) && TimeOk(s) && s.clock.suspended == 0 && s.current in s.tcb && 0 < n && time == Now(s) + n
    requires var m := ReplayTick(s);
             var s' := ReplayTicks(m, n - 1);
             s'.yieldPending <==> m.yieldPending || (n > 1 && SharesTime(s')) || Challenged(m, time)
    ensures var s' := ReplayTicks(ReplayTick(s), n - 1);
            s'.yieldPending <==> s.yieldPending || SharesTime(s') || Challenged(s, time)
  {
    FirstAsks(s, n - 1);
    AskedInTurn(s, ReplayTick(s), ReplayTicks(ReplayTick(s), n - 1), n == 1, time);
  }

  /** The ticks that were held back ask for a switch as they would have done at their time. */
  lemma {:induction false} ReplayAsksExactly(s: Sched, n: nat, time: nat)
    requires Partition(s) && TimeOk(s) && s.clock.suspended == 0 && s.current in s.tcb && time == Now(s) + n
    ensures var s' := ReplayTicks(s, n);
            s'.yieldPending <==> s.yieldPending || (n > 0 && SharesTime(s')) || Challenged(s, time)
    decreases n
  {
    if n == 0 {
      NobodyChallenges(s);
    } else {
      FirstTick(s);
      ReplayAsksExactly(ReplayTick(s), n - 1, time);
      RestAsks(s, n, time);
    }
  }

  lemma ReplayYield(s: Sched)
    requires Partition(s) && TimeOk(s) && s.clock.suspended == 0 && s.current in s.tcb
    ensures var m := ReplayTick(s);
            m.yieldPending <==> s.yieldPending || SharesTime(m) || Challenged(s, Now(s) + 1)
  {
    TickAsksExactly(s);
    SameSharing(IncrementTick(s).0, ReplayTick(s));
  }

  lemma SameSharing(s: Sched, s': Sched)
    requires s'.tcb == s.tcb && s'.current == s.current
    ensures SharesTime(s') <==> SharesTime(s)
  {
    if t, u :| t != u && ReadyAt(s, t, PrioOf(s, s.current)) && ReadyAt(s, u, PrioOf(s, s.current)) {
      assert ReadyAt(s', t, PrioOf(s', s'.current)) && ReadyAt(s', u, PrioOf(s', s'.current));
    }
    if t, u :| t != u && ReadyAt(s', t, PrioOf(s', s'.current)) && ReadyAt(s', u, PrioOf(s', s'.current)) {
      assert ReadyAt(s, t, PrioOf(s, s.current)) && ReadyAt(s, u, PrioOf(s, s.current));
    }
  }

  lemma NobodyChallenges(s: Sched)
    requires Partition(s) && TimeOk(s)
    ensures !Challenged(s, Now(s))
  {
    if t :| Challenges(s, t, Now(s)) { DeadlinesByEpoch(s, t); }
  }

  lemma PendingChallenges(s: Sched, s2: Sched, time: nat)
    requires s2.current == s.current && s.current in s.tcb && (forall t :: t in s2.tcb <==> t in s.tcb)
    requires forall t :: t in s.tcb ==> s2.tcb[t] == if t in s.pendingReady then WokenTcb(s.tcb[t]) else s.tcb[t]
    requires forall t :: Sleeping(s, t) && t !in s.pendingReady ==> Deadline(s2, t) == Deadline(s, t)
    ensures Challenged(s2, time) || Pressing(s, s.pendingReady) <==> Challenged(s, time) || Pressing(s, s.pendingReady)
  {
    if t :| Challenges(s, t, time) { assert t in s.pendingReady || Challenges(s2, t, time); }
    if t :| Challenges(s2, t, time) { assert Challenges(s, t, time); }
  }

  /** The state in which the ticks are replayed. */
  function Caught(s: Sched): Sched {
    ReadyPending(s.(clock := s.clock.(suspended := 0)))
  }

  lemma CaughtTime(s: Sched)
    requires Inv(s) && s.clock.suspended == 1
    ensures var s2 := Caught(s);
            && Partition(s2) && TimeOk(s2) && s2.clock == s.clock.(suspended := 0) && s2.current == s.current
            && (forall t :: t in s2.tcb <==> t in s.tcb)
            && forall t :: t in s.tcb ==> s2.tcb[t] == if t in s.pendingReady then WokenTcb(s.tcb[t]) else s.tcb[t]
  {
    var s1 := s.(clock := s.clock.(suspended := 0));
    assert HoldsEvents(s, PendingReady);
    SameLists(s, s1, {});
    ClockFrame(s, s1);
    ReadyPendingTime(s1);
    ReadyPendingKeeps(s1);
  }

  lemma CaughtAsks(s: Sched)
    requires Inv(s) && s.clock.suspended == 1
    ensures Caught(s).yieldPending <==> s.yieldPending || Pressing(s, s.pendingReady)
  {
    var s1 := s.(clock := s.clock.(suspended := 0));
    assert HoldsEvents(s, PendingReady);
    SameLists(s, s1, {});
    ClockFrame(s, s1);
    MovePendingAsks(s1);
    SamePressing(s, s1, s.pendingReady);
  }

  lemma CaughtChallenges(s: Sched, time: nat)
    requires Inv(s) && s.clock.suspended == 1
    ensures Challenged(Caught(s), time) || Pressing(s, s.pendingReady) <==> Challenged(s, time) || Pressing(s, s.pendingReady)
  {
    CaughtTime(s);
    PendingElapses(s, Caught(s));
    PendingChallenges(s, Caught(s), time);
  }

  lemma SamePressing(s: Sched, s1: Sched, list: seq<TaskId>)
    requires s1.tcb == s.tcb && s1.current == s.current
    ensures Pressing(s1, list) <==> Pressing(s, list)
  {
    if t :| t in list && PrioOf(s, s.current) <= PrioOf(s, t) { assert PrioOf(s1, s1.current) <= PrioOf(s1, t); }
    if t :| t in list && PrioOf(s1, s1.current) <= PrioOf(s1, t) { assert PrioOf(s, s.current) <= PrioOf(s, t); }
  }

  lemma CaughtReplays(s: Sched, time: nat)
    requires Inv(s) && s.clock.suspended == 1 && time == Now(s) + s.clock.pended
    ensures var s2 := Caught(s);
            var s3 := ReplayTicks(s2, s.clock.pended);
            && s3.yieldPending <==> s2.yieldPending || (s.clock.pended > 0 && SharesTime(s3)) || Challenged(s2, time)
  {
    CaughtTime(s);
    ReplayAsksExactly(Caught(s), s.clock.pended, time);
  }

  lemma LastResumeAsks(s: Sched, time: nat)
    requires Inv(s) && s.clock.suspended == 1 && time == Now(s) + s.clock.pended
    ensures var s3 := ReplayTicks(Caught(s), s.clock.pended);
            s3.yieldPending <==>
              s.yieldPending || Pressing(s, s.pendingReady) || Challenged(s, time) || (s.clock.pended > 0 && SharesTime(s3))
  {
    CaughtReplays(s, time);
    CaughtAsks(s);
    CaughtChallenges(s, time);
  }

  lemma ResumeIsReplay(s: Sched)
    requires Inv(s) && s.clock.suspended == 1
    ensures var s3, s' := ReplayTicks(Caught(s), s.clock.pended), ResumeAll(s);
            s'.tcb == s3.tcb && s'.current == s3.current && s'.yieldPending == s3.yieldPending
  {
    SomeTasks(s);
    CaughtTime(s);
    var s3 := ReplayTicks(Caught(s), s.clock.pended);
    assert ResumeAll(s) == s3.(clock := s3.clock.(pended := 0));
  }

  /**
   The last resume leaves a switch pending exactly if one was, if it readies a task of at least
   the running priority, woken by an event or by a tick held back, or if there was such a tick
   and another task shares that priority.
   */
  lemma ResumeAsksExactly(s: Sched)
    requires Inv(s) && s.clock.suspended > 0
    ensures var s' := ResumeAll(s);
            s'.yieldPending <==>
              || s.yieldPending
              || (s.clock.suspended == 1
                  && (Pressing(s, s.pendingReady) || Challenged(s, Now(s) + s.clock.pended) || (s.clock.pended > 0 && SharesTime(s'))))
  {
    if s.clock.suspended == 1 {
      LastResumeAsks(s, Now(s) + s.clock.pended);
      ResumeIsReplay(s);
      SameSharing(ReplayTicks(Caught(s), s.clock.pended), ResumeAll(s));
    }
  }

  // ---------- The right task runs, or a switch has been asked for ----------

  predicate Outranks(s: Sched, t: TaskId) {
    t in s.tcb && s.tcb[t].place.Ready? && PrioOf(s, s.current) < PrioOf(s, t)
  }

  /** The running task is ready, and no ready task outranks it. */
  ghost predicate RightTask(s: Sched) {
    s.current in s.tcb && s.tcb[s.current].place.Ready? && forall t {:trigger Outranks(s, t)} :: !Outranks(s, t)
  }

  /** Calls that end with a yield of their own, or with a return value that makes the caller yield. */
  predicate Yields(s: Sched, a: Action) {
    match a
    case Tick => IncrementTick(s).1
    case Delay(_) => true
    case WaitForEvent(_, _) => true
    case Create(_, prio) => PrioOf(s, s.current) < prio
    case Delete(t) => t == s.current
    case Disinherit => PrioOf(Step(s, a), s.current) < PrioOf(s, s.current)
    case _ => false
  }

  /** A waiter that gives up lowers another task, the holder of the mutex, or leaves it as it is. */
  predicate OnlyLowers(s: Sched, a: Action) {
    a.AfterTimeout? ==> a.t != s.current && NextPriority(s, a) <= PrioOf(s, a.t)
  }

  /** The running task stays ready, and no other begins to outrank it. */
  lemma RightStays(s: Sched, s': Sched)
    requires RightTask(s) && s'.current == s.current && s.current in s'.tcb && s'.tcb[s.current].place.Ready?
    requires forall t :: Outranks(s', t) ==> Outranks(s, t)
    ensures RightTask(s')
  {}

  lemma TickRight(s: Sched)
    requires Inv(s) && (s.yieldPending || RightTask(s))
    ensures var (s', switch) := IncrementTick(s); switch || s'.yieldPending || RightTask(s')
  {
    var (s', switch) := IncrementTick(s);
    TickAsksExactly(s);
    if !s.yieldPending && !switch {
      if s.clock.suspended == 0 { RunningTick(s, Now(s) + 1); }
      RightStays(s, s');
    }
  }

  lemma RunningTick(s: Sched, time: nat)
    requires Inv(s) && s.clock.suspended == 0 && RightTask(s) && time == Now(s) + 1 && !Challenged(s, time)
    ensures var s' := IncrementTick(s).0;
            && s'.current == s.current && s.current in s'.tcb && s'.tcb[s.current].place.Ready?
            && forall t :: Outranks(s', t) ==> Outranks(s, t)
  {
    TickWakesExactly(s);
    TickedRight(s, IncrementTick(s).0, time);
  }

  lemma TickedRight(s: Sched, s': Sched, time: nat)
    requires RightTask(s) && s'.current == s.current && !Challenged(s, time) && forall t :: t in s'.tcb <==> t in s.tcb
    requires forall t :: t in s.tcb ==> s'.tcb[t] == if Sleeping(s, t) && Deadline(s, t) == time then WokenTcb(s.tcb[t]) else s.tcb[t]
    ensures s'.tcb[s.current].place.Ready? && forall t :: Outranks(s', t) ==> Outranks(s, t)
  {
    forall t | Outranks(s', t) ensures Outranks(s, t) { assert !Challenges(s, t, time); }
  }

  lemma ResumeRight(s: Sched)
    requires Inv(s) && s.clock.suspended > 0 && (s.yieldPending || RightTask(s))
    ensures ResumeAll(s).yieldPending || RightTask(ResumeAll(s))
  {
    var s' := ResumeAll(s);
    ResumeAsksExactly(s);
    if !s'.yieldPending {
      if s.clock.suspended == 1 { LastResumeRight(s, Now(s) + s.clock.pended); } else { RightStays(s, s'); }
    }
  }

  lemma LastResumeRight(s: Sched, time: nat)
    requires Inv(s) && s.clock.suspended == 1 && RightTask(s) && time == Now(s) + s.clock.pended
    requires !Pressing(s, s.pendingReady) && !Challenged(s, time)
    ensures RightTask(ResumeAll(s))
  {
    ResumeElapses(s);
    ElapsedRight(s, ResumeAll(s), s.pendingReady, time);
  }

  lemma ElapsedRight(s: Sched, s': Sched, early: seq<TaskId>, time: nat)
    requires RightTask(s) && Elapsed(s, s', early) && Now(s') == time && !Pressing(s, early) && !Challenged(s, time)
    ensures RightTask(s')
  {
    assert ElapsedFor(s, s', early, s.current);
    forall t ensures !Outranks(s', t) {
      assert !Outranks(s, t) && !Challenges(s, t, time);
      assert t in s.tcb ==> ElapsedFor(s, s', early, t);
    }
  }

  lemma ResumeElapses(s: Sched)
    requires Inv(s) && s.clock.suspended == 1
    ensures Elapsed(s, ResumeAll(s), s.pendingReady) && Now(ResumeAll(s)) == Now(s) + s.clock.pended
  {
    assert HoldsEvents(s, PendingReady);
    SomeTasks(s);
    ResumeWakesExactly(s);
  }

  lemma SignalRight(s: Sched, id: nat)
    requires Inv(s) && EventList(s, id) != [] && (s.yieldPending || RightTask(s))
    ensures RemoveFromEventList(s, id).yieldPending || RightTask(RemoveFromEventList(s, id))
  {
    var s' := RemoveFromEventList(s, id);
    SignalAsksExactly(s, id);
    assert HoldsEvents(s, OnEvent(id));
    if !s'.yieldPending {
      EventWakeTime(s, id);
      RightStays(s, s');
    }
  }

  lemma SwitchRight(s: Sched)
    requires Inv(s) && Enabled(s, Switch)
    ensures Step(s, Switch).yieldPending || RightTask(Step(s, Switch))
  {
    if s.clock.suspended == 0 {
      var p := HighestReady(s, s.topReady);
      assert Holds(s, Ready(p)) && ListAt(s, Ready(p))[0] in ListAt(s, Ready(p));
      SwitchContextPicksHighest(s);
      var s' := SwitchContext(s);
      forall t ensures !Outranks(s', t) {}
    }
  }

  lemma PriorityRight(s: Sched, a: Action)
    requires Inv(s) && Enabled(s, a) && OnlyLowers(s, a) && (s.yieldPending || RightTask(s)) && (a.Inherit? || a.AfterTimeout? || a.Disinherit?)
    ensures Yields(s, a) || Step(s, a).yieldPending || RightTask(Step(s, a))
  {
    var s' := Step(s, a);
    PriorityKept(s, a);
    if !s.yieldPending && !Yields(s, a) {
      forall t | Outranks(s', t) ensures Outranks(s, t) {}
      RightStays(s, s');
    }
  }

  lemma PriorityKept(s: Sched, a: Action)
    requires Inv(s) && Enabled(s, a) && OnlyLowers(s, a) && (a.Inherit? || a.AfterTimeout? || a.Disinherit?)
    ensures var s', t := Step(s, a), if a.Disinherit? then s.current else a.t;
            && s'.current == s.current && s'.yieldPending == s.yieldPending && t in s'.tcb && s.current in s'.tcb
            && (s'.tcb[t].place.Ready? <==> s.tcb[t].place.Ready?)
            && (forall u :: u != t ==> (u in s'.tcb <==> u in s.tcb) && Get(s', u) == Get(s, u))
            && (t != s.current ==> PrioOf(s', t) <= PrioOf(s, t) || PrioOf(s', t) <= PrioOf(s, s.current))
            && (a.Inherit? && t == s.current ==> PrioOf(s', t) == PrioOf(s, t))
  {
    match a {
      case Inherit(t) => InheritExact(s, t);
      case AfterTimeout(t, highest) => TimeoutExact(s, t, highest);
      case Disinherit => DisinheritExact(s, s.current);
    }
  }

  lemma TasksComeAndGo(s: Sched, a: Action)
    requires Inv(s) && Enabled(s, a) && (s.yieldPending || RightTask(s)) && (a.Create? || a.Delete? || a.Reap? || a.CountMutex? || a.Suspend?)
    ensures Yields(s, a) || Step(s, a).yieldPending || RightTask(Step(s, a))
  {
    var s' := Step(s, a);
    assert s'.yieldPending == s.yieldPending;
    match a {
      case Create(t, prio) => CreateEffect(s, t, prio);
      case Delete(t) => DeleteEffect(s, t); GoneTasks(s, t);
      case Reap => CleanUpEffect(s);
      case _ =>
    }
    if !s.yieldPending && !Yields(s, a) {
      forall t | Outranks(s', t) ensures Outranks(s, t) {}
      RightStays(s, s');
    }
  }

  lemma GoneTasks(s: Sched, t: TaskId)
    ensures forall u :: u in DeleteTask(s, t).tcb && u != t ==> u in s.tcb
    ensures t != s.current ==> t !in DeleteTask(s, t).tcb
  {}

  lemma StepRight(s: Sched, a: Action)
    requires Inv(s) && Enabled(s, a) && OnlyLowers(s, a) && (a.Switch? || s.yieldPending || RightTask(s))
    ensures (!a.Switch? && Yields(s, a)) || Step(s, a).yieldPending || RightTask(Step(s, a))
  {
    match a
    case Tick => TickRight(s);
    case Delay(_) =>
    case WaitForEvent(_, _) =>
    case SignalEvent(id) => SignalRight(s, id);
    case Resume => ResumeRight(s);
    case Switch => SwitchRight(s);
    case Inherit(_) => PriorityRight(s, a);
    case AfterTimeout(_, _) => PriorityRight(s, a);
    case Disinherit => PriorityRight(s, a);
    case _ => TasksComeAndGo(s, a);
  }

  /** A switch has been asked for and not been made yet. */
  function StillDue(s: Sched, a: Action, due: bool): bool {
    if !Enabled(s, a) then due else if a.Switch? then false else due || Yields(s, a)
  }

  function DueAfter(s: Sched, run: seq<Action>, due: bool): bool
    decreases |run|
  {
    if run == [] then due else DueAfter(Step(s, run[0]), run[1..], StillDue(s, run[0], due))
  }

  predicate AlwaysOnlyLowers(s: Sched, run: seq<Action>)
    decreases |run|
  {
    run == [] || (OnlyLowers(s, run[0]) && AlwaysOnlyLowers(Step(s, run[0]), run[1..]))
  }

  /**
   No preemption is missed: in every run, whenever no switch is due and none is pending, the
   running task is ready and no ready task outranks it.
   */
  lemma {:induction false} NoPreemptionMissed(s: Sched, run: seq<Action>, due: bool)
    requires Inv(s) && AlwaysOnlyLowers(s, run) && (due || s.yieldPending || RightTask(s))
    ensures DueAfter(s, run, due) || Exec(s, run).yieldPending || RightTask(Exec(s, run))
    decreases |run|
  {
    if run != [] {
      var a := run[0];
      StepKeeps(s, a);
      if Enabled(s, a) && (a.Switch? || s.yieldPending || RightTask(s)) { StepRight(s, a); }
      NoPreemptionMissed(Step(s, a), run[1..], StillDue(s, a, due));
    }
  }

  /** From start-up no switch is due, and the first task is the right one. */
  lemma RightFromStart(s: Sched, run: seq<Action>)
    requires Init(s) && AlwaysOnlyLowers(s, run)
    ensures DueAfter(s, run, false) || Exec(s, run).yieldPending || RightTask(Exec(s, run))
  {
    InitInv(s);
    assert RightTask(s);
    NoPreemptionMissed(s, run, false);
  }
}
