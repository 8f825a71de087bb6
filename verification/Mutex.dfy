/**
 Mutexes with priority inheritance: the steps of `xQueueSemaphoreTake` and of giving, one per
 critical section, interleaved by a preemptive scheduler. A step may leave a context switch due;
 the running task does nothing more before it. Control blocks change by the functions that
 module Kernels ties to the code of tasks.c.
 */
module MutexProtocol {
  import opened Wrappers
  import opened ListView
  import opened Tasks

  type MutexId = nat

  /** Where a task is in `xQueueSemaphoreTake`; the flag is `xInheritanceOccurred`. */
  datatype Pc =
    | Outside
    | Trying(m: MutexId, inherited: bool)       // about to look at the count
    | Checking(m: MutexId, inherited: bool)     // found it 0; about to check the time
    | Waiting(m: MutexId, inherited: bool)      // on the mutex's event list
    | Expired(m: MutexId)                       // about to disinherit after the timeout

  datatype Task = Task(tcb: Tcb, pc: Pc)

  /** `uxMessagesWaiting`, `xMutexHolder` and `xTasksWaitingToReceive` of a mutex. */
  datatype Mutex = Mutex(count: nat, holder: Option<TaskId>, waiters: seq<TaskId>)

  datatype State = State(tasks: map<TaskId, Task>, mutexes: map<MutexId, Mutex>, current: TaskId, switchDue: bool)

  datatype Action =
    | Call(m: MutexId)                // enter xQueueSemaphoreTake
    | Try(wait: bool)                 // take the mutex, or find the count 0
    | Check(expired: bool)            // the timed part: block, give up, or look again
    | AfterTimeout                    // vTaskPriorityDisinheritAfterTimeout
    | Give(m: MutexId)
    | Timeout(t: TaskId)              // the tick wakes a waiting task
    | Leave                           // the running task blocks on something else
    | Arrive(t: TaskId)               // such a task becomes ready
    | RequestSwitch                   // a time slice ends, or a task yields
    | Switch(t: TaskId)

  function T(s: State, t: TaskId): Task {
    if t in s.tasks then s.tasks[t] else Task(Tcb(Loose, 0, NoEvent, PRIORITIES, 0, 0, 0), Outside)
  }

  function M(s: State, m: MutexId): Mutex {
    if m in s.mutexes then s.mutexes[m] else Mutex(1, None, [])
  }

  function Prio(s: State, t: TaskId): nat {
    T(s, t).tcb.prio
  }

  predicate IsReady(s: State, t: TaskId) {
    t in s.tasks && T(s, t).tcb.place.Ready?
  }

  function SetTask(s: State, t: TaskId, task: Task): State {
    s.(tasks := s.tasks[t := task])
  }

  function SetTcbOf(s: State, t: TaskId, tcb: Tcb): State {
    SetTask(s, t, T(s, t).(tcb := tcb))
  }

  function SetPc(s: State, pc: Pc): State {
    SetTask(s, s.current, T(s, s.current).(pc := pc))
  }

  function SetMutex(s: State, m: MutexId, mutex: Mutex): State {
    s.(mutexes := s.mutexes[m := mutex])
  }

  function Values(s: State, list: seq<TaskId>): (values: seq<nat>)
    ensures |values| == |list| && forall k :: 0 <= k < |list| ==> values[k] == T(s, list[k]).tcb.evt
  {
    seq(|list|, k requires 0 <= k < |list| => T(s, list[k]).tcb.evt)
  }

  /** A task leaves its event list and is ready to look at the mutex again. */
  function Woken(task: Task): Task {
    Task(task.tcb.(place := Ready(task.tcb.prio), event := NoEvent),
         if task.pc.Waiting? then Trying(task.pc.m, task.pc.inherited) else task.pc)
  }

  // ---------- The steps ----------

  /** The count is taken: `pvTaskIncrementMutexHeldCount`. */
  function Take(s: State, m: MutexId): State {
    var me := T(s, s.current);
    SetTask(SetMutex(s, m, M(s, m).(count := 0, holder := Some(s.current))), s.current,
            Task(me.tcb.(held := me.tcb.held + 1), Outside))
  }

  /** `xTaskPriorityInherit` by the running task; the flag is its return value. */
  function Inherit(s: State, holder: Option<TaskId>): (State, bool) {
    if holder.None? then (s, false)
    else
      var h, prio := T(s, holder.value).tcb, Prio(s, s.current);
      (SetTcbOf(s, holder.value, InheritTcb(h, prio)), h.prio < prio || h.base < prio)
  }

  /** The running task goes onto the event list and blocks. */
  function Block(s: State, m: MutexId): State {
    var (s1, inherited) := Inherit(s, M(s, m).holder);
    var me, list := T(s1, s.current), M(s, m).waiters;
    var k := FirstGreater(Values(s1, list), me.tcb.evt);
    SetTask(SetMutex(s1, m, M(s, m).(waiters := InsertAt(list, k, s.current))), s.current,
            Task(me.tcb.(place := Delayed1, event := OnEvent(m)), Waiting(m, inherited))).(switchDue := true)
  }

  /** `prvGetDisinheritPriorityAfterTimeout`; the idle priority is 0. */
  function HighestWaiting(s: State, m: MutexId): nat {
    var list := M(s, m).waiters;
    if list == [] || T(s, list[0]).tcb.evt > PRIORITIES then 0 else PRIORITIES - T(s, list[0]).tcb.evt
  }

  function Disinherited(s: State, m: MutexId): State {
    var holder := M(s, m).holder;
    if holder.None? then s else SetTcbOf(s, holder.value, AfterTimeoutTcb(T(s, holder.value).tcb, HighestWaiting(s, m)))
  }

  /** The running task's priority falls when it gives its last mutex: `xYieldRequired`. */
  predicate Lowers(s: State) {
    T(s, s.current).tcb.prio != T(s, s.current).tcb.base && T(s, s.current).tcb.held == 1
  }

  /** Giving in `xQueueGenericSend`: `xYieldRequired` counts only if nobody waits. */
  function GiveNext(s: State, m: MutexId): State
    requires T(s, s.current).tcb.held > 0
  {
    var list := M(s, m).waiters;
    var s1 := SetTcbOf(SetMutex(s, m, Mutex(1, None, if list == [] then [] else list[1..])), s.current,
                       DisinheritTcb(T(s, s.current).tcb));
    if list == [] then s1.(switchDue := Lowers(s))
    else SetTask(s1, list[0], Woken(T(s1, list[0]))).(switchDue := Prio(s1, list[0]) > Prio(s1, s.current))
  }

  function TimeoutNext(s: State, t: TaskId): State {
    var m := if T(s, t).pc.Waiting? then T(s, t).pc.m else 0;
    SetTask(SetMutex(s, m, M(s, m).(waiters := Minus(M(s, m).waiters, t))), t, Woken(T(s, t)))
      .(switchDue := s.switchDue || Prio(s, t) >= Prio(s, s.current))
  }

  predicate Running(s: State) {
    !s.switchDue && IsReady(s, s.current)
  }

  predicate Enabled(s: State, a: Action) {
    var me := T(s, s.current);
    match a
    case Call(m) => Running(s) && me.pc.Outside? && m in s.mutexes
    case Try(wait) => Running(s) && me.pc.Trying? && (wait || !me.pc.inherited)
    case Check(_) => Running(s) && me.pc.Checking?
    case AfterTimeout => Running(s) && me.pc.Expired?
    case Give(m) => Running(s) && me.pc.Outside? && m in s.mutexes && s.mutexes[m].holder == Some(s.current) && me.tcb.held > 0
    case Timeout(t) => t in s.tasks && s.tasks[t].pc.Waiting?
    case Leave => Running(s) && me.pc.Outside?
    case Arrive(t) => t in s.tasks && !s.tasks[t].tcb.place.Ready? && s.tasks[t].pc.Outside?
    case RequestSwitch => true
    case Switch(t) => s.switchDue && IsReady(s, t) && forall u :: u in s.tasks && IsReady(s, u) ==> Prio(s, u) <= Prio(s, t)
  }

  function StepEnabled(s: State, a: Action): State
    requires Enabled(s, a)
  {
    var pc := T(s, s.current).pc;
    match a
    case Call(m) => SetPc(s, Trying(m, false))
    case Try(wait) =>
      if M(s, pc.m).count > 0 then Take(s, pc.m) else SetPc(s, if wait then Checking(pc.m, pc.inherited) else Outside)
    case Check(expired) =>
      if M(s, pc.m).count > 0 then SetPc(s, Trying(pc.m, pc.inherited))
      else if !expired then Block(s, pc.m)
      else SetPc(s, if pc.inherited then Expired(pc.m) else Outside)
    case AfterTimeout => SetPc(Disinherited(s, pc.m), Outside)
    case Give(m) => GiveNext(s, m)
    case Timeout(t) => TimeoutNext(s, t)
    case Leave => SetTcbOf(s, s.current, T(s, s.current).tcb.(place := Delayed1)).(switchDue := true)
    case Arrive(t) =>
      SetTcbOf(s, t, T(s, t).tcb.(place := Ready(Prio(s, t)))).(switchDue := s.switchDue || Prio(s, t) > Prio(s, s.current))
    case RequestSwitch => s.(switchDue := true)
    case Switch(t) => s.(current := t, switchDue := false)
  }

  function Step(s: State, a: Action): State {
    if Enabled(s, a) then StepEnabled(s, a) else s
  }

  function Exec(s: State, run: seq<Action>): State
    decreases |run|
  {
    if run == [] then s else Exec(Step(s, run[0]), run[1..])
  }
}

/** Who holds what: for every run, whatever tasks do while they hold mutexes. */
module MutexAccounting {
  import opened Wrappers
  import opened ListView
  import opened Tasks
  import opened MutexProtocol

  /** The mutexes that name `t` as their holder. */
  function HeldSet(s: State, t: TaskId): set<MutexId> {
    set m | m in s.mutexes && s.mutexes[m].holder == Some(t)
  }

  predicate TcbOk(tcb: Tcb) {
    && tcb.base <= tcb.prio < PRIORITIES && (tcb.held == 0 ==> tcb.prio == tcb.base)
    && tcb.evt == EventValue(tcb.prio) && (tcb.place.Ready? ==> tcb.place == Ready(tcb.prio))
  }

  ghost predicate TaskAccounted(s: State, t: TaskId) {
    && t in s.tasks && TcbOk(s.tasks[t].tcb)
    && s.tasks[t].tcb.held == |HeldSet(s, t)|
    && (!s.tasks[t].pc.Outside? ==> s.tasks[t].pc.m in s.mutexes)
  }

  ghost predicate MutexAccounted(s: State, m: MutexId) {
    && m in s.mutexes
    && var mutex := s.mutexes[m];
       && mutex.count <= 1 && (mutex.count == 0 <==> mutex.holder.Some?)
       && (mutex.holder.Some? ==> mutex.holder.value in s.tasks)
       && (forall w :: w in mutex.waiters ==> w in s.tasks)
  }

  ghost predicate Accounted(s: State) {
    && s.current in s.tasks
    && (forall t {:trigger TaskAccounted(s, t)} :: t in s.tasks ==> TaskAccounted(s, t))
    && (forall m {:trigger MutexAccounted(s, m)} :: m in s.mutexes ==> MutexAccounted(s, m))
  }

  lemma SameHeld(s: State, s': State, t: TaskId)
    requires forall m :: M(s', m).holder == M(s, m).holder
    ensures HeldSet(s', t) == HeldSet(s, t)
  {
    forall m ensures m in HeldSet(s', t) <==> m in HeldSet(s, t) {
      assert M(s', m).holder == M(s, m).holder;
    }
  }

  /** Control blocks, waiting lists and program counters change, but no holder or count. */
  lemma HoldersStay(s: State, s': State)
    requires Accounted(s) && s'.current in s'.tasks
    requires forall t :: t in s'.tasks <==> t in s.tasks
    requires forall t :: t in s.tasks ==> TaskKept(s, T(s, t), T(s', t))
    requires forall m :: m in s'.mutexes <==> m in s.mutexes
    requires forall m :: m in s.mutexes ==> MutexKept(s, M(s, m), M(s', m))
    ensures Accounted(s')
  {
    forall t | t in s'.tasks ensures TaskAccounted(s', t) {
      assert TaskAccounted(s, t);
      SameHeld(s, s', t);
    }
    forall m | m in s'.mutexes ensures MutexAccounted(s', m) {
      assert MutexAccounted(s, m);
    }
  }

  /** The priority may have changed. */
  predicate TaskKept(s: State, a: Task, b: Task) {
    TcbOk(b.tcb) && b.tcb.held == a.tcb.held && (!b.pc.Outside? ==> b.pc.m in s.mutexes)
  }

  predicate MutexKept(s: State, a: Mutex, b: Mutex) {
    b.count == a.count && b.holder == a.holder && forall w :: w in b.waiters ==> w in a.waiters || w == s.current
  }

  lemma HolderHolds(s: State, m: MutexId)
    requires Accounted(s) && M(s, m).holder.Some?
    ensures var h := M(s, m).holder.value; h in s.tasks && s.tasks[h].tcb.held > 0 && TaskAccounted(s, h)
  {
    assert MutexAccounted(s, m);
    var h := M(s, m).holder.value;
    assert TaskAccounted(s, h);
    assert m in HeldSet(s, h);
  }

  lemma TasksKept(s: State)
    requires Accounted(s)
    ensures forall t :: t in s.tasks ==> TaskKept(s, T(s, t), T(s, t))
  {
    forall t | t in s.tasks ensures TaskKept(s, T(s, t), T(s, t)) { assert TaskAccounted(s, t); }
  }

  lemma TakeAccounted(s: State, m: MutexId)
    requires Accounted(s) && M(s, m).count > 0
    ensures Accounted(Take(s, m))
  {
    var s' := Take(s, m);
    assert m in s.mutexes ==> MutexAccounted(s, m);
    forall t | t in s'.tasks ensures TaskAccounted(s', t) {
      assert TaskAccounted(s, t);
      if t == s.current {
        assert HeldSet(s', t) == HeldSet(s, t) + {m};
      } else {
        assert HeldSet(s', t) == HeldSet(s, t);
      }
    }
    forall k | k in s'.mutexes ensures MutexAccounted(s', k) {
      assert k != m ==> MutexAccounted(s, k);
    }
  }

  /** What giving does to one control block. */
  lemma GiveTask(s: State, m: MutexId, t: TaskId)
    requires Accounted(s) && m in s.mutexes && t in s.tasks && T(s, s.current).tcb.held > 0 && IsReady(s, s.current)
    ensures var s' := GiveNext(s, m);
            && t in s'.tasks && TcbOk(s'.tasks[t].tcb) && (!s'.tasks[t].pc.Outside? ==> s'.tasks[t].pc.m in s.mutexes)
            && s'.tasks[t].tcb.held == if t == s.current then s.tasks[t].tcb.held - 1 else s.tasks[t].tcb.held
  {
    assert MutexAccounted(s, m) && TaskAccounted(s, t) && TaskAccounted(s, s.current);
  }

  lemma GiveHeld(s: State, m: MutexId, t: TaskId)
    requires m in s.mutexes && s.mutexes[m].holder == Some(s.current) && T(s, s.current).tcb.held > 0
    ensures HeldSet(GiveNext(s, m), t) == if t == s.current then HeldSet(s, t) - {m} else HeldSet(s, t)
    ensures m in HeldSet(s, s.current)
  {}

  lemma GiveAccounted(s: State, m: MutexId)
    requires Accounted(s) && m in s.mutexes && s.mutexes[m].holder == Some(s.current)
    requires T(s, s.current).tcb.held > 0 && IsReady(s, s.current)
    ensures Accounted(GiveNext(s, m))
  {
    var s' := GiveNext(s, m);
    assert MutexAccounted(s, m);
    forall t | t in s'.tasks ensures TaskAccounted(s', t) {
      assert TaskAccounted(s, t);
      GiveTask(s, m, t);
      GiveHeld(s, m, t);
    }
    forall k | k in s'.mutexes ensures MutexAccounted(s', k) {
      assert MutexAccounted(s, k);
    }
  }

  lemma BlockAccounted(s: State, m: MutexId)
    requires Accounted(s) && M(s, m).count == 0
    ensures Accounted(Block(s, m))
  {
    assert MutexAccounted(s, m);
    HolderHolds(s, m);
    TasksKept(s);
    assert TaskAccounted(s, s.current);
    HoldersStay(s, Block(s, m));
  }

  lemma HighestWaitingBound(s: State, m: MutexId)
    requires Accounted(s) && m in s.mutexes
    ensures HighestWaiting(s, m) < PRIORITIES
    ensures M(s, m).waiters != [] ==> HighestWaiting(s, m) == Prio(s, M(s, m).waiters[0])
  {
    assert MutexAccounted(s, m);
    if M(s, m).waiters != [] { assert TaskAccounted(s, M(s, m).waiters[0]); }
  }

  lemma AfterTimeoutAccounted(s: State, m: MutexId)
    requires Accounted(s) && m in s.mutexes
    ensures Accounted(SetPc(Disinherited(s, m), Outside))
  {
    var s' := SetPc(Disinherited(s, m), Outside);
    forall t | t in s.tasks ensures TaskKept(s, T(s, t), T(s', t)) { AfterTimeoutTask(s, m, t); }
    if M(s, m).holder.Some? { HolderHolds(s, m); }
    HoldersStay(s, s');
  }

  lemma AfterTimeoutTask(s: State, m: MutexId, t: TaskId)
    requires Accounted(s) && m in s.mutexes && t in s.tasks
    ensures TaskKept(s, T(s, t), T(SetPc(Disinherited(s, m), Outside), t))
  {
    assert TaskAccounted(s, t);
    HighestWaitingBound(s, m);
    if M(s, m).holder.Some? { HolderHolds(s, m); }
  }

  lemma TimeoutAccounted(s: State, t: TaskId)
    requires Accounted(s) && t in s.tasks && s.tasks[t].pc.Waiting?
    ensures Accounted(TimeoutNext(s, t))
  {
    TasksKept(s);
    var m := s.tasks[t].pc.m;
    assert TaskAccounted(s, t);
    MinusMembers(M(s, m).waiters, t);
    HoldersStay(s, TimeoutNext(s, t));
  }

  lemma MinusMembers(list: seq<TaskId>, t: TaskId)
    ensures forall w :: w in Minus(list, t) ==> w in list
  {}

  /** Steps of the running task that change its program counter only. */
  lemma PcAccounted(s: State, pc: Pc)
    requires Accounted(s) && (!pc.Outside? ==> pc.m in s.mutexes)
    ensures Accounted(SetPc(s, pc))
  {
    TasksKept(s);
    HoldersStay(s, SetPc(s, pc));
  }

  lemma PlaceAccounted(s: State, a: Action)
    requires Accounted(s) && Enabled(s, a) && (a.Leave? || a.Arrive? || a.RequestSwitch? || a.Switch?)
    ensures Accounted(StepEnabled(s, a))
  {
    TasksKept(s);
    HoldersStay(s, StepEnabled(s, a));
  }

  lemma StepAccounted(s: State, a: Action)
    requires Accounted(s)
    ensures Accounted(Step(s, a))
  {
    if Enabled(s, a) {
      assert TaskAccounted(s, s.current);
      var pc := T(s, s.current).pc;
      match a
      case Call(m) => PcAccounted(s, Trying(m, false));
      case Try(wait) =>
        if M(s, pc.m).count > 0 { TakeAccounted(s, pc.m); } else { PcAccounted(s, if wait then Checking(pc.m, pc.inherited) else Outside); }
      case Check(expired) =>
        if M(s, pc.m).count > 0 {
          PcAccounted(s, Trying(pc.m, pc.inherited));
        } else if !expired {
          BlockAccounted(s, pc.m);
        } else {
          PcAccounted(s, if pc.inherited then Expired(pc.m) else Outside);
        }
      case AfterTimeout => AfterTimeoutAccounted(s, pc.m);
      case Give(m) => GiveAccounted(s, m);
      case Timeout(t) => TimeoutAccounted(s, t);
      case _ => PlaceAccounted(s, a);
    }
  }

  /**
   Over any run, however many mutexes a task takes and in whatever order it gives them: a count
   is 0 exactly while the mutex has a holder, a task's counter is the number of mutexes that name
   it, and its priority is its base priority unless it holds one.
   */
  lemma {:induction false} RunAccounted(s: State, run: seq<Action>)
    requires Accounted(s)
    ensures Accounted(Exec(s, run))
    decreases |run|
  {
    if run != [] {
      StepAccounted(s, run[0]);
      RunAccounted(Step(s, run[0]), run[1..]);
    }
  }

  /** Free mutexes, and tasks that hold none. */
  lemma InitAccounted(s: State)
    requires s.current in s.tasks
    requires forall t :: t in s.tasks ==> TcbOk(s.tasks[t].tcb) && s.tasks[t].tcb.held == 0 && s.tasks[t].pc == Outside
    requires forall m :: m in s.mutexes ==> s.mutexes[m] == Mutex(1, None, [])
    ensures Accounted(s)
  {
    forall t | t in s.tasks ensures TaskAccounted(s, t) {
      assert HeldSet(s, t) == {};
    }
  }
}

/**
 Bounded priority inversion: a holder's priority is at least that of every task waiting for its
 mutex. The code keeps this in every step but one, the taking of a just-given mutex by a task
 below its waiters (`TakeSafe`). That can happen only after a give that lowered the giver below
 a third task without asking for a switch (`LostYield`).
 */
module MutexInversion {
  import opened Wrappers
  import opened ListView
  import opened Tasks
  import opened MutexProtocol
  import opened MutexAccounting

  /** No task blocks while it holds a mutex. */
  predicate TaskFree(s: State, t: TaskId) {
    && t in s.tasks
    && var task := s.tasks[t];
       && (task.pc.Checking? || task.pc.Waiting? || task.pc.Expired? ==> task.tcb.held == 0)
       && (task.pc.Trying? || task.pc.Checking? || task.pc.Expired? ==> task.tcb.place.Ready?)
       && (task.pc.Waiting? ==> !task.tcb.place.Ready?)
       && (task.tcb.held > 0 ==> task.tcb.place.Ready?)
  }

  predicate Listed(s: State, m: MutexId, t: TaskId) {
    t in M(s, m).waiters <==> t in s.tasks && s.tasks[t].pc.Waiting? && s.tasks[t].pc.m == m
  }

  /** The property itself. */
  ghost predicate HolderOutranks(s: State, m: MutexId) {
    M(s, m).holder.Some? ==> forall w :: w in M(s, m).waiters ==> Prio(s, w) <= Prio(s, M(s, m).holder.value)
  }

  /** The task that the last give woke, and that will find the mutex free if nobody is faster. */
  ghost predicate Heir(s: State, m: MutexId, w: TaskId) {
    && IsReady(s, w) && T(s, w).pc.Trying? && T(s, w).pc.m == m && T(s, w).tcb.held == 0
    && forall u :: u in M(s, m).waiters ==> Prio(s, u) <= Prio(s, w)
  }

  ghost predicate HasHeir(s: State, m: MutexId) {
    M(s, m).holder.None? && M(s, m).waiters != [] ==> exists w :: Heir(s, m, w)
  }

  ghost predicate MutexBounded(s: State, m: MutexId) {
    NoDuplicates(M(s, m).waiters) && Sorted(Values(s, M(s, m).waiters)) && HolderOutranks(s, m)
  }

  predicate TopOver(s: State, t: TaskId) {
    IsReady(s, t) ==> Prio(s, t) <= Prio(s, s.current)
  }

  /** While no switch is due, no ready task outranks the running one. */
  ghost predicate Top(s: State) {
    s.switchDue || (IsReady(s, s.current) && forall t {:trigger TopOver(s, t)} :: TopOver(s, t))
  }

  ghost predicate Queues(s: State) {
    && (forall t {:trigger TaskFree(s, t)} :: t in s.tasks ==> TaskFree(s, t))
    && (forall m, t {:trigger Listed(s, m, t)} :: Listed(s, m, t))
    && (forall m {:trigger MutexBounded(s, m)} :: MutexBounded(s, m))
  }

  ghost predicate Inv(s: State) {
    Accounted(s) && Queues(s)
  }

  ghost predicate Heirs(s: State) {
    forall m {:trigger HasHeir(s, m)} :: HasHeir(s, m)
  }

  /** The right task runs: what a lost yield breaks. */
  ghost predicate Led(s: State) {
    Heirs(s) && Top(s)
  }

  /** The running task, about to take a free mutex, is not below its waiters; the first is the best. */
  predicate TakeSafe(s: State, m: MutexId) {
    M(s, m).waiters != [] ==> Prio(s, M(s, m).waiters[0]) <= Prio(s, s.current)
  }

  predicate SafeStep(s: State, a: Action) {
    a.Try? && T(s, s.current).pc.Trying? && M(s, T(s, s.current).pc.m).count > 0 ==> TakeSafe(s, T(s, s.current).pc.m)
  }

  /** The give lowers the giver, wakes a task that does not outrank it, and passes over one that does. */
  ghost predicate LostYield(s: State, m: MutexId) {
    && Lowers(s) && M(s, m).waiters != []
    && Prio(s, M(s, m).waiters[0]) <= T(s, s.current).tcb.base
    && exists t :: Passed(s, t)
  }

  predicate Passed(s: State, t: TaskId) {
    t != s.current && IsReady(s, t) && Prio(s, t) > T(s, s.current).tcb.base
  }

  /** The step does not let a task block that holds a mutex. */
  predicate NoHolderBlocks(s: State, a: Action) {
    match a
    case Try(wait) => wait && T(s, s.current).pc.Trying? && M(s, T(s, s.current).pc.m).count == 0 ==> T(s, s.current).tcb.held == 0
    case Leave => T(s, s.current).tcb.held == 0
    case _ => true
  }

  // ---------- What steps leave alone ----------

  lemma SameValues(s: State, s': State, list: seq<TaskId>)
    requires forall w :: w in list ==> T(s', w).tcb.evt == T(s, w).tcb.evt
    ensures Values(s', list) == Values(s, list)
  {}

  /** Nobody who waits for this mutex changes, and its holder is not lowered. */
  lemma BoundedFrame(s: State, s': State, m: MutexId)
    requires MutexBounded(s, m) && M(s', m).waiters == M(s, m).waiters && M(s', m).holder == M(s, m).holder
    requires forall w :: w in M(s, m).waiters ==> T(s', w).tcb.evt == T(s, w).tcb.evt && Prio(s', w) == Prio(s, w)
    requires M(s, m).holder.Some? ==> Prio(s, M(s, m).holder.value) <= Prio(s', M(s, m).holder.value)
    ensures MutexBounded(s', m)
  {
    SameValues(s, s', M(s, m).waiters);
  }

  /** Tasks may have stopped waiting for this mutex, and its heir stays. */
  lemma HeirFrame(s: State, s': State, m: MutexId)
    requires HasHeir(s, m) && M(s, m).holder.None?
    requires forall w :: w in M(s', m).waiters ==> w in M(s, m).waiters && Prio(s', w) == Prio(s, w)
    requires forall w :: Heir(s, m, w) ==> HeirStays(s, s', w)
    ensures HasHeir(s', m)
  {
    if M(s', m).waiters != [] {
      assert M(s', m).waiters[0] in M(s, m).waiters;
      var w :| Heir(s, m, w);
      assert Heir(s', m, w);
    }
  }

  predicate HeirStays(s: State, s': State, w: TaskId) {
    IsReady(s', w) && T(s', w).pc == T(s, w).pc && T(s', w).tcb.held == 0 && Prio(s, w) <= Prio(s', w)
  }

  /** The waiting tasks are none of those that steps change. */
  lemma WaiterFacts(s: State, m: MutexId, w: TaskId)
    requires Accounted(s) && Queues(s) && w in M(s, m).waiters
    ensures w in s.tasks && s.tasks[w].pc.Waiting? && s.tasks[w].pc.m == m && s.tasks[w].tcb.held == 0 && !IsReady(s, w)
    ensures s.tasks[w].tcb.evt == PRIORITIES - Prio(s, w) && Prio(s, w) < PRIORITIES
  {
    assert Listed(s, m, w);
    assert TaskFree(s, w) && TaskAccounted(s, w);
  }

  /** The head of a waiting list has the highest priority in it. */
  lemma HeadHighest(s: State, m: MutexId, w: TaskId)
    requires Accounted(s) && Queues(s) && w in M(s, m).waiters
    ensures Prio(s, w) <= Prio(s, M(s, m).waiters[0])
  {
    var list := M(s, m).waiters;
    var k :| 0 <= k < |list| && list[k] == w;
    assert MutexBounded(s, m);
    WaiterFacts(s, m, w);
    WaiterFacts(s, m, list[0]);
    assert Values(s, list)[0] <= Values(s, list)[k];
  }

  // ---------- Steps that change a program counter ----------

  predicate PcOk(s: State, pc: Pc) {
    !pc.Waiting? && (pc.Checking? || pc.Expired? ==> T(s, s.current).tcb.held == 0)
  }

  /** The running task is not the heir that a free mutex depends on. */
  ghost predicate NoHeir(s: State) {
    T(s, s.current).pc.Trying? ==> M(s, T(s, s.current).pc.m).holder.Some? || M(s, T(s, s.current).pc.m).waiters == []
  }

  lemma PcQueues(s: State, pc: Pc)
    requires Accounted(s) && Queues(s) && IsReady(s, s.current) && !T(s, s.current).pc.Waiting? && PcOk(s, pc)
    ensures Queues(SetPc(s, pc))
  {
    var s' := SetPc(s, pc);
    forall t | t in s'.tasks ensures TaskFree(s', t) { assert TaskFree(s, t); }
    forall m, t ensures Listed(s', m, t) { assert Listed(s, m, t); }
    forall m ensures MutexBounded(s', m) {
      assert MutexBounded(s, m);
      BoundedFrame(s, s', m);
    }
  }

  lemma PcLed(s: State, pc: Pc)
    requires Led(s) && IsReady(s, s.current) && NoHeir(s)
    ensures Led(SetPc(s, pc))
  {
    var s' := SetPc(s, pc);
    forall m ensures HasHeir(s', m) {
      assert HasHeir(s, m);
      if M(s, m).holder.None? && M(s, m).waiters != [] { HeirFrame(s, s', m); }
    }
    SameTop(s, s');
  }

  lemma SameTop(s: State, s': State)
    requires Top(s) && s'.current == s.current && (s.switchDue ==> s'.switchDue)
    requires forall t :: IsReady(s', t) ==> IsReady(s, t) && Prio(s', t) <= Prio(s, t)
    requires !s'.switchDue ==> IsReady(s', s'.current) && Prio(s', s'.current) == Prio(s, s.current)
    ensures Top(s')
  {
    if !s'.switchDue {
      forall t ensures TopOver(s', t) { assert TopOver(s, t); }
    }
  }

  // ---------- Taking ----------

  /** A safe take leaves a holder that outranks the waiters. */
  lemma TakeQueues(s: State, m: MutexId)
    requires Inv(s) && Running(s) && m in s.mutexes && M(s, m).count > 0 && TakeSafe(s, m)
    requires T(s, s.current).pc.Trying? && T(s, s.current).pc.m == m
    ensures Queues(Take(s, m))
  {
    var s' := Take(s, m);
    assert MutexAccounted(s, m);
    forall t | t in s'.tasks ensures TaskFree(s', t) { assert TaskFree(s, t); }
    forall k, t ensures Listed(s', k, t) { assert Listed(s, k, t); }
    forall k ensures MutexBounded(s', k) {
      assert MutexBounded(s, k);
      if k != m { TakeOthers(s, m, k); } else { TakeThis(s, m); }
    }
  }

  lemma TakeOthers(s: State, m: MutexId, k: MutexId)
    requires Inv(s) && k != m && T(s, s.current).pc.Trying? && T(s, s.current).pc.m == m
    ensures MutexBounded(Take(s, m), k)
  {
    assert MutexBounded(s, k);
    BoundedFrame(s, Take(s, m), k);
  }

  lemma TakeThis(s: State, m: MutexId)
    requires Inv(s) && m in s.mutexes && TakeSafe(s, m)
    ensures MutexBounded(Take(s, m), m)
  {
    assert MutexBounded(s, m);
    SameValues(s, Take(s, m), M(s, m).waiters);
    forall w | w in M(s, m).waiters ensures Prio(s, w) <= Prio(s, s.current) { HeadHighest(s, m, w); }
  }

  /** A take that is not safe breaks the bound at once. */
  lemma UnsafeBreaks(s: State, m: MutexId)
    requires !TakeSafe(s, m)
    ensures !HolderOutranks(Take(s, m), m)
  {
    assert M(Take(s, m), m).waiters[0] in M(s, m).waiters;
  }

  /** If the right task runs, it outranks the waiters of a mutex that it finds free: their heir is ready. */
  lemma LedTakesSafely(s: State, m: MutexId)
    requires Inv(s) && Led(s) && Running(s) && m in s.mutexes && M(s, m).count > 0
    ensures TakeSafe(s, m)
  {
    assert MutexAccounted(s, m) && HasHeir(s, m);
    if M(s, m).waiters != [] {
      var w :| Heir(s, m, w);
      assert TopOver(s, w);
    }
  }

  lemma TakeLed(s: State, m: MutexId)
    requires Led(s) && Running(s) && T(s, s.current).pc.Trying? && T(s, s.current).pc.m == m
    ensures Led(Take(s, m))
  {
    var s' := Take(s, m);
    forall k ensures HasHeir(s', k) {
      assert HasHeir(s, k);
      if k != m && M(s, k).holder.None? { HeirFrame(s, s', k); }
    }
    SameTop(s, s');
  }

  // ---------- Blocking ----------

  /** The holder's new priority is at least the caller's, and not below its old one. */
  lemma InheritFacts(s: State, m: MutexId)
    requires Accounted(s) && M(s, m).holder.Some? && T(s, s.current).tcb.held == 0
    ensures var h, s1 := M(s, m).holder.value, Inherit(s, M(s, m).holder).0;
            && h != s.current && h in s.tasks && s.tasks[h].tcb.held > 0
            && s1 == SetTcbOf(s, h, InheritTcb(s.tasks[h].tcb, Prio(s, s.current)))
            && Prio(s, h) <= Prio(s1, h) && Prio(s, s.current) <= Prio(s1, h)
            && (IsReady(s, h) ==> IsReady(s1, h)) && T(s1, h).tcb.held == s.tasks[h].tcb.held && T(s1, h).pc == s.tasks[h].pc
  {
    HolderHolds(s, m);
  }

  /** The list with the caller sorted in. */
  lemma BlockedList(s: State, m: MutexId)
    requires Accounted(s) && Queues(s) && T(s, s.current).pc.Checking? && M(s, m).holder.Some? && s.current in s.tasks
    ensures var s' := Block(s, m);
            && NoDuplicates(M(s', m).waiters) && Sorted(Values(s', M(s', m).waiters))
            && forall t :: t in M(s', m).waiters <==> t in M(s, m).waiters || t == s.current
  {
    var s1, s', list := Inherit(s, M(s, m).holder).0, Block(s, m), M(s, m).waiters;
    assert MutexBounded(s, m) && TaskFree(s, s.current) && Listed(s, m, s.current);
    InheritFacts(s, m);
    forall w | w in list ensures T(s1, w) == T(s, w) { WaiterFacts(s, m, w); }
    SameValues(s, s1, list);
    var me := T(s1, s.current).tcb;
    var k := FirstGreater(Values(s1, list), me.evt);
    InsertFacts(list, k, s.current);
    SortedInsert(Values(s1, list), me.evt);
    assert Values(s', InsertAt(list, k, s.current)) == InsertAt(Values(s1, list), k, me.evt) by {
      InsertedValues(s1, s', list, k, s.current);
    }
  }

  lemma InsertedValues(s: State, s': State, list: seq<TaskId>, k: nat, t: TaskId)
    requires k <= |list| && T(s', t).tcb.evt == T(s, t).tcb.evt && forall w :: w in list ==> T(s', w).tcb.evt == T(s, w).tcb.evt
    ensures Values(s', InsertAt(list, k, t)) == InsertAt(Values(s, list), k, T(s, t).tcb.evt)
  {
    var more := InsertAt(list, k, t);
    forall i | 0 <= i < |more| ensures Values(s', more)[i] == InsertAt(Values(s, list), k, T(s, t).tcb.evt)[i] {
      assert more[i] == if i < k then list[i] else if i == k then t else list[i - 1];
    }
  }

  lemma BlockTasks(s: State, m: MutexId, t: TaskId)
    requires Accounted(s) && Queues(s) && T(s, s.current).pc.Checking? && M(s, m).holder.Some? && s.current in s.tasks && t in s.tasks
    ensures TaskFree(Block(s, m), t)
  {
    assert TaskFree(s, t) && TaskFree(s, s.current);
    InheritFacts(s, m);
  }

  lemma BlockListed(s: State, m: MutexId, k: MutexId, t: TaskId)
    requires Accounted(s) && Queues(s) && T(s, s.current).pc.Checking? && M(s, m).holder.Some? && s.current in s.tasks
    ensures Listed(Block(s, m), k, t)
  {
    assert Listed(s, k, t) && TaskFree(s, s.current);
    InheritFacts(s, m);
    BlockedList(s, m);
  }

  lemma BlockBounded(s: State, m: MutexId, k: MutexId)
    requires Accounted(s) && Queues(s) && T(s, s.current).pc.Checking? && M(s, m).holder.Some? && s.current in s.tasks
    ensures MutexBounded(Block(s, m), k)
  {
    var s' := Block(s, m);
    assert MutexBounded(s, k) && TaskFree(s, s.current);
    InheritFacts(s, m);
    forall w | w in M(s, k).waiters ensures T(s', w) == T(s, w) { WaiterFacts(s, k, w); }
    if k == m {
      BlockedList(s, m);
    } else {
      BoundedFrame(s, s', k);
    }
  }

  lemma BlockQueues(s: State, m: MutexId)
    requires Accounted(s) && Queues(s) && T(s, s.current).pc.Checking? && M(s, m).holder.Some? && s.current in s.tasks
    ensures Queues(Block(s, m))
  {
    var s' := Block(s, m);
    InheritFacts2(s, m);
    forall t | t in s'.tasks ensures TaskFree(s', t) { BlockTasks(s, m, t); }
    forall k, t ensures Listed(s', k, t) { BlockListed(s, m, k, t); }
    forall k ensures MutexBounded(s', k) { BlockBounded(s, m, k); }
  }

  lemma BlockLed(s: State, m: MutexId)
    requires Inv(s) && Led(s) && T(s, s.current).pc.Checking? && M(s, m).holder.Some? && s.current in s.tasks
    ensures Led(Block(s, m))
  {
    var s' := Block(s, m);
    assert TaskFree(s, s.current);
    InheritFacts(s, m);
    forall k ensures HasHeir(s', k) {
      assert HasHeir(s, k);
      forall w | w in M(s, k).waiters ensures T(s', w) == T(s, w) || w == s.current { WaiterFacts(s, k, w); }
      if k != m && M(s, k).holder.None? { NotWaiting(s, k); HeirFrame(s, s', k); }
    }
  }

  lemma NotWaiting(s: State, k: MutexId)
    requires Queues(s) && !T(s, s.current).pc.Waiting?
    ensures s.current !in M(s, k).waiters
  {
    assert Listed(s, k, s.current);
  }

  lemma InheritFacts2(s: State, m: MutexId)
    requires Accounted(s) && s.current in s.tasks
    ensures forall t :: t in Block(s, m).tasks ==> t in s.tasks
  {
    if M(s, m).holder.Some? { HolderHolds(s, m); }
  }

  // ---------- Giving up ----------

  /** A holder of one mutex holds no other. */
  lemma OnlyOne(s: State, h: TaskId, m: MutexId, k: MutexId)
    requires Accounted(s) && h in s.tasks && s.tasks[h].tcb.held == 1
    requires M(s, m).holder == Some(h) && M(s, k).holder == Some(h)
    ensures k == m
  {
    assert TaskAccounted(s, h);
    assert m in HeldSet(s, h) && k in HeldSet(s, h);
    assert |HeldSet(s, h) - {m}| == 0;
  }

  /** The holder falls no lower than the best task that still waits. */
  lemma DisinheritedFacts(s: State, m: MutexId)
    requires Accounted(s) && Queues(s) && m in s.mutexes && M(s, m).holder.Some? && T(s, s.current).tcb.held == 0
    ensures var h, s1 := M(s, m).holder.value, Disinherited(s, m);
            && h != s.current && h in s.tasks && s.tasks[h].tcb.held > 0
            && s1 == SetTcbOf(s, h, T(s1, h).tcb) && T(s1, h).pc == T(s, h).pc && T(s1, h).tcb.held == T(s, h).tcb.held
            && (IsReady(s, h) <==> IsReady(s1, h)) && Prio(s1, h) <= Prio(s, h)
            && (forall w :: w in M(s, m).waiters ==> Prio(s, w) <= Prio(s1, h))
            && (T(s1, h).tcb != T(s, h).tcb ==> T(s, h).tcb.held == 1)
  {
    HolderHolds(s, m);
    HighestWaitingBound(s, m);
    assert MutexBounded(s, m);
    forall w | w in M(s, m).waiters ensures Prio(s, w) <= HighestWaiting(s, m) { HeadHighest(s, m, w); }
    if M(s, m).waiters != [] { assert M(s, m).waiters[0] in M(s, m).waiters; }
  }

  lemma AfterTimeoutBounded(s: State, m: MutexId, k: MutexId)
    requires Accounted(s) && Queues(s) && m in s.mutexes && M(s, m).holder.Some? && T(s, s.current).pc.Expired? && s.current in s.tasks
    ensures MutexBounded(SetPc(Disinherited(s, m), Outside), k)
  {
    var h, s' := M(s, m).holder.value, SetPc(Disinherited(s, m), Outside);
    assert MutexBounded(s, k) && TaskFree(s, s.current);
    DisinheritedFacts(s, m);
    forall w | w in M(s, k).waiters ensures T(s', w) == T(s, w) { WaiterFacts(s, k, w); }
    if k == m {
      SameValues(s, s', M(s, m).waiters);
    } else {
      if M(s, k).holder == Some(h) && T(s', h).tcb != T(s, h).tcb { OnlyOne(s, h, m, k); }
      BoundedFrame(s, s', k);
    }
  }

  lemma AfterTimeoutQueues(s: State, m: MutexId)
    requires Inv(s) && Running(s) && m in s.mutexes && T(s, s.current).pc.Expired?
    ensures Queues(SetPc(Disinherited(s, m), Outside))
  {
    var s' := SetPc(Disinherited(s, m), Outside);
    assert TaskFree(s, s.current);
    if M(s, m).holder.None? {
      PcQueues(s, Outside);
    } else {
      DisinheritedFacts(s, m);
      forall t | t in s'.tasks ensures TaskFree(s', t) { assert TaskFree(s, t); }
      forall k, t ensures Listed(s', k, t) { assert Listed(s, k, t); }
      forall k ensures MutexBounded(s', k) { AfterTimeoutBounded(s, m, k); }
    }
  }

  lemma AfterTimeoutLed(s: State, m: MutexId)
    requires Inv(s) && Led(s) && Running(s) && m in s.mutexes && T(s, s.current).pc.Expired?
    ensures Led(SetPc(Disinherited(s, m), Outside))
  {
    var s' := SetPc(Disinherited(s, m), Outside);
    assert TaskFree(s, s.current);
    if M(s, m).holder.None? {
      PcLed(s, Outside);
    } else {
      DisinheritedFacts(s, m);
      forall k ensures HasHeir(s', k) {
        assert HasHeir(s, k);
        forall w | w in M(s, k).waiters ensures T(s', w) == T(s, w) { WaiterFacts(s, k, w); }
        if M(s, k).holder.None? { HeirFrame(s, s', k); }
      }
      SameTop(s, s');
    }
  }

  // ---------- Giving ----------

  lemma TailFacts(s: State, m: MutexId)
    requires Queues(s) && M(s, m).waiters != []
    ensures var list := M(s, m).waiters;
            && NoDuplicates(list[1..]) && (forall t :: t in list[1..] <==> t in list && t != list[0])
            && Sorted(Values(s, list[1..]))
  {
    var list := M(s, m).waiters;
    assert MutexBounded(s, m);
    assert list[1..] == Without(list, 0);
    WithoutFacts(list, 0);
    assert Values(s, list[1..]) == Values(s, list)[1..];
  }

  predicate Giving(s: State, m: MutexId) {
    && Running(s) && T(s, s.current).pc.Outside? && m in s.mutexes
    && s.mutexes[m].holder == Some(s.current) && T(s, s.current).tcb.held > 0
  }

  predicate WokenHead(s: State, s': State, m: MutexId, w: TaskId) {
    && w != s.current && w in s.tasks && s.tasks[w].pc.Waiting?
    && IsReady(s', w) && T(s', w).pc == Trying(m, s.tasks[w].pc.inherited)
    && T(s', w).tcb.held == 0 && Prio(s', w) == Prio(s, w)
  }

  /** What giving does to each task. */
  lemma GiveFacts(s: State, m: MutexId, t: TaskId)
    requires Accounted(s) && Queues(s) && Giving(s, m)
    ensures var s', list := GiveNext(s, m), M(s, m).waiters;
            && (t in s'.tasks <==> t in s.tasks)
            && (t != s.current && (list == [] || t != list[0]) ==> T(s', t) == T(s, t))
            && IsReady(s', s.current) && T(s', s.current).pc == Outside
            && Prio(s', s.current) == (if Lowers(s) then T(s, s.current).tcb.base else Prio(s, s.current))
            && (list != [] ==> WokenHead(s, s', m, list[0]))
  {
    assert TaskAccounted(s, s.current);
    if M(s, m).waiters != [] { WaiterFacts(s, m, M(s, m).waiters[0]); }
  }

  lemma GiveThis(s: State, m: MutexId)
    requires Accounted(s) && Queues(s) && Giving(s, m)
    ensures MutexBounded(GiveNext(s, m), m)
  {
    var s', list := GiveNext(s, m), M(s, m).waiters;
    if list != [] {
      TailFacts(s, m);
      GiveFacts(s, m, list[0]);
      forall w | w in list[1..] ensures T(s', w) == T(s, w) && Prio(s, w) <= Prio(s, list[0]) {
        WaiterFacts(s, m, w);
        GiveFacts(s, m, w);
        HeadHighest(s, m, w);
      }
      SameValues(s, s', list[1..]);
    }
  }

  /** The first waiter is woken, and is now the heir of those that still wait. */
  lemma GiveHeir(s: State, m: MutexId)
    requires Accounted(s) && Queues(s) && Giving(s, m)
    ensures HasHeir(GiveNext(s, m), m)
  {
    var s', list := GiveNext(s, m), M(s, m).waiters;
    if list != [] {
      TailFacts(s, m);
      GiveFacts(s, m, list[0]);
      forall w | w in list[1..] ensures T(s', w) == T(s, w) && Prio(s, w) <= Prio(s, list[0]) {
        WaiterFacts(s, m, w);
        GiveFacts(s, m, w);
        HeadHighest(s, m, w);
      }
      assert Heir(s', m, list[0]);
    }
  }

  lemma GiveHeirs(s: State, m: MutexId)
    requires Inv(s) && Heirs(s) && Giving(s, m)
    ensures Heirs(GiveNext(s, m))
  {
    var s' := GiveNext(s, m);
    forall k ensures HasHeir(s', k) {
      assert HasHeir(s, k);
      if k == m {
        GiveHeir(s, m);
      } else if M(s, k).holder.None? {
        GiveOtherHeir(s, m, k);
      }
    }
  }

  lemma GiveOtherHeir(s: State, m: MutexId, k: MutexId)
    requires Inv(s) && HasHeir(s, k) && Giving(s, m) && k != m && M(s, k).holder.None?
    ensures HasHeir(GiveNext(s, m), k)
  {
    var s' := GiveNext(s, m);
    if M(s, m).waiters != [] { WaiterFacts(s, m, M(s, m).waiters[0]); }
    forall w | w in M(s, k).waiters ensures T(s', w) == T(s, w) {
      WaiterFacts(s, k, w);
      GiveFacts(s, m, w);
    }
    forall w | Heir(s, k, w) ensures HeirStays(s, s', w) { GiveFacts(s, m, w); }
    HeirFrame(s, s', k);
  }

  lemma GiveOthers(s: State, m: MutexId, k: MutexId)
    requires Accounted(s) && Queues(s) && Giving(s, m) && k != m
    ensures MutexBounded(GiveNext(s, m), k)
  {
    var s' := GiveNext(s, m);
    assert MutexBounded(s, k);
    if M(s, m).waiters != [] { WaiterFacts(s, m, M(s, m).waiters[0]); }
    forall w | w in M(s, k).waiters ensures T(s', w) == T(s, w) {
      WaiterFacts(s, k, w);
      GiveFacts(s, m, w);
    }
    if M(s, k).holder.Some? {
      var h := M(s, k).holder.value;
      HolderHolds(s, k);
      GiveFacts(s, m, h);
      if h == s.current && T(s, h).tcb.held == 1 { OnlyOne(s, h, m, k); }
    }
    BoundedFrame(s, s', k);
  }

  lemma GiveTaskFree(s: State, m: MutexId, t: TaskId)
    requires Accounted(s) && Queues(s) && Giving(s, m) && t in s.tasks
    ensures TaskFree(GiveNext(s, m), t)
  {
    assert TaskFree(s, t);
    GiveFacts(s, m, t);
  }

  lemma GiveListed(s: State, m: MutexId, k: MutexId, t: TaskId)
    requires Accounted(s) && Queues(s) && Giving(s, m)
    ensures Listed(GiveNext(s, m), k, t)
  {
    assert Listed(s, k, t);
    GiveFacts(s, m, t);
    if M(s, m).waiters != [] {
      TailFacts(s, m);
      WaiterFacts(s, m, M(s, m).waiters[0]);
    }
  }

  lemma GiveQueues(s: State, m: MutexId)
    requires Accounted(s) && Queues(s) && Giving(s, m)
    ensures Queues(GiveNext(s, m))
  {
    var s' := GiveNext(s, m);
    forall t | t in s'.tasks ensures TaskFree(s', t) {
      GiveFacts(s, m, t);
      GiveTaskFree(s, m, t);
    }
    forall k, t ensures Listed(s', k, t) { GiveListed(s, m, k, t); }
    forall k ensures MutexBounded(s', k) { if k == m { GiveThis(s, m); } else { GiveOthers(s, m, k); } }
  }

  /** Giving asks for every switch that is needed, except exactly when it loses the yield. */
  lemma GiveTop(s: State, m: MutexId)
    requires Inv(s) && Top(s) && Giving(s, m)
    ensures Top(GiveNext(s, m)) <==> !LostYield(s, m)
  {
    var s', list := GiveNext(s, m), M(s, m).waiters;
    GiveFacts(s, m, s.current);
    if list != [] { GiveFacts(s, m, list[0]); }
    if LostYield(s, m) {
      var t :| Passed(s, t);
      GiveFacts(s, m, t);
      assert !TopOver(s', t);
    } else if !s'.switchDue {
      forall t ensures TopOver(s', t) {
        GiveFacts(s, m, t);
        assert TopOver(s, t) && !(Lowers(s) && list != [] && Prio(s, list[0]) <= T(s, s.current).tcb.base && Passed(s, t));
      }
    }
  }

  // ---------- The tick, other events and the scheduler ----------

  lemma TimeoutBounded(s: State, t: TaskId, k: MutexId)
    requires Accounted(s) && Queues(s) && t in s.tasks && s.tasks[t].pc.Waiting?
    ensures MutexBounded(TimeoutNext(s, t), k)
  {
    var s', m, list := TimeoutNext(s, t), s.tasks[t].pc.m, M(s, s.tasks[t].pc.m).waiters;
    assert MutexBounded(s, k) && Listed(s, m, t) && Listed(s, k, t);
    forall w | w in M(s, k).waiters && w != t ensures T(s', w) == T(s, w) {}
    if M(s, k).holder.Some? { HolderHolds(s, k); assert TaskFree(s, M(s, k).holder.value); }
    if k == m {
      var i := IndexOf(list, t);
      MinusFacts(list, t);
      SortedWithout(Values(s, list), i);
      WithoutValues(s, s', list, i);
    } else {
      BoundedFrame(s, s', k);
    }
  }

  lemma WithoutValues(s: State, s': State, list: seq<TaskId>, k: nat)
    requires NoDuplicates(list) && k < |list| && forall w :: w in list && w != list[k] ==> T(s', w) == T(s, w)
    ensures Values(s', Without(list, k)) == Without(Values(s, list), k)
  {
    var rest := Without(list, k);
    forall i | 0 <= i < |rest| ensures Values(s', rest)[i] == Without(Values(s, list), k)[i] {
      assert rest[i] == list[if i < k then i else i + 1];
    }
  }

  lemma TimeoutListed(s: State, t: TaskId, k: MutexId, u: TaskId)
    requires Accounted(s) && Queues(s) && t in s.tasks && s.tasks[t].pc.Waiting?
    ensures Listed(TimeoutNext(s, t), k, u)
  {
    var m := s.tasks[t].pc.m;
    assert Listed(s, k, u) && Listed(s, m, t) && MutexBounded(s, m);
    MinusFacts(M(s, m).waiters, t);
  }

  lemma TimeoutLed(s: State, t: TaskId)
    requires Inv(s) && Led(s) && t in s.tasks && s.tasks[t].pc.Waiting?
    ensures Led(TimeoutNext(s, t))
  {
    var s', m := TimeoutNext(s, t), s.tasks[t].pc.m;
    assert TaskFree(s, t) && TaskAccounted(s, t);
    forall k ensures HasHeir(s', k) {
      assert HasHeir(s, k);
      TimeoutLeaves(s, t, k);
      if M(s, k).holder.None? { HeirFrame(s, s', k); }
    }
    if !s'.switchDue {
      assert TopOver(s, t);
      forall u ensures TopOver(s', u) { assert TopOver(s, u); }
    }
  }

  lemma TimeoutLeaves(s: State, t: TaskId, k: MutexId)
    requires Accounted(s) && Queues(s) && t in s.tasks && s.tasks[t].pc.Waiting?
    ensures var s' := TimeoutNext(s, t);
            forall w :: w in M(s', k).waiters ==> w in M(s, k).waiters && T(s', w) == T(s, w)
  {
    var m := s.tasks[t].pc.m;
    assert MutexBounded(s, m) && Listed(s, m, t) && Listed(s, k, t);
    MinusFacts(M(s, m).waiters, t);
  }

  lemma TimeoutKeeps(s: State, t: TaskId)
    requires Inv(s) && t in s.tasks && s.tasks[t].pc.Waiting?
    ensures Queues(TimeoutNext(s, t))
  {
    var s' := TimeoutNext(s, t);
    assert TaskFree(s, t) && TaskAccounted(s, t);
    forall u | u in s'.tasks ensures TaskFree(s', u) { assert TaskFree(s, u); }
    forall k, u ensures Listed(s', k, u) { TimeoutListed(s, t, k, u); }
    forall k ensures MutexBounded(s', k) { TimeoutBounded(s, t, k); }
  }

  /** Tasks that neither wait nor hold nor inherit come and go. */
  lemma PlaceQueues(s: State, a: Action)
    requires Inv(s) && Enabled(s, a) && NoHolderBlocks(s, a) && (a.Leave? || a.Arrive? || a.RequestSwitch? || a.Switch?)
    ensures Queues(StepEnabled(s, a))
  {
    var s' := StepEnabled(s, a);
    forall t | t in s'.tasks ensures TaskFree(s', t) { assert TaskFree(s, t); }
    forall k, t ensures Listed(s', k, t) { assert Listed(s, k, t); }
    forall k ensures MutexBounded(s', k) {
      assert MutexBounded(s, k);
      BoundedFrame(s, s', k);
    }
  }

  lemma PlaceLed(s: State, a: Action)
    requires Inv(s) && Led(s) && Enabled(s, a) && (a.Leave? || a.Arrive? || a.RequestSwitch? || a.Switch?)
    ensures Led(StepEnabled(s, a))
  {
    var s' := StepEnabled(s, a);
    forall k ensures HasHeir(s', k) {
      assert HasHeir(s, k);
      if M(s, k).holder.None? { HeirFrame(s, s', k); }
    }
    if a.Arrive? && !s'.switchDue { forall t ensures TopOver(s', t) { assert TopOver(s, t); } }
  }

  // ---------- Steps ----------

  lemma TryKeeps(s: State, wait: bool)
    requires Inv(s) && Enabled(s, Try(wait)) && NoHolderBlocks(s, Try(wait)) && SafeStep(s, Try(wait))
    ensures Queues(StepEnabled(s, Try(wait)))
  {
    var pc := T(s, s.current).pc;
    assert TaskAccounted(s, s.current) && MutexAccounted(s, pc.m);
    if M(s, pc.m).count > 0 {
      TakeQueues(s, pc.m);
    } else {
      PcQueues(s, if wait then Checking(pc.m, pc.inherited) else Outside);
    }
  }

  lemma TryLed(s: State, wait: bool)
    requires Inv(s) && Led(s) && Enabled(s, Try(wait))
    ensures Led(StepEnabled(s, Try(wait))) && SafeStep(s, Try(wait))
  {
    var pc := T(s, s.current).pc;
    assert TaskAccounted(s, s.current) && MutexAccounted(s, pc.m);
    if M(s, pc.m).count > 0 {
      LedTakesSafely(s, pc.m);
      TakeLed(s, pc.m);
    } else {
      PcLed(s, if wait then Checking(pc.m, pc.inherited) else Outside);
    }
  }

  lemma CheckKeeps(s: State, expired: bool)
    requires Inv(s) && Enabled(s, Check(expired))
    ensures Queues(StepEnabled(s, Check(expired)))
    ensures Led(s) ==> Led(StepEnabled(s, Check(expired)))
  {
    var pc := T(s, s.current).pc;
    assert TaskAccounted(s, s.current) && MutexAccounted(s, pc.m) && TaskFree(s, s.current);
    if M(s, pc.m).count == 0 && !expired {
      BlockQueues(s, pc.m);
      if Led(s) { BlockLed(s, pc.m); }
    } else {
      var next := if M(s, pc.m).count > 0 then Trying(pc.m, pc.inherited) else if pc.inherited then Expired(pc.m) else Outside;
      PcQueues(s, next);
      if Led(s) { PcLed(s, next); }
    }
  }

  /** Every step keeps the bound, but for a take that is not safe. */
  lemma StepBounded(s: State, a: Action)
    requires Inv(s) && (Enabled(s, a) ==> NoHolderBlocks(s, a) && SafeStep(s, a))
    ensures Inv(Step(s, a))
  {
    StepAccounted(s, a);
    if Enabled(s, a) {
      var pc := T(s, s.current).pc;
      assert TaskAccounted(s, s.current);
      match a
      case Call(m) => PcQueues(s, Trying(m, false));
      case Try(wait) => TryKeeps(s, wait);
      case Check(expired) => CheckKeeps(s, expired);
      case AfterTimeout => AfterTimeoutQueues(s, pc.m);
      case Give(m) => GiveQueues(s, m);
      case Timeout(t) => TimeoutKeeps(s, t);
      case _ => PlaceQueues(s, a);
    }
  }

  /** While the right task runs, takes are safe; and it does, but for a give that loses its yield. */
  lemma StepLed(s: State, a: Action)
    requires Inv(s) && Led(s) && Enabled(s, a) && (a.Give? ==> !LostYield(s, a.m))
    ensures SafeStep(s, a) && Led(Step(s, a))
  {
    var pc := T(s, s.current).pc;
    assert TaskAccounted(s, s.current);
    match a
    case Call(m) => PcLed(s, Trying(m, false));
    case Try(wait) => TryLed(s, wait);
    case Check(expired) => CheckKeeps(s, expired);
    case AfterTimeout => AfterTimeoutLed(s, pc.m);
    case Give(m) => GiveHeirs(s, m); GiveTop(s, m);
    case Timeout(t) => TimeoutLed(s, t);
    case _ => PlaceLed(s, a);
  }

  // ---------- Whole runs ----------

  predicate NobodyBlocksHolding(s: State, run: seq<Action>)
    decreases |run|
  {
    run == [] || ((Enabled(s, run[0]) ==> NoHolderBlocks(s, run[0])) && NobodyBlocksHolding(Step(s, run[0]), run[1..]))
  }

  /** Whenever a task finds a mutex free, it is not below the first task that waits for it. */
  predicate SafeTakes(s: State, run: seq<Action>)
    decreases |run|
  {
    run == [] || ((Enabled(s, run[0]) ==> SafeStep(s, run[0])) && SafeTakes(Step(s, run[0]), run[1..]))
  }

  ghost predicate NoYieldLost(s: State, run: seq<Action>)
    decreases |run|
  {
    run == [] || ((Enabled(s, run[0]) && run[0].Give? ==> !LostYield(s, run[0].m)) && NoYieldLost(Step(s, run[0]), run[1..]))
  }

  ghost predicate Bounded(s: State) {
    forall m {:trigger HolderOutranks(s, m)} :: HolderOutranks(s, m)
  }

  /** The property in every state of the run. */
  ghost predicate AlwaysBounded(s: State, run: seq<Action>)
    decreases |run|
  {
    Bounded(s) && (run == [] || AlwaysBounded(Step(s, run[0]), run[1..]))
  }

  /**
   In every run of takes, timed takes and gives in which no task blocks while it holds a mutex,
   each holder's priority is at least that of every task waiting for its mutex, in every state,
   if and only if every take of a free mutex is by a task not below the first one that waits.
   */
  lemma {:induction false} BoundedExactly(s: State, run: seq<Action>)
    requires Inv(s) && NobodyBlocksHolding(s, run)
    ensures AlwaysBounded(s, run) <==> SafeTakes(s, run)
    decreases |run|
  {
    forall m ensures HolderOutranks(s, m) { assert MutexBounded(s, m); }
    if run != [] {
      if Enabled(s, run[0]) && !SafeStep(s, run[0]) {
        UnsafeBreaks(s, T(s, s.current).pc.m);
        assert !Bounded(Step(s, run[0]));
      } else {
        StepBounded(s, run[0]);
        BoundedExactly(Step(s, run[0]), run[1..]);
      }
    }
  }

  /** So it holds in every run in which no give loses its yield. */
  lemma {:induction false} RunBounded(s: State, run: seq<Action>)
    requires Inv(s) && Led(s) && NobodyBlocksHolding(s, run) && NoYieldLost(s, run)
    ensures SafeTakes(s, run) && AlwaysBounded(s, run)
    decreases |run|
  {
    if run != [] {
      var s' := Step(s, run[0]);
      if Enabled(s, run[0]) { StepLed(s, run[0]); }
      StepBounded(s, run[0]);
      RunBounded(s', run[1..]);
    }
    BoundedExactly(s, run);
  }

  /** Before any mutex is taken, with the best ready task running. */
  ghost predicate Init(s: State) {
    && IsReady(s, s.current) && (forall t :: IsReady(s, t) ==> Prio(s, t) <= Prio(s, s.current))
    && (forall t :: t in s.tasks ==> TcbOk(s.tasks[t].tcb) && s.tasks[t].tcb.held == 0 && s.tasks[t].pc == Outside)
    && (forall m :: m in s.mutexes ==> s.mutexes[m] == Mutex(1, None, []))
  }

  lemma InitInv(s: State)
    requires Init(s)
    ensures Inv(s) && Led(s)
  {
    InitAccounted(s);
  }
}
