/**
 The wakeup protocol of queue.c. Tasks run the retry loops of send, receive (or semaphore
 take) and peek; interrupts send and receive at any point. One step is one critical section
 or one move between two of them, so every interleaving the kernel allows is a sequence of
 steps. While a task has suspended the scheduler no other task moves.
 */
module QueueProtocol {
  import opened Wrappers
  import opened ListView
  import opened QueueSections

  datatype Kind = Sender | Receiver | Peeker

  /** How the locked part of the loop ended. */
  datatype Ending = Placed | Retry | Expired

  datatype Pc =
    | Idle
    | Trying(kind: Kind)      // before the first critical section; off the CPU while on an event list
    | Blocking(kind: Kind)    // the queue could not serve the call, about to suspend the scheduler
    | Suspended(kind: Kind)   // scheduler suspended, about to lock the queue
    | Locked(kind: Kind)      // about to check the timeout and look at the queue again
    | Placing(kind: Kind)     // saw an empty (full) queue, about to join the event list
    | UnlockingTx(kind: Kind, ending: Ending)
    | UnlockingRx(kind: Kind, ending: Ending)
    | Resuming(kind: Kind, ending: Ending)
    | LastLook(kind: Kind)    // timed out; one more look before reporting failure

  datatype State = State(
    q: Queue,
    pc: map<TaskId, Pc>,
    suspender: Option<TaskId>,
    wokenReceivers: set<TaskId>,  // taken off xTasksWaitingToReceive, not yet looked again
    wokenSenders: set<TaskId>)

  datatype Action =
    | Call(t: TaskId, kind: Kind)
    | Try(t: TaskId, item: Item, position: Position, wait: bool)
    | SuspendAll(t: TaskId)
    | LockQueue(t: TaskId)
    | LookAgain(t: TaskId, expired: bool)
    | Place(t: TaskId, at: nat)
    | UnlockTxHalf(t: TaskId)
    | UnlockRxHalf(t: TaskId)
    | ResumeAll(t: TaskId)
    | FinalLook(t: TaskId)
    | TimeOut(t: TaskId)
    | InterruptSend(item: Item, position: Position)
    | InterruptReceive

  predicate CanRun(s: State, t: TaskId) {
    t in s.pc && (s.suspender == None || s.suspender == Some(t))
  }

  predicate Waits(q: Queue, t: TaskId) {
    t in q.recvWaiters || t in q.sendWaiters
  }

  predicate Enabled(s: State, a: Action) {
    match a
    case Call(t, _) => CanRun(s, t) && s.pc[t] == Idle
    case Try(t, _, position, wait) =>
      && CanRun(s, t) && s.pc[t].Trying? && !Waits(s.q, t)
      && (position == Overwrite ==> s.q.length == 1)
      && (wait ==> s.suspender == None)
    case SuspendAll(t) => CanRun(s, t) && s.suspender == None && (s.pc[t].Blocking? || s.pc[t] == Idle)
    case LockQueue(t) => CanRun(s, t) && s.pc[t].Suspended?
    case LookAgain(t, _) => CanRun(s, t) && s.pc[t].Locked?
    case Place(t, at) =>
      && CanRun(s, t) && s.pc[t].Placing?
      && at <= |if s.pc[t].kind == Sender then s.q.sendWaiters else s.q.recvWaiters|
    case UnlockTxHalf(t) => CanRun(s, t) && s.pc[t].UnlockingTx?
    case UnlockRxHalf(t) => CanRun(s, t) && s.pc[t].UnlockingRx?
    case ResumeAll(t) =>
      && CanRun(s, t) && s.suspender == Some(t)
      && (s.pc[t].Resuming? || s.pc[t] == Idle)
    case FinalLook(t) => CanRun(s, t) && s.pc[t].LastLook?
    case TimeOut(t) => s.suspender == None && Waits(s.q, t)
    case InterruptSend(_, position) => position == Overwrite ==> s.q.length == 1
    case InterruptReceive => true
  }

  function AsSet(woken: Option<TaskId>): set<TaskId> {
    if woken == None then {} else {woken.value}
  }

  function Elements(waiters: seq<TaskId>): set<TaskId> {
    set t | t in waiters
  }

  /** The queue cannot serve this kind of call: it is full for a sender, empty otherwise. */
  predicate Stuck(q: Queue, kind: Kind) {
    if kind == Sender then |q.items| == q.length else |q.items| == 0
  }

  /** The critical section at the top of the retry loop. */
  function TryStep(s: State, t: TaskId, item: Item, position: Position, wait: bool): State
    requires t in s.pc && s.pc[t].Trying?
  {
    var kind := s.pc[t].kind;
    var o := match kind
      case Sender => SendSection(s.q, item, position)
      case Receiver => ReceiveSection(s.q)
      case Peeker => PeekSection(s.q);
    var receivers := s.wokenReceivers - {t};
    var senders := s.wokenSenders - {t};
    State(o.q,
          s.pc[t := if o.ok || !wait then Idle else Blocking(kind)],
          s.suspender,
          if kind == Receiver then receivers else receivers + AsSet(o.woken),
          if kind == Receiver then senders + AsSet(o.woken) else senders)
  }

  /** `xTaskCheckForTimeOut`, then `prvIsQueueFull` or `prvIsQueueEmpty`. */
  function LookStep(s: State, t: TaskId, expired: bool): State
    requires t in s.pc && s.pc[t].Locked?
  {
    var kind := s.pc[t].kind;
    s.(pc := s.pc[t := if expired then UnlockingTx(kind, Expired)
                       else if Stuck(s.q, kind) then Placing(kind)
                       else UnlockingTx(kind, Retry)])
  }

  /** `vTaskPlaceOnEventList`; `at` covers whatever place the priorities give the task. */
  function PlaceStep(s: State, t: TaskId, at: nat): State
    requires t in s.pc && s.pc[t].Placing?
    requires at <= |if s.pc[t].kind == Sender then s.q.sendWaiters else s.q.recvWaiters|
  {
    var kind := s.pc[t].kind;
    s.(pc := s.pc[t := UnlockingTx(kind, Placed)],
       q := if kind == Sender then s.q.(sendWaiters := InsertAt(s.q.sendWaiters, at, t))
            else s.q.(recvWaiters := InsertAt(s.q.recvWaiters, at, t)))
  }

  function AfterResume(pc: Pc): Pc
    requires pc.Resuming?
  {
    if pc.ending != Expired then Trying(pc.kind)
    else if pc.kind == Sender then Idle
    else LastLook(pc.kind)
  }

  function Step(s: State, a: Action): State {
    if !Enabled(s, a) then s else
    match a
    case Call(t, kind) => s.(pc := s.pc[t := Trying(kind)])
    case Try(t, item, position, wait) => TryStep(s, t, item, position, wait)
    case SuspendAll(t) =>
      s.(suspender := Some(t), pc := s.pc[t := if s.pc[t] == Idle then Idle else Suspended(s.pc[t].kind)])
    case LockQueue(t) => s.(q := Lock(s.q), pc := s.pc[t := Locked(s.pc[t].kind)])
    case LookAgain(t, expired) => LookStep(s, t, expired)
    case Place(t, at) => PlaceStep(s, t, at)
    case UnlockTxHalf(t) =>
      s.(q := UnlockTx(s.q), pc := s.pc[t := UnlockingRx(s.pc[t].kind, s.pc[t].ending)],
         wokenReceivers := s.wokenReceivers + Elements(WokenByUnlockTx(s.q)))
    case UnlockRxHalf(t) =>
      s.(q := UnlockRx(s.q), pc := s.pc[t := Resuming(s.pc[t].kind, s.pc[t].ending)],
         wokenSenders := s.wokenSenders + Elements(WokenByUnlockRx(s.q)))
    case ResumeAll(t) =>
      s.(suspender := None, pc := s.pc[t := if s.pc[t] == Idle then Idle else AfterResume(s.pc[t])])
    case FinalLook(t) => s.(pc := s.pc[t := if Stuck(s.q, s.pc[t].kind) then Idle else Trying(s.pc[t].kind)])
    case TimeOut(t) =>
      s.(q := s.q.(recvWaiters := Minus(s.q.recvWaiters, t), sendWaiters := Minus(s.q.sendWaiters, t)))
    case InterruptSend(item, position) =>
      var o := SendFromISR(s.q, item, position);
      s.(q := o.q, wokenReceivers := s.wokenReceivers + AsSet(o.woken))
    case InterruptReceive =>
      var o := ReceiveFromISR(s.q);
      s.(q := o.q, wokenSenders := s.wokenSenders + AsSet(o.woken))
  }

  function Exec(s: State, run: seq<Action>): State
    decreases |run|
  {
    if run == [] then s else Exec(Step(s, run[0]), run[1..])
  }

  // ---------- The invariant ----------

  /** One event list of the queue, the tasks woken from it, and the lock count that feeds it. */
  datatype Side = Side(waiters: seq<TaskId>, woken: set<TaskId>, lock: int)

  function Receivers(s: State): Side {
    Side(s.q.recvWaiters, s.wokenReceivers, s.q.txLock)
  }

  function Senders(s: State): Side {
    Side(s.q.sendWaiters, s.wokenSenders, s.q.rxLock)
  }

  /** Messages are what receivers wait for, free slots are what senders wait for. */
  function Messages(s: State): int {
    |s.q.items|
  }

  function FreeSlots(s: State): int {
    s.q.length - |s.q.items|
  }

  /** While a task waits, every unit has a woken task or a counted interrupt behind it. */
  ghost predicate Remembered(side: Side, amount: int) {
    side.waiters != [] ==> amount <= |side.woken| + Positive(side.lock)
  }

  ghost predicate SideSane(side: Side) {
    && NoDuplicates(side.waiters)
    && forall t :: t in side.waiters ==> t !in side.woken
  }

  ghost predicate SideOk(side: Side, amount: int) {
    SideSane(side) && Remembered(side, amount)
  }

  /** What a task that is about to join an event list has seen is still accounted for. */
  ghost predicate PlacingSafe(s: State) {
    forall t :: t in s.pc && s.pc[t].Placing? ==>
      if s.pc[t].kind == Sender then FreeSlots(s) <= Positive(s.q.rxLock)
      else Messages(s) <= Positive(s.q.txLock)
  }

  predicate TxHeld(pc: Pc) {
    pc.Locked? || pc.Placing? || pc.UnlockingTx?
  }

  predicate RxHeld(pc: Pc) {
    TxHeld(pc) || pc.UnlockingRx?
  }

  predicate NeedsSuspension(pc: Pc) {
    RxHeld(pc) || pc.Suspended? || pc.Resuming?
  }

  /** The lock counts are in use exactly while the suspender is between lock and unlock. */
  ghost predicate LocksOwned(s: State) {
    && (forall t :: t in s.pc && NeedsSuspension(s.pc[t]) ==> s.suspender == Some(t))
    && (s.suspender.Some? ==> s.suspender.value in s.pc)
    && (s.q.txLock >= 0 <==> s.suspender.Some? && TxHeld(s.pc[s.suspender.value]))
    && (s.q.rxLock >= 0 <==> s.suspender.Some? && RxHeld(s.pc[s.suspender.value]))
    && -1 <= s.q.txLock <= INT8_MAX && -1 <= s.q.rxLock <= INT8_MAX
  }

  predicate MayWait(pc: Pc) {
    pc.Trying? || ((pc.UnlockingTx? || pc.UnlockingRx? || pc.Resuming?) && pc.ending == Placed)
  }

  /** A task is on the event list of its kind, or woken from it, only where its loop lets it be. */
  ghost predicate WaitersInPlace(s: State) {
    && (forall t :: t in s.q.recvWaiters || t in s.wokenReceivers ==> t in s.pc && MayWait(s.pc[t]) && s.pc[t].kind != Sender)
    && (forall t :: t in s.q.sendWaiters || t in s.wokenSenders ==> t in s.pc && MayWait(s.pc[t]) && s.pc[t].kind == Sender)
  }

  ghost predicate CountsInv(s: State) {
    |s.q.items| <= s.q.length && SideOk(Receivers(s), Messages(s)) && SideOk(Senders(s), FreeSlots(s))
  }

  ghost predicate ControlInv(s: State) {
    LocksOwned(s) && WaitersInPlace(s) && PlacingSafe(s)
  }

  ghost predicate Inv(s: State) {
    CountsInv(s) && ControlInv(s)
  }

  /** A queue as `xQueueGenericCreate` leaves it, and no call in progress. */
  ghost predicate Init(s: State) {
    && s.q.items == [] && s.q.rxLock == UNLOCKED && s.q.txLock == UNLOCKED
    && s.q.sendWaiters == [] && s.q.recvWaiters == []
    && (forall t :: t in s.pc ==> s.pc[t] == Idle)
    && s.suspender == None && s.wokenReceivers == {} && s.wokenSenders == {}
  }

  /** The assertion of the interrupt versions: a lock count never reaches its limit. */
  predicate LockAsserted(s: State, a: Action) {
    && (a.InterruptSend? ==> s.q.txLock != INT8_MAX)
    && (a.InterruptReceive? ==> s.q.rxLock != INT8_MAX)
  }

  // ---------- What the steps do to one side ----------

  lemma {:induction false} ElementsCount(waiters: seq<TaskId>)
    requires NoDuplicates(waiters)
    ensures |Elements(waiters)| == |waiters|
  {
    if waiters != [] {
      ElementsCount(waiters[1..]);
      assert Elements(waiters) == Elements(waiters[1..]) + {waiters[0]};
    }
  }

  lemma DisjointCount(a: set<TaskId>, b: set<TaskId>)
    requires a !! b
    ensures |a + b| == |a| + |b|
  {}

  function Wake(side: Side): Side {
    side.(waiters := TailOf(side.waiters), woken := side.woken + AsSet(HeadOf(side.waiters)))
  }

  /** Waking the first waiter pays for one more unit. */
  lemma WakePays(side: Side, amount: int)
    requires SideOk(side, amount)
    ensures SideOk(Wake(side), amount + 1)
    ensures forall t :: t in Wake(side).waiters || t in Wake(side).woken ==> t in side.waiters || t in side.woken
  {
    if side.waiters != [] {
      DisjointCount(side.woken, {side.waiters[0]});
      assert side.waiters == [side.waiters[0]] + side.waiters[1..];
    }
  }

  function LookedAgain(side: Side, t: TaskId): Side {
    side.(woken := side.woken - {t})
  }

  /** A woken task that looks again takes its unit out of the account. */
  lemma LookingCosts(side: Side, t: TaskId, amount: int)
    requires SideOk(side, amount)
    ensures SideOk(LookedAgain(side, t), amount - 1)
    ensures t !in side.woken ==> LookedAgain(side, t) == side
  {
    if t in side.woken {
      DisjointCount(side.woken - {t}, {t});
      assert side.woken == side.woken - {t} + {t};
    } else {
      assert side.woken - {t} == side.woken;
    }
  }

  function Unlock(side: Side): Side {
    Side(Drop(side.waiters, Positive(side.lock)),
         side.woken + Elements(Take(side.waiters, Positive(side.lock))), UNLOCKED)
  }

  /** Unlocking wakes as many waiters as interrupts were counted, or all there are. */
  lemma UnlockPays(side: Side, amount: int)
    requires SideOk(side, amount)
    ensures SideOk(Unlock(side), amount)
    ensures forall t :: t in Unlock(side).waiters || t in Unlock(side).woken ==> t in side.waiters || t in side.woken
  {
    var woken := Take(side.waiters, Positive(side.lock));
    assert NoDuplicates(woken);
    ElementsCount(woken);
    DisjointCount(side.woken, Elements(woken));
    assert forall t :: t in Unlock(side).waiters ==> t in side.waiters && t !in woken;
  }

  lemma TimeOutPays(side: Side, t: TaskId, amount: int)
    requires SideOk(side, amount)
    ensures SideOk(side.(waiters := Minus(side.waiters, t)), amount)
    ensures forall u :: u in Minus(side.waiters, t) ==> u in side.waiters
  {
    if t in side.waiters { MinusFacts(side.waiters, t); }
  }

  lemma JoinPays(side: Side, at: nat, t: TaskId, amount: int)
    requires SideOk(side, amount) && at <= |side.waiters|
    requires t !in side.waiters && t !in side.woken && amount <= Positive(side.lock)
    ensures SideOk(side.(waiters := InsertAt(side.waiters, at, t)), amount)
    ensures forall u :: u in InsertAt(side.waiters, at, t) <==> u in side.waiters || u == t
  {
    InsertFacts(side.waiters, at, t);
  }

  // ---------- Every step keeps the invariant ----------

  /** The two sides after the first critical section, by kind of call and outcome. */
  lemma TrySides(s: State, a: Action)
    requires Enabled(s, a) && a.Try?
    ensures var t, kind, s' := a.t, s.pc[a.t].kind, Step(s, a);
            var receivers, senders := LookedAgain(Receivers(s), t), LookedAgain(Senders(s), t);
            if kind == Sender then
              (if HasRoom(s.q, a.position) then
                 Receivers(s') == Wake(receivers) && Senders(s') == senders
               else Receivers(s') == receivers && Senders(s') == senders && FreeSlots(s') == FreeSlots(s))
            else if s.q.items == [] then Receivers(s') == receivers && Senders(s') == senders && s'.q.items == []
            else if kind == Receiver then
              Receivers(s') == receivers && Senders(s') == Wake(senders) && Messages(s') == Messages(s) - 1
            else
              Receivers(s') == Wake(receivers) && Senders(s') == senders && Messages(s') == Messages(s)
    ensures s.pc[a.t].kind == Sender && HasRoom(s.q, a.position) ==>
              Messages(Step(s, a)) == Messages(s) + (if a.position == Overwrite && s.q.items != [] then 0 else 1)
    ensures Step(s, a).q.length == s.q.length
  {}

  lemma TryCountsSender(s: State, a: Action)
    requires CountsInv(s) && WaitersInPlace(s) && Enabled(s, a) && a.Try? && s.pc[a.t].kind == Sender
    ensures CountsInv(Step(s, a))
  {
    TrySides(s, a);
    LookingCosts(Receivers(s), a.t, Messages(s));
    assert LookedAgain(Receivers(s), a.t) == Receivers(s);
    LookingCosts(Senders(s), a.t, FreeSlots(s));
    WakePays(Receivers(s), Messages(s));
  }

  lemma TryCountsReceiver(s: State, a: Action)
    requires CountsInv(s) && WaitersInPlace(s) && Enabled(s, a) && a.Try? && s.pc[a.t].kind != Sender
    ensures CountsInv(Step(s, a))
  {
    TrySides(s, a);
    LookingCosts(Senders(s), a.t, FreeSlots(s));
    assert LookedAgain(Senders(s), a.t) == Senders(s);
    LookingCosts(Receivers(s), a.t, Messages(s));
    WakePays(Senders(s), FreeSlots(s));
    WakePays(LookedAgain(Receivers(s), a.t), Messages(s) - 1);
  }

  /** Only the caller's own place in its loop changes, and no lock count does. */
  lemma TryMoves(s: State, a: Action)
    requires Enabled(s, a) && a.Try?
    ensures var s' := Step(s, a);
            && (s'.pc == s.pc[a.t := Idle] || s'.pc == s.pc[a.t := Blocking(s.pc[a.t].kind)])
            && s'.q.txLock == s.q.txLock && s'.q.rxLock == s.q.rxLock && s'.suspender == s.suspender
  {}

  lemma TryWaiters(s: State, a: Action)
    requires CountsInv(s) && WaitersInPlace(s) && Enabled(s, a) && a.Try?
    ensures WaitersInPlace(Step(s, a))
  {
    var t, s' := a.t, Step(s, a);
    TryMoves(s, a);
    TrySides(s, a);
    var receivers, senders := LookedAgain(Receivers(s), t), LookedAgain(Senders(s), t);
    LookingCosts(Receivers(s), t, Messages(s));
    LookingCosts(Senders(s), t, FreeSlots(s));
    WakePays(receivers, Messages(s) - 1);
    WakePays(senders, FreeSlots(s) - 1);
    assert Within(receivers, Receivers(s), t) && Within(senders, Senders(s), t);
    StillInPlace(s, s', t);
  }

  /** Nobody joined this side, and `t` is not on it. */
  ghost predicate Within(side: Side, before: Side, t: TaskId) {
    forall u :: u in side.waiters || u in side.woken ==> u != t && (u in before.waiters || u in before.woken)
  }

  lemma StillInPlace(s: State, s': State, t: TaskId)
    requires WaitersInPlace(s) && t in s'.pc && s'.pc == s.pc[t := s'.pc[t]]
    requires Within(Receivers(s'), Receivers(s), t) && Within(Senders(s'), Senders(s), t)
    ensures WaitersInPlace(s')
  {}

  lemma TryControl(s: State, a: Action)
    requires Inv(s) && Enabled(s, a) && a.Try?
    ensures ControlInv(Step(s, a))
  {
    TryMoves(s, a);
    TryWaiters(s, a);
    assert forall u :: u in s.pc && s.pc[u].Placing? ==> u != a.t && s.suspender == Some(u);
  }

  lemma PlaceKeeps(s: State, a: Action)
    requires Inv(s) && Enabled(s, a) && a.Place?
    ensures Inv(Step(s, a))
  {
    PlaceCounts(s, a);
    PlaceControl(s, a);
  }

  lemma PlaceCounts(s: State, a: Action)
    requires Inv(s) && Enabled(s, a) && a.Place?
    ensures CountsInv(Step(s, a))
  {
    if s.pc[a.t].kind == Sender {
      JoinPays(Senders(s), a.at, a.t, FreeSlots(s));
    } else {
      JoinPays(Receivers(s), a.at, a.t, Messages(s));
    }
  }

  lemma PlaceControl(s: State, a: Action)
    requires Inv(s) && Enabled(s, a) && a.Place?
    ensures ControlInv(Step(s, a))
  {
    if s.pc[a.t].kind == Sender {
      JoinPays(Senders(s), a.at, a.t, FreeSlots(s));
    } else {
      JoinPays(Receivers(s), a.at, a.t, Messages(s));
    }
  }

  lemma UnlockSides(s: State, a: Action)
    requires Enabled(s, a)
    ensures a.UnlockTxHalf? ==> Receivers(Step(s, a)) == Unlock(Receivers(s)) && Senders(Step(s, a)) == Senders(s)
    ensures a.UnlockRxHalf? ==> Senders(Step(s, a)) == Unlock(Senders(s)) && Receivers(Step(s, a)) == Receivers(s)
    ensures a.UnlockTxHalf? || a.UnlockRxHalf? ==>
              Step(s, a).q.items == s.q.items && Step(s, a).q.length == s.q.length && Step(s, a).suspender == s.suspender
  {}

  lemma UnlockCounts(s: State, a: Action)
    requires CountsInv(s) && Enabled(s, a) && (a.UnlockTxHalf? || a.UnlockRxHalf?)
    ensures CountsInv(Step(s, a))
  {
    UnlockSides(s, a);
    if a.UnlockTxHalf? {
      UnlockPays(Receivers(s), Messages(s));
    } else {
      UnlockPays(Senders(s), FreeSlots(s));
    }
  }

  lemma UnlockWaiters(s: State, a: Action)
    requires CountsInv(s) && WaitersInPlace(s) && Enabled(s, a) && (a.UnlockTxHalf? || a.UnlockRxHalf?)
    ensures WaitersInPlace(Step(s, a))
  {
    var s' := Step(s, a);
    UnlockSides(s, a);
    if a.UnlockTxHalf? {
      UnlockPays(Receivers(s), Messages(s));
    } else {
      UnlockPays(Senders(s), FreeSlots(s));
    }
    assert forall u :: u in Receivers(s').waiters || u in Receivers(s').woken ==> u in Receivers(s).waiters || u in Receivers(s).woken;
    assert forall u :: u in Senders(s').waiters || u in Senders(s').woken ==> u in Senders(s).waiters || u in Senders(s).woken;
    UnlockMoves(s, a);
  }

  lemma UnlockMoves(s: State, a: Action)
    requires Enabled(s, a) && (a.UnlockTxHalf? || a.UnlockRxHalf?)
    ensures forall u :: u in s.pc ==> u in Step(s, a).pc
    ensures forall u :: u in s.pc && MayWait(s.pc[u]) ==>
              MayWait(Step(s, a).pc[u]) && Step(s, a).pc[u].kind == s.pc[u].kind
  {}

  lemma UnlockControl(s: State, a: Action)
    requires Inv(s) && Enabled(s, a) && (a.UnlockTxHalf? || a.UnlockRxHalf?)
    ensures ControlInv(Step(s, a))
  {
    UnlockWaiters(s, a);
    UnlockOwned(s, a);
  }

  lemma UnlockOwned(s: State, a: Action)
    requires LocksOwned(s) && Enabled(s, a) && (a.UnlockTxHalf? || a.UnlockRxHalf?)
    ensures LocksOwned(Step(s, a)) && PlacingSafe(Step(s, a))
  {
    assert s.suspender == Some(a.t);
  }

  lemma TimeOutKeeps(s: State, a: Action)
    requires Inv(s) && Enabled(s, a) && a.TimeOut?
    ensures Inv(Step(s, a))
  {
    TimeOutPays(Receivers(s), a.t, Messages(s));
    TimeOutPays(Senders(s), a.t, FreeSlots(s));
  }

  lemma InterruptSides(s: State, a: Action)
    requires Enabled(s, a) && LockAsserted(s, a)
    ensures a.InterruptSend? && HasRoom(s.q, a.position) ==>
              && Receivers(Step(s, a)) == (if s.q.txLock == UNLOCKED then Wake(Receivers(s)) else Receivers(s).(lock := s.q.txLock + 1))
              && Senders(Step(s, a)) == Senders(s)
              && Messages(s) <= Messages(Step(s, a)) <= Messages(s) + 1
              && (a.position != Overwrite ==> Messages(Step(s, a)) == Messages(s) + 1)
              && (a.position == Overwrite ==> Messages(Step(s, a)) == 1 || Messages(Step(s, a)) == Messages(s))
    ensures a.InterruptReceive? && s.q.items != [] ==>
              && Senders(Step(s, a)) == (if s.q.rxLock == UNLOCKED then Wake(Senders(s)) else Senders(s).(lock := s.q.rxLock + 1))
              && Receivers(Step(s, a)) == Receivers(s)
              && Messages(Step(s, a)) == Messages(s) - 1
    ensures a.InterruptSend? && !HasRoom(s.q, a.position) ==> Step(s, a) == s
    ensures a.InterruptReceive? && s.q.items == [] ==> Step(s, a) == s
    ensures a.InterruptSend? || a.InterruptReceive? ==>
              Step(s, a).q.length == s.q.length && Step(s, a).pc == s.pc && Step(s, a).suspender == s.suspender
  {
    assert s.wokenReceivers + {} == s.wokenReceivers && s.wokenSenders + {} == s.wokenSenders;
  }

  lemma InterruptCounts(s: State, a: Action)
    requires CountsInv(s) && s.q.txLock >= -1 && s.q.rxLock >= -1
    requires Enabled(s, a) && LockAsserted(s, a) && (a.InterruptSend? || a.InterruptReceive?)
    ensures CountsInv(Step(s, a))
  {
    InterruptSides(s, a);
    if a.InterruptSend? {
      WakePays(Receivers(s), Messages(s));
    } else {
      WakePays(Senders(s), FreeSlots(s));
    }
  }

  lemma InterruptControl(s: State, a: Action)
    requires Inv(s)
    requires Enabled(s, a) && LockAsserted(s, a) && (a.InterruptSend? || a.InterruptReceive?)
    ensures ControlInv(Step(s, a))
  {
    InterruptSides(s, a);
    InterruptWaiters(s, a);
    assert LocksOwned(Step(s, a));
  }

  lemma InterruptWaiters(s: State, a: Action)
    requires Inv(s)
    requires Enabled(s, a) && LockAsserted(s, a) && (a.InterruptSend? || a.InterruptReceive?)
    ensures WaitersInPlace(Step(s, a))
  {
    InterruptSides(s, a);
    if a.InterruptSend? {
      WakePays(Receivers(s), Messages(s));
    } else {
      WakePays(Senders(s), FreeSlots(s));
    }
  }

  /** A look under the lock that finds the queue stuck has seen the account balanced. */
  lemma LookKeeps(s: State, a: Action)
    requires Inv(s) && Enabled(s, a) && a.LookAgain?
    ensures Inv(Step(s, a))
  {
    assert CountsInv(Step(s, a));
    assert s.suspender == Some(a.t);
  }

  predicate Local(a: Action) {
    a.Call? || a.SuspendAll? || a.LockQueue? || a.ResumeAll? || a.FinalLook?
  }

  lemma LocalCounts(s: State, a: Action)
    requires CountsInv(s) && Enabled(s, a) && Local(a)
    ensures CountsInv(Step(s, a))
  {}

  lemma LocalControl(s: State, a: Action)
    requires ControlInv(s) && Enabled(s, a) && Local(a)
    ensures ControlInv(Step(s, a))
  {
    LocalOwned(s, a);
  }

  lemma LocalOwned(s: State, a: Action)
    requires LocksOwned(s) && Enabled(s, a) && Local(a)
    ensures LocksOwned(Step(s, a))
  {}

  lemma StepKeeps(s: State, a: Action)
    requires Inv(s) && LockAsserted(s, a)
    ensures Inv(Step(s, a))
  {
    if Enabled(s, a) {
      match a
      case Try(_, _, _, _) =>
        if s.pc[a.t].kind == Sender { TryCountsSender(s, a); } else { TryCountsReceiver(s, a); }
        TryControl(s, a);
      case Place(_, _) => PlaceKeeps(s, a);
      case UnlockTxHalf(_) => UnlockCounts(s, a); UnlockControl(s, a);
      case UnlockRxHalf(_) => UnlockCounts(s, a); UnlockControl(s, a);
      case LookAgain(_, _) => LookKeeps(s, a);
      case TimeOut(_) => TimeOutKeeps(s, a);
      case InterruptSend(_, _) => InterruptCounts(s, a); InterruptControl(s, a);
      case InterruptReceive => InterruptCounts(s, a); InterruptControl(s, a);
      case _ => LocalCounts(s, a); LocalControl(s, a);
    }
  }

  /** No lock count reaches its limit in this run. */
  predicate LocksInRange(s: State, run: seq<Action>)
    decreases |run|
  {
    run == [] || (LockAsserted(s, run[0]) && LocksInRange(Step(s, run[0]), run[1..]))
  }

  lemma {:induction false} RunKeeps(s: State, run: seq<Action>)
    requires Inv(s) && LocksInRange(s, run)
    ensures Inv(Exec(s, run))
    decreases |run|
  {
    if run != [] {
      StepKeeps(s, run[0]);
      RunKeeps(Step(s, run[0]), run[1..]);
    }
  }

  // ---------- No wakeup is lost ----------

  /**
   In every interleaving: while a task waits to receive, the messages are at most the woken
   receivers that have not looked again plus the sends counted by the lock; the same for
   tasks waiting to send and free slots.
   */
  lemma NoLostWakeup(s: State, run: seq<Action>)
    requires Init(s) && LocksInRange(s, run)
    ensures var e := Exec(s, run);
            && (e.q.recvWaiters != [] ==> |e.q.items| <= |e.wokenReceivers| + Positive(e.q.txLock))
            && (e.q.sendWaiters != [] ==> e.q.length - |e.q.items| <= |e.wokenSenders| + Positive(e.q.rxLock))
  {
    RunKeeps(s, run);
  }

  /** Once nothing is in progress, nobody waits for what is there. */
  lemma QuiescentMeansServed(s: State, run: seq<Action>)
    requires Init(s) && LocksInRange(s, run)
    ensures var e := Exec(s, run);
            e.suspender == None && e.wokenReceivers == {} && e.wokenSenders == {} ==>
              && (e.q.items == [] || e.q.recvWaiters == [])
              && (|e.q.items| == e.q.length || e.q.sendWaiters == [])
  {
    RunKeeps(s, run);
  }

  /** The deque bound holds in every run, interrupts included. */
  lemma NeverOverfull(s: State, run: seq<Action>)
    requires Init(s) && LocksInRange(s, run)
    ensures |Exec(s, run).q.items| <= s.q.length
  {
    RunKeeps(s, run);
    LengthFixed(s, run);
  }

  lemma {:induction false} LengthFixed(s: State, run: seq<Action>)
    ensures Exec(s, run).q.length == s.q.length
    decreases |run|
  {
    if run != [] { LengthFixed(Step(s, run[0]), run[1..]); }
  }

  // ---------- What the assertion on the lock counts is for ----------

  lemma {:induction false} ExecTwice(s: State, first: seq<Action>, second: seq<Action>)
    ensures Exec(s, first + second) == Exec(Exec(s, first), second)
    decreases |first|
  {
    if first == [] {
      assert [] + second == second;
    } else {
      assert (first + second)[1..] == first[1..] + second;
      ExecTwice(Step(s, first[0]), first[1..], second);
    }
  }

  function Sends(item: Item, n: nat): seq<Action> {
    seq(n, _ => InterruptSend(item, SendToBack))
  }

  function Copies(item: Item, n: nat): seq<Item> {
    seq(n, _ => item)
  }

  /** Sends from interrupts to a locked queue are counted. */
  lemma {:induction false} SendsCounted(s: State, item: Item, n: nat)
    requires 0 <= s.q.txLock && s.q.txLock + n <= INT8_MAX && |s.q.items| + n <= s.q.length
    ensures Exec(s, Sends(item, n)) == s.(q := s.q.(items := s.q.items + Copies(item, n), txLock := s.q.txLock + n))
    decreases n
  {
    if n == 0 {
      assert s.q.items + [] == s.q.items;
    } else {
      SendCounted(s, item);
      assert Sends(item, n) == [InterruptSend(item, SendToBack)] + Sends(item, n - 1);
      ExecFirst(s, InterruptSend(item, SendToBack), Sends(item, n - 1));
      SendsCounted(Step(s, InterruptSend(item, SendToBack)), item, n - 1);
      MoreCopies(s.q.items, item, n - 1);
    }
  }

  lemma SendCounted(s: State, item: Item)
    requires 0 <= s.q.txLock < INT8_MAX && |s.q.items| < s.q.length
    ensures Step(s, InterruptSend(item, SendToBack)) == s.(q := s.q.(items := s.q.items + [item], txLock := s.q.txLock + 1))
  {
    assert s.wokenReceivers + {} == s.wokenReceivers;
  }

  lemma ExecFirst(s: State, a: Action, rest: seq<Action>)
    ensures Exec(s, [a] + rest) == Exec(Step(s, a), rest)
  {
    assert ([a] + rest)[1..] == rest;
  }

  lemma MoreCopies(items: seq<Item>, item: Item, n: nat)
    ensures items + [item] + Copies(item, n) == items + Copies(item, n + 1)
  {}

  /** A receiver finds the queue empty, locks it and joins the event list. */
  function JoinRun(t: TaskId): seq<Action> {
    [Call(t, Receiver), Try(t, [], SendToBack, true), SuspendAll(t), LockQueue(t), LookAgain(t, false), Place(t, 0)]
  }

  function Joined(s: State, t: TaskId): State {
    s.(q := s.q.(rxLock := LOCKED_UNMODIFIED, txLock := LOCKED_UNMODIFIED, recvWaiters := [t]),
       pc := s.pc[t := UnlockingTx(Receiver, Placed)], suspender := Some(t))
  }

  lemma FirstHalfJoins(s: State, t: TaskId)
    requires Init(s) && t in s.pc && 0 < s.q.length
    ensures Exec(s, JoinRun(t)[..3]) == s.(pc := s.pc[t := Suspended(Receiver)], suspender := Some(t))
  {
    var run := JoinRun(t)[..3];
    assert run == [Call(t, Receiver), Try(t, [], SendToBack, true), SuspendAll(t)];
    assert run[1..] == [Try(t, [], SendToBack, true), SuspendAll(t)] && run[1..][1..] == [SuspendAll(t)] && run[1..][1..][1..] == [];
    var s1 := Step(s, run[0]);
    assert s1 == s.(pc := s.pc[t := Trying(Receiver)]);
    var s2 := Step(s1, run[1]);
    assert s.wokenReceivers - {t} == s.wokenReceivers && s.wokenSenders - {t} + {} == s.wokenSenders;
    assert s1.pc[t := Blocking(Receiver)] == s.pc[t := Blocking(Receiver)];
    assert s2 == s.(pc := s.pc[t := Blocking(Receiver)]);
    assert s2.pc[t := Suspended(Receiver)] == s.pc[t := Suspended(Receiver)];
    assert Exec(s, run) == Exec(s1, run[1..]) == Exec(s2, run[1..][1..]) == Exec(Step(s2, SuspendAll(t)), []);
  }

  lemma SecondHalfJoins(s: State, t: TaskId)
    requires Init(s) && t in s.pc && 0 < s.q.length
    ensures Exec(s.(pc := s.pc[t := Suspended(Receiver)], suspender := Some(t)), JoinRun(t)[3..]) == Joined(s, t)
  {
    var run := JoinRun(t)[3..];
    assert run == [LockQueue(t), LookAgain(t, false), Place(t, 0)];
    assert run[1..] == [LookAgain(t, false), Place(t, 0)] && run[1..][1..] == [Place(t, 0)] && run[1..][1..][1..] == [];
    var s0 := s.(pc := s.pc[t := Suspended(Receiver)], suspender := Some(t));
    var s1 := Step(s0, run[0]);
    assert s0.pc[t := Locked(Receiver)] == s.pc[t := Locked(Receiver)];
    var s2 := Step(s1, run[1]);
    assert s1.pc[t := Placing(Receiver)] == s.pc[t := Placing(Receiver)];
    var s3 := Step(s2, run[2]);
    assert s2.pc[t := UnlockingTx(Receiver, Placed)] == s.pc[t := UnlockingTx(Receiver, Placed)];
    assert InsertAt([], 0, t) == [t];
    assert s3 == Joined(s, t);
    assert Exec(s0, run) == Exec(s1, run[1..]) == Exec(s2, run[1..][1..]) == Exec(s3, []);
  }

  /** The send that wraps the count to -128, and the unlock that then wakes nobody. */
  lemma WrappedSend(s: State, t: TaskId, item: Item)
    requires CanRun(s, t) && s.pc[t] == UnlockingTx(Receiver, Placed)
    requires s.q.txLock == INT8_MAX && |s.q.items| < s.q.length && s.wokenReceivers == {}
    ensures var e := Step(Step(s, InterruptSend(item, SendToBack)), UnlockTxHalf(t));
            e == s.(q := s.q.(items := s.q.items + [item], txLock := UNLOCKED), pc := s.pc[t := UnlockingRx(Receiver, Placed)])
  {
    var s1 := Step(s, InterruptSend(item, SendToBack));
    assert s1 == s.(q := s.q.(items := s.q.items + [item], txLock := -128));
    assert Elements([]) == {} && s.wokenReceivers + {} == s.wokenReceivers;
  }

  lemma Resumes(s: State, t: TaskId)
    requires CanRun(s, t) && s.suspender == Some(t) && s.pc[t] == UnlockingRx(Receiver, Placed)
    requires s.q.rxLock == LOCKED_UNMODIFIED && s.wokenSenders == {}
    ensures var e := Step(Step(s, UnlockRxHalf(t)), ResumeAll(t));
            e.q == s.q.(rxLock := UNLOCKED) && e.suspender == None && e.wokenReceivers == s.wokenReceivers && e.wokenSenders == {}
  {
    assert Elements([]) == {} && s.wokenSenders + {} == s.wokenSenders;
  }

  lemma ExecFour(s: State, a: Action, b: Action, c: Action, d: Action)
    ensures Exec(s, [a, b, c, d]) == Step(Step(Step(Step(s, a), b), c), d)
  {
    assert [a, b, c, d][1..] == [b, c, d] && [b, c, d][1..] == [c, d] && [c, d][1..] == [d] && [d][1..] == [];
    assert Exec(Step(s, a), [b, c, d]) == Exec(Step(Step(s, a), b), [c, d]);
    assert Exec(Step(Step(s, a), b), [c, d]) == Exec(Step(Step(Step(s, a), b), c), [d]);
    assert Exec(Step(Step(Step(s, a), b), c), [d]) == Exec(Step(Step(Step(Step(s, a), b), c), d), []);
  }

  lemma UnlockWakesNobody(s: State, t: TaskId, item: Item)
    requires CanRun(s, t) && s.suspender == Some(t) && s.pc[t] == UnlockingTx(Receiver, Placed)
    requires s.q.txLock == INT8_MAX && s.q.rxLock == LOCKED_UNMODIFIED && |s.q.items| < s.q.length
    requires s.wokenReceivers == {} && s.wokenSenders == {}
    ensures var e := Exec(s, [InterruptSend(item, SendToBack), UnlockTxHalf(t), UnlockRxHalf(t), ResumeAll(t)]);
            && e.q.recvWaiters == s.q.recvWaiters && e.q.items == s.q.items + [item] && e.q.txLock == e.q.rxLock == UNLOCKED
            && e.suspender == None && e.wokenReceivers == {} && e.wokenSenders == {}
  {
    ExecFour(s, InterruptSend(item, SendToBack), UnlockTxHalf(t), UnlockRxHalf(t), ResumeAll(t));
    WrappedSend(s, t, item);
    Resumes(Step(Step(s, InterruptSend(item, SendToBack)), UnlockTxHalf(t)), t);
  }

  /**
   The assertion on the lock count is compiled out here, and without it wakeups are lost: from
   any fresh queue of more than 127 items, while a receiver joins the event list 128 sends from
   interrupts wrap the count, and the receiver then waits on although nothing is in progress
   and 128 messages are there.
   */
  lemma LockLimitLosesWakeups(s: State, t: TaskId, item: Item)
    requires Init(s) && t in s.pc && 127 < s.q.length
    ensures var e := Exec(s, JoinRun(t) + Sends(item, 127)
                             + [InterruptSend(item, SendToBack), UnlockTxHalf(t), UnlockRxHalf(t), ResumeAll(t)]);
            && e.q.recvWaiters == [t] && |e.q.items| == 128
            && e.suspender == None && e.wokenReceivers == {} && e.wokenSenders == {}
  {
    var last := [InterruptSend(item, SendToBack), UnlockTxHalf(t), UnlockRxHalf(t), ResumeAll(t)];
    assert JoinRun(t) == JoinRun(t)[..3] + JoinRun(t)[3..];
    ExecTwice(s, JoinRun(t)[..3], JoinRun(t)[3..]);
    FirstHalfJoins(s, t);
    SecondHalfJoins(s, t);
    ExecTwice(s, JoinRun(t), Sends(item, 127));
    SendsCounted(Joined(s, t), item, 127);
    ExecTwice(s, JoinRun(t) + Sends(item, 127), last);
    UnlockWakesNobody(Exec(Joined(s, t), Sends(item, 127)), t, item);
  }
}
