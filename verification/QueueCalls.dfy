/**
 One call of send, receive or peek from its first look to its end: when it ends at once, sleeps,
 tries again or gives up. The task's own moves, with nothing between them; what others do
 meanwhile is in QueueProtocol.
 */
module QueueCalls {
  import opened Wrappers
  import opened ListView
  import opened QueueSections
  import opened QueueProtocol

  /** What keeps this call from being served: no item, or no room, but overwriting needs none. */
  predicate Unserved(q: Queue, kind: Kind, position: Position) {
    if kind == Sender then |q.items| == q.length && position != Overwrite else q.items == []
  }

  /** A look at the queue serves the call, fails it at once if it must not wait, or sends it into the locked part. */
  lemma FirstLook(s: State, t: TaskId, item: Item, position: Position, wait: bool)
    requires Inv(s) && Enabled(s, Try(t, item, position, wait))
    ensures var s', kind := Step(s, Try(t, item, position, wait)), s.pc[t].kind;
            && s'.pc == s.pc[t := if Unserved(s.q, kind, position) && wait then Blocking(kind) else Idle]
            && s'.suspender == s.suspender
            && (Unserved(s.q, kind, position) ==> s'.q == s.q)
            && (!Unserved(s.q, kind, position) ==> match kind
                 case Sender => |s'.q.items| == (if s.q.items != [] && position == Overwrite then 1 else |s.q.items| + 1)
                 case Receiver => s.q.items == [s.q.items[0]] + s'.q.items
                 case Peeker => s'.q.items == s.q.items)
  {}

  /** Before it looks again, the task stops all other tasks and makes interrupts count. */
  lemma Locks(s: State, t: TaskId)
    requires Inv(s) && Enabled(s, SuspendAll(t)) && s.pc[t].Blocking?
    ensures var e := Step(Step(s, SuspendAll(t)), LockQueue(t));
            && e.pc == s.pc[t := Locked(s.pc[t].kind)] && e.suspender == Some(t)
            && e.q == s.q.(rxLock := LOCKED_UNMODIFIED, txLock := LOCKED_UNMODIFIED)
  {
    assert s.q.rxLock == UNLOCKED && s.q.txLock == UNLOCKED;
    var s1 := Step(s, SuspendAll(t));
    assert s1.pc[t] == Suspended(s.pc[t].kind);
  }

  /** The three moves that end the locked part. */
  function Unlocked(s: State, t: TaskId): State {
    Step(Step(Step(s, UnlockTxHalf(t)), UnlockRxHalf(t)), ResumeAll(t))
  }

  lemma UnlockedFacts(s: State, t: TaskId)
    requires Inv(s) && t in s.pc && s.pc[t].UnlockingTx? && s.suspender == Some(t)
    ensures var e := Unlocked(s, t);
            && e.pc == s.pc[t := AfterResume(Resuming(s.pc[t].kind, s.pc[t].ending))] && e.suspender == None
            && e.q.items == s.q.items && e.q.length == s.q.length && e.q.rxLock == UNLOCKED && e.q.txLock == UNLOCKED
            && (forall u :: u in s.q.recvWaiters || u in s.wokenReceivers <==> u in e.q.recvWaiters || u in e.wokenReceivers)
            && (forall u :: u in s.q.sendWaiters || u in s.wokenSenders <==> u in e.q.sendWaiters || u in e.wokenSenders)
  {
    var kind, ending := s.pc[t].kind, s.pc[t].ending;
    var s1 := Step(s, UnlockTxHalf(t));
    assert s1.pc == s.pc[t := UnlockingRx(kind, ending)];
    var s2 := Step(s1, UnlockRxHalf(t));
    assert s2.pc == s.pc[t := Resuming(kind, ending)];
    assert Step(s2, ResumeAll(t)).pc == s.pc[t := AfterResume(Resuming(kind, ending))];
    StillThere(s.q.recvWaiters, Positive(s.q.txLock));
    StillThere(s.q.sendWaiters, Positive(s.q.rxLock));
  }

  lemma StillThere(waiters: seq<TaskId>, n: nat)
    ensures forall u :: u in waiters <==> u in Drop(waiters, n) || u in Elements(QueueSections.Take(waiters, n))
  {
    if n <= |waiters| { assert waiters == waiters[..n] + waiters[n..]; }
  }

  /** If the call can be served by now, it tries again at once; it is on no event list. */
  lemma TriesAgain(s: State, t: TaskId)
    requires Inv(s) && Enabled(s, LookAgain(t, false)) && !Stuck(s.q, s.pc[t].kind)
    ensures var e := Unlocked(Step(s, LookAgain(t, false)), t);
            e.pc == s.pc[t := Trying(s.pc[t].kind)] && e.suspender == None && e.q.items == s.q.items && !Waits(e.q, t)
  {
    StepKeeps(s, LookAgain(t, false));
    UnlockedFacts(Step(s, LookAgain(t, false)), t);
    NotWaiting(s, t);
  }

  lemma NotWaiting(s: State, t: TaskId)
    requires Inv(s) && t in s.pc && s.pc[t].Locked?
    ensures t !in s.q.recvWaiters && t !in s.q.sendWaiters && t !in s.wokenReceivers && t !in s.wokenSenders
  {}

  /** If not, it joins the event list of its kind; the unlock may wake it for what interrupts did meanwhile. */
  lemma GoesToSleep(s: State, t: TaskId, at: nat)
    requires Inv(s) && Enabled(s, LookAgain(t, false)) && Stuck(s.q, s.pc[t].kind)
    requires at <= |if s.pc[t].kind == Sender then s.q.sendWaiters else s.q.recvWaiters|
    ensures var e := Unlocked(Step(Step(s, LookAgain(t, false)), Place(t, at)), t);
            && e.pc == s.pc[t := Trying(s.pc[t].kind)] && e.suspender == None && e.q.items == s.q.items
            && (if s.pc[t].kind == Sender then t in e.q.sendWaiters || t in e.wokenSenders
                else t in e.q.recvWaiters || t in e.wokenReceivers)
  {
    var s1 := Step(s, LookAgain(t, false));
    StepKeeps(s, LookAgain(t, false));
    assert Enabled(s1, Place(t, at));
    StepKeeps(s1, Place(t, at));
    var s2 := Step(s1, Place(t, at));
    JoinsList(if s.pc[t].kind == Sender then s.q.sendWaiters else s.q.recvWaiters, at, t);
    assert s2.pc == s.pc[t := UnlockingTx(s.pc[t].kind, Placed)];
    UnlockedFacts(s2, t);
  }

  lemma JoinsList(waiters: seq<TaskId>, at: nat, t: TaskId)
    requires at <= |waiters|
    ensures t in InsertAt(waiters, at, t)
  {
    assert InsertAt(waiters, at, t)[at] == t;
  }

  /** When its time is over a sender gives up, and a receiver or peeker looks once more. */
  lemma GivesUp(s: State, t: TaskId)
    requires Inv(s) && Enabled(s, LookAgain(t, true))
    ensures var e, kind := Unlocked(Step(s, LookAgain(t, true)), t), s.pc[t].kind;
            && e.pc == s.pc[t := if kind == Sender then Idle else LastLook(kind)]
            && e.suspender == None && e.q.items == s.q.items && !Waits(e.q, t)
  {
    var s1 := Step(s, LookAgain(t, true));
    StepKeeps(s, LookAgain(t, true));
    assert s1.pc == s.pc[t := UnlockingTx(s.pc[t].kind, Expired)];
    UnlockedFacts(s1, t);
    NotWaiting(s, t);
  }

  /** It gives up too exactly if there is still no item; else it tries again. */
  lemma LastLookEnds(s: State, t: TaskId)
    requires Inv(s) && Enabled(s, FinalLook(t)) && s.pc[t].kind != Sender
    ensures var s' := Step(s, FinalLook(t));
            s' == s.(pc := s.pc[t := if s.q.items == [] then Idle else Trying(s.pc[t].kind)])
  {}
}
