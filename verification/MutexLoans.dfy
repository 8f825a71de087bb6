/**
 What a mutex lends and takes back. Each step of the inheritance protocol in terms of the
 priorities it leads to, and over whole runs: a task runs above its base priority only while a
 task of that priority still waits for its mutex or is about to give up.
 */
module MutexLoans {
  import opened Wrappers
  import opened ListView
  import opened Tasks
  import opened MutexProtocol
  import opened MutexAccounting
  import opened MutexInversion

  function Base(s: State, t: TaskId): nat {
    T(s, t).tcb.base
  }

  // ---------- Single steps ----------

  /** A task has a new priority and, if it is ready, is in the ready list of it; nothing else changed. */
  predicate OnlyPriority(a: Task, b: Task) {
    && b.pc == a.pc && b.tcb.base == a.tcb.base && b.tcb.held == a.tcb.held
    && b.tcb.event == a.tcb.event && b.tcb.wake == a.tcb.wake
    && b.tcb.place == (if a.tcb.place.Ready? then Ready(b.tcb.prio) else a.tcb.place)
    && b.tcb.evt == PRIORITIES - b.tcb.prio
  }

  /**
   A waiter gives up after its timeout. A holder of this mutex alone falls to the best waiter that
   is left, or to its base priority if that is higher or nobody is left; any other holder keeps
   what it has.
   */
  lemma LoanEnds(s: State)
    requires Inv(s) && Enabled(s, AfterTimeout)
    ensures var s', m := Step(s, AfterTimeout), T(s, s.current).pc.m;
            && (forall t :: t in s'.tasks <==> t in s.tasks) && s'.mutexes == s.mutexes && s'.current == s.current && s'.switchDue == s.switchDue
            && T(s', s.current) == T(s, s.current).(pc := Outside)
            && (forall t :: t != s.current && M(s, m).holder != Some(t) ==> T(s', t) == T(s, t))
            && (M(s, m).holder.Some? ==>
                 var h, list := M(s, m).holder.value, M(s, m).waiters;
                 if T(s, h).tcb.held != 1 then T(s', h) == T(s, h)
                 else
                   && OnlyPriority(T(s, h), T(s', h))
                   && Base(s, h) <= Prio(s', h) && (forall w :: w in list ==> Prio(s, w) <= Prio(s', h))
                   && (Prio(s', h) == Base(s, h) || exists w :: w in list && Prio(s', h) == Prio(s, w)))
  {
    var m := T(s, s.current).pc.m;
    assert TaskFree(s, s.current) && TaskAccounted(s, s.current);
    assert Step(s, AfterTimeout) == SetPc(Disinherited(s, m), Outside);
    if M(s, m).holder.Some? {
      var h, list := M(s, m).holder.value, M(s, m).waiters;
      HolderHolds(s, m);
      HighestWaitingBound(s, m);
      forall w | w in list ensures Prio(s, w) <= HighestWaiting(s, m) { HeadHighest(s, m, w); }
      if list != [] { assert list[0] in list; }
    }
  }

  /**
   A caller blocks on a mutex that is held: the holder has the larger of both priorities, the
   caller waits behind all that are not below it and before the rest, and remembers that it
   lent its priority exactly if the holder's base priority is lower.
   */
  lemma LoanBegins(s: State)
    requires Inv(s) && Enabled(s, Check(false)) && M(s, T(s, s.current).pc.m).holder.Some?
    ensures var s', m := Step(s, Check(false)), T(s, s.current).pc.m;
            var h, list := M(s, m).holder.value, M(s, m).waiters;
            && h != s.current && OnlyPriority(T(s, h), T(s', h))
            && Prio(s', h) == (if Prio(s, h) < Prio(s, s.current) then Prio(s, s.current) else Prio(s, h))
            && (forall t :: t != s.current && t != h ==> T(s', t) == T(s, t))
            && T(s', s.current).pc == Waiting(m, Base(s, h) < Prio(s, s.current)) && !IsReady(s', s.current)
            && Prio(s', s.current) == Prio(s, s.current) && Base(s', s.current) == Base(s, s.current) && T(s', s.current).tcb.held == 0
            && s'.current == s.current && s'.switchDue
            && s'.mutexes == s.mutexes[m := M(s, m).(waiters := M(s', m).waiters)]
            && exists k :: WaitsBehind(s, list, k) && M(s', m).waiters == InsertAt(list, k, s.current)
  {
    var m := T(s, s.current).pc.m;
    var h, list, s1, s' := M(s, m).holder.value, M(s, m).waiters, Inherit(s, M(s, m).holder).0, Block(s, m);
    assert TaskFree(s, s.current) && TaskAccounted(s, s.current) && MutexAccounted(s, m);
    InheritFacts(s, m);
    assert TaskAccounted(s, h);
    assert Step(s, Check(false)) == s';
    var k := FirstGreater(Values(s1, list), T(s, s.current).tcb.evt);
    assert M(s', m).waiters == InsertAt(list, k, s.current);
    BehindEquals(s, m, k);
  }

  predicate WaitsBehind(s: State, list: seq<TaskId>, k: nat) {
    && k <= |list|
    && (forall i :: 0 <= i < k ==> Prio(s, s.current) <= Prio(s, list[i]))
    && (forall i :: k <= i < |list| ==> Prio(s, list[i]) < Prio(s, s.current))
  }

  lemma BehindEquals(s: State, m: MutexId, k: nat)
    requires Inv(s) && T(s, s.current).pc.Checking? && M(s, m).holder.Some? && s.current in s.tasks
    requires k == FirstGreater(Values(Inherit(s, M(s, m).holder).0, M(s, m).waiters), T(s, s.current).tcb.evt)
    ensures WaitsBehind(s, M(s, m).waiters, k)
  {
    var list, s1 := M(s, m).waiters, Inherit(s, M(s, m).holder).0;
    assert TaskFree(s, s.current) && TaskAccounted(s, s.current) && MutexBounded(s, m);
    InheritFacts(s, m);
    forall w | w in list ensures T(s1, w) == T(s, w) { WaiterFacts(s, m, w); }
    SameValues(s, s1, list);
    SortedInsert(Values(s, list), T(s, s.current).tcb.evt);
    forall i | 0 <= i < |list| ensures if i < k then Prio(s, s.current) <= Prio(s, list[i]) else Prio(s, list[i]) < Prio(s, s.current) {
      WaiterFacts(s, m, list[i]);
      assert Values(s, list)[i] == PRIORITIES - Prio(s, list[i]);
    }
  }

  /** A free mutex is taken: the taker holds one more, and no priority changes. */
  lemma LoanTaken(s: State, wait: bool)
    requires Inv(s) && Enabled(s, Try(wait)) && M(s, T(s, s.current).pc.m).holder.None?
    ensures var s', m, c := Step(s, Try(wait)), T(s, s.current).pc.m, s.current;
            && s'.current == c && s'.switchDue == s.switchDue
            && s'.mutexes == s.mutexes[m := Mutex(0, Some(c), M(s, m).waiters)]
            && T(s', c) == Task(T(s, c).tcb.(held := T(s, c).tcb.held + 1), Outside)
            && (forall t :: t != c ==> T(s', t) == T(s, t))
  {
    assert TaskAccounted(s, s.current) && MutexAccounted(s, T(s, s.current).pc.m);
  }

  /**
   A give: the giver of its last mutex falls to its base priority; the first waiter, if any, is
   ready to look again; a switch is due if that one outranks the giver, or if nobody waits and
   the giver fell.
   */
  lemma LoanRepaid(s: State, m: MutexId)
    requires Inv(s) && Enabled(s, Give(m))
    ensures var s', c, list := Step(s, Give(m)), s.current, M(s, m).waiters;
            && s'.current == c && s'.mutexes == s.mutexes[m := Mutex(1, None, if list == [] then [] else list[1..])]
            && OnlyPriority(T(s, c).(tcb := T(s, c).tcb.(held := T(s, c).tcb.held - 1)), T(s', c))
            && Prio(s', c) == (if T(s, c).tcb.held == 1 then Base(s, c) else Prio(s, c))
            && (forall t :: t != c && (list == [] || t != list[0]) ==> T(s', t) == T(s, t))
            && (list != [] ==>
                 && IsReady(s', list[0]) && T(s, list[0]).pc.Waiting? && T(s', list[0]).pc == Trying(m, T(s, list[0]).pc.inherited)
                 && Prio(s', list[0]) == Prio(s, list[0]) && T(s', list[0]).tcb.event == NoEvent)
            && (s'.switchDue <==> if list == [] then Prio(s', c) < Prio(s, c) else Prio(s', c) < Prio(s', list[0]))
  {
    var list := M(s, m).waiters;
    assert TaskAccounted(s, s.current);
    GiveFacts(s, m, s.current);
    if list != [] {
      GiveFacts(s, m, list[0]);
      WaiterFacts(s, m, list[0]);
    }
    assert Step(s, Give(m)) == GiveNext(s, m);
  }

  /** A waiter's time is over: it alone leaves the list, and asks for a switch unless it is outranked. */
  lemma WaitEnds(s: State, t: TaskId)
    requires Inv(s) && Enabled(s, Timeout(t))
    ensures var s', m := Step(s, Timeout(t)), T(s, t).pc.m;
            && t in M(s, m).waiters && s'.mutexes == s.mutexes[m := M(s, m).(waiters := Minus(M(s, m).waiters, t))]
            && s'.current == s.current && (s'.switchDue <==> s.switchDue || Prio(s, s.current) <= Prio(s, t))
            && IsReady(s', t) && T(s', t).pc == Trying(m, T(s, t).pc.inherited) && T(s', t).tcb.event == NoEvent
            && Prio(s', t) == Prio(s, t) && Base(s', t) == Base(s, t)
            && (forall u :: u != t ==> T(s', u) == T(s, u))
  {
    assert Listed(s, T(s, t).pc.m, t) && TaskAccounted(s, t);
  }

  /**
   The other moves of a call change nothing but its place in the call. A call has lent nothing
   when it starts. It ends when it finds the mutex taken and must not wait, or when its time is
   over and it has lent nothing; if it has, the loan ends first.
   */
  lemma CallMoves(s: State, a: Action)
    requires Inv(s) && Enabled(s, a) && (a.Call? || a.Try? || a.Check?)
    requires a.Try? ==> M(s, T(s, s.current).pc.m).holder.Some?
    requires a.Check? ==> a.expired || M(s, T(s, s.current).pc.m).holder.None?
    ensures var s', c, pc := Step(s, a), s.current, T(s, s.current).pc;
            var taken := !a.Call? && M(s, pc.m).holder.Some?;
            && s' == s.(tasks := s'.tasks) && (forall t :: t != c ==> T(s', t) == T(s, t)) && T(s', c).tcb == T(s, c).tcb
            && (a.Call? ==> T(s', c).pc == Trying(a.m, false))
            && (a.Try? ==> T(s', c).pc == if a.wait then Checking(pc.m, pc.inherited) else Outside)
            && (a.Check? ==> T(s', c).pc == if !taken then Trying(pc.m, pc.inherited) else if pc.inherited then Expired(pc.m) else Outside)
  {
    assert TaskAccounted(s, s.current);
    if !a.Call? { assert MutexAccounted(s, T(s, s.current).pc.m); }
  }

  // ---------- Whole runs ----------

  /** Each task deals with one mutex at a time. */
  predicate Single(s: State, t: TaskId) {
    T(s, t).tcb.held <= 1 && (!T(s, t).pc.Outside? ==> T(s, t).tcb.held == 0)
  }

  /** A waiter that the holder's base priority does not cover remembers that it lent its own. */
  predicate Remembers(s: State, m: MutexId, w: TaskId) {
    M(s, m).holder.Some? && w in M(s, m).waiters && Base(s, M(s, m).holder.value) < Prio(s, w) ==>
      T(s, w).pc.Waiting? && T(s, w).pc.inherited
  }

  /** The task wants the mutex, and will see to it that its loan ends. */
  predicate Lends(s: State, m: MutexId, w: TaskId) {
    w in s.tasks && !T(s, w).pc.Outside? && T(s, w).pc.m == m && (T(s, w).pc.Expired? || T(s, w).pc.inherited)
  }

  ghost predicate Lent(s: State, m: MutexId) {
    M(s, m).holder.Some? && Base(s, M(s, m).holder.value) < Prio(s, M(s, m).holder.value) ==>
      exists w :: Lends(s, m, w) && Prio(s, w) == Prio(s, M(s, m).holder.value)
  }

  ghost predicate Loans(s: State) {
    && Inv(s)
    && (forall t {:trigger Single(s, t)} :: Single(s, t))
    && (forall m, w {:trigger Remembers(s, m, w)} :: Remembers(s, m, w))
    && (forall m {:trigger Lent(s, m)} :: Lent(s, m))
  }

  /** Neither the holder nor the lenders of the mutex change in what counts. */
  lemma LentFrame(s: State, s': State, m: MutexId)
    requires Lent(s, m) && M(s', m).holder == M(s, m).holder
    requires M(s, m).holder.Some? ==> Prio(s', M(s, m).holder.value) == Prio(s, M(s, m).holder.value)
    requires M(s, m).holder.Some? ==> Base(s', M(s, m).holder.value) == Base(s, M(s, m).holder.value)
    requires forall w :: Lends(s, m, w) ==> Lends(s', m, w) && Prio(s', w) == Prio(s, w)
    ensures Lent(s', m)
  {}

  /** Priorities, holders and counts stay, nobody joins a list, and a task's place in the call stays or moves on. */
  lemma LoansFrame(s: State, s': State)
    requires Loans(s) && Inv(s')
    requires forall t :: Prio(s', t) == Prio(s, t) && Base(s', t) == Base(s, t) && T(s', t).tcb.held == T(s, t).tcb.held
    requires forall t :: !T(s', t).pc.Outside? ==> T(s, t).tcb.held == 0
    requires forall m :: M(s', m).holder == M(s, m).holder
    requires forall m, w :: w in M(s', m).waiters ==> w in M(s, m).waiters && T(s', w).pc == T(s, w).pc
    requires forall m, w :: M(s, m).holder.Some? && Lends(s, m, w) ==> Lends(s', m, w)
    ensures Loans(s')
  {
    forall t ensures Single(s', t) { assert Single(s, t); }
    forall m, w ensures Remembers(s', m, w) { assert Remembers(s, m, w); }
    forall m ensures Lent(s', m) { assert Lent(s, m); }
  }

  /** The step does not let a task that holds a mutex ask for another. */
  predicate OneMutex(s: State, a: Action) {
    a.Call? ==> T(s, s.current).tcb.held == 0
  }

  predicate Careful(s: State, a: Action) {
    Enabled(s, a) ==> NoHolderBlocks(s, a) && SafeStep(s, a) && OneMutex(s, a)
  }

  /** Call, a mutex that is not free, and the end of the wait: the caller moves on in its call. */
  lemma PcLoans(s: State, pc: Pc)
    requires Loans(s) && Running(s) && !T(s, s.current).pc.Waiting? && Inv(SetPc(s, pc)) && !pc.Waiting?
    requires pc.Outside? || T(s, s.current).tcb.held == 0
    requires forall m :: M(s, m).holder.Some? && Lends(s, m, s.current) ==> Lends(SetPc(s, pc), m, s.current)
    ensures Loans(SetPc(s, pc))
  {
    var s' := SetPc(s, pc);
    forall t ensures !T(s', t).pc.Outside? ==> T(s, t).tcb.held == 0 { assert Single(s, t); }
    forall m ensures s.current !in M(s, m).waiters { assert Listed(s, m, s.current); }
    LoansFrame(s, s');
  }

  lemma TakeLoans(s: State, wait: bool)
    requires Loans(s) && Enabled(s, Try(wait)) && Careful(s, Try(wait)) && M(s, T(s, s.current).pc.m).holder.None?
    ensures Loans(Step(s, Try(wait)))
  {
    var s', m, c := Step(s, Try(wait)), T(s, s.current).pc.m, s.current;
    StepBounded(s, Try(wait));
    LoanTaken(s, wait);
    assert Single(s, c) && TaskAccounted(s, c) && MutexAccounted(s, m);
    forall t ensures Single(s', t) { assert Single(s, t); }
    forall k, w ensures Remembers(s', k, w) {
      assert Remembers(s, k, w) && Listed(s, k, c);
      if k == m && w in M(s, m).waiters { HeadHighest(s, m, w); }
      if M(s, k).holder.Some? { HolderHolds(s, k); }
    }
    forall k ensures Lent(s', k) {
      assert Lent(s, k);
      if k != m && M(s, k).holder.Some? { HolderHolds(s, k); LentFrame(s, s', k); }
    }
  }

  lemma BlockLoans(s: State)
    requires Loans(s) && Enabled(s, Check(false)) && M(s, T(s, s.current).pc.m).holder.Some?
    ensures Loans(Step(s, Check(false)))
  {
    var s', m, c := Step(s, Check(false)), T(s, s.current).pc.m, s.current;
    var h, list := M(s, m).holder.value, M(s, m).waiters;
    StepBounded(s, Check(false));
    LoanBegins(s);
    HolderHolds(s, m);
    assert TaskFree(s, c) && TaskAccounted(s, c) && Single(s, h);
    forall t ensures Single(s', t) { assert Single(s, t); }
    forall k, w ensures Remembers(s', k, w) { BlockRemembers(s, k, w); }
    forall k ensures Lent(s', k) { BlockLent(s, k); }
  }

  lemma BlockLent(s: State, k: MutexId)
    requires Loans(s) && Enabled(s, Check(false)) && M(s, T(s, s.current).pc.m).holder.Some?
    ensures Lent(Step(s, Check(false)), k)
  {
    var s', m, c := Step(s, Check(false)), T(s, s.current).pc.m, s.current;
    var h := M(s, m).holder.value;
    LoanBegins(s);
    HolderHolds(s, m);
    assert Single(s, h) && Lent(s, k);
    if k == m {
      if Prio(s, h) < Prio(s, c) {
        assert Base(s, h) < Prio(s', h) ==> Lends(s', m, c);
      } else if Base(s, h) < Prio(s, h) {
        var w :| Lends(s, m, w) && Prio(s, w) == Prio(s, h);
        assert Lends(s', m, w);
      }
    } else if M(s, k).holder.Some? {
      HolderHolds(s, k);
      if M(s, k).holder.value == h { OnlyOne(s, h, m, k); }
      LentFrame(s, s', k);
    }
  }

  lemma BlockRemembers(s: State, k: MutexId, w: TaskId)
    requires Loans(s) && Enabled(s, Check(false)) && M(s, T(s, s.current).pc.m).holder.Some?
    ensures Remembers(Step(s, Check(false)), k, w)
  {
    var s', m := Step(s, Check(false)), T(s, s.current).pc.m;
    var h, list := M(s, m).holder.value, M(s, m).waiters;
    LoanBegins(s);
    HolderHolds(s, m);
    assert Remembers(s, k, w) && Listed(s, k, s.current) && Listed(s, k, h) && TaskFree(s, h);
    var i :| WaitsBehind(s, list, i) && M(s', m).waiters == InsertAt(list, i, s.current);
    InsertedMembers(list, i, s.current);
    if M(s, k).holder.Some? { HolderHolds(s, k); }
  }

  lemma InsertedMembers(list: seq<TaskId>, k: nat, t: TaskId)
    requires k <= |list|
    ensures forall w :: w in InsertAt(list, k, t) <==> w in list || w == t
  {
    assert list == list[..k] + list[k..];
  }

  lemma AfterTimeoutLoans(s: State)
    requires Loans(s) && Enabled(s, AfterTimeout)
    ensures Loans(Step(s, AfterTimeout))
  {
    var s', m, c := Step(s, AfterTimeout), T(s, s.current).pc.m, s.current;
    StepBounded(s, AfterTimeout);
    LoanEnds(s);
    assert TaskFree(s, c) && TaskAccounted(s, c);
    if M(s, m).holder.Some? { HolderHolds(s, m); assert Single(s, M(s, m).holder.value); }
    forall t ensures Single(s', t) { assert Single(s, t); }
    forall k, w ensures Remembers(s', k, w) {
      assert Remembers(s, k, w) && Listed(s, k, w) && Listed(s, k, c);
      if w in M(s, k).waiters { WaiterFacts(s, k, w); }
      if M(s, k).holder.Some? { HolderHolds(s, k); }
    }
    forall k ensures Lent(s', k) { AfterTimeoutLent(s, k); }
  }

  lemma AfterTimeoutLent(s: State, k: MutexId)
    requires Loans(s) && Enabled(s, AfterTimeout)
    ensures Lent(Step(s, AfterTimeout), k)
  {
    var s', m, c := Step(s, AfterTimeout), T(s, s.current).pc.m, s.current;
    LoanEnds(s);
    assert TaskFree(s, c) && Lent(s, k);
    if M(s, m).holder.Some? { HolderHolds(s, m); }
    if M(s, k).holder.Some? {
      var h := M(s, k).holder.value;
      HolderHolds(s, k);
      assert Single(s, h);
      if k == m {
        if Base(s, h) < Prio(s', h) {
          var w :| w in M(s, m).waiters && Prio(s', h) == Prio(s, w);
          assert Remembers(s, m, w);
          WaiterFacts(s, m, w);
          assert Lends(s', m, w);
        }
      } else {
        if M(s, m).holder == Some(h) { OnlyOne(s, h, m, k); }
        forall w: TaskId | Lends(s, k, w) ensures Lends(s', k, w) && Prio(s', w) == Prio(s, w) {
          assert Single(s, w);
        }
        LentFrame(s, s', k);
      }
    }
  }

  lemma GiveLoans(s: State, m: MutexId)
    requires Loans(s) && Enabled(s, Give(m))
    ensures Loans(Step(s, Give(m)))
  {
    var s', c, list := Step(s, Give(m)), s.current, M(s, m).waiters;
    StepBounded(s, Give(m));
    LoanRepaid(s, m);
    assert Single(s, c);
    if list != [] { WaiterFacts(s, m, list[0]); }
    forall t ensures Single(s', t) { assert Single(s, t); }
    forall k, w ensures Remembers(s', k, w) {
      assert Remembers(s, k, w) && Listed(s, k, c) && Listed(s, k, w);
      if M(s, k).holder.Some? { HolderHolds(s, k); if M(s, k).holder.value == c { OnlyOne(s, c, m, k); } }
      if list != [] { assert Listed(s, m, list[0]); }
    }
    forall k ensures Lent(s', k) {
      assert Lent(s, k);
      if k != m && M(s, k).holder.Some? {
        HolderHolds(s, k);
        if M(s, k).holder.value == c { OnlyOne(s, c, m, k); }
        LentFrame(s, s', k);
      }
    }
  }

  lemma TimeoutLoans(s: State, t: TaskId)
    requires Loans(s) && Enabled(s, Timeout(t))
    ensures Loans(Step(s, Timeout(t)))
  {
    var s', m := Step(s, Timeout(t)), T(s, t).pc.m;
    StepBounded(s, Timeout(t));
    WaitEnds(s, t);
    WaiterFacts(s, m, t);
    forall u ensures T(s', u).tcb.held == T(s, u).tcb.held && (!T(s', u).pc.Outside? ==> T(s, u).tcb.held == 0) { assert Single(s, u); }
    forall k: MutexId, w | w in M(s', k).waiters ensures w in M(s, k).waiters && T(s', w).pc == T(s, w).pc { TimeoutLeaves(s, t, k); }
    LoansFrame(s, s');
  }

  lemma StepLoans(s: State, a: Action)
    requires Loans(s) && Careful(s, a)
    ensures Loans(Step(s, a))
  {
    StepBounded(s, a);
    if Enabled(s, a) {
      var pc := T(s, s.current).pc;
      assert TaskAccounted(s, s.current) && TaskFree(s, s.current) && Single(s, s.current);
      match a
      case Call(m) => PcLoans(s, Trying(m, false));
      case Try(wait) =>
        assert MutexAccounted(s, pc.m);
        if M(s, pc.m).count > 0 { TakeLoans(s, wait); } else { PcLoans(s, if wait then Checking(pc.m, pc.inherited) else Outside); }
      case Check(expired) =>
        assert MutexAccounted(s, pc.m);
        if M(s, pc.m).count > 0 {
          PcLoans(s, Trying(pc.m, pc.inherited));
        } else if !expired {
          BlockLoans(s);
        } else {
          PcLoans(s, if pc.inherited then Expired(pc.m) else Outside);
        }
      case AfterTimeout => AfterTimeoutLoans(s);
      case Give(m) => GiveLoans(s, m);
      case Timeout(t) => TimeoutLoans(s, t);
      case _ => PlaceLoans(s, a);
    }
  }

  lemma PlaceLoans(s: State, a: Action)
    requires Loans(s) && Enabled(s, a) && Inv(Step(s, a)) && (a.Leave? || a.Arrive? || a.RequestSwitch? || a.Switch?)
    ensures Loans(Step(s, a))
  {
    var s' := Step(s, a);
    forall t ensures T(s', t) == T(s, t).(tcb := T(s, t).tcb.(place := T(s', t).tcb.place)) {}
    forall t ensures !T(s', t).pc.Outside? ==> T(s, t).tcb.held == 0 { assert Single(s, t); }
    LoansFrame(s, s');
  }

  predicate AllCareful(s: State, run: seq<Action>)
    decreases |run|
  {
    run == [] || (Careful(s, run[0]) && AllCareful(Step(s, run[0]), run[1..]))
  }

  lemma {:induction false} RunLoans(s: State, run: seq<Action>)
    requires Loans(s) && AllCareful(s, run)
    ensures Loans(Exec(s, run))
    decreases |run|
  {
    if run != [] {
      StepLoans(s, run[0]);
      RunLoans(Step(s, run[0]), run[1..]);
    }
  }

  /**
   From start-up, in every run in which each task deals with one mutex at a time and takes are
   safe: no loan outlives its lender. A task above its base priority holds a mutex that a task of
   exactly that priority waits for, or is about to try again or to give up.
   */
  lemma NoLoanOutlivesItsLender(s: State, run: seq<Action>, t: TaskId)
    requires Init(s) && AllCareful(s, run)
    ensures var e := Exec(s, run);
            t in e.tasks && Prio(e, t) != Base(e, t) ==>
              exists m, w :: M(e, m).holder == Some(t) && Lends(e, m, w) && Prio(e, w) == Prio(e, t) > Base(e, t)
  {
    var e := Exec(s, run);
    InitInv(s);
    forall u ensures Single(s, u) {}
    forall m, w ensures Remembers(s, m, w) {}
    RunLoans(s, run);
    if t in e.tasks && Prio(e, t) != Base(e, t) {
      assert TaskAccounted(e, t);
      var m :| m in HeldSet(e, t);
      assert Lent(e, m);
    }
  }
}
