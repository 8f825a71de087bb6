/**
 Taking turns: among the ready tasks of the highest priority, context switches follow the order
 of their list, a task that becomes ready comes last, and one that leaves changes no other turn.
 */
module TaskTurns {
  import opened Wrappers
  import opened ListView
  import opened Tasks
  import opened TaskPartition
  import opened TaskTime

  /** The ready tasks of a priority in the order in which they will run. */
  function Turns(s: Sched, p: nat): seq<TaskId> {
    Order(ViewAt(s, Ready(p)))
  }

  /** Some task is ready at `p`, and none above it. */
  ghost predicate IsTop(s: Sched, p: nat) {
    && (exists t :: t in s.tcb && s.tcb[t].place == Ready(p))
    && (forall t :: t in s.tcb && s.tcb[t].place.Ready? ==> s.tcb[t].prio <= p)
  }

  lemma TopExists(s: Sched) returns (p: nat)
    requires Partition(s) && SomeTaskReady(s) && s.clock.suspended == 0
    ensures IsTop(s, p) && p == SwitchContext(s).topReady
  {
    SwitchContextPicksHighest(s);
    p := SwitchContext(s).topReady;
    assert Holds(s, s.tcb[SwitchContext(s).current].place);
  }

  /** The search from the cached bound ends at the highest priority with a ready task. */
  lemma SearchFindsTop(s: Sched, p: nat)
    requires Partition(s) && IsTop(s, p)
    ensures SomeReady(s, s.topReady) && HighestReady(s, s.topReady) == p && ListAt(s, Ready(p)) != []
  {
    var t :| t in s.tcb && s.tcb[t].place == Ready(p);
    assert Holds(s, Ready(p)) && t in ListAt(s, Ready(p));
    SomeReadyAbove(s, p, s.topReady);
    var q := HighestReady(s, s.topReady);
    assert Holds(s, Ready(q)) && ListAt(s, Ready(q))[0] in ListAt(s, Ready(q));
    assert q <= p;
  }

  /** The first in turn runs next, and goes to the end; everything else about the lists stays. */
  lemma SwitchTakesTurn(s: Sched, p: nat)
    requires Partition(s) && IsTop(s, p) && s.clock.suspended == 0
    ensures var s' := SwitchContext(s);
            && Turns(s, p) != [] && s'.current == Turns(s, p)[0]
            && Turns(s', p) == Turns(s, p)[1..] + [Turns(s, p)[0]]
            && s'.tcb == s.tcb && s'.clock == s.clock && !s'.yieldPending && (forall q: Place :: ListAt(s', q) == ListAt(s, q))
  {
    SearchFindsTop(s, p);
    NextVisitsFirst(ViewAt(s, Ready(p)));
    assert ViewAt(SwitchContext(s), Ready(p)) == Next(ViewAt(s, Ready(p)));
  }

  lemma SwitchKeepsTop(s: Sched, p: nat)
    requires Partition(s) && IsTop(s, p) && s.clock.suspended == 0
    ensures var s' := SwitchContext(s); Partition(s') && IsTop(s', p) && s'.clock.suspended == 0
  {
    SwitchTakesTurn(s, p);
    SwitchContextPicksHighest(s);
  }

  /** The tasks that run in `n` switches with nothing between them. */
  function Currents(s: Sched, n: nat): seq<TaskId>
    decreases n
  {
    if n == 0 then [] else [SwitchContext(s).current] + Currents(SwitchContext(s), n - 1)
  }

  lemma {:induction false} CurrentsFollowTurns(s: Sched, p: nat, n: nat)
    requires Partition(s) && IsTop(s, p) && s.clock.suspended == 0 && n <= |Turns(s, p)|
    ensures Currents(s, n) == Turns(s, p)[..n]
    decreases n
  {
    if n > 0 {
      var s' := SwitchContext(s);
      SwitchTakesTurn(s, p);
      SwitchKeepsTop(s, p);
      CurrentsFollowTurns(s', p, n - 1);
      RotatedPrefix(Turns(s, p), n);
    }
  }

  lemma RotatedPrefix(turns: seq<TaskId>, n: nat)
    requires 0 < n <= |turns|
    ensures [turns[0]] + (turns[1..] + [turns[0]])[..n - 1] == turns[..n]
  {}

  /** As many switches as tasks are ready at the highest priority: each of them runs exactly once. */
  lemma EachRunsOnce(s: Sched, p: nat)
    requires Partition(s) && IsTop(s, p) && s.clock.suspended == 0
    ensures var n := |ListAt(s, Ready(p))|;
            && multiset(Currents(s, n)) == multiset(ListAt(s, Ready(p))) && NoDuplicates(Currents(s, n))
            && forall t :: t in Currents(s, n) <==> t in s.tcb && s.tcb[t].place == Ready(p)
  {
    var v := ViewAt(s, Ready(p));
    assert Holds(s, Ready(p));
    CurrentsFollowTurns(s, p, |v.items|);
    assert Turns(s, p)[..|v.items|] == Turns(s, p);
    OrderPermutes(v);
    SameMembers(Turns(s, p), v.items);
    OrderDistinct(v);
  }

  lemma SameMembers(a: seq<TaskId>, b: seq<TaskId>)
    requires multiset(a) == multiset(b)
    ensures forall t :: t in a <==> t in b
  {
    forall t ensures t in a <==> t in b { assert t in a <==> t in multiset(a); }
  }

  lemma OrderDistinct(v: View<TaskId>)
    requires v.Valid() && NoDuplicates(v.items)
    ensures NoDuplicates(Order(v))
  {
    var n := |v.items|;
    forall i, j | 0 <= i < j < n ensures Order(v)[i] != Order(v)[j] {
      assert Order(v)[i] == v.items[if i < n - v.index then i + v.index else i - (n - v.index)];
      assert Order(v)[j] == v.items[if j < n - v.index then j + v.index else j - (n - v.index)];
    }
  }

  /** A task that becomes ready runs after all others of its priority but the one that runs now. */
  lemma ReadyComesLast(s: Sched, t: TaskId, p: nat)
    requires PartitionBut(s, {t}) && t in s.tcb
    ensures var s' := AddToReady(s, t);
            if p != s.tcb[t].prio then Turns(s', p) == Turns(s, p)
            else if ViewAt(s, Ready(p)).index == 0 then Turns(s', p) == Turns(s, p) + [t]
            else Turns(s, p) != [] && Turns(s', p) == Turns(s, p)[..|Turns(s, p)| - 1] + [t, Turns(s, p)[|Turns(s, p)| - 1]]
  {
    var v := ViewAt(s, Ready(s.tcb[t].prio));
    InsertEndOrder(v, t);
    assert ViewAt(AddToReady(s, t), Ready(s.tcb[t].prio)) == InsertEnd(v, t);
  }

  /** A task that leaves its list changes nobody else's turn. */
  lemma LeavingKeepsTurns(s: Sched, t: TaskId, p: nat)
    requires Partition(s) && t in s.tcb
    ensures var s' := Unlink(s, t);
            if s.tcb[t].place == Ready(p) then t in Turns(s, p) && Turns(s', p) == Minus(Turns(s, p), t)
            else Turns(s', p) == Turns(s, p)
  {
    var place := s.tcb[t].place;
    assert IsList(place) && Holds(s, place);
    var v := ViewAt(s, place);
    var k := IndexOf(v.items, t);
    assert ViewAt(Unlink(s, t), place) == Remove(v, k) by { RemoveOrder(v, k); }
    if place == Ready(p) {
      RemoveOrder(v, k);
      OrderDistinct(v);
      assert Turns(s, p)[Turn(v, k)] == t;
      MinusAt(Turns(s, p), Turn(v, k));
    }
  }

  lemma MinusAt(list: seq<TaskId>, k: nat)
    requires NoDuplicates(list) && k < |list|
    ensures list[k] in list && Minus(list, list[k]) == Without(list, k)
  {
    var i := IndexOf(list, list[k]);
    assert list[i] == list[k];
  }

  // ---------- Several tasks become ready ----------

  /** These tasks come after all others of the priority but the one that runs now, in this order. */
  ghost predicate ComeLast(s: Sched, s': Sched, p: nat, woken: seq<TaskId>) {
    var turns, turns' := Turns(s, p), Turns(s', p);
    if ViewAt(s, Ready(p)).index == 0 then turns' == turns + woken
    else turns != [] && turns' == turns[..|turns| - 1] + woken + [turns[|turns| - 1]]
  }

  /** Items inserted one after the other. */
  function Inserted(v: View<TaskId>, more: seq<TaskId>): (v': View<TaskId>)
    requires v.Valid()
    ensures v'.Valid()
    decreases |more|
  {
    if more == [] then v else
      InsertEndOrder(v, more[0]);
      Inserted(InsertEnd(v, more[0]), more[1..])
  }

  lemma {:induction false} InsertedOrder(v: View<TaskId>, more: seq<TaskId>)
    requires v.Valid()
    ensures var turns, turns' := Order(v), Order(Inserted(v, more));
            if v.index == 0 then turns' == turns + more
            else turns != [] && turns' == turns[..|turns| - 1] + more + [turns[|turns| - 1]]
    decreases |more|
  {
    if more == [] {
      if v.index > 0 { assert Order(v) == Order(v)[..|v.items| - 1] + [] + [Order(v)[|v.items| - 1]]; }
    } else {
      var v1, turns := InsertEnd(v, more[0]), Order(v);
      InsertEndOrder(v, more[0]);
      InsertedOrder(v1, more[1..]);
      if v.index == 0 {
        assert turns + [more[0]] + more[1..] == turns + more;
      } else {
        FrontOfOrder(turns[..|turns| - 1], more, turns[|turns| - 1]);
      }
    }
  }

  lemma FrontOfOrder(front: seq<TaskId>, more: seq<TaskId>, last: TaskId)
    requires more != []
    ensures var turns := front + [more[0]] + [last];
            turns[..|turns| - 1] + more[1..] + [turns[|turns| - 1]] == front + more + [last]
  {
    var turns := front + [more[0]] + [last];
    assert turns[..|turns| - 1] == front + [more[0]];
    assert more == [more[0]] + more[1..];
  }

  lemma {:induction false} InsertedTwice(v: View<TaskId>, first: seq<TaskId>, rest: seq<TaskId>)
    requires v.Valid()
    ensures Inserted(Inserted(v, first), rest) == Inserted(v, first + rest)
    decreases |first|
  {
    if first == [] {
      assert [] + rest == rest;
    } else {
      InsertEndOrder(v, first[0]);
      var v1, both := InsertEnd(v, first[0]), first + rest;
      assert both[0] == first[0] && both[1..] == first[1..] + rest;
      assert Inserted(v, both) == Inserted(v1, both[1..]) && Inserted(v, first) == Inserted(v1, first[1..]);
      InsertedTwice(v1, first[1..], rest);
    }
  }

  lemma InsertedComeLast(s: Sched, s': Sched, p: nat, woken: seq<TaskId>)
    requires ViewAt(s', Ready(p)) == Inserted(ViewAt(s, Ready(p)), woken)
    ensures ComeLast(s, s', p, woken)
  {
    InsertedOrder(ViewAt(s, Ready(p)), woken);
  }

  /** `t` alone, if it has this priority. */
  function If(s: Sched, t: TaskId, p: nat): seq<TaskId> {
    if Get(s, t).prio == p then [t] else []
  }

  lemma ReadyJoins(s: Sched, t: TaskId, p: nat)
    ensures ViewAt(AddToReady(s, t), Ready(p)) == Inserted(ViewAt(s, Ready(p)), If(s, t, p))
  {
    InsertEndOrder(ViewAt(s, Ready(p)), t);
    assert [t][1..] == [];
  }

  /** The tasks of this priority at the head of a list of sleepers whose time has come. */
  function DueOf(s: Sched, list: seq<TaskId>, p: nat): seq<TaskId> {
    if list == [] || s.clock.tick < Get(s, list[0]).wake then [] else If(s, list[0], p) + DueOf(s, list[1..], p)
  }

  lemma {:induction false} SameDue(s: Sched, s': Sched, list: seq<TaskId>, p: nat)
    requires s'.clock == s.clock && forall t :: t in list ==> Get(s', t).wake == Get(s, t).wake && Get(s', t).prio == Get(s, t).prio
    ensures DueOf(s', list, p) == DueOf(s, list, p)
  {
    if list != [] { SameDue(s, s', list[1..], p); }
  }

  lemma HeadJoins(s: Sched, p: nat)
    requires Partition(s) && Sleepers(s) != []
    ensures ViewAt(WakeHead(s), Ready(p)) == Inserted(ViewAt(s, Ready(p)), If(s, Sleepers(s)[0], p))
  {
    var v := ViewAt(s, CurrentDelayed(s));
    var t := v.items[0];
    assert Holds(s, CurrentDelayed(s)) && t in s.tcb;
    var s1 := SetPlace(s, t, Loose).(lists := s.lists[CurrentDelayed(s) := Remove(v, 0)]);
    var s2 := UnlinkEvent(s1, t);
    assert ViewAt(s2, Ready(p)) == ViewAt(s, Ready(p));
    ReadyJoins(s2, t, p);
    assert WakeHead(s) == AddToReady(s2, t);
  }

  lemma HeadDue(s: Sched, p: nat)
    requires Partition(s) && Sleepers(s) != [] && Get(s, Sleepers(s)[0]).wake <= s.clock.tick
    ensures DueOf(s, Sleepers(s), p) == If(s, Sleepers(s)[0], p) + DueOf(WakeHead(s), Sleepers(WakeHead(s)), p)
  {
    WakeHeadEffect(s);
    SameDue(s, WakeHead(s), Sleepers(s)[1..], p);
  }

  lemma {:induction false} WokenInserted(s: Sched, p: nat)
    requires Partition(s)
    ensures ViewAt(WakeDue(s), Ready(p)) == Inserted(ViewAt(s, Ready(p)), DueOf(s, Sleepers(s), p))
    decreases |Sleepers(s)|
  {
    var list := Sleepers(s);
    if list != [] && Get(s, list[0]).wake <= s.clock.tick {
      var m := WakeHead(s);
      WakeHeadKeeps(s);
      HeadJoins(s, p);
      HeadDue(s, p);
      WokenInserted(m, p);
      InsertedTwice(ViewAt(s, Ready(p)), If(s, list[0], p), DueOf(m, Sleepers(m), p));
    }
  }

  /** The tasks that a tick wakes take their turns after the others, in the order in which they slept. */
  lemma WokenComeLast(s: Sched, p: nat)
    requires Partition(s) && TimeOk(s) && s.clock.suspended == 0
    ensures var s1 := AdvanceTick(s); ComeLast(s, IncrementTick(s).0, p, DueOf(s1, Sleepers(s1), p))
  {
    var s1, s' := AdvanceTick(s), IncrementTick(s).0;
    AdvanceEffect(s);
    WokenInserted(s1, p);
    assert ViewAt(s1, Ready(p)) == ViewAt(s, Ready(p));
    if s1.clock.tick < s1.nextUnblock {
      assert s' == s1;
      assert DueOf(s1, Sleepers(s1), p) == [];
    } else {
      assert s' == WakeDue(s1);
    }
    InsertedComeLast(s, s', p, DueOf(s1, Sleepers(s1), p));
  }

  /** The tasks of this priority in a list. */
  function OfPriority(s: Sched, list: seq<TaskId>, p: nat): seq<TaskId> {
    if list == [] then [] else If(s, list[0], p) + OfPriority(s, list[1..], p)
  }

  lemma {:induction false} SameOfPriority(s: Sched, s': Sched, list: seq<TaskId>, p: nat)
    requires forall t :: t in list ==> Get(s', t).prio == Get(s, t).prio
    ensures OfPriority(s', list, p) == OfPriority(s, list, p)
  {
    if list != [] { SameOfPriority(s, s', list[1..], p); }
  }

  lemma OnePendingJoins(s: Sched, p: nat)
    requires s.pendingReady != [] && !Get(s, s.pendingReady[0]).place.Ready?
    ensures ViewAt(MoveOne(s), Ready(p)) == Inserted(ViewAt(s, Ready(p)), If(s, s.pendingReady[0], p))
  {
    var t := s.pendingReady[0];
    var s1 := SetTcb(s, t, Get(s, t).(event := NoEvent)).(pendingReady := s.pendingReady[1..]);
    var s2 := Unlink(s1, t);
    assert ViewAt(s2, Ready(p)) == ViewAt(s, Ready(p));
    ReadyJoins(s2, t, p);
    assert MoveOne(s).lists == AddToReady(s2, t).lists;
  }

  lemma PendingHead(s: Sched, p: nat)
    requires Partition(s) && TimeOk(s) && s.pendingReady != [] && s.pendingReady[0] in s.tcb
    ensures OfPriority(s, s.pendingReady, p) == If(s, s.pendingReady[0], p) + OfPriority(MoveOne(s), MoveOne(s).pendingReady, p)
  {
    MoveOneTime(s);
    SameOfPriority(s, MoveOne(s), s.pendingReady[1..], p);
  }

  ghost predicate PendingBlocked(s: Sched) {
    NoDuplicates(s.pendingReady) && forall t :: t in s.pendingReady ==> t in s.tcb && !s.tcb[t].place.Ready?
  }

  lemma StillBlocked(s: Sched)
    requires Partition(s) && TimeOk(s) && s.pendingReady != [] && PendingBlocked(s)
    ensures Partition(MoveOne(s)) && TimeOk(MoveOne(s)) && PendingBlocked(MoveOne(s))
  {
    MoveOneTime(s);
    MoveOneKeeps(s);
    TailBlocked(s, MoveOne(s));
  }

  lemma TailBlocked(s: Sched, m: Sched)
    requires s.pendingReady != [] && PendingBlocked(s) && m.pendingReady == s.pendingReady[1..]
    requires m.tcb == s.tcb[s.pendingReady[0] := Get(m, s.pendingReady[0])]
    ensures PendingBlocked(m)
  {
    assert s.pendingReady == [s.pendingReady[0]] + s.pendingReady[1..];
  }

  lemma {:induction false} PendingInserted(s: Sched, p: nat)
    requires Partition(s) && TimeOk(s) && PendingBlocked(s)
    ensures ViewAt(MovePending(s), Ready(p)) == Inserted(ViewAt(s, Ready(p)), OfPriority(s, s.pendingReady, p))
    decreases |s.pendingReady|
  {
    var list := s.pendingReady;
    if list != [] {
      var m := MoveOne(s);
      StillBlocked(s);
      OnePendingJoins(s, p);
      PendingHead(s, p);
      PendingInserted(m, p);
      InsertedTwice(ViewAt(s, Ready(p)), If(s, list[0], p), OfPriority(m, m.pendingReady, p));
    }
  }

  /** Tasks woken while the scheduler was suspended take their turns after the others, in the order of their events. */
  lemma PendingComeLast(s: Sched, p: nat)
    requires Partition(s) && TimeOk(s) && PendingBlocked(s)
    ensures ComeLast(s, ReadyPending(s), p, OfPriority(s, s.pendingReady, p))
  {
    PendingInserted(s, p);
    assert ViewAt(ReadyPending(s), Ready(p)) == ViewAt(MovePending(s), Ready(p));
    InsertedComeLast(s, ReadyPending(s), p, OfPriority(s, s.pendingReady, p));
  }
}
