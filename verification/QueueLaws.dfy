/**
 What senders and receivers of a queue see, whichever of them are tasks and which interrupts:
 who gets which item, what a failed call leaves alone, whom a call wakes, and the order and
 conservation of items over whole runs.
 */
module QueueLaws {
  import opened Wrappers
  import opened QueueSections

  /** A send by a task or from an interrupt. */
  function Sent(q: Queue, item: Item, position: Position, fromISR: bool): Outcome {
    if fromISR then SendFromISR(q, item, position) else SendSection(q, item, position)
  }

  function Received(q: Queue, fromISR: bool): Outcome {
    if fromISR then ReceiveFromISR(q) else ReceiveSection(q)
  }

  // ---------- Single calls ----------

  /** The next receive after a send to the front gets its item, and leaves what was there before. */
  lemma FrontIsNext(q: Queue, item: Item, fromISR: bool, byISR: bool)
    ensures var sent := Sent(q, item, SendToFront, fromISR);
            && (sent.ok <==> |q.items| < q.length)
            && (sent.ok ==> var got := Received(sent.q, byISR); got.ok && got.item == Some(item) && got.q.items == q.items)
  {}

  /** What the next receives deliver, by tasks and interrupts in this order. */
  function Deliveries(q: Queue, byISR: seq<bool>): seq<Option<Item>>
    decreases |byISR|
  {
    if byISR == [] then [] else [Received(q, byISR[0]).item] + Deliveries(Received(q, byISR[0]).q, byISR[1..])
  }

  function After(q: Queue, byISR: seq<bool>): Queue
    decreases |byISR|
  {
    if byISR == [] then q else After(Received(q, byISR[0]).q, byISR[1..])
  }

  function All(items: seq<Item>): seq<Option<Item>> {
    seq(|items|, k requires 0 <= k < |items| => Some(items[k]))
  }

  /** As many receives as there are items deliver them all, first to last. */
  lemma {:induction false} DeliversInOrder(q: Queue, byISR: seq<bool>)
    requires |byISR| == |q.items|
    ensures Deliveries(q, byISR) == All(q.items) && After(q, byISR).items == []
    decreases |byISR|
  {
    if byISR != [] { DeliversInOrder(Received(q, byISR[0]).q, byISR[1..]); }
  }

  /** A send to the back is delivered after the items that were there, in their order, and then none is left. */
  lemma BackIsLast(q: Queue, item: Item, fromISR: bool, byISR: seq<bool>)
    requires |byISR| == |q.items| + 1
    ensures var sent, n := Sent(q, item, SendToBack, fromISR), |q.items|;
            && (sent.ok <==> n < q.length)
            && (sent.ok ==>
                  && Deliveries(sent.q, byISR) == All(q.items) + [Some(item)]
                  && After(sent.q, byISR).items == [])
  {
    var sent := Sent(q, item, SendToBack, fromISR);
    if sent.ok { DeliversInOrder(sent.q, byISR); }
  }

  /** Overwriting a queue of length 1 always works, and only the new item is there to receive. */
  lemma OverwriteReplaces(q: Queue, item: Item, fromISR: bool, byISR: bool)
    requires q.length == 1 && |q.items| <= 1
    ensures var sent := Sent(q, item, Overwrite, fromISR);
            var got := Received(sent.q, byISR);
            sent.ok && |sent.q.items| == 1 && got.ok && got.item == Some(item) && got.q.items == []
  {}

  /** A peek shows what the next receive would get, and leaves it there. */
  lemma PeekShowsNext(q: Queue, byISR: bool)
    ensures var seen, got := PeekSection(q), Received(q, byISR);
            && seen.ok == got.ok && seen.item == got.item && seen.q.items == q.items
            && (seen.ok <==> q.items != []) && (seen.ok ==> seen.item == Some(q.items[0]))
  {}

  /** The first of the waiting tasks is woken and leaves the list, or nobody is. */
  predicate WakesFirst(waiters: seq<TaskId>, rest: seq<TaskId>, woken: Option<TaskId>) {
    if woken.Some? then waiters == [woken.value] + rest else rest == waiters
  }

  /** A send that fails changes nothing; one that works wakes the first receiver, or is counted for the unlock. */
  lemma SendWakes(q: Queue, item: Item, position: Position, fromISR: bool)
    ensures var sent := Sent(q, item, position, fromISR);
            && sent.item == None && (!sent.ok ==> sent.q == q && sent.woken == None)
            && WakesFirst(q.recvWaiters, sent.q.recvWaiters, sent.woken)
            && (sent.woken.Some? <==> sent.ok && q.recvWaiters != [] && (!fromISR || q.txLock == UNLOCKED))
            && sent.q.txLock == (if sent.ok && fromISR && q.txLock != UNLOCKED then NextLock(q.txLock) else q.txLock)
            && sent.q.length == q.length && sent.q.rxLock == q.rxLock && sent.q.sendWaiters == q.sendWaiters
  {
    if q.recvWaiters != [] { assert q.recvWaiters == [q.recvWaiters[0]] + q.recvWaiters[1..]; }
  }

  /** A receive that fails changes nothing; one that works wakes the first sender, or is counted for the unlock. */
  lemma ReceiveWakes(q: Queue, fromISR: bool)
    ensures var got := Received(q, fromISR);
            && (got.ok <==> q.items != []) && (!got.ok ==> got.q == q && got.woken == None && got.item == None)
            && WakesFirst(q.sendWaiters, got.q.sendWaiters, got.woken)
            && (got.woken.Some? <==> got.ok && q.sendWaiters != [] && (!fromISR || q.rxLock == UNLOCKED))
            && got.q.rxLock == (if got.ok && fromISR && q.rxLock != UNLOCKED then NextLock(q.rxLock) else q.rxLock)
            && got.q.length == q.length && got.q.txLock == q.txLock && got.q.recvWaiters == q.recvWaiters
  {
    if q.sendWaiters != [] { assert q.sendWaiters == [q.sendWaiters[0]] + q.sendWaiters[1..]; }
  }

  /** A peek that finds an item wakes the next receiver in its own stead. */
  lemma PeekWakes(q: Queue)
    ensures var seen := PeekSection(q);
            && (!seen.ok ==> seen.q == q && seen.woken == None)
            && WakesFirst(q.recvWaiters, seen.q.recvWaiters, seen.woken) && (seen.woken.Some? <==> seen.ok && q.recvWaiters != [])
            && seen.q == q.(recvWaiters := seen.q.recvWaiters)
  {
    if q.recvWaiters != [] { assert q.recvWaiters == [q.recvWaiters[0]] + q.recvWaiters[1..]; }
  }

  function Least(a: nat, b: nat): nat {
    if a < b then a else b
  }

  /** An unlock wakes the first waiting tasks, one for each transfer counted meanwhile, as far as there are any. */
  lemma UnlockWakes(q: Queue)
    ensures WokenByUnlockTx(q) + UnlockTx(q).recvWaiters == q.recvWaiters
    ensures |WokenByUnlockTx(q)| == if q.txLock <= 0 then 0 else Least(q.txLock, |q.recvWaiters|)
    ensures WokenByUnlockRx(q) + UnlockRx(q).sendWaiters == q.sendWaiters
    ensures |WokenByUnlockRx(q)| == if q.rxLock <= 0 then 0 else Least(q.rxLock, |q.sendWaiters|)
    ensures UnlockTx(q) == q.(txLock := UNLOCKED, recvWaiters := UnlockTx(q).recvWaiters)
    ensures UnlockRx(q) == q.(rxLock := UNLOCKED, sendWaiters := UnlockRx(q).sendWaiters)
  {}

  // ---------- Whole runs ----------

  datatype Action =
    | Send(item: Item, position: Position, fromISR: bool)
    | Receive(byISR: bool)
    | Peek
    | LockBoth
    | UnlockSends
    | UnlockReceives

  function Step(q: Queue, a: Action): Queue {
    match a
    case Send(item, position, fromISR) => Sent(q, item, position, fromISR).q
    case Receive(byISR) => Received(q, byISR).q
    case Peek => PeekSection(q).q
    case LockBoth => Lock(q)
    case UnlockSends => UnlockTx(q)
    case UnlockReceives => UnlockRx(q)
  }

  function Exec(q: Queue, run: seq<Action>): Queue
    decreases |run|
  {
    if run == [] then q else Exec(Step(q, run[0]), run[1..])
  }

  /** The item that a call put in, and the one that it got. */
  function Put(q: Queue, a: Action): seq<Item> {
    if a.Send? && Sent(q, a.item, a.position, a.fromISR).ok then [a.item] else []
  }

  function Taken(q: Queue, a: Action): seq<Item> {
    if a.Receive? && Received(q, a.byISR).item.Some? then [Received(q, a.byISR).item.value] else []
  }

  /** All that sends put in, in the order of the calls. */
  function Accepted(q: Queue, run: seq<Action>): seq<Item>
    decreases |run|
  {
    if run == [] then [] else Put(q, run[0]) + Accepted(Step(q, run[0]), run[1..])
  }

  /** All that receives got, in the order of the calls. */
  function Got(q: Queue, run: seq<Action>): seq<Item>
    decreases |run|
  {
    if run == [] then [] else Taken(q, run[0]) + Got(Step(q, run[0]), run[1..])
  }

  /**
   First in, first out: when all sends go to the back, the items received so far and those still
   there, in this order, are those that were there and those sent since, in the order of sending.
   */
  lemma {:induction false} FirstInFirstOut(q: Queue, run: seq<Action>)
    requires forall k :: 0 <= k < |run| && run[k].Send? ==> run[k].position == SendToBack
    ensures q.items + Accepted(q, run) == Got(q, run) + Exec(q, run).items
    decreases |run|
  {
    if run == [] {
    } else {
      var q', rest := Step(q, run[0]), run[1..];
      FirstInFirstOut(q', rest);
      OrderedStep(q, run[0]);
      Regroup(q.items, Put(q, run[0]), Taken(q, run[0]), q'.items, Accepted(q', rest), Got(q', rest), Exec(q', rest).items);
    }
  }

  lemma OrderedStep(q: Queue, a: Action)
    requires a.Send? ==> a.position == SendToBack
    ensures q.items + Put(q, a) == Taken(q, a) + Step(q, a).items
  {}

  lemma Regroup(items: seq<Item>, put: seq<Item>, taken: seq<Item>, items': seq<Item>, accepted: seq<Item>, got: seq<Item>, left: seq<Item>)
    requires items + put == taken + items' && items' + accepted == got + left
    ensures items + (put + accepted) == (taken + got) + left
  {
    assert items + (put + accepted) == taken + items' + accepted;
    assert taken + (items' + accepted) == (taken + got) + left;
  }

  /** Nothing is lost or made up, whichever end items are sent to, as long as none is overwritten. */
  lemma {:induction false} ItemsConserved(q: Queue, run: seq<Action>)
    requires forall k :: 0 <= k < |run| && run[k].Send? ==> run[k].position != Overwrite
    ensures multiset(q.items) + multiset(Accepted(q, run)) == multiset(Got(q, run)) + multiset(Exec(q, run).items)
    decreases |run|
  {
    if run == [] {
    } else {
      var q', rest := Step(q, run[0]), run[1..];
      ItemsConserved(q', rest);
      ConservedStep(q, run[0]);
      Counts(Put(q, run[0]), Accepted(q', rest));
      Counts(Taken(q, run[0]), Got(q', rest));
      Balance(multiset(q.items), multiset(Put(q, run[0])), multiset(Taken(q, run[0])), multiset(q'.items),
              multiset(Accepted(q', rest)), multiset(Got(q', rest)), multiset(Exec(q', rest).items));
    }
  }

  lemma Counts(a: seq<Item>, b: seq<Item>)
    ensures multiset(a + b) == multiset(a) + multiset(b)
  {}

  lemma Balance(items: multiset<Item>, put: multiset<Item>, taken: multiset<Item>, items': multiset<Item>,
                accepted: multiset<Item>, got: multiset<Item>, left: multiset<Item>)
    requires items + put == taken + items' && items' + accepted == got + left
    ensures items + (put + accepted) == (taken + got) + left
  {
    assert items + (put + accepted) == (items + put) + accepted;
    assert (taken + items') + accepted == taken + (items' + accepted);
  }

  lemma ConservedStep(q: Queue, a: Action)
    requires a.Send? ==> a.position != Overwrite
    ensures multiset(q.items) + multiset(Put(q, a)) == multiset(Taken(q, a)) + multiset(Step(q, a).items)
  {
    var items, put, taken, left := q.items, Put(q, a), Taken(q, a), Step(q, a).items;
    assert if a.Send? then taken == [] && (left == items + put || left == put + items) else put == [] && items == taken + left;
    SameItems(items, put, taken, left);
  }

  lemma SameItems(items: seq<Item>, put: seq<Item>, taken: seq<Item>, left: seq<Item>)
    requires (taken == [] && (left == items + put || left == put + items)) || (put == [] && items == taken + left)
    ensures multiset(items) + multiset(put) == multiset(taken) + multiset(left)
  {
    Counts(items, put);
    Counts(put, items);
    Counts(taken, left);
  }
}
