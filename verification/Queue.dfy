/**
 The queue of queue.c: what each of its critical sections does to the contents, to the lock
 counts and to the two event lists (module QueueSections), and the byte ring that implements
 them in place (module QueueRing).
 */
module QueueSections {
  import opened Wrappers

  const UNLOCKED: int := -1
  const LOCKED_UNMODIFIED: int := 0
  const INT8_MAX: int := 127

  type Item = seq<Byte>

  datatype Position = SendToBack | SendToFront | Overwrite

  /** A queue as its callers see it: a bounded deque, two lock counts, two event lists. */
  datatype Queue = Queue(
    items: seq<Item>,
    length: nat,
    rxLock: int,
    txLock: int,
    sendWaiters: seq<TaskId>,
    recvWaiters: seq<TaskId>)

  /** What one critical section produced; `woken` is the task taken off an event list. */
  datatype Outcome = Outcome(q: Queue, ok: bool, item: Option<Item>, woken: Option<TaskId>)

  predicate HasRoom(q: Queue, position: Position) {
    |q.items| < q.length || position == Overwrite
  }

  function Deposit(items: seq<Item>, item: Item, position: Position): seq<Item> {
    match position
    case SendToBack => items + [item]
    case SendToFront => [item] + items
    case Overwrite => if items == [] then [item] else [item] + items[1..]
  }

  function HeadOf(waiters: seq<TaskId>): Option<TaskId> {
    if waiters == [] then None else Some(waiters[0])
  }

  function TailOf(waiters: seq<TaskId>): seq<TaskId> {
    if waiters == [] then [] else waiters[1..]
  }

  function Drop(waiters: seq<TaskId>, n: nat): seq<TaskId> {
    if n <= |waiters| then waiters[n..] else []
  }

  function Take(waiters: seq<TaskId>, n: nat): seq<TaskId> {
    if n <= |waiters| then waiters[..n] else waiters
  }

  /** `(int8_t)(c + 1)`: the lock count wraps, the asserts that forbid it are compiled out. */
  function NextLock(c: int): int {
    if c == INT8_MAX then -128 else c + 1
  }

  function Failed(q: Queue): Outcome {
    Outcome(q, false, None, None)
  }

  /** The first section of a task's send: deposit and wake the first waiting receiver. */
  function SendSection(q: Queue, item: Item, position: Position): Outcome {
    if HasRoom(q, position) then
      Outcome(q.(items := Deposit(q.items, item, position), recvWaiters := TailOf(q.recvWaiters)),
              true, None, HeadOf(q.recvWaiters))
    else Failed(q)
  }

  /** The first section of a task's receive (or semaphore take). */
  function ReceiveSection(q: Queue): Outcome {
    if q.items != [] then
      Outcome(q.(items := q.items[1..], sendWaiters := TailOf(q.sendWaiters)),
              true, Some(q.items[0]), HeadOf(q.sendWaiters))
    else Failed(q)
  }

  /** The first section of a task's peek: the item stays, so another receiver is woken. */
  function PeekSection(q: Queue): Outcome {
    if q.items != [] then
      Outcome(q.(recvWaiters := TailOf(q.recvWaiters)), true, Some(q.items[0]), HeadOf(q.recvWaiters))
    else Failed(q)
  }

  /** A send (or semaphore give) from an interrupt: a locked queue only counts it. */
  function SendFromISR(q: Queue, item: Item, position: Position): Outcome {
    if HasRoom(q, position) then
      var q' := q.(items := Deposit(q.items, item, position));
      if q.txLock == UNLOCKED then
        Outcome(q'.(recvWaiters := TailOf(q.recvWaiters)), true, None, HeadOf(q.recvWaiters))
      else Outcome(q'.(txLock := NextLock(q.txLock)), true, None, None)
    else Failed(q)
  }

  function ReceiveFromISR(q: Queue): Outcome {
    if q.items != [] then
      var q' := q.(items := q.items[1..]);
      if q.rxLock == UNLOCKED then
        Outcome(q'.(sendWaiters := TailOf(q.sendWaiters)), true, Some(q.items[0]), HeadOf(q.sendWaiters))
      else Outcome(q'.(rxLock := NextLock(q.rxLock)), true, Some(q.items[0]), None)
    else Failed(q)
  }

  function Lock(q: Queue): Queue {
    q.(rxLock := if q.rxLock == UNLOCKED then LOCKED_UNMODIFIED else q.rxLock,
       txLock := if q.txLock == UNLOCKED then LOCKED_UNMODIFIED else q.txLock)
  }

  function Positive(c: int): nat {
    if c > 0 then c else 0
  }

  /** The first half of the unlock: one receiver leaves the event list per counted send. */
  function UnlockTx(q: Queue): Queue {
    q.(txLock := UNLOCKED, recvWaiters := Drop(q.recvWaiters, Positive(q.txLock)))
  }

  function WokenByUnlockTx(q: Queue): seq<TaskId> {
    Take(q.recvWaiters, Positive(q.txLock))
  }

  function UnlockRx(q: Queue): Queue {
    q.(rxLock := UNLOCKED, sendWaiters := Drop(q.sendWaiters, Positive(q.rxLock)))
  }

  function WokenByUnlockRx(q: Queue): seq<TaskId> {
    Take(q.sendWaiters, Positive(q.rxLock))
  }
}

/**
 The same queue over its storage area. Offsets stand for the pointers: `writeTo` is
 `pcWriteTo - pcHead`, `readFrom` is `pcReadFrom - pcHead`, and the storage length is
 `pcTail - pcHead`.
 */
module QueueRing {
  import opened Wrappers
  import opened QueueSections

  /** `x` modulo `length`, for the sums up to `2 * length` that occur here. */
  function Ring(x: nat, length: nat): nat {
    if x < length then x else if x < 2 * length then x - length else x - 2 * length
  }

  lemma RingIsModulo(x: nat, length: nat)
    requires 0 < length && x <= 2 * length
    ensures Ring(x, length) == x % length
  {
    if x < length {
    } else if x < 2 * length {
      ModuloOf(x, length, 1, x - length);
    } else {
      ModuloOf(x, length, 2, 0);
    }
  }

  lemma ProductMono(i: nat, j: nat, length: nat)
    requires i <= j
    ensures i * length <= j * length
  {}

  lemma ModuloOf(x: nat, length: nat, quotient: nat, rest: nat)
    requires rest < length && x == quotient * length + rest
    ensures x % length == rest
  {
    var q, r := x / length, x % length;
    assert x == q * length + r;
    if q < quotient {
      ProductMono(q + 1, quotient, length);
    } else if quotient < q {
      ProductMono(quotient + 1, q, length);
    }
  }

  /** The `n` items whose first one sits in the slot after `read`. */
  ghost function RingView(slots: seq<Item>, read: nat, n: nat): (items: seq<Item>)
    requires read < |slots| && n <= |slots|
    ensures |items| == n && forall k :: 0 <= k < n ==> items[k] == slots[Ring(read + 1 + k, |slots|)]
  {
    seq(n, k requires 0 <= k < n => slots[Ring(read + 1 + k, |slots|)])
  }

  function Before(slot: nat, length: nat): nat
    requires 0 < length
  {
    if slot == 0 then length - 1 else slot - 1
  }

  lemma BackAppends(slots: seq<Item>, read: nat, n: nat, item: Item)
    requires read < |slots| && n < |slots|
    ensures var write := Ring(read + 1 + n, |slots|);
            RingView(slots[write := item], read, n + 1) == RingView(slots, read, n) + [item]
  {
    var write := Ring(read + 1 + n, |slots|);
    var after, items := RingView(slots[write := item], read, n + 1), RingView(slots, read, n) + [item];
    forall k | 0 <= k < n + 1 ensures after[k] == items[k] {}
  }

  lemma FrontPrepends(slots: seq<Item>, read: nat, n: nat, item: Item)
    requires read < |slots| && n < |slots|
    ensures RingView(slots[read := item], Before(read, |slots|), n + 1) == [item] + RingView(slots, read, n)
  {
    var after, items := RingView(slots[read := item], Before(read, |slots|), n + 1), [item] + RingView(slots, read, n);
    forall k | 0 <= k < n + 1 ensures after[k] == items[k] {
      if k > 0 { assert items[k] == RingView(slots, read, n)[k - 1]; }
    }
  }

  lemma ReadAdvances(slots: seq<Item>, read: nat, n: nat)
    requires read < |slots| && 0 < n <= |slots|
    ensures RingView(slots, Ring(read + 1, |slots|), n - 1) == RingView(slots, read, n)[1..]
    ensures RingView(slots, read, n)[0] == slots[Ring(read + 1, |slots|)]
  {
    var after, items := RingView(slots, Ring(read + 1, |slots|), n - 1), RingView(slots, read, n)[1..];
    forall k | 0 <= k < n - 1 ensures after[k] == items[k] {
      assert items[k] == RingView(slots, read, n)[k + 1];
    }
  }

  /** The byte offset of a slot: `slot * size`, in the additive form the pointers move by. */
  function Offset(slot: nat, size: nat): nat {
    if slot == 0 then 0 else Offset(slot - 1, size) + size
  }

  lemma {:induction false} OffsetIsProduct(slot: nat, size: nat)
    ensures Offset(slot, size) == slot * size
  {
    if slot > 0 { OffsetIsProduct(slot - 1, size); }
  }

  lemma {:induction false} OffsetMono(i: nat, j: nat, size: nat)
    requires i <= j
    ensures Offset(i, size) <= Offset(j, size)
    ensures i < j ==> Offset(i, size) + size <= Offset(j, size)
    decreases j
  {
    if i < j { OffsetMono(i, j - 1, size); }
  }

  ghost predicate Sized(slots: seq<Item>, size: nat) {
    forall i :: 0 <= i < |slots| ==> |slots[i]| == size
  }

  /** The bytes of a storage area whose slots hold `slots`. */
  ghost function Flat(slots: seq<Item>): seq<Byte> {
    if slots == [] then [] else Flat(slots[..|slots| - 1]) + slots[|slots| - 1]
  }

  lemma {:induction false} FlatLength(slots: seq<Item>, size: nat)
    requires Sized(slots, size)
    ensures |Flat(slots)| == Offset(|slots|, size)
  {
    if slots != [] { FlatLength(slots[..|slots| - 1], size); }
  }

  /** Slot `i` is found at its offset, and overwriting those bytes replaces that slot only. */
  lemma {:induction false} FlatSlot(slots: seq<Item>, size: nat, i: nat, item: Item)
    requires Sized(slots, size) && i < |slots| && |item| == size
    ensures Offset(i, size) + size <= |Flat(slots)| == Offset(|slots|, size)
    ensures Flat(slots)[Offset(i, size)..Offset(i, size) + size] == slots[i]
    ensures Flat(slots[i := item]) == Flat(slots)[..Offset(i, size)] + item + Flat(slots)[Offset(i, size) + size..]
  {
    var n := |slots| - 1;
    var init := slots[..n];
    FlatLength(init, size);
    if i == n {
      assert slots[i := item][..n] == init;
    } else {
      FlatSlot(init, size, i, item);
      assert slots[i := item][..n] == init[i := item];
    }
  }

  /** The pointer comparison in the code detects exactly the wrap of the slot number. */
  lemma PointerWraps(slot: nat, length: nat, size: nat)
    requires slot < length && 0 < size
    ensures Offset(slot, size) + size >= Offset(length, size) <==> slot + 1 == length
    ensures Offset(Ring(slot + 1, length), size) == if slot + 1 == length then 0 else Offset(slot, size) + size
    ensures Offset(Ring(slot + 1, length), size) + size <= Offset(length, size)
  {
    OffsetMono(slot + 1, length, size);
    OffsetMono(Ring(slot + 1, length), length, size);
  }

  lemma PointerWrapsBack(slot: nat, length: nat, size: nat)
    requires slot < length && 0 < size
    ensures Offset(slot, size) - size < 0 <==> slot == 0
    ensures Offset(Before(slot, length), size) == if slot == 0 then Offset(length, size) - size else Offset(slot, size) - size
  {
    if slot > 0 { OffsetMono(1, slot, size); }
  }

  /** Taking one item moves the read slot and the count together, so the write slot stays. */
  lemma WriteSlotKept(read: nat, n: nat, length: nat)
    requires read < length && n < length
    ensures Ring(Ring(read + 1, length) + 1 + n, length) == Ring(read + 1 + (n + 1), length)
  {}

  /** A semaphore: all items are empty, so one more message is one more empty item. */
  lemma EmptyItems(slots: seq<Item>, read: nat, n: nat)
    requires Sized(slots, 0) && read < |slots| && n < |slots|
    ensures RingView(slots, read, n + 1) == RingView(slots, read, n) + [[]] == [[]] + RingView(slots, read, n)
  {
    assert forall i :: 0 <= i < |slots| ==> slots[i] == [];
  }

  /** Any storage area of the right size is made of slots, whatever bytes it holds. */
  ghost function Cut(s: seq<Byte>, length: nat, size: nat): (slots: seq<Item>)
    requires |s| == Offset(length, size)
    ensures |slots| == length && Sized(slots, size) && Flat(slots) == s
    decreases length
  {
    if length == 0 then []
    else
      var slots := Cut(s[..Offset(length - 1, size)], length - 1, size) + [s[Offset(length - 1, size)..]];
      assert slots[..length - 1] == Cut(s[..Offset(length - 1, size)], length - 1, size);
      slots
  }

  class RingQueue {
    const length: nat
    const itemSize: nat
    const storage: array<Byte>
    var writeTo: int
    var readFrom: int
    var messagesWaiting: nat
    var rxLock: int
    var txLock: int
    var sendWaiters: seq<TaskId>
    var recvWaiters: seq<TaskId>
    ghost var slots: seq<Item>
    ghost var readSlot: nat

    /** `slots` is what the storage area holds. */
    ghost predicate Stored()
      reads this`slots, storage
    {
      && 0 < length == |slots|
      && storage.Length == Offset(length, itemSize)
      && storage[..] == Flat(slots) && Sized(slots, itemSize)
    }

    ghost predicate Valid()
      reads this`slots, this`readSlot, this`readFrom, this`writeTo, this`messagesWaiting, storage
    {
      && Stored()
      && messagesWaiting <= length
      && readSlot < length
      && (itemSize != 0 ==>
            && readFrom == Offset(readSlot, itemSize)
            && writeTo == Offset(Ring(readSlot + 1 + messagesWaiting, length), itemSize))
    }

    ghost function Items(): (items: seq<Item>)
      requires Valid()
      reads this`slots, this`readSlot, this`readFrom, this`writeTo, this`messagesWaiting, storage
      ensures |items| == messagesWaiting
    {
      RingView(slots, readSlot, messagesWaiting)
    }

    /** The deque this ring implements. */
    ghost function Model(): Queue
      requires Valid()
      reads this, storage
    {
      Queue(Items(), length, rxLock, txLock, sendWaiters, recvWaiters)
    }

    /** `prvInitialiseNewQueue` and `xQueueGenericReset( .., pdTRUE )`. */
    constructor (length: nat, itemSize: nat)
      requires 0 < length
      ensures Valid() && fresh(storage)
      ensures this.itemSize == itemSize
      ensures Model() == Queue([], length, UNLOCKED, UNLOCKED, [], [])
    {
      this.length := length;
      this.itemSize := itemSize;
      storage := new Byte[Offset(length, itemSize)];
      messagesWaiting := 0;
      writeTo := 0;
      readFrom := Offset(length - 1, itemSize);
      readSlot := length - 1;
      rxLock, txLock := UNLOCKED, UNLOCKED;
      sendWaiters, recvWaiters := [], [];
      new;
      slots := Cut(storage[..], length, itemSize);
    }

    /** `memcpy` of one item to `offset` in the storage area. */
    method CopyIn(ghost slot: nat, offset: nat, item: Item)
      requires Stored() && slot < length
      requires offset == Offset(slot, itemSize) && |item| == itemSize
      modifies storage, this`slots
      ensures Stored() && slots == old(slots)[slot := item]
    {
      FlatSlot(slots, itemSize, slot, item);
      forall k | 0 <= k < itemSize {
        storage[offset + k] := item[k];
      }
      slots := slots[slot := item];
      assert storage[..] == Flat(slots);
    }

    /** The `queueSEND_TO_BACK` branch: copy to the write position and advance it. */
    method CopyToBack(item: Item)
      requires Valid() && messagesWaiting < length && |item| == itemSize != 0
      modifies this`writeTo, this`slots, storage
      ensures Stored()
      ensures writeTo == Offset(Ring(readSlot + 2 + messagesWaiting, length), itemSize)
      ensures RingView(slots, readSlot, messagesWaiting + 1) == old(Items()) + [item]
    {
      ghost var slot := Ring(readSlot + 1 + messagesWaiting, length);
      BackAppends(slots, readSlot, messagesWaiting, item);
      PointerWraps(slot, length, itemSize);
      CopyIn(slot, writeTo, item);
      writeTo := writeTo + itemSize;
      if writeTo >= storage.Length {
        writeTo := 0;
      }
    }

    /** The other branch: copy to the read position and step that back. */
    method CopyToFront(item: Item)
      requires Valid() && |item| == itemSize != 0
      modifies this`readFrom, this`readSlot, this`slots, storage
      ensures Stored()
      ensures readSlot == Before(old(readSlot), length) && readFrom == Offset(readSlot, itemSize)
      ensures messagesWaiting < length ==>
                RingView(slots, readSlot, messagesWaiting + 1) == [item] + old(Items())
      ensures length == 1 ==> slots == [item]
    {
      if messagesWaiting < length {
        FrontPrepends(slots, readSlot, messagesWaiting, item);
      }
      PointerWrapsBack(readSlot, length, itemSize);
      CopyIn(readSlot, readFrom, item);
      readFrom := readFrom - itemSize;
      if readFrom < 0 {
        readFrom := storage.Length - itemSize;
      }
      readSlot := Before(readSlot, length);
    }

    /** `prvCopyDataToQueue`; the branch a mutex takes is in module MutexProtocol. */
    method CopyDataToQueue(item: Item, position: Position)
      requires Valid() && |item| == itemSize
      requires HasRoom(Model(), position)
      requires position == Overwrite ==> length == 1 && itemSize != 0
      modifies this`writeTo, this`readFrom, this`messagesWaiting, this`readSlot, this`slots, storage
      ensures Valid() && Items() == Deposit(old(Items()), item, position)
    {
      var messages := messagesWaiting;
      if itemSize == 0 {
        EmptyItems(slots, readSlot, messages);
        assert item == [];
        messagesWaiting := messages + 1;
      } else if position == SendToBack {
        CopyToBack(item);
        messagesWaiting := messages + 1;
      } else {
        CopyToFront(item);
        if position == Overwrite {
          if messages > 0 {
            messages := messages - 1;
          }
        }
        messagesWaiting := messages + 1;
      }
    }

    /** `prvCopyDataFromQueue`: advance the read position and copy that slot out. */
    method CopyDataFromQueue() returns (item: Item)
      requires Valid() && 0 < messagesWaiting
      modifies this`readFrom, this`readSlot
      ensures storage[..] == old(storage[..])
      ensures readSlot == Ring(old(readSlot) + 1, length)
      ensures itemSize != 0 ==> readFrom == Offset(readSlot, itemSize)
      ensures item == old(Items())[0]
    {
      ReadAdvances(slots, readSlot, messagesWaiting);
      item := [];
      FlatSlot(slots, itemSize, Ring(readSlot + 1, length), slots[Ring(readSlot + 1, length)]);
      if itemSize != 0 {
        readFrom := readFrom + itemSize;
        PointerWraps(readSlot, length, itemSize);
        if readFrom >= storage.Length {
          readFrom := 0;
        }
        item := storage[readFrom..readFrom + itemSize];
      }
      readSlot := Ring(readSlot + 1, length);
    }

    /** The receive path: copy the head item out and count it off. */
    method RemoveItem() returns (item: Item)
      requires Valid() && 0 < messagesWaiting
      modifies this`readFrom, this`readSlot, this`messagesWaiting
      ensures Valid() && item == old(Items())[0] && Items() == old(Items())[1..]
    {
      ReadAdvances(slots, readSlot, messagesWaiting);
      item := CopyDataFromQueue();
      messagesWaiting := messagesWaiting - 1;
      WriteSlotKept(old(readSlot), messagesWaiting, length);
    }

    /** `xTaskRemoveFromEventList` as the queue sees it: the first waiter leaves the list. */
    static method RemoveHead(waiters: seq<TaskId>) returns (rest: seq<TaskId>, woken: Option<TaskId>)
      ensures rest == TailOf(waiters) && woken == HeadOf(waiters)
    {
      rest, woken := waiters, None;
      if |waiters| != 0 {
        rest, woken := waiters[1..], Some(waiters[0]);
      }
    }

    /** The critical section of `xQueueGenericSend`. */
    method Send(item: Item, position: Position) returns (ok: bool, woken: Option<TaskId>)
      requires Valid() && |item| == itemSize
      requires position == Overwrite ==> length == 1 && itemSize != 0
      modifies this, storage
      ensures Valid()
      ensures Outcome(Model(), ok, None, woken) == SendSection(old(Model()), item, position)
    {
      ghost var q := Model();
      ok, woken := false, None;
      if messagesWaiting < length || position == Overwrite {
        CopyDataToQueue(item, position);
        assert Model() == q.(items := Deposit(q.items, item, position));
        recvWaiters, woken := RemoveHead(recvWaiters);
        ok := true;
      }
    }

    /** The critical section of `xQueueReceive` and `xQueueSemaphoreTake`. */
    method Receive() returns (ok: bool, item: Item, woken: Option<TaskId>)
      requires Valid()
      modifies this
      ensures Valid()
      ensures Outcome(Model(), ok, if ok then Some(item) else None, woken) == ReceiveSection(old(Model()))
    {
      ok, item, woken := false, [], None;
      if messagesWaiting > 0 {
        item := RemoveItem();
        sendWaiters, woken := RemoveHead(sendWaiters);
        ok := true;
      }
    }

    /** The critical section of `xQueuePeek`: the read position is put back. */
    method Peek() returns (ok: bool, item: Item, woken: Option<TaskId>)
      requires Valid()
      modifies this
      ensures Valid()
      ensures Outcome(Model(), ok, if ok then Some(item) else None, woken) == PeekSection(old(Model()))
    {
      ok, item, woken := false, [], None;
      if messagesWaiting > 0 {
        var originalReadPosition := readFrom;
        ghost var originalReadSlot := readSlot;
        item := CopyDataFromQueue();
        readFrom := originalReadPosition;
        readSlot := originalReadSlot;
        recvWaiters, woken := RemoveHead(recvWaiters);
        ok := true;
      }
    }

    /** `xQueueGenericSendFromISR`; with empty items, `xQueueGiveFromISR`. */
    method SendISR(item: Item, position: Position) returns (ok: bool, woken: Option<TaskId>)
      requires Valid() && |item| == itemSize
      requires position == Overwrite ==> length == 1 && itemSize != 0
      modifies this, storage
      ensures Valid()
      ensures Outcome(Model(), ok, None, woken) == SendFromISR(old(Model()), item, position)
    {
      ghost var q := Model();
      ok, woken := false, None;
      if messagesWaiting < length || position == Overwrite {
        CopyDataToQueue(item, position);
        assert Model() == q.(items := Deposit(q.items, item, position));
        if txLock == UNLOCKED {
          recvWaiters, woken := RemoveHead(recvWaiters);
        } else {
          txLock := NextLock(txLock);
        }
        ok := true;
      }
    }

    /** `xQueueReceiveFromISR`. */
    method ReceiveISR() returns (ok: bool, item: Item, woken: Option<TaskId>)
      requires Valid()
      modifies this
      ensures Valid()
      ensures Outcome(Model(), ok, if ok then Some(item) else None, woken) == ReceiveFromISR(old(Model()))
    {
      ok, item, woken := false, [], None;
      if messagesWaiting > 0 {
        item := RemoveItem();
        if rxLock == UNLOCKED {
          sendWaiters, woken := RemoveHead(sendWaiters);
        } else {
          rxLock := NextLock(rxLock);
        }
        ok := true;
      }
    }

    /** `prvLockQueue`. */
    method LockQueue()
      requires Valid()
      modifies this`rxLock, this`txLock
      ensures Valid() && Model() == Lock(old(Model()))
    {
      if rxLock == UNLOCKED {
        rxLock := LOCKED_UNMODIFIED;
      }
      if txLock == UNLOCKED {
        txLock := LOCKED_UNMODIFIED;
      }
    }

    /** The first critical section of `prvUnlockQueue`. */
    method UnlockQueueTx() returns (woken: seq<TaskId>)
      requires Valid()
      modifies this`txLock, this`recvWaiters
      ensures Valid() && Model() == UnlockTx(old(Model()))
      ensures woken == WokenByUnlockTx(old(Model()))
    {
      var lock := txLock;
      ghost var waiters := recvWaiters;
      woken := [];
      while lock > LOCKED_UNMODIFIED
        invariant |woken| <= |waiters| && woken == waiters[..|woken|] && recvWaiters == waiters[|woken|..]
        invariant Positive(txLock) == Positive(lock) + |woken|
        invariant Valid() && messagesWaiting == old(messagesWaiting) && Items() == old(Items())
        invariant txLock == old(txLock)
      {
        if |recvWaiters| != 0 {
          woken := woken + [recvWaiters[0]];
          recvWaiters := recvWaiters[1..];
        } else {
          break;
        }
        lock := lock - 1;
      }
      txLock := UNLOCKED;
    }

    /** The second critical section of `prvUnlockQueue`. */
    method UnlockQueueRx() returns (woken: seq<TaskId>)
      requires Valid()
      modifies this`rxLock, this`sendWaiters
      ensures Valid() && Model() == UnlockRx(old(Model()))
      ensures woken == WokenByUnlockRx(old(Model()))
    {
      var lock := rxLock;
      ghost var waiters := sendWaiters;
      woken := [];
      while lock > LOCKED_UNMODIFIED
        invariant |woken| <= |waiters| && woken == waiters[..|woken|] && sendWaiters == waiters[|woken|..]
        invariant Positive(rxLock) == Positive(lock) + |woken|
        invariant Valid() && messagesWaiting == old(messagesWaiting) && Items() == old(Items())
        invariant rxLock == old(rxLock)
      {
        if |sendWaiters| != 0 {
          woken := woken + [sendWaiters[0]];
          sendWaiters := sendWaiters[1..];
          lock := lock - 1;
        } else {
          break;
        }
      }
      rxLock := UNLOCKED;
    }
  }
}
