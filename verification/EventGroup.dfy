/**
 The 32-bit words of event_groups.c: 24 event bits below 8 control bits. A word is the set of the
 numbers of its one bits, so that `&` is intersection, `|` is union and `& ~` is difference.
 */
module EventWords {

  type Word = w: set<nat> | forall b :: b in w ==> b < 32

  const CLEAR_ON_EXIT: nat := 24
  const UNBLOCKED: nat := 25
  const WAIT_FOR_ALL: nat := 26
  const IN_USE: nat := 31
  const CONTROL: Word := {24, 25, 26, 27, 28, 29, 30, 31}

  /** The bits a packed condition waits for. */
  function Wanted(word: Word): Word {
    word - CONTROL
  }

  predicate ForAll(word: Word) {
    WAIT_FOR_ALL in word
  }

  predicate ClearsOnExit(word: Word) {
    CLEAR_ON_EXIT in word
  }

  /** `prvTestWaitCondition`. */
  predicate Satisfied(bits: Word, wanted: Word, all: bool) {
    if all then bits * wanted == wanted else bits * wanted != {}
  }

  /** The test that `xEventGroupSetBits` makes of a waiting task's item value. */
  predicate Met(word: Word, bits: Word) {
    if !ForAll(word) then Wanted(word) * bits != {} else Wanted(word) * bits == Wanted(word)
  }

  /** The item value of a task that blocks. */
  function Pack(wanted: Word, clear: bool, all: bool): Word {
    wanted + (if clear then {CLEAR_ON_EXIT} else {}) + (if all then {WAIT_FOR_ALL} else {}) + {IN_USE}
  }

  /** What `vTaskRemoveFromUnorderedEventList` leaves in the item of a task that bits woke. */
  function Snapshot(bits: Word): Word {
    bits + {UNBLOCKED, IN_USE}
  }

  /** No control bit is set; the functions assert it of their arguments. */
  predicate EventsOnly(bits: Word) {
    bits * CONTROL == {}
  }

  /** Packing loses nothing, and the packed test is the wait condition. */
  lemma PackRoundTrip(wanted: Word, clear: bool, all: bool, bits: Word)
    requires EventsOnly(wanted)
    ensures var word := Pack(wanted, clear, all);
            && Wanted(word) == wanted && ForAll(word) == all && ClearsOnExit(word) == clear && UNBLOCKED !in word
            && (Met(word, bits) <==> Satisfied(bits, wanted, all))
  {
    OutsideControl(wanted);
    assert Wanted(Pack(wanted, clear, all)) == wanted;
    assert wanted * bits == bits * wanted;
  }

  /** Fewer bits satisfy no more conditions. */
  lemma MetMonotone(word: Word, fewer: Word, bits: Word)
    requires fewer <= bits && Met(word, fewer)
    ensures Met(word, bits)
  {
    assert Wanted(word) * fewer <= Wanted(word) * bits <= Wanted(word);
  }

  /** The snapshot gives the bits back, and tells them from a timeout. */
  lemma SnapshotRoundTrip(bits: Word)
    requires EventsOnly(bits)
    ensures UNBLOCKED in Snapshot(bits) && Snapshot(bits) - CONTROL == bits
  {
    OutsideControl(bits);
  }

  lemma OutsideControl(bits: Word)
    requires EventsOnly(bits)
    ensures forall b :: b in CONTROL ==> b !in bits
  {
    forall b | b in CONTROL ensures b !in bits { assert b in bits ==> b in bits * CONTROL; }
  }
}

/** Event groups as values: what each critical part of event_groups.c does to one. */
module EventGroups {
  import opened ListView
  import opened EventWords

  /** The bits, the tasks in `xTasksWaitingForBits` and each task's event item value. */
  datatype Group<T> = Group(bits: Word, waiters: seq<T>, value: map<T, Word>)

  function Value<T(==)>(g: Group<T>, t: T): Word {
    if t in g.value then g.value[t] else {}
  }

  /** The waiting tasks of a list whose condition the bits meet, and the others. */
  function MetBy<T(==)>(g: Group<T>, bits: Word, list: seq<T>): (met: seq<T>)
    ensures forall t :: t in met ==> t in list && Met(Value(g, t), bits)
    ensures forall t :: t in list && Met(Value(g, t), bits) ==> t in met
  {
    if list == [] then []
    else (if Met(Value(g, list[0]), bits) then [list[0]] else []) + MetBy(g, bits, list[1..])
  }

  function NotMetBy<T(==)>(g: Group<T>, bits: Word, list: seq<T>): (rest: seq<T>)
    ensures forall t :: t in rest ==> t in list && !Met(Value(g, t), bits)
    ensures forall t :: t in list && !Met(Value(g, t), bits) ==> t in rest
  {
    if list == [] then []
    else (if Met(Value(g, list[0]), bits) then [] else [list[0]]) + NotMetBy(g, bits, list[1..])
  }

  function ClearWord(word: Word): Word {
    if ClearsOnExit(word) then Wanted(word) else {}
  }

  /** All the bits that tasks of a list want cleared. */
  function ToClear<T(==)>(g: Group<T>, list: seq<T>): (clear: Word)
    ensures forall b :: b in clear <==> exists t :: t in list && b in ClearWord(Value(g, t))
  {
    if list == [] then {} else ClearWord(Value(g, list[0])) + ToClear(g, list[1..])
  }

  function Mark<T(==)>(value: map<T, Word>, woken: seq<T>, word: Word): map<T, Word> {
    map t | t in value :: if t in woken then word else value[t]
  }

  /** `xEventGroupSetBits`. */
  function SetBits<T(==)>(g: Group<T>, more: Word): Group<T> {
    var bits := g.bits + more;
    var met := MetBy(g, bits, g.waiters);
    Group(bits - ToClear(g, met), NotMetBy(g, bits, g.waiters), Mark(g.value, met, Snapshot(bits)))
  }

  /** `xEventGroupClearBits`. */
  function ClearBits<T(==)>(g: Group<T>, clear: Word): Group<T> {
    g.(bits := g.bits - clear)
  }

  /** `vTaskPlaceOnUnorderedEventList`. */
  function Enqueue<T(==)>(g: Group<T>, t: T, word: Word): Group<T> {
    g.(waiters := g.waiters + [t], value := g.value[t := word])
  }

  /** How the first half of a wait ends: with a return value, or blocked. */
  datatype Entry = Returns(bits: Word) | Blocks

  /** `xEventGroupWaitBits` up to the yield; `mayBlock` is a block time other than 0. */
  function WaitBits<T(==)>(g: Group<T>, t: T, wanted: Word, clear: bool, all: bool, mayBlock: bool): (Group<T>, Entry) {
    if Satisfied(g.bits, wanted, all) then (if clear then g.(bits := g.bits - wanted) else g, Returns(g.bits))
    else if !mayBlock then (g, Returns(g.bits))
    else (Enqueue(g, t, Pack(wanted, clear, all)), Blocks)
  }

  /** `xEventGroupSync` up to the yield. */
  function Sync<T(==)>(g: Group<T>, t: T, more: Word, wanted: Word, mayBlock: bool): (Group<T>, Entry) {
    var g1 := SetBits(g, more);
    if (g.bits + more) * wanted == wanted then (g1.(bits := g1.bits - wanted), Returns(g.bits + more))
    else if mayBlock then (Enqueue(g1, t, Pack(wanted, true, true)), Blocks)
    else (g1, Returns(g1.bits))
  }

  /** After the yield: what the task returns, woken by bits or by its timeout. */
  function Finish<T(==)>(g: Group<T>, t: T, wanted: Word, clear: bool, all: bool): (Group<T>, Word) {
    if UNBLOCKED in Value(g, t) then (g, Value(g, t) - CONTROL)
    else (if Satisfied(g.bits, wanted, all) && clear then g.(bits := g.bits - wanted) else g, g.bits - CONTROL)
  }

  /** A tick ends the wait of a task. */
  function TimeOut<T(==)>(g: Group<T>, t: T): Group<T> {
    g.(waiters := Minus(g.waiters, t))
  }

  // ---------- What setting bits means ----------

  /** Some woken task asked for bit `b` to be cleared. */
  ghost predicate Cleared<T>(g: Group<T>, bits: Word, b: nat) {
    exists t :: t in g.waiters && Met(Value(g, t), bits) && ClearsOnExit(Value(g, t)) && b in Wanted(Value(g, t))
  }

  /**
   Setting bits wakes exactly the waiting tasks whose condition the old and new bits together
   meet, hands all of them the same snapshot, and then clears exactly what those that asked for
   it waited for.
   */
  lemma SetBitsExact<T>(g: Group<T>, more: Word, t: T, b: nat)
    requires t in g.waiters && t in g.value
    ensures var g', bits := SetBits(g, more), g.bits + more;
            && (t in g'.waiters <==> !Met(Value(g, t), bits))
            && Value(g', t) == (if Met(Value(g, t), bits) then Snapshot(bits) else Value(g, t))
            && (b in g'.bits <==> b in bits && !Cleared(g, bits, b))
  {
    var bits := g.bits + more;
    var met := MetBy(g, bits, g.waiters);
    assert b in ToClear(g, met) <==> Cleared(g, bits, b);
  }

  /** Those left waiting keep their order. */
  lemma {:induction false} NotMetKeepsOrder<T>(g: Group<T>, bits: Word, list: seq<T>)
    requires NoDuplicates(list)
    ensures NoDuplicates(NotMetBy(g, bits, list))
    ensures forall i, j :: 0 <= i < j < |NotMetBy(g, bits, list)| ==>
              IndexOf(list, NotMetBy(g, bits, list)[i]) < IndexOf(list, NotMetBy(g, bits, list)[j])
  {
    if list != [] {
      var rest := list[1..];
      assert forall i, j :: 0 <= i < j < |rest| ==> rest[i] == list[i + 1] && rest[j] == list[j + 1];
      NotMetKeepsOrder(g, bits, rest);
    }
  }

  lemma {:induction false} AllNotMet<T>(g: Group<T>, bits: Word, list: seq<T>)
    requires forall t :: t in list ==> !Met(Value(g, t), bits)
    ensures NotMetBy(g, bits, list) == list && MetBy(g, bits, list) == []
  {
    if list != [] { AllNotMet(g, bits, list[1..]); }
  }

  /** Bits that meet nobody's condition are just set. */
  lemma NobodyMet<T>(g: Group<T>, more: Word)
    requires forall t :: t in g.waiters ==> !Met(Value(g, t), g.bits + more)
    ensures SetBits(g, more) == g.(bits := g.bits + more)
  {
    var bits := g.bits + more;
    AllNotMet(g, bits, g.waiters);
    assert bits - {} == bits && Mark(g.value, [], Snapshot(bits)) == g.value;
  }

  // ---------- No satisfied waiter stays blocked ----------

  /** No waiting task's packed condition is met by the bits. */
  ghost predicate NoneSatisfied<T>(g: Group<T>) {
    forall t :: t in g.waiters ==> t in g.value && !Met(Value(g, t), g.bits)
  }

  lemma FewerBits<T>(g: Group<T>, bits: Word)
    requires g.bits <= bits && forall t :: t in g.waiters ==> t in g.value && !Met(Value(g, t), bits)
    ensures NoneSatisfied(g)
  {
    forall t | t in g.waiters ensures !Met(Value(g, t), g.bits) {
      if Met(Value(g, t), g.bits) { MetMonotone(Value(g, t), g.bits, bits); }
    }
  }

  lemma SetBitsUnsatisfied<T>(g: Group<T>, more: Word)
    requires forall t :: t in g.waiters ==> t in g.value
    ensures NoneSatisfied(SetBits(g, more))
  {
    FewerBits(SetBits(g, more), g.bits + more);
  }
}
