/**
 event_groups.c on its linked list of event items: the walk of `xEventGroupSetBits` unlinks items
 under its own feet, and still visits each exactly once because it saves the next link first.
 */
module EventGroupCode {
  import opened ListView
  import opened LinkedList
  import opened EventWords
  import opened EventGroups

  /** Walking one item further. */
  lemma {:induction false} MetOne<T>(g: Group<T>, bits: Word, list: seq<T>, x: T)
    ensures MetBy(g, bits, list + [x]) == MetBy(g, bits, list) + if Met(Value(g, x), bits) then [x] else []
  {
    if list == [] {
      assert list + [x] == [x];
    } else {
      assert (list + [x])[1..] == list[1..] + [x] && (list + [x])[0] == list[0];
      assert MetBy(g, bits, list + [x]) == (if Met(Value(g, list[0]), bits) then [list[0]] else []) + MetBy(g, bits, list[1..] + [x]);
      MetOne(g, bits, list[1..], x);
    }
  }

  lemma {:induction false} NotMetOne<T>(g: Group<T>, bits: Word, list: seq<T>, x: T)
    ensures NotMetBy(g, bits, list + [x]) == NotMetBy(g, bits, list) + if Met(Value(g, x), bits) then [] else [x]
  {
    if list == [] {
      assert list + [x] == [x];
    } else {
      assert (list + [x])[1..] == list[1..] + [x] && (list + [x])[0] == list[0];
      assert NotMetBy(g, bits, list + [x]) == (if Met(Value(g, list[0]), bits) then [] else [list[0]]) + NotMetBy(g, bits, list[1..] + [x]);
      NotMetOne(g, bits, list[1..], x);
    }
  }

  lemma {:induction false} ToClearOne<T>(g: Group<T>, list: seq<T>, x: T)
    ensures ToClear(g, list + [x]) == ToClear(g, list) + ClearWord(Value(g, x))
  {
    if list == [] {
      assert list + [x] == [x];
    } else {
      ToClearOne(g, list[1..], x);
      assert (list + [x])[1..] == list[1..] + [x] && (list + [x])[0] == list[0];
    }
  }

  /** How far a walk has come: the part of the list it saw, and the part it has not. */
  datatype Walk<T> = Walk(g: Group<T>, bits: Word, seen: seq<T>, rest: seq<T>)

  function Left<T(==)>(w: Walk<T>): seq<T> {
    NotMetBy(w.g, w.bits, w.seen) + w.rest
  }

  /** The item values: the seen items that were met carry the snapshot. */
  function Marked<T(==)>(w: Walk<T>): map<T, Word> {
    Mark(w.g.value, MetBy(w.g, w.bits, w.seen), Snapshot(w.bits))
  }

  function Clearing<T(==)>(w: Walk<T>): Word {
    ToClear(w.g, MetBy(w.g, w.bits, w.seen))
  }

  function Onward<T(==)>(w: Walk<T>): Walk<T>
    requires w.rest != []
  {
    w.(seen := w.seen + [w.rest[0]], rest := w.rest[1..])
  }

  lemma SplitAt<T>(a: seq<T>, b: seq<T>)
    requires b != []
    ensures (a + b)[|a|] == b[0] && Without(a + b, |a|) == a + b[1..] && a + [b[0]] + b[1..] == a + b
  {}

  lemma OnwardLeft<T>(w: Walk<T>)
    requires w.rest != []
    ensures var k, w' := |NotMetBy(w.g, w.bits, w.seen)|, Onward(w);
            && w'.seen + w'.rest == w.seen + w.rest && k < |Left(w)| && Left(w)[k] == w.rest[0]
            && Left(w') == if Met(Value(w.g, w.rest[0]), w.bits) then Without(Left(w), k) else Left(w)
  {
    SplitAt(w.seen, w.rest);
    SplitAt(NotMetBy(w.g, w.bits, w.seen), w.rest);
    NotMetOne(w.g, w.bits, w.seen, w.rest[0]);
    assert NotMetBy(w.g, w.bits, w.seen) + [] == NotMetBy(w.g, w.bits, w.seen);
  }

  lemma NotSeen<T>(a: seq<T>, b: seq<T>)
    requires NoDuplicates(a + b) && b != []
    ensures b[0] !in a
  {
    assert (a + b)[|a|] == b[0];
    forall i | 0 <= i < |a| ensures a[i] != b[0] { assert (a + b)[i] == a[i]; }
  }

  lemma MarkMore<T>(value: map<T, Word>, woken: seq<T>, x: T, word: Word)
    requires x in value
    ensures Mark(value, woken + [x], word) == Mark(value, woken, word)[x := word]
  {}

  lemma OnwardMarked<T>(w: Walk<T>)
    requires w.rest != [] && NoDuplicates(w.seen + w.rest) && w.rest[0] in w.g.value
    ensures var x, w' := w.rest[0], Onward(w);
            && x in Marked(w) && Marked(w)[x] == Value(w.g, x)
            && Marked(w') == (if Met(Value(w.g, x), w.bits) then Marked(w)[x := Snapshot(w.bits)] else Marked(w))
            && Clearing(w') == Clearing(w) + if Met(Value(w.g, x), w.bits) then ClearWord(Value(w.g, x)) else {}
  {
    var x, met := w.rest[0], MetBy(w.g, w.bits, w.seen);
    NotSeen(w.seen, w.rest);
    MetOne(w.g, w.bits, w.seen, x);
    MarkMore(w.g.value, met, x, Snapshot(w.bits));
    ToClearOne(w.g, met, x);
    assert met + [] == met;
  }

  class EventGroup {
    var bits: Word                              // uxEventBits
    const waiting: List                         // xTasksWaitingForBits
    var value: map<ListItem, Word>              // the item values, as words

    ghost predicate Valid()
      reads this`value, waiting, waiting.ring
    {
      waiting.Valid() && waiting.position == 0 && forall x :: x in waiting.Items() ==> x in value
    }

    ghost function View(): Group<ListItem>
      requires Valid()
      reads this, waiting, waiting.ring
    {
      Group(bits, waiting.Items(), value)
    }

    constructor ()
      ensures Valid() && View() == Group({}, [], map[])
    {
      waiting := new List();
      bits, value := {}, map[];
    }

    /** `xEventGroupClearBits`. */
    method Clear(clear: Word) returns (before: Word)
      requires Valid()
      modifies this`bits
      ensures Valid() && View() == ClearBits(old(View()), clear) && before == old(bits)
    {
      before := bits;
      bits := bits - clear;
    }

    /** The items that may be relinked are among these. */
    ghost predicate Among(items: set<ListItem>)
      reads waiting`ring
    {
      forall x :: x in waiting.ring ==> x in items
    }

    /** `vTaskRemoveFromUnorderedEventList` on the k-th waiting item. */
    method Wake(item: ListItem, ghost k: nat, ghost items: set<ListItem>)
      requires Valid() && k < waiting.count && waiting.Items()[k] == item && Among(items)
      modifies this`value, waiting, items
      ensures Valid() && waiting.Items() == Without(old(waiting.Items()), k) && value == old(value)[item := Snapshot(bits)]
      ensures Among(items)
    {
      value := value[item := Snapshot(bits)];
      Unlink(item, k, items);
    }

    /** `uxListRemove` of the k-th waiting item. */
    method Unlink(item: ListItem, ghost k: nat, ghost items: set<ListItem>)
      requires Valid() && k < waiting.count && waiting.Items()[k] == item && Among(items)
      modifies waiting, items
      ensures waiting.Valid() && waiting.position == 0 && waiting.Items() == Without(old(waiting.Items()), k) && Among(items)
    {
      assert item == waiting.ring[k + 1] && item.container == waiting;
      assert waiting.ring == [waiting.end] + waiting.Items();
      var _ := List.Remove(item, k);
      assert waiting.ring == [waiting.end] + waiting.Items();
    }

    /** The link that the walk follows. */
    lemma NextOf(k: nat)
      requires Valid() && k < waiting.count
      ensures waiting.Items()[k].next == if k + 1 < waiting.count then waiting.Items()[k + 1] else waiting.end
    {
      assert waiting.Items()[k] == waiting.ring[k + 1];
    }

    /** The walk stands on the first item it has not seen. */
    ghost predicate Walking(w: Walk<ListItem>, item: ListItem, clear: Word)
      reads this, waiting, waiting.ring
    {
      && Valid() && w.bits == bits && waiting.Items() == Left(w) && value == Marked(w) && clear == Clearing(w)
      && item == (if w.rest == [] then waiting.end else w.rest[0])
      && NoDuplicates(w.seen + w.rest) && forall i :: 0 <= i < |w.rest| ==> w.rest[i] in w.g.value && w.rest[i] != waiting.end
    }

    /** What the body of the walk does to the item it stands on. */
    method VisitItem(item: ListItem, bitsToClear: Word, ghost w: Walk<ListItem>, ghost items: set<ListItem>) returns (next: ListItem, clear: Word)
      requires w.rest != [] && Walking(w, item, bitsToClear) && Among(items)
      modifies this`value, waiting, items
      ensures Valid() && Among(items) && waiting.Items() == Left(Onward(w))
      ensures value == Marked(Onward(w)) && clear == Clearing(Onward(w))
      ensures next == if |w.rest| == 1 then waiting.end else w.rest[1]
    {
      ghost var k := |NotMetBy(w.g, w.bits, w.seen)|;
      OnwardLeft(w);
      OnwardMarked(w);
      NextOf(k);
      next := item.next;
      clear := bitsToClear;
      var word := value[item];
      if Met(word, bits) {
        if ClearsOnExit(word) { clear := clear + Wanted(word); }
        assert clear == Clearing(Onward(w));
        Wake(item, k, items);
      }
    }

    lemma StillWalking(w: Walk<ListItem>, next: ListItem, clear: Word)
      requires w.rest != [] && NoDuplicates(w.seen + w.rest) && w.bits == bits
      requires forall i :: 0 <= i < |w.rest| ==> w.rest[i] in w.g.value && w.rest[i] != waiting.end
      requires Valid() && waiting.Items() == Left(Onward(w)) && value == Marked(Onward(w)) && clear == Clearing(Onward(w))
      requires next == if |w.rest| == 1 then waiting.end else w.rest[1]
      ensures Walking(Onward(w), next, clear)
    {
      OnwardLeft(w);
    }

    /** The body of the walk. */
    method Visit(item: ListItem, bitsToClear: Word, ghost w: Walk<ListItem>, ghost items: set<ListItem>) returns (next: ListItem, clear: Word)
      requires w.rest != [] && Walking(w, item, bitsToClear) && Among(items)
      modifies this`value, waiting, items
      ensures Walking(Onward(w), next, clear) && Among(items)
    {
      next, clear := VisitItem(item, bitsToClear, w, items);
      StillWalking(w, next, clear);
    }

    /** The walk, from the head entry to the end marker. */
    method WalkList(head: ListItem, ghost w0: Walk<ListItem>, ghost items: set<ListItem>) returns (bitsToClear: Word, ghost w: Walk<ListItem>)
      requires Walking(w0, head, {}) && Among(items)
      modifies this`value, waiting, items
      ensures Walking(w, waiting.end, bitsToClear) && w.rest == [] && Among(items)
      ensures w.g == w0.g && w.bits == w0.bits && w.seen + w.rest == w0.seen + w0.rest
    {
      var item := head;
      w := w0;
      bitsToClear := {};
      while item != waiting.end
        invariant Walking(w, item, bitsToClear) && Among(items)
        invariant w.g == w0.g && w.seen + w.rest == w0.seen + w0.rest
        decreases |w.rest|
      {
        SplitAt(w.seen, w.rest);
        item, bitsToClear := Visit(item, bitsToClear, w, items);
        w := Onward(w);
      }
    }

    /** The head entry of the list. */
    lemma FirstOf()
      requires Valid()
      ensures waiting.end.next == if waiting.Items() == [] then waiting.end else waiting.Items()[0]
      ensures forall i :: 0 <= i < |waiting.Items()| ==> waiting.Items()[i] in value && waiting.Items()[i] != waiting.end
    {
      forall i | 0 <= i < |waiting.Items()| ensures waiting.Items()[i] in value && waiting.Items()[i] == waiting.ring[i + 1] {
        assert waiting.Items()[i] in waiting.Items();
      }
    }

    /** Sets the bits and finds the head entry. */
    method Begin(more: Word) returns (head: ListItem, ghost w: Walk<ListItem>)
      requires Valid()
      modifies this`bits
      ensures Walking(w, head, {}) && w.seen + w.rest == w.g.waiters
      ensures w.g == old(View()).(bits := old(bits) + more) && w.bits == w.g.bits
    {
      bits := bits + more;
      head := waiting.end.next;
      FirstOf();
      w := Walk(View(), bits, [], waiting.Items());
      StartFacts(w);
      ItemsDistinct(waiting);
    }

    /** Clears the bits at the end. */
    method Conclude(bitsToClear: Word, ghost w: Walk<ListItem>)
      requires Walking(w, waiting.end, bitsToClear) && w.rest == []
      modifies this`bits
      ensures Valid() && View() == Group(w.bits - Clearing(w), Left(w), Marked(w))
    {
      bits := bits - bitsToClear;
    }

    /** `xEventGroupSetBits`. */
    method SetBits(more: Word, ghost items: set<ListItem>)
      requires Valid() && Among(items)
      modifies this, waiting, items
      ensures Valid() && Among(items) && View() == EventGroups.SetBits(old(View()), more)
    {
      ghost var g := View();
      var head, bitsToClear;
      ghost var w;
      head, w := Begin(more);
      bitsToClear, w := WalkList(head, w, items);
      WalkedAll(g, more, w);
      Conclude(bitsToClear, w);
    }

    /** `vTaskPlaceOnUnorderedEventList` on the running task's event item. */
    method PlaceOnEventList(x: ListItem, word: Word, ghost items: set<ListItem>)
      requires Valid() && Among(items) && x !in items
      modifies this`value, waiting, items, x
      ensures Valid() && View() == Enqueue(old(View()), x, word)
    {
      value := value[x := word];
      waiting.InsertEnd(x);
    }

    /** `xEventGroupWaitBits` up to the yield. */
    method WaitBits(x: ListItem, wanted: Word, clear: bool, all: bool, mayBlock: bool, ghost items: set<ListItem>) returns (entry: Entry)
      requires Valid() && Among(items) && x !in items
      modifies this, waiting, items, x
      ensures Valid() && (View(), entry) == EventGroups.WaitBits(old(View()), x, wanted, clear, all, mayBlock)
    {
      entry := Returns(bits);
      if Satisfied(bits, wanted, all) {
        if clear { bits := bits - wanted; }
      } else if mayBlock {
        PlaceOnEventList(x, Pack(wanted, clear, all), items);
        entry := Blocks;
      }
    }

    /** `xEventGroupSync` up to the yield. */
    method Sync(x: ListItem, more: Word, wanted: Word, mayBlock: bool, ghost items: set<ListItem>) returns (entry: Entry)
      requires Valid() && Among(items) && x !in items
      modifies this, waiting, items, x
      ensures Valid() && (View(), entry) == EventGroups.Sync(old(View()), x, more, wanted, mayBlock)
    {
      var original := bits;
      SetBits(more, items);
      if (original + more) * wanted == wanted {
        entry := Returns(original + more);
        bits := bits - wanted;
      } else if mayBlock {
        PlaceOnEventList(x, Pack(wanted, true, true), items);
        entry := Blocks;
      } else {
        entry := Returns(bits);
      }
    }
  }

  /** A walk to the end has done what setting bits means. */
  lemma WalkedAll<T>(g: Group<T>, more: Word, w: Walk<T>)
    requires w.g == g.(bits := g.bits + more) && w.bits == w.g.bits && w.rest == [] && w.seen + w.rest == g.waiters
    ensures Group(w.bits - Clearing(w), Left(w), Marked(w)) == EventGroups.SetBits(g, more)
  {
    assert w.seen == g.waiters;
    SameTests(g, w.g, w.bits, g.waiters);
    SameTests(g, w.g, w.bits, MetBy(g, w.bits, g.waiters));
    assert Left(w) == NotMetBy(w.g, w.bits, w.seen);
  }

  /** The tests read the item values, not the bits of the group. */
  lemma {:induction false} SameTests<T>(g: Group<T>, g': Group<T>, bits: Word, list: seq<T>)
    requires g'.value == g.value
    ensures MetBy(g', bits, list) == MetBy(g, bits, list) && NotMetBy(g', bits, list) == NotMetBy(g, bits, list)
    ensures ToClear(g', list) == ToClear(g, list)
  {
    if list != [] { SameTests(g, g', bits, list[1..]); }
  }

  lemma StartFacts<T>(w: Walk<T>)
    requires w.seen == []
    ensures Left(w) == w.rest && Marked(w) == w.g.value && Clearing(w) == {} && w.seen + w.rest == w.rest
  {}

  lemma ItemsDistinct(list: List)
    requires list.Valid()
    ensures NoDuplicates(list.Items()) && list.end !in list.Items()
  {
    forall i | 0 <= i < |list.Items()| ensures list.slot[list.Items()[i]] == i + 1 {
      assert list.Items()[i] == list.ring[i + 1];
    }
  }
}
