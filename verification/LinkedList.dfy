/**
 The pointer structure of list.c: a ring of items through an end marker, with the roving
 `pxIndex`. Every operation is proved to do to the links what module ListView does to the
 sequence of items.
 */
module LinkedList {
  import opened Word32
  import opened ListView

  class ListItem {
    var value: Tick
    var next: ListItem?
    var previous: ListItem?
    var container: List?

    /** `vListInitialiseItem`: not on any list. */
    constructor (value: Tick)
      ensures this.value == value && container == null
    {
      this.value := value;
      next, previous, container := null, null, null;
    }
  }

  /** Neighbours in `ring` point at each other, and the last one at the first. */
  ghost predicate Linked(ring: seq<ListItem>)
    reads ring
  {
    && (forall k {:trigger ring[k].next} :: 0 <= k < |ring| - 1 ==> ring[k].next == ring[k + 1])
    && (forall k {:trigger ring[k].previous} :: 0 < k < |ring| ==> ring[k].previous == ring[k - 1])
    && (|ring| > 0 ==> ring[|ring| - 1].next == ring[0] && ring[0].previous == ring[|ring| - 1])
  }

  /** `slot` says where each item of the ring stands, so no item stands there twice. */
  ghost predicate Ranked(ring: seq<ListItem>, slot: map<ListItem, nat>) {
    forall k :: 0 <= k < |ring| ==> ring[k] in slot && slot[ring[k]] == k
  }

  ghost function RankInserted(slot: map<ListItem, nat>, p: nat, x: ListItem): map<ListItem, nat> {
    (map y | y in slot :: if slot[y] < p then slot[y] else slot[y] + 1)[x := p]
  }

  ghost function RankRemoved(slot: map<ListItem, nat>, p: nat): map<ListItem, nat> {
    map y | y in slot :: if slot[y] <= p then slot[y] else slot[y] - 1
  }

  /** A ring with its ranks, a position in it, and the item that is linked in or taken out. */
  datatype Place = Place(ring: seq<ListItem>, slot: map<ListItem, nat>, p: nat, x: ListItem) {
    function After(): ListItem
      requires p < |ring|
    {
      ring[if p + 1 == |ring| then 0 else p + 1]
    }
  }

  function Following(k: nat, n: nat): nat
    requires k < n
  {
    if k + 1 == n then 0 else k + 1
  }

  /** `x` stands between the item at `p` and the one after it, and all other neighbours are linked. */
  ghost predicate OpenAt(ring: seq<ListItem>, p: nat, x: ListItem)
    requires p < |ring|
    reads ring, x
  {
    var n := |ring|;
    && x.next == ring[Following(p, n)] && x.previous == ring[p] && ring[p].next == x && ring[Following(p, n)].previous == x
    && forall k {:trigger ring[k]} :: 0 <= k < n && k != p ==> ring[k].next == ring[Following(k, n)] && ring[Following(k, n)].previous == ring[k]
  }

  lemma Closed(ring: seq<ListItem>, p: nat, x: ListItem)
    requires p < |ring| && OpenAt(ring, p, x)
    ensures Linked(InsertAt(ring, p + 1, x))
  {
    var r, n := InsertAt(ring, p + 1, x), |ring|;
    forall k | 0 <= k < n ensures r[k].next == r[k + 1] && r[k + 1].previous == r[k] {
      if k < p {
        assert r[k] == ring[k] && r[k + 1] == ring[k + 1];
      } else if k > p + 1 {
        assert r[k] == ring[k - 1] && r[k + 1] == ring[k];
      }
    }
    assert r[n] == if p + 1 == n then x else ring[n - 1];
  }

  class List {
    const end: ListItem
    var index: ListItem
    var count: nat
    ghost var ring: seq<ListItem>   // the end marker, then the items in link order
    ghost var slot: map<ListItem, nat>
    ghost var position: nat         // where `index` stands in the ring

    /** Everything but the index. */
    ghost predicate Shaped()
      reads this`count, this`ring, this`slot, ring
    {
      && |ring| == count + 1 && ring[0] == end && end.value == MAX_DELAY
      && Linked(ring) && Ranked(ring, slot) && Contained(ring)
    }

    ghost predicate Valid()
      reads this, ring
    {
      Shaped() && position <= count && index == ring[position]
    }

    /** Every item, but not the marker at the front, says it is on this list. */
    ghost predicate Contained(ring: seq<ListItem>)
      reads ring
    {
      |ring| > 0 && forall y :: y in ring && y != ring[0] ==> y.container == this
    }

    ghost function Items(): seq<ListItem>
      requires |ring| > 0
      reads this
    {
      ring[1..]
    }

    /** The list as module ListView sees it. */
    ghost function Model(): View<ListItem>
      requires Valid()
      reads this, ring
      ensures Model().Valid()
    {
      View(Items(), position)
    }

    ghost function Values(): (values: seq<nat>)
      requires |ring| > 0
      reads this, ring
      ensures |values| == |ring| - 1
      ensures forall k :: 0 <= k < |values| ==> values[k] == ring[k + 1].value
    {
      seq(|ring| - 1, k requires 0 <= k < |ring| - 1 reads this, ring => ring[k + 1].value)
    }

    /** `vListInitialise`. */
    constructor ()
      ensures Valid() && fresh(end) && Model() == View([], 0)
    {
      var marker := new ListItem(MAX_DELAY);
      end := marker;
      index := marker;
      count := 0;
      ring := [marker];
      slot := map[marker := 0];
      position := 0;
      new;
      end.next := end;
      end.previous := end;
    }

    /** The four links of an insertion are set, and no other link or container changed. */
    twostate predicate IsSplice(at: Place)
      reads at.x, at.ring
    {
      && old(Shaped()) && at.ring == old(ring) && at.slot == old(slot)
      && at.p < |at.ring| && at.x !in at.ring
      && at.x.next == at.After() && at.x.previous == at.ring[at.p] && at.x.container == this
      && at.ring[at.p].next == at.x && at.After().previous == at.x
      && (forall y :: y in at.ring && y != at.ring[at.p] ==> y.next == old(y.next))
      && (forall y :: y in at.ring && y != at.After() ==> y.previous == old(y.previous))
      && (forall y :: y in at.ring ==> y.container == old(y.container))
    }

    /** The new item stands between its neighbours. */
    twostate lemma Spliced(at: Place)
      requires IsSplice(at)
      ensures Linked(InsertAt(at.ring, at.p + 1, at.x))
    {
      Closed(at.ring, at.p, at.x);
    }

    twostate lemma SplicedRest(at: Place)
      requires IsSplice(at)
      ensures Contained(InsertAt(at.ring, at.p + 1, at.x))
      ensures Ranked(InsertAt(at.ring, at.p + 1, at.x), RankInserted(at.slot, at.p + 1, at.x))
    {
      var r := InsertAt(at.ring, at.p + 1, at.x);
      assert forall k :: 0 <= k <= at.p ==> r[k] == at.ring[k];
      assert forall k :: at.p + 1 < k < |r| ==> r[k] == at.ring[k - 1];
    }

    /** Taking out the item at `p` leaves its neighbours linked to each other. */
    twostate lemma Unspliced(at: Place)
      requires old(Shaped()) && at.ring == old(ring) && at.slot == old(slot)
      requires 0 < at.p < |at.ring| && at.x == at.ring[at.p]
      requires at.ring[at.p - 1].next == at.After() && at.After().previous == at.ring[at.p - 1]
      requires forall y :: y in at.ring && y != at.ring[at.p - 1] ==> y.next == old(y.next)
      requires forall y :: y in at.ring && y != at.After() ==> y.previous == old(y.previous)
      requires forall y :: y in at.ring && y != at.x ==> y.container == old(y.container)
      ensures Linked(Without(at.ring, at.p)) && Contained(Without(at.ring, at.p))
      ensures Ranked(Without(at.ring, at.p), RankRemoved(at.slot, at.p))
    {
      var r := Without(at.ring, at.p);
      assert forall k :: 0 <= k < at.p ==> r[k] == at.ring[k];
      assert forall k :: at.p <= k < |r| ==> r[k] == at.ring[k + 1];
    }

    method SetLinks(before: ListItem, after: ListItem, x: ListItem)
      requires x != before && x != after
      modifies before`next, after`previous, x`next, x`previous, x`container
      ensures x.next == after && x.previous == before && before.next == x && after.previous == x
      ensures x.container == this
    {
      x.next := after;
      after.previous := x;
      x.previous := before;
      before.next := x;
      x.container := this;
    }

    /** The assignments both insert functions make, `x` going between `before` and `after`. */
    method Link(before: ListItem, after: ListItem, x: ListItem, ghost p: nat)
      requires Shaped() && x !in ring && p <= count
      requires before == ring[p] && after == ring[if p == count then 0 else p + 1]
      modifies this`count, this`ring, this`slot, before`next, after`previous, x`next, x`previous, x`container
      ensures Shaped() && ring == InsertAt(old(ring), p + 1, x)
    {
      ghost var at := Place(ring, slot, p, x);
      ring, slot := InsertAt(ring, p + 1, x), RankInserted(slot, p + 1, x);
      count := count + 1;
      SetLinks(before, after, x);
      Spliced(at);
      SplicedRest(at);
      assert |ring| == count + 1 && ring[0] == at.ring[0];
      assert Linked(ring) && Ranked(ring, slot) && Contained(ring);
    }

    /** Where the index stands after an item went in behind ring position `p`. */
    ghost method ShiftIndex(p: nat, ring0: seq<ListItem>, x: ListItem)
      requires Shaped() && p < |ring0| && ring == InsertAt(ring0, p + 1, x)
      requires position < |ring0| && index == ring0[position]
      modifies this`position
      ensures Valid() && position == if p < old(position) then old(position) + 1 else old(position)
    {
      InsertAtKeeps(ring0, p + 1, x, position);
      position := if p < position then position + 1 else position;
    }

    /** `vListInsertEnd`: before the item under the index. */
    method InsertEnd(x: ListItem)
      requires Valid() && x !in ring
      modifies this`count, this`ring, this`slot, this`position, ring`next, ring`previous, x`next, x`previous, x`container
      ensures Valid() && Model() == ListView.InsertEnd(old(Model()), x)
    {
      ghost var p := if position == 0 then count else position - 1;
      assert index.previous == ring[p];
      ItemsInserted(ring, p, x);
      assert InsertAt(Items(), count, x) == Items() + [x];
      Link(index.previous, index, x, p);
      ShiftIndex(p, old(ring), x);
    }

    lemma ValuesInserted(ring0: seq<ListItem>, values: seq<nat>, p: nat, x: ListItem)
      requires p < |ring0| == |values| + 1 && ring == InsertAt(ring0, p + 1, x)
      requires forall i :: 0 <= i < |values| ==> values[i] == ring0[i + 1].value
      ensures Values() == InsertAt(values, p, x.value)
    {
      forall i | 0 <= i < |ring0| ensures Values()[i] == InsertAt(values, p, x.value)[i] {
        assert Values()[i] == ring[i + 1].value;
        if i < p {
          assert ring[i + 1] == ring0[i + 1];
        } else if i > p {
          assert ring[i + 1] == ring0[i];
        }
      }
    }

    /** The search of `vListInsert`: it ends for every value, the maximum included. */
    method FindPosition(valueOfInsertion: Tick) returns (cursor: ListItem, ghost p: nat)
      requires Valid()
      ensures p == FirstGreater(Values(), valueOfInsertion) && p <= count && cursor == ring[p]
    {
      cursor := end;
      p := 0;
      if valueOfInsertion == MAX_DELAY {
        cursor := end.previous;
        p := count;
      } else {
        while cursor.next.value <= valueOfInsertion
          invariant p <= count && cursor == ring[p]
          invariant forall k :: 0 < k <= p ==> ring[k].value <= valueOfInsertion
          decreases count - p
        {
          cursor := cursor.next;
          p := p + 1;
        }
      }
      FirstGreaterUnique(Values(), valueOfInsertion, p);
    }

    /** `vListInsert`: after every item whose value is not greater; see ListView.SortedInsert. */
    method Insert(x: ListItem)
      requires Valid() && x !in ring
      modifies this`count, this`ring, this`slot, this`position, ring`next, ring`previous, x`next, x`previous, x`container
      ensures Valid() && var k := FirstGreater(old(Values()), x.value);
              && Items() == InsertAt(old(Items()), k, x)
              && Values() == InsertAt(old(Values()), k, x.value)
              && position == if k < old(position) then old(position) + 1 else old(position)
    {
      var cursor;
      ghost var p;
      ghost var values := Values();
      cursor, p := FindPosition(x.value);
      LinkBehind(cursor, p, x);
      ValuesInserted(old(ring), values, p, x);
    }

    method LinkBehind(cursor: ListItem, ghost p: nat, x: ListItem)
      requires Valid() && x !in ring && p <= count && cursor == ring[p]
      modifies this`count, this`ring, this`slot, this`position, ring`next, ring`previous, x`next, x`previous, x`container
      ensures Valid() && ring == InsertAt(old(ring), p + 1, x) && Items() == InsertAt(old(Items()), p, x)
      ensures position == if p < old(position) then old(position) + 1 else old(position)
    {
      ItemsInserted(ring, p, x);
      Link(cursor, cursor.next, x, p);
      ShiftIndex(p, old(ring), x);
    }

    static method SkipOver(x: ListItem, before: ListItem, after: ListItem)
      modifies before`next, after`previous, x`container
      ensures before.next == after && after.previous == before && x.container == null
    {
      after.previous := before;
      before.next := after;
      x.container := null;
    }

    /** The link assignments of `uxListRemove`. */
    method Bypass(x: ListItem, ghost k: nat)
      requires Shaped() && k < count && x == ring[k + 1]
      modifies this`count, this`ring, this`slot, ring`next, ring`previous, x`container
      ensures Shaped() && ring == Without(old(ring), k + 1) && x.container == null
    {
      ghost var at := Place(ring, slot, k + 1, x);
      ring, slot := Without(ring, k + 1), RankRemoved(slot, k + 1);
      count := count - 1;
      SkipOver(x, x.previous, x.next);
      Unspliced(at);
    }

    /** The body of `uxListRemove`, once the list is known. */
    method Detach(x: ListItem, ghost k: nat)
      requires Valid() && k < count && x == ring[k + 1]
      modifies this, ring`next, ring`previous, x`container
      ensures Valid() && ring == Without(old(ring), k + 1)
      ensures position == if k < old(position) then old(position) - 1 else old(position)
      ensures x.container == null
    {
      WithoutKeeps(ring, slot, k + 1, position);
      assert x.previous == ring[k];
      if index == x {
        index := x.previous;
      }
      position := if k < position then position - 1 else position;
      Bypass(x, k);
    }

    /** `uxListRemove`: the item knows its list; an index on it steps back. */
    static method Remove(x: ListItem, ghost k: nat) returns (left: nat)
      requires x.container != null && x.container.Valid()
      requires k < x.container.count && x.container.Items()[k] == x
      modifies x.container, x.container.ring`next, x.container.ring`previous, x`container
      ensures var list := old(x.container);
              && x.container == null
              && list.Valid() && list.Model() == ListView.Remove(old(list.Model()), k)
              && left == list.count
    {
      var list := x.container;
      ItemsRemoved(list.ring, k);
      list.Detach(x, k);
      left := list.count;
    }

    /** `listGET_OWNER_OF_NEXT_ENTRY`: the index moves on, over the end marker. */
    method NextEntry() returns (x: ListItem)
      requires Valid() && count > 0
      modifies this`index, this`position
      ensures Valid() && Model() == Next(old(Model())) && x == ListView.Current(Model())
    {
      index := index.next;
      position := if position == count then 0 else position + 1;
      if index == end {
        index := index.next;
        position := 1;
      }
      x := index;
    }
  }

  lemma ItemsInserted(s: seq<ListItem>, k: nat, x: ListItem)
    requires k < |s|
    ensures InsertAt(s, k + 1, x)[1..] == InsertAt(s[1..], k, x)
  {}

  lemma ItemsRemoved(s: seq<ListItem>, k: nat)
    requires k + 1 < |s|
    ensures Without(s, k + 1)[1..] == Without(s[1..], k)
  {}

  lemma InsertAtKeeps(s: seq<ListItem>, k: nat, x: ListItem, i: nat)
    requires 0 < k <= |s| && i < |s|
    ensures InsertAt(s, k, x)[0] == s[0] && InsertAt(s, k, x)[if i < k then i else i + 1] == s[i]
  {}

  lemma WithoutKeeps(s: seq<ListItem>, slot: map<ListItem, nat>, k: nat, i: nat)
    requires 0 < k < |s| && i < |s| && Ranked(s, slot)
    ensures Without(s, k)[0] == s[0] && s[i] == s[k] <==> i == k
    ensures Without(s, k)[if i < k then i else i - 1] == if i == k then s[k - 1] else s[i]
  {}

  lemma FirstGreaterUnique(values: seq<nat>, v: nat, k: nat)
    requires k <= |values| && (k < |values| ==> v < values[k])
    requires forall i :: 0 <= i < k ==> values[i] <= v
    ensures FirstGreater(values, v) == k
  {}
}
