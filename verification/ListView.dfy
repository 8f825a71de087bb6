/**
 A kernel list as its users see it: the items in link order and the position of `pxIndex`.
 Position 0 is the end marker, position k the k-th item. Module LinkedList proves that the
 pointer code of list.c does these operations.
 */
module ListView {

  datatype View<T> = View(items: seq<T>, index: nat) {
    predicate Valid() {
      index <= |items|
    }
  }

  predicate NoDuplicates<T(==)>(s: seq<T>) {
    forall i, j :: 0 <= i < j < |s| ==> s[i] != s[j]
  }

  function Without<T>(s: seq<T>, k: nat): seq<T>
    requires k < |s|
  {
    s[..k] + s[k + 1..]
  }

  function InsertAt<T>(s: seq<T>, k: nat, x: T): seq<T>
    requires k <= |s|
  {
    s[..k] + [x] + s[k..]
  }

  function IndexOf<T(==)>(list: seq<T>, x: T): (k: nat)
    ensures k <= |list| && (k < |list| ==> list[k] == x)
    ensures x in list <==> k < |list|
  {
    if list == [] || list[0] == x then 0 else 1 + IndexOf(list[1..], x)
  }

  function Minus<T(==)>(list: seq<T>, x: T): seq<T> {
    var k := IndexOf(list, x);
    if k < |list| then Without(list, k) else list
  }

  lemma SomeMember<T>(list: seq<T>)
    ensures list != [] ==> exists x :: x in list
  {
    if list != [] { assert list[0] in list; }
  }

  lemma WithoutFacts<T>(list: seq<T>, k: nat)
    requires NoDuplicates(list) && k < |list|
    ensures NoDuplicates(Without(list, k))
    ensures forall u :: u in Without(list, k) <==> u in list && u != list[k]
  {
    var rest := Without(list, k);
    forall i, j | 0 <= i < j < |rest| ensures rest[i] != rest[j] {
      assert rest[i] == list[if i < k then i else i + 1] && rest[j] == list[if j < k then j else j + 1];
    }
    forall u | u in rest ensures u in list && u != list[k] {
      var i :| 0 <= i < |rest| && rest[i] == u;
      assert u == list[if i < k then i else i + 1];
    }
    forall u | u in list && u != list[k] ensures u in rest {
      var j :| 0 <= j < |list| && list[j] == u;
      assert u == rest[if j < k then j else j - 1];
    }
  }

  lemma MinusFacts<T>(list: seq<T>, x: T)
    requires NoDuplicates(list) && x in list
    ensures var k := IndexOf(list, x);
            && k < |list| && NoDuplicates(Without(list, k))
            && forall u :: u in Without(list, k) <==> u in list && u != x
  {
    WithoutFacts(list, IndexOf(list, x));
  }

  lemma InsertFacts<T>(list: seq<T>, k: nat, x: T)
    requires NoDuplicates(list) && k <= |list| && x !in list
    ensures NoDuplicates(InsertAt(list, k, x)) && |InsertAt(list, k, x)| == |list| + 1
    ensures forall u :: u in InsertAt(list, k, x) <==> u in list || u == x
  {
    var more := InsertAt(list, k, x);
    forall i, j | 0 <= i < j < |more| ensures more[i] != more[j] {
      assert more[i] == if i < k then list[i] else if i == k then x else list[i - 1];
      assert more[j] == if j < k then list[j] else if j == k then x else list[j - 1];
    }
    forall u | u in list ensures u in more {
      var j :| 0 <= j < |list| && list[j] == u;
      assert u == more[if j < k then j else j + 1];
    }
    assert more[k] == x;
  }

  /** `vListInsertEnd`: just before the item `pxIndex` points to, so it comes round last. */
  function InsertEnd<T>(v: View<T>, x: T): View<T>
    requires v.Valid()
  {
    if v.index == 0 then View(v.items + [x], 0)
    else View(InsertAt(v.items, v.index - 1, x), v.index + 1)
  }

  /** `uxListRemove` of the item at position `k`; an index on it steps back to its predecessor. */
  function Remove<T>(v: View<T>, k: nat): View<T>
    requires v.Valid() && k < |v.items|
  {
    View(Without(v.items, k), if k < v.index then v.index - 1 else v.index)
  }

  /** `listGET_OWNER_OF_NEXT_ENTRY`: advance, skipping the end marker. */
  function Next<T>(v: View<T>): View<T>
    requires v.Valid() && v.items != []
  {
    v.(index := if v.index == |v.items| then 1 else v.index + 1)
  }

  function Current<T>(v: View<T>): T
    requires v.Valid() && 0 < v.index
  {
    v.items[v.index - 1]
  }

  /** The first position whose value is greater than `v`: where `vListInsert` puts an item. */
  function FirstGreater(values: seq<nat>, v: nat): (k: nat)
    ensures k <= |values|
    ensures forall i :: 0 <= i < k ==> values[i] <= v
    ensures k < |values| ==> v < values[k]
  {
    if values == [] || v < values[0] then 0 else 1 + FirstGreater(values[1..], v)
  }

  predicate Sorted(values: seq<nat>) {
    forall i, j :: 0 <= i < j < |values| ==> values[i] <= values[j]
  }

  lemma SortedWithout(values: seq<nat>, k: nat)
    requires Sorted(values) && k < |values|
    ensures Sorted(Without(values, k))
  {
    var rest := Without(values, k);
    forall i, j | 0 <= i < j < |rest| ensures rest[i] <= rest[j] {
      assert rest[i] == values[if i < k then i else i + 1] && rest[j] == values[if j < k then j else j + 1];
    }
  }

  /** On a sorted list the item lands after every smaller or equal value and before the rest. */
  lemma SortedInsert(values: seq<nat>, v: nat)
    requires Sorted(values)
    ensures Sorted(InsertAt(values, FirstGreater(values, v), v))
    ensures forall i :: FirstGreater(values, v) <= i < |values| ==> v < values[i]
  {
    var k := FirstGreater(values, v);
    var after := InsertAt(values, k, v);
    forall i, j | 0 <= i < j < |after| ensures after[i] <= after[j] {
      assert after[i] == if i < k then values[i] else if i == k then v else values[i - 1];
      assert after[j] == if j < k then values[j] else if j == k then v else values[j - 1];
    }
  }

  // ---------- Round robin ----------

  /** The items in the order they will be visited; the one under the index comes last. */
  function Order<T>(v: View<T>): seq<T>
    requires v.Valid()
  {
    v.items[v.index..] + v.items[..v.index]
  }

  lemma NextVisitsFirst<T>(v: View<T>)
    requires v.Valid() && v.items != []
    ensures Next(v).Valid() && Current(Next(v)) == Order(v)[0]
    ensures Order(Next(v)) == Order(v)[1..] + [Order(v)[0]]
  {}

  /** The items visited by `n` next-entry steps. */
  function Visits<T>(v: View<T>, n: nat): seq<T>
    requires v.Valid() && v.items != []
    decreases n
  {
    if n == 0 then [] else [Current(Next(v))] + Visits(Next(v), n - 1)
  }

  lemma {:induction false} VisitsFollowOrder<T>(v: View<T>, n: nat)
    requires v.Valid() && v.items != [] && n <= |v.items|
    ensures Visits(v, n) == Order(v)[..n]
    decreases n
  {
    if n > 0 {
      NextVisitsFirst(v);
      VisitsFollowOrder(Next(v), n - 1);
      assert Order(Next(v))[..n - 1] == Order(v)[1..n];
    }
  }

  lemma OrderPermutes<T>(v: View<T>)
    requires v.Valid()
    ensures multiset(Order(v)) == multiset(v.items)
  {
    var front, back := v.items[..v.index], v.items[v.index..];
    assert v.items == front + back;
    calc {
      multiset(front + back);
      multiset(front) + multiset(back);
      multiset(back) + multiset(front);
      multiset(back + front);
    }
  }

  /** As many steps as there are items visit every item exactly once, in list order. */
  lemma RoundRobin<T>(v: View<T>)
    requires v.Valid() && v.items != []
    ensures Visits(v, |v.items|) == Order(v)
    ensures multiset(Order(v)) == multiset(v.items)
  {
    VisitsFollowOrder(v, |v.items|);
    assert Order(v)[..|v.items|] == Order(v);
    OrderPermutes(v);
  }

  /** A new item comes after all others except the one the index sits on. */
  lemma InsertEndOrder<T>(v: View<T>, x: T)
    requires v.Valid()
    ensures InsertEnd(v, x).Valid()
    ensures Order(InsertEnd(v, x)) ==
              if v.index == 0 then Order(v) + [x]
              else Order(v)[..|v.items| - 1] + [x] + [Current(v)]
    ensures v.index > 0 ==> Order(v)[|v.items| - 1] == Current(v)
  {
    if v.index > 0 {
      var items := InsertAt(v.items, v.index - 1, x);
      assert items[..v.index + 1] == v.items[..v.index - 1] + [x] + [Current(v)];
      assert items[v.index + 1..] == v.items[v.index..];
    }
  }

  /** Where the item at list position `k` stands in the visiting order. */
  function Turn<T>(v: View<T>, k: nat): nat
    requires v.Valid() && k < |v.items|
  {
    if k < v.index then k + |v.items| - v.index else k - v.index
  }

  lemma WithoutLeft<T>(a: seq<T>, b: seq<T>, k: nat)
    requires k < |a|
    ensures Without(a + b, k) == Without(a, k) + b
  {}

  lemma WithoutRight<T>(a: seq<T>, b: seq<T>, k: nat)
    requires k < |b|
    ensures Without(a + b, |a| + k) == a + Without(b, k)
  {}

  /** Removing any item, also the one under the index, leaves the order of the others alone. */
  lemma RemoveOrder<T>(v: View<T>, k: nat)
    requires v.Valid() && k < |v.items|
    ensures Remove(v, k).Valid()
    ensures Turn(v, k) < |v.items| && Order(v)[Turn(v, k)] == v.items[k]
    ensures Order(Remove(v, k)) == Without(Order(v), Turn(v, k))
  {
    var front, back := v.items[..v.index], v.items[v.index..];
    assert v.items == front + back;
    if k < v.index {
      WithoutLeft(front, back, k);
      WithoutRight(back, front, k);
    } else {
      WithoutRight(front, back, k - v.index);
      WithoutLeft(back, front, k - v.index);
    }
  }
}
