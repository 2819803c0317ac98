/** list.c on pointers: a circular doubly linked ring threaded through the items
    themselves, with an end marker inside the list object. */
module IntrusiveList {
  import opened ListSpec

  class ListItem {
    var value: TickType
    var next: ListItem?
    var previous: ListItem?
    var container: List?

    constructor (value: TickType)
      ensures this.value == value && container == null
    {
      this.value := value;
      next, previous, container := null, null, null;
    }
  }

  /** Next and previous pointers run round the ring, inverse to each other. */
  ghost predicate Linked(ring: seq<ListItem>)
    reads ring`next, ring`previous
  {
    forall i :: 0 <= i < |ring| ==> LinkedAt(ring, i)
  }

  ghost predicate LinkedAt(ring: seq<ListItem>, i: nat)
    requires i < |ring|
    reads ring`next, ring`previous
  {
    NextAt(ring, i) && PreviousAt(ring, i)
  }

  ghost predicate NextAt(ring: seq<ListItem>, i: nat)
    requires i < |ring|
    reads ring`next, ring`previous
  {
    ring[i].next == ring[After(ring, i)]
  }

  ghost predicate PreviousAt(ring: seq<ListItem>, i: nat)
    requires i < |ring|
    reads ring`next, ring`previous
  {
    ring[i].previous == ring[Before(ring, i)]
  }

  ghost function After(ring: seq<ListItem>, i: nat): nat
    requires i < |ring|
  {
    if i + 1 == |ring| then 0 else i + 1
  }

  ghost function Before(ring: seq<ListItem>, i: nat): nat
    requires i < |ring|
  {
    if i == 0 then |ring| - 1 else i - 1
  }

  /** Four pointer writes put an item between two neighbours. */
  lemma SplicedIn(ring: seq<ListItem>, p: nat, item: ListItem)
    requires 1 <= p <= |ring| && Distinct(ring) && item !in ring
    requires var left, right := ring[p - 1], ring[After(ring, p - 1)];
      item.next == right && item.previous == left && left.next == item && right.previous == item
    requires forall i :: 0 <= i < |ring| && i != p - 1 ==> NextAt(ring, i)
    requires forall i :: 0 <= i < |ring| && i != After(ring, p - 1) ==> PreviousAt(ring, i)
    ensures Linked(Inserted(ring, p, item)) && Distinct(Inserted(ring, p, item))
  {
    InsertedKeepsDistinct(ring, p, item);
    var ring' := Inserted(ring, p, item);
    forall i | 0 <= i < |ring'|
      ensures LinkedAt(ring', i)
    {
      if i != p {
        var k := if i < p then i else i - 1;
        assert ring'[i] == ring[k];
        assert k != p - 1 ==> NextAt(ring, k);
        assert k != After(ring, p - 1) ==> PreviousAt(ring, k);
      }
    }
  }

  /** Two pointer writes take an item out from between its neighbours. */
  lemma SplicedOut(ring: seq<ListItem>, p: nat)
    requires 1 <= p < |ring| && Distinct(ring)
    requires ring[p - 1].next == ring[After(ring, p)] && ring[After(ring, p)].previous == ring[p - 1]
    requires forall i :: 0 <= i < |ring| && i != p - 1 ==> NextAt(ring, i)
    requires forall i :: 0 <= i < |ring| && i != After(ring, p) ==> PreviousAt(ring, i)
    ensures Linked(Removed(ring, p)) && Distinct(Removed(ring, p))
  {
    RemovedKeepsDistinct(ring, p);
    var ring' := Removed(ring, p);
    forall i | 0 <= i < |ring'|
      ensures LinkedAt(ring', i)
    {
      var k := if i < p then i else i + 1;
      assert ring'[i] == ring[k];
      assert k != p - 1 ==> NextAt(ring, k);
      assert k != After(ring, p) ==> PreviousAt(ring, k);
    }
  }

  lemma OtherItem(ring: seq<ListItem>, k: nat)
    requires k < |ring| && Distinct(ring)
    ensures forall i :: 0 <= i < |ring| && i != k ==> ring[i] != ring[k]
  {
    forall i | 0 <= i < |ring| && i != k ensures ring[i] != ring[k] {
      assert if i < k then Differ(ring, i, k) else Differ(ring, k, i);
    }
  }

  /** The pointer writes of vListInsertEnd, seen from the item after the gap. */
  method LinkBefore(item: ListItem, right: ListItem, ghost ring: seq<ListItem>, ghost p: nat)
    requires 1 <= p <= |ring| && Distinct(ring) && item !in ring && Linked(ring)
    requires right == ring[After(ring, p - 1)]
    modifies ring`next, ring`previous, item`next, item`previous
    ensures Linked(Inserted(ring, p, item)) && Distinct(Inserted(ring, p, item))
  {
    assert LinkedAt(ring, After(ring, p - 1)) && ring[p - 1] in ring && right in ring;
    item.next := right;
    item.previous := right.previous;
    right.previous.next := item;
    right.previous := item;
    OtherItem(ring, p - 1);
    OtherItem(ring, After(ring, p - 1));
    forall i | 0 <= i < |ring| ensures i != p - 1 ==> NextAt(ring, i) {
      assert old(LinkedAt(ring, i));
    }
    forall i | 0 <= i < |ring| ensures i != After(ring, p - 1) ==> PreviousAt(ring, i) {
      assert old(LinkedAt(ring, i));
    }
    SplicedIn(ring, p, item);
  }

  /** The pointer writes of vListInsert, seen from the item before the gap. */
  method LinkAfter(item: ListItem, left: ListItem, ghost ring: seq<ListItem>, ghost p: nat)
    requires 1 <= p <= |ring| && Distinct(ring) && item !in ring && Linked(ring)
    requires left == ring[p - 1]
    modifies ring`next, ring`previous, item`next, item`previous
    ensures Linked(Inserted(ring, p, item)) && Distinct(Inserted(ring, p, item))
  {
    assert LinkedAt(ring, p - 1) && ring[After(ring, p - 1)] in ring && left in ring;
    item.next := left.next;
    item.next.previous := item;
    item.previous := left;
    left.next := item;
    OtherItem(ring, p - 1);
    OtherItem(ring, After(ring, p - 1));
    forall i | 0 <= i < |ring| ensures i != p - 1 ==> NextAt(ring, i) {
      assert old(LinkedAt(ring, i));
    }
    forall i | 0 <= i < |ring| ensures i != After(ring, p - 1) ==> PreviousAt(ring, i) {
      assert old(LinkedAt(ring, i));
    }
    SplicedIn(ring, p, item);
  }

  /** The pointer writes of uxListRemove. */
  method Unlink(item: ListItem, ghost ring: seq<ListItem>, ghost p: nat)
    requires 1 <= p < |ring| && Distinct(ring) && Linked(ring) && ring[p] == item
    modifies ring`next, ring`previous
    ensures Linked(Removed(ring, p)) && Distinct(Removed(ring, p))
    ensures item.previous == ring[p - 1]
  {
    assert LinkedAt(ring, p) && ring[p - 1] in ring && ring[After(ring, p)] in ring;
    item.next.previous := item.previous;
    item.previous.next := item.next;
    OtherItem(ring, p - 1);
    OtherItem(ring, After(ring, p));
    forall i | 0 <= i < |ring| ensures i != p - 1 ==> NextAt(ring, i) {
      assert old(LinkedAt(ring, i));
    }
    forall i | 0 <= i < |ring| ensures i != After(ring, p) ==> PreviousAt(ring, i) {
      assert old(LinkedAt(ring, i));
    }
    SplicedOut(ring, p);
  }

  ghost function ValuesOf(items: seq<ListItem>): (values: seq<TickType>)
    reads items`value
    ensures |values| == |items| && forall i :: 0 <= i < |items| ==> values[i] == items[i].value
  {
    if items == [] then [] else [items[0].value] + ValuesOf(items[1..])
  }

  lemma {:induction false} ValuesInserted(items: seq<ListItem>, p: nat, item: ListItem)
    requires p <= |items|
    ensures ValuesOf(Inserted(items, p, item)) == Inserted(ValuesOf(items), p, item.value)
  {
    var items', values := Inserted(items, p, item), ValuesOf(items);
    assert forall i :: 0 <= i < |items'| ==> ValuesOf(items')[i] == Inserted(values, p, item.value)[i];
  }

  class List {
    var count: nat
    var index: ListItem?
    const end: ListItem
    ghost var ring: seq<ListItem>  // the end marker, then the items in order
    ghost var at: nat              // where index is in the ring

    ghost predicate Valid()
      reads this, ring
    {
      && 0 < |ring| && ring[0] == end && Distinct(ring) && Linked(ring)
      && end.value == MAX_DELAY && end.container != this
      && (forall i :: 1 <= i < |ring| ==> ring[i].container == this)
      && at < |ring| && index == ring[at]
      && count == |ring| - 1
    }

    /** The list as a value: its items and its cursor. */
    ghost function State(): (l: ListState<ListItem>)
      requires Valid()
      reads this, ring
      ensures l.Valid()
    {
      TailDistinct(ring);
      ListState(ring[1..], at)
    }

    ghost function Values(): seq<TickType>
      requires Valid()
      reads this, ring
    {
      ValuesOf(ring[1..])
    }

    constructor ()
      ensures Valid() && fresh(ring) && State() == ListState([], 0)
    {
      var marker := new ListItem(MAX_DELAY);
      end := marker;
      index := marker;
      count := 0;
      ring, at := [marker], 0;
      new;
      end.next := end;
      end.previous := end;
    }

    /** Records an item that is linked in before position p of the ring. */
    ghost method Adopt(item: ListItem, p: nat, before: seq<ListItem>)
      requires before == ring && 1 <= p <= |ring| && item !in ring && Distinct(ring) && ring[0] == end
      requires Linked(Inserted(ring, p, item)) && item.container == this
      requires forall i :: 1 <= i < |ring| ==> ring[i].container == this
      requires end.value == MAX_DELAY && end.container != this
      requires at < |ring| && index == ring[at] && count == |ring|
      modifies this`ring, this`at
      ensures Valid() && ring == Inserted(before, p, item)
      ensures at == if old(at) >= p then old(at) + 1 else old(at)
      ensures State().items == Inserted(before[1..], p - 1, item)
    {
      InsertedKeepsDistinct(before, p, item);
      ring := Inserted(before, p, item);
      at := if at >= p then at + 1 else at;
    }

    method InsertEnd(item: ListItem)
      requires Valid() && item !in ring
      modifies this, ring`next, ring`previous, item`next, item`previous, item`container
      ensures Valid() && State() == ListSpec.InsertEnd(old(State()), item)
    {
      ghost var before, p := ring, if at == 0 then |ring| else at;
      LinkBefore(item, index, before, p);
      item.container := this;
      count := count + 1;
      Adopt(item, p, before);
      assert Inserted(before[1..], |before| - 1, item) == before[1..] + [item];
    }

    /** The search of vListInsert.  The end marker's value stops the walk, except
        for MAX_DELAY itself, which goes straight to the back. */
    method FindPlace(v: TickType) returns (left: ListItem, ghost p: nat)
      requires Valid()
      ensures p == SortedPosition(Values(), v) && left == ring[p]
    {
      ghost var values := Values();
      if v == MAX_DELAY {
        assert LinkedAt(ring, 0);
        left, p := end.previous, |ring| - 1;
      } else {
        left, p := end, 0;
        assert LinkedAt(ring, 0);
        while left.next.value <= v
          invariant p < |ring| && left == ring[p] && LinkedAt(ring, p)
          invariant forall i :: 0 <= i < p ==> values[i] <= v
          decreases |ring| - p
        {
          left, p := left.next, p + 1;
          assert LinkedAt(ring, p);
        }
      }
      PositionIs(values, v, p);
    }

    method PutAfter(item: ListItem, left: ListItem, ghost p: nat)
      requires Valid() && item !in ring && p < |ring| && left == ring[p]
      modifies this, ring`next, ring`previous, item`next, item`previous, item`container
      ensures Valid() && State() == InsertAt(old(State()), p, item)
    {
      ghost var before := ring;
      LinkAfter(item, left, before, p + 1);
      item.container := this;
      count := count + 1;
      Adopt(item, p + 1, before);
    }

    /** Sorted insertion, after all items with the same value. */
    method Insert(item: ListItem)
      requires Valid() && item !in ring
      modifies this, ring`next, ring`previous, item`next, item`previous, item`container
      ensures Valid()
      ensures State() == InsertAt(old(State()), SortedPosition(old(Values()), item.value), item)
      ensures Sorted(old(Values())) ==> Sorted(Values())
    {
      hide Linked, Distinct, Sorted, SortedPosition;
      ghost var items := ring[1..];
      ghost var values := ValuesOf(items);
      var left, p := FindPlace(item.value);
      PutAfter(item, left, p);
      assert ring[1..] == Inserted(items, p, item) && ValuesOf(items) == values;
      ValuesInserted(items, p, item);
      if Sorted(values) {
        SortedInsertStaysSorted(values, item.value);
      }
    }

    /** Records that the item at position p is unlinked. */
    ghost method Drop(item: ListItem, p: nat, before: seq<ListItem>)
      requires before == ring && 1 <= p < |ring| && ring[p] == item && Distinct(ring) && ring[0] == end
      requires Linked(Removed(ring, p))
      requires forall i :: 1 <= i < |ring| && i != p ==> ring[i].container == this
      requires end.value == MAX_DELAY && end.container != this
      requires at < |ring| && index == ring[if at == p then p - 1 else at] && count == |ring| - 2
      modifies this`ring, this`at
      ensures Valid() && ring == Removed(before, p)
      ensures at == if old(at) >= p then old(at) - 1 else old(at)
      ensures State().items == Removed(before[1..], p - 1)
    {
      RemovedKeepsDistinct(before, p);
      ring := Removed(before, p);
      at := if at >= p then at - 1 else at;
    }

    /** uxListRemove: the item knows its list; the cursor steps back if it was
        on the item.  `p` is where the item is. */
    static method Remove(item: ListItem, ghost p: nat) returns (remaining: nat)
      requires item.container != null && item.container.Valid()
      requires p < |item.container.State().items| && item.container.State().items[p] == item
      modifies item.container, item.container.ring`next, item.container.ring`previous, item`container
      ensures var list := old(item.container);
        && list.Valid() && list.State() == RemoveAt(old(item.container.State()), p)
        && remaining == |list.State().items| && item.container == null
    {
      var list := item.container;
      ghost var before, k := list.ring, p + 1;
      OtherItem(before, k);
      Unlink(item, before, k);
      if list.index == item {
        list.index := item.previous;
      }
      item.container := null;
      list.count := list.count - 1;
      remaining := list.count;
      list.Drop(item, k, before);
    }

    /** listGET_OWNER_OF_NEXT_ENTRY */
    method Advance() returns (item: ListItem)
      requires Valid() && count > 0
      modifies this
      ensures Valid() && ring == old(ring)
      ensures State() == ListSpec.Next(old(State())) && item == State().items[State().cursor - 1]
    {
      assert LinkedAt(ring, at);
      index := index.next;
      at := After(ring, at);
      if index == end {
        assert at == 0 && LinkedAt(ring, 0);
        index := index.next;
        at := After(ring, at);
      }
      item := index;
    }
  }

  /** The position is the only one with smaller or equal values before it and a
      greater value, or nothing, at it. */
  lemma PositionIs(values: seq<TickType>, v: TickType, p: nat)
    requires p <= |values| && (forall i :: 0 <= i < p ==> values[i] <= v) && (p < |values| ==> values[p] > v)
    ensures SortedPosition(values, v) == p
  {
  }
}
