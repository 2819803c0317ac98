/** What the circular lists of list.c mean: a sequence of items and a cursor.
    Cursor 0 is the end marker, cursor k > 0 is the k-th item. */
module ListSpec {

  const MAX_DELAY := 0xFFFF_FFFF
  type TickType = x: int | 0 <= x < 0x1_0000_0000

  datatype ListState<T> = ListState(items: seq<T>, cursor: nat) {
    ghost predicate Valid() {
      cursor <= |items| && Distinct(items)
    }
  }

  ghost predicate Distinct<T>(s: seq<T>) {
    forall i, j :: 0 <= i < j < |s| ==> Differ(s, i, j)
  }

  ghost predicate Differ<T>(s: seq<T>, i: nat, j: nat)
    requires i < |s| && j < |s|
  {
    s[i] != s[j]
  }

  predicate Sorted(values: seq<TickType>) {
    forall i, j :: 0 <= i < j < |values| ==> values[i] <= values[j]
  }

  function Inserted<T>(s: seq<T>, p: nat, x: T): seq<T>
    requires p <= |s|
  {
    s[..p] + [x] + s[p..]
  }

  function Removed<T>(s: seq<T>, p: nat): seq<T>
    requires p < |s|
  {
    s[..p] + s[p + 1..]
  }

  /** Where an item is first found. */
  function Index<T(==)>(s: seq<T>, x: T): (k: nat)
    requires x in s
    ensures k < |s| && s[k] == x
  {
    if s[0] == x then 0 else 1 + Index(s[1..], x)
  }

  /** vListInsertEnd: just before the cursor, so that a walk reaches it last. */
  function InsertEnd<T>(l: ListState<T>, x: T): ListState<T>
    requires l.cursor <= |l.items|
  {
    if l.cursor == 0 then ListState(l.items + [x], 0)
    else ListState(Inserted(l.items, l.cursor - 1, x), l.cursor + 1)
  }

  function InsertAt<T>(l: ListState<T>, p: nat, x: T): ListState<T>
    requires p <= |l.items|
  {
    ListState(Inserted(l.items, p, x), if l.cursor > p then l.cursor + 1 else l.cursor)
  }

  function RemoveAt<T>(l: ListState<T>, p: nat): ListState<T>
    requires p < |l.items|
  {
    ListState(Removed(l.items, p), if l.cursor > p then l.cursor - 1 else l.cursor)
  }

  /** listGET_OWNER_OF_NEXT_ENTRY: one item on, stepping over the end marker. */
  function Next<T>(l: ListState<T>): ListState<T>
    requires l.items != [] && l.cursor <= |l.items|
  {
    l.(cursor := if l.cursor == |l.items| then 1 else l.cursor + 1)
  }

  /** Where vListInsert puts a value: before the first greater one. */
  function SortedPosition(values: seq<TickType>, v: TickType): (p: nat)
    ensures p <= |values|
    ensures forall i :: 0 <= i < p ==> values[i] <= v
    ensures p < |values| ==> values[p] > v
  {
    if values == [] || values[0] > v then 0 else 1 + SortedPosition(values[1..], v)
  }

  /** Inserting there keeps a sorted list sorted, and after all equal values. */
  lemma SortedInsertStaysSorted(values: seq<TickType>, v: TickType)
    requires Sorted(values)
    ensures var p := SortedPosition(values, v);
      Sorted(Inserted(values, p, v)) && forall i :: p <= i < |values| ==> v < values[i]
  {
    var p := SortedPosition(values, v);
    var longer := Inserted(values, p, v);
    assert forall i :: p <= i < |values| ==> values[p] <= values[i];
    forall i, j | 0 <= i < j < |longer| ensures longer[i] <= longer[j] {
      assert i != p && j != p ==> values[if i < p then i else i - 1] <= values[if j < p then j else j - 1];
    }
  }

  lemma InsertedKeepsDistinct<T>(s: seq<T>, p: nat, x: T)
    requires p <= |s| && Distinct(s) && x !in s
    ensures Distinct(Inserted(s, p, x))
    ensures forall y :: y in Inserted(s, p, x) <==> y in s || y == x
  {
    var t := Inserted(s, p, x);
    assert t[p] == x;
    assert forall i :: 0 <= i < |s| ==> s[i] == t[if i < p then i else i + 1];
    forall i, j | 0 <= i < j < |t| ensures Differ(t, i, j) {
      if i != p && j != p {
        assert Differ(s, if i < p then i else i - 1, if j < p then j else j - 1);
      }
    }
  }

  lemma RemovedKeepsDistinct<T>(s: seq<T>, p: nat)
    requires p < |s| && Distinct(s)
    ensures Distinct(Removed(s, p))
    ensures forall y :: y in Removed(s, p) <==> y in s && y != s[p]
  {
    var t := Removed(s, p);
    forall i, j | 0 <= i < j < |t| ensures Differ(t, i, j) {
      assert Differ(s, if i < p then i else i + 1, if j < p then j else j + 1);
    }
    forall i | 0 <= i < |t| ensures t[i] != s[p] {
      assert if i < p then Differ(s, i, p) else Differ(s, p, i + 1);
    }
    forall y | y in s && y != s[p] ensures y in t {
      var i :| 0 <= i < |s| && s[i] == y;
      assert t[if i < p then i else i - 1] == y;
    }
  }

  lemma TailDistinct<T>(s: seq<T>)
    requires s != [] && Distinct(s)
    ensures Distinct(s[1..]) && s[0] !in s[1..]
  {
    forall i, j | 0 <= i < j < |s| - 1 ensures Differ(s[1..], i, j) {
      assert Differ(s, i + 1, j + 1);
    }
    forall i | 1 <= i < |s| ensures s[i] != s[0] {
      assert Differ(s, 0, i);
    }
  }

  /** vListInsertEnd adds exactly the new item. */
  lemma InsertEndIs<T>(l: ListState<T>, x: T)
    requires l.Valid() && x !in l.items
    ensures InsertEnd(l, x).Valid()
    ensures forall y :: y in InsertEnd(l, x).items <==> y in l.items || y == x
  {
    InsertedKeepsDistinct(l.items, if l.cursor == 0 then |l.items| else l.cursor - 1, x);
    assert Inserted(l.items, |l.items|, x) == l.items + [x];
  }

  /** uxListRemove takes away exactly one item. */
  lemma RemoveAtIs<T>(l: ListState<T>, p: nat)
    requires l.Valid() && p < |l.items|
    ensures RemoveAt(l, p).Valid()
    ensures forall y :: y in RemoveAt(l, p).items <==> y in l.items && y != l.items[p]
  {
    RemovedKeepsDistinct(l.items, p);
  }

  /** The cursor after n calls of Next. */
  function Walk<T>(l: ListState<T>, n: nat): (l': ListState<T>)
    requires l.items != [] && l.cursor <= |l.items|
    ensures l'.items == l.items && l'.cursor <= |l.items|
  {
    if n == 0 then l else Next(Walk(l, n - 1))
  }

  /** Every item is reached once in each round of |items| calls: the n-th call
      stops at the item n places on from where the walk started. */
  lemma {:induction false} WalkIsFair<T>(l: ListState<T>, n: nat)
    requires l.Valid() && l.items != [] && 0 < n <= |l.items|
    ensures Walk(l, n).cursor == if l.cursor + n <= |l.items| then l.cursor + n else l.cursor + n - |l.items|
  {
    if n > 1 {
      WalkIsFair(l, n - 1);
    } else {
      assert Walk(l, 0) == l;
    }
  }

  /** The item at which the n-th call of Next stops. */
  function Stop<T>(l: ListState<T>, n: nat): T
    requires l.Valid() && l.items != [] && n > 0
  {
    WalkStays(l, n);
    Walk(l, n).items[Walk(l, n).cursor - 1]
  }

  lemma WalkStays<T>(l: ListState<T>, n: nat)
    requires l.items != [] && l.cursor <= |l.items| && n > 0
    ensures 0 < Walk(l, n).cursor
  {
  }

  /** The stops of one round, by place. */
  lemma StopIs<T>(l: ListState<T>, n: nat)
    requires l.Valid() && l.items != [] && 0 < n <= |l.items|
    ensures Stop(l, n) == l.items[if l.cursor + n <= |l.items| then l.cursor + n - 1 else l.cursor + n - |l.items| - 1]
  {
    WalkIsFair(l, n);
  }

  /** One call further on, every stop comes one call earlier. */
  lemma StopAfterNext<T>(l: ListState<T>, n: nat)
    requires l.Valid() && l.items != [] && n > 0
    ensures Next(l).Valid() && Next(l).items == l.items && Stop(Next(l), n) == Stop(l, n + 1)
  {
    WalkAfterNext(l, n);
  }

  lemma {:induction false} WalkAfterNext<T>(l: ListState<T>, n: nat)
    requires l.items != [] && l.cursor <= |l.items|
    ensures Walk(Next(l), n) == Walk(l, n + 1)
  {
    if n > 0 {
      WalkAfterNext(l, n - 1);
    }
  }

  /** What vListInsertEnd promises of a walk: the items that were there come as
      before and the new one after them all, except that the item on which the
      cursor stands, the last that was visited, still comes after it. */
  lemma InsertEndVisits<T>(l: ListState<T>, x: T, n: nat)
    requires l.Valid() && x !in l.items && 0 < n <= |l.items| + 1
    ensures InsertEnd(l, x).Valid()
    ensures var others := if l.cursor == 0 then |l.items| else |l.items| - 1;
      Stop(InsertEnd(l, x), n) ==
      if n <= others then Stop(l, n) else if n == others + 1 then x else l.items[l.cursor - 1]
  {
    hide Inserted, Distinct, Stop;
    InsertEndIs(l, x);
    var e := InsertEnd(l, x);
    var p := if l.cursor == 0 then |l.items| else l.cursor - 1;
    InsertedLast(l.items, x);
    InsertedAt(l.items, p, x, p);
    var k := if e.cursor + n <= |e.items| then e.cursor + n - 1 else e.cursor + n - |e.items| - 1;
    StopIs(e, n);
    InsertedAt(l.items, p, x, k);
    if n <= |l.items| { StopIs(l, n); }
  }

  /** So the new item is the last of all to be visited only if the cursor is on the
      end marker. */
  lemma NewestIsLastIff<T>(l: ListState<T>, x: T)
    requires l.Valid() && x !in l.items
    ensures InsertEnd(l, x).Valid() && |InsertEnd(l, x).items| == |l.items| + 1
    ensures Stop(InsertEnd(l, x), |l.items| + 1) == x <==> l.cursor == 0
  {
    hide Stop;
    InsertEndVisits(l, x, |l.items| + 1);
  }

  lemma InsertedAt<T>(s: seq<T>, p: nat, x: T, i: nat)
    requires p <= |s| && i <= |s|
    ensures |Inserted(s, p, x)| == |s| + 1
    ensures Inserted(s, p, x)[i] == if i < p then s[i] else if i == p then x else s[i - 1]
  {
  }

  lemma InsertedLast<T>(s: seq<T>, x: T)
    ensures Inserted(s, |s|, x) == s + [x]
  {
  }

  lemma SamePlace<T>(s: seq<T>, i: nat, j: nat)
    requires Distinct(s) && i < |s| && j < |s| && s[i] == s[j]
    ensures i == j
  {
    assert i < j ==> Differ(s, i, j);
    assert j < i ==> Differ(s, j, i);
  }

  /** After a removal the walk stops where it would have, with that item left out,
      even if the cursor was on it. */
  lemma RemoveAtVisits<T>(l: ListState<T>, p: nat, n: nat, k: nat)
    requires l.Valid() && p < |l.items| && 0 < n < |l.items|
    requires 0 < k <= |l.items| && Stop(l, k) == l.items[p]
    ensures RemoveAt(l, p).Valid()
    ensures Stop(RemoveAt(l, p), n) == Stop(l, if n < k then n else n + 1)
  {
    hide Stop;
    RemoveAtIs(l, p);
    StopIs(l, k);
    SamePlace(l.items, if l.cursor + k <= |l.items| then l.cursor + k - 1 else l.cursor + k - |l.items| - 1, p);
    StopIs(RemoveAt(l, p), n);
    StopIs(l, if n < k then n else n + 1);
  }

  /** Sorted insertion leaves the cursor on the item it was on. */
  lemma InsertAtKeepsCursor<T>(l: ListState<T>, p: nat, x: T)
    requires l.Valid() && p <= |l.items| && x !in l.items
    ensures InsertAt(l, p, x).Valid()
    ensures var l' := InsertAt(l, p, x);
      if l.cursor == 0 then l'.cursor == 0 else l'.cursor > 0 && l'.items[l'.cursor - 1] == l.items[l.cursor - 1]
  {
    InsertedKeepsDistinct(l.items, p, x);
  }
}
