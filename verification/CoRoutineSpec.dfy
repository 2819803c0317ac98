/** What the co-routine scheduler of croutine.c computes, on values, and the
    invariants that every operation keeps.  Lists hold co-routine numbers; a
    list is the value that list.c keeps in its ring (see ListSpec). */
module CoRoutineSpec {
  import opened Wrappers
  import opened ListSpec
  import opened UnboundedClock

  const TICKS := 0x1_0000_0000

  type EventList = nat

  /** Where the event item of a co-routine is: pxContainer of xEventListItem. */
  datatype Place = Nowhere | PendingReady | Waiting(events: EventList)

  function Without<T(==)>(s: seq<T>, x: T): seq<T>
    requires x in s
  {
    Removed(s, Index(s, x))
  }

  lemma WithoutIs<T>(s: seq<T>, x: T)
    requires x in s && Distinct(s)
    ensures Distinct(Without(s, x))
    ensures forall y :: y in Without(s, x) <==> y in s && y != x
  {
    RemovedKeepsDistinct(s, Index(s, x));
  }

  // --------------------------------------------------------------- invariants

  /** Every co-routine's generic item is on exactly one list: the ready list of
      its own priority, the delay list, or the overflow list. */
  ghost predicate PlacesOk(priority: map<Id, nat>, ready: seq<ListState<Id>>, delayed: seq<Id>, overflow: seq<Id>) {
    && Distinct(delayed) && Distinct(overflow)
    && (forall p :: 0 <= p < |ready| ==> ready[p].Valid())
    && (forall p, id :: 0 <= p < |ready| && id in ready[p].items ==> id in priority && priority[id] == p)
    && (forall id :: id in delayed || id in overflow ==> id in priority)
    && (forall id :: id in priority ==>
          && priority[id] < |ready|
          && (id in ready[priority[id]].items <==> id !in delayed && id !in overflow)
          && !(id in delayed && id in overflow))
  }

  ghost predicate TopOk(ready: seq<ListState<Id>>, top: nat) {
    top < |ready| && forall p :: top < p < |ready| ==> ready[p].items == []
  }

  ghost predicate EventsOk(place: map<Id, Place>, pending: seq<Id>, events: map<EventList, seq<Id>>,
                           delayed: seq<Id>, overflow: seq<Id>) {
    && Distinct(pending)
    && (forall id :: id in pending <==> id in place && place[id] == PendingReady)
    && (forall e :: e in events ==> Distinct(events[e]))
    && (forall e, id :: e in events && id in events[e] ==> id in place && place[id] == Waiting(e))
    && (forall id :: id in place && place[id].Waiting? ==>
          place[id].events in events && id in events[place[id].events])
    && (forall id :: id in place && place[id] != Nowhere ==> id in delayed || id in overflow)
  }

  /** The items of a list in order of their values. */
  ghost predicate InOrder(value: map<Id, TickType>, list: seq<Id>) {
    && (forall id :: id in list ==> id in value)
    && Sorted(ValuesIn(value, list))
  }

  function ValuesIn(value: map<Id, TickType>, list: seq<Id>): (values: seq<TickType>)
    requires forall id :: id in list ==> id in value
    ensures |values| == |list| && forall i :: 0 <= i < |list| ==> values[i] == value[list[i]]
  {
    seq(|list|, i requires 0 <= i < |list| => value[list[i]])
  }

  /** Event lists are in order of priority: an event item's value falls as the
      priority of its co-routine rises. */
  ghost predicate RanksOk(priority: map<Id, nat>, priorities: nat, rank: map<Id, TickType>,
                          events: map<EventList, seq<Id>>) {
    && 0 < priorities <= MAX_DELAY
    && rank.Keys == priority.Keys
    && (forall id :: id in priority ==> priority[id] < priorities && rank[id] == priorities - priority[id])
    && (forall e :: e in events ==> InOrder(rank, events[e]))
  }

  ghost predicate ClockOk(now: nat, tick: TickType, wake: map<Id, TickType>, due: map<Id, nat>,
                          delayed: seq<Id>, overflow: seq<Id>) {
    && tick == now % TICKS
    && InOrder(wake, delayed) && InOrder(wake, overflow)
    && (forall id :: id in delayed ==> id in due && due[id] == now - tick + wake[id])
    && (forall id :: id in overflow ==> id in due && due[id] == now - tick + TICKS + wake[id])
  }

  /** Between ticks the delay list is wholly ahead of the tick and the overflow
      list wholly behind it. */
  ghost predicate Ahead(tick: TickType, wake: map<Id, TickType>, delayed: seq<Id>, overflow: seq<Id>) {
    && (forall id :: id in delayed ==> id in wake && wake[id] > tick)
    && (forall id :: id in overflow ==> id in wake && wake[id] < tick)
  }

  // ---------------------------------------------------------- moves on values

  /** What makes the places right again when one co-routine becomes ready, in
      terms of membership alone. */
  lemma PlacesByMembers(priority: map<Id, nat>, ready: seq<ListState<Id>>, delayed: seq<Id>, overflow: seq<Id>, id: Id,
                        ready': seq<ListState<Id>>, delayed': seq<Id>, overflow': seq<Id>)
    requires PlacesOk(priority, ready, delayed, overflow) && id in priority && |ready'| == |ready|
    requires Distinct(delayed') && Distinct(overflow') && forall p :: 0 <= p < |ready'| ==> ready'[p].Valid()
    requires forall p, x :: 0 <= p < |ready'| ==>
      (x in ready'[p].items <==> x in ready[p].items || (p == priority[id] && x == id))
    requires forall x :: x in delayed' <==> x in delayed && x != id
    requires forall x :: x in overflow' <==> x in overflow && x != id
    ensures PlacesOk(priority, ready', delayed', overflow')
  {
    hide Distinct, ListState.Valid;
  }

  lemma ToReady(priority: map<Id, nat>, ready: seq<ListState<Id>>, delayed: seq<Id>, overflow: seq<Id>, id: Id)
    requires PlacesOk(priority, ready, delayed, overflow) && (id in delayed || id in overflow)
    ensures id in priority && priority[id] < |ready|
    ensures var p := priority[id];
      && ready[p].cursor <= |ready[p].items|
      && PlacesOk(priority, ready[p := InsertEnd(ready[p], id)],
                  if id in delayed then Without(delayed, id) else delayed,
                  if id in delayed then overflow else Without(overflow, id))
  {
    hide InsertEnd, Distinct, Without;
    var p := priority[id];
    var ready' := ready[p := InsertEnd(ready[p], id)];
    InsertEndIs(ready[p], id);
    if id in delayed { WithoutIs(delayed, id); } else { WithoutIs(overflow, id); }
    PlacesByMembers(priority, ready, delayed, overflow, id, ready',
                    if id in delayed then Without(delayed, id) else delayed,
                    if id in delayed then overflow else Without(overflow, id));
  }

  lemma TopAfterInsert(ready: seq<ListState<Id>>, top: nat, p: nat, id: Id)
    requires TopOk(ready, top) && p < |ready| && ready[p].cursor <= |ready[p].items|
    ensures TopOk(ready[p := InsertEnd(ready[p], id)], if p > top then p else top)
  {
  }

  lemma ToDelayed(priority: map<Id, nat>, ready: seq<ListState<Id>>, delayed: seq<Id>, overflow: seq<Id>,
                  id: Id, intoOverflow: bool, at: nat)
    requires PlacesOk(priority, ready, delayed, overflow)
    requires id in priority && id in ready[priority[id]].items
    requires at <= if intoOverflow then |overflow| else |delayed|
    ensures var p := priority[id];
      PlacesOk(priority, ready[p := RemoveAt(ready[p], Index(ready[p].items, id))],
               if intoOverflow then delayed else Inserted(delayed, at, id),
               if intoOverflow then Inserted(overflow, at, id) else overflow)
  {
    hide RemoveAt, Distinct, Inserted;
    var p := priority[id];
    RemoveAtIs(ready[p], Index(ready[p].items, id));
    InsertedKeepsDistinct(if intoOverflow then overflow else delayed, at, id);
  }

  lemma OrderRemoved(wake: map<Id, TickType>, list: seq<Id>, id: Id)
    requires InOrder(wake, list) && id in list && Distinct(list)
    ensures InOrder(wake, Without(list, id))
  {
    WithoutIs(list, id);
    var k := Index(list, id);
    var rest := Without(list, id);
    assert forall i :: 0 <= i < |rest| ==> rest[i] == list[if i < k then i else i + 1];
    assert forall i :: 0 <= i < |rest| ==> ValuesIn(wake, rest)[i] == ValuesIn(wake, list)[if i < k then i else i + 1];
  }

  lemma ValuesOfInserted(wake: map<Id, TickType>, list: seq<Id>, id: Id, t: TickType, at: nat)
    requires (forall x :: x in list ==> x in wake) && id !in list && at <= |list|
    ensures forall x :: x in Inserted(list, at, id) ==> x in wake[id := t]
    ensures ValuesIn(wake[id := t], Inserted(list, at, id)) == Inserted(ValuesIn(wake, list), at, t)
  {
    var list' := Inserted(list, at, id);
    forall i | 0 <= i < |list'| ensures list'[i] == if i < at then list[i] else if i == at then id else list[i - 1] {
    }
  }

  lemma OrderInserted(wake: map<Id, TickType>, list: seq<Id>, id: Id, t: TickType)
    requires InOrder(wake, list) && id !in list && Distinct(list)
    ensures var at := SortedPosition(ValuesIn(wake, list), t);
      InOrder(wake[id := t], Inserted(list, at, id))
  {
    hide Sorted, Inserted, SortedPosition, Distinct;
    var times := ValuesIn(wake, list);
    ValuesOfInserted(wake, list, id, t, SortedPosition(times, t));
    SortedInsertStaysSorted(times, t);
  }

  function PendingWithout(place: map<Id, Place>, pending: seq<Id>, id: Id): seq<Id>
    requires id in place && (place[id] == PendingReady ==> id in pending)
  {
    if place[id] == PendingReady then Without(pending, id) else pending
  }

  function EventsWithout(place: map<Id, Place>, events: map<EventList, seq<Id>>, id: Id): map<EventList, seq<Id>>
    requires id in place
    requires place[id].Waiting? ==> place[id].events in events && id in events[place[id].events]
  {
    if place[id].Waiting? then var e := place[id].events; events[e := Without(events[e], id)] else events
  }

  lemma EventItemGone(place: map<Id, Place>, pending: seq<Id>, events: map<EventList, seq<Id>>,
                      delayed: seq<Id>, overflow: seq<Id>, id: Id, delayed': seq<Id>, overflow': seq<Id>)
    requires EventsOk(place, pending, events, delayed, overflow) && id in place
    requires forall x :: (x in delayed || x in overflow) && x != id ==> x in delayed' || x in overflow'
    ensures EventsOk(place[id := Nowhere], PendingWithout(place, pending, id), EventsWithout(place, events, id),
                     delayed', overflow')
  {
    if place[id] == PendingReady { WithoutIs(pending, id); }
    if place[id].Waiting? { WithoutIs(events[place[id].events], id); }
  }

  ghost function SleepersOn(due: map<Id, nat>, delayed: seq<Id>, overflow: seq<Id>): map<Id, nat> {
    map id | id in due && (id in delayed || id in overflow) :: due[id]
  }

  lemma SleepersWithout(due: map<Id, nat>, delayed: seq<Id>, overflow: seq<Id>,
                        id: Id, delayed': seq<Id>, overflow': seq<Id>)
    requires forall x :: x in delayed' <==> x in delayed && x != id
    requires forall x :: x in overflow' <==> x in overflow && x != id
    ensures SleepersOn(due, delayed', overflow') == SleepersOn(due, delayed, overflow) - {id}
  {
  }

  /** The variables of croutine.c, the two delay lists named by their role. */
  datatype View = View(
    priority: map<Id, nat>,
    ready: seq<ListState<Id>>,
    top: nat,
    place: map<Id, Place>,
    pending: seq<Id>,
    events: map<EventList, seq<Id>>,
    rank: map<Id, TickType>,
    wake: map<Id, TickType>,
    tick: TickType,
    now: nat,
    due: map<Id, nat>,
    delayed: seq<Id>,
    overflow: seq<Id>)
  {
    ghost predicate Ok() {
      && priority.Keys == place.Keys
      && PlacesOk(priority, ready, delayed, overflow)
      && TopOk(ready, top)
      && EventsOk(place, pending, events, delayed, overflow)
      && RanksOk(priority, |ready|, rank, events)
      && ClockOk(now, tick, wake, due, delayed, overflow)
    }

    /** Nobody on the delay list has been passed by. */
    ghost predicate Going() {
      Ok() && forall id :: id in delayed ==> id in wake && wake[id] > tick
    }

    /** What also holds between two ticks, unless someone asked for a delay of
        zero ticks. */
    ghost predicate Settled() {
      Ok() && Ahead(tick, wake, delayed, overflow)
    }

    ghost function Sleeping(): map<Id, nat> {
      SleepersOn(due, delayed, overflow)
    }

    /** The unbounded clock that this state stands for. */
    ghost function AsClock(): Clock {
      Clock(now, Sleeping())
    }

    ghost predicate IsReady(id: Id) {
      id in priority && priority[id] < |ready| && id in ready[priority[id]].items
    }
  }

  lemma ReadyOrSleeping(v: View, id: Id)
    requires v.Ok() && id in v.priority
    ensures v.IsReady(id) <==> id !in v.Sleeping()
  {
  }

  /** A co-routine leaves its delay list and any event list and becomes ready. */
  ghost function Unblock(v: View, id: Id): View
    requires v.Ok() && (id in v.delayed || id in v.overflow)
  {
    ToReady(v.priority, v.ready, v.delayed, v.overflow, id);
    var p := v.priority[id];
    v.(delayed := if id in v.delayed then Without(v.delayed, id) else v.delayed,
       overflow := if id in v.delayed then v.overflow else Without(v.overflow, id),
       place := v.place[id := Nowhere],
       pending := PendingWithout(v.place, v.pending, id),
       events := EventsWithout(v.place, v.events, id),
       ready := v.ready[p := InsertEnd(v.ready[p], id)],
       top := if p > v.top then p else v.top)
  }

  lemma UnblockKeepsPlaces(v: View, id: Id)
    requires v.Ok() && (id in v.delayed || id in v.overflow)
    ensures var v' := Unblock(v, id);
      PlacesOk(v'.priority, v'.ready, v'.delayed, v'.overflow) && TopOk(v'.ready, v'.top)
  {
    ToReady(v.priority, v.ready, v.delayed, v.overflow, id);
    TopAfterInsert(v.ready, v.top, v.priority[id], id);
  }

  lemma UnblockKeepsEvents(v: View, id: Id)
    requires v.Ok() && (id in v.delayed || id in v.overflow)
    ensures var v' := Unblock(v, id);
      EventsOk(v'.place, v'.pending, v'.events, v'.delayed, v'.overflow)
  {
    var v' := Unblock(v, id);
    if id in v.delayed { WithoutIs(v.delayed, id); } else { WithoutIs(v.overflow, id); }
    EventItemGone(v.place, v.pending, v.events, v.delayed, v.overflow, id, v'.delayed, v'.overflow);
  }

  lemma UnblockKeepsClock(v: View, id: Id)
    requires v.Ok() && (id in v.delayed || id in v.overflow)
    ensures var v' := Unblock(v, id);
      && ClockOk(v'.now, v'.tick, v'.wake, v'.due, v'.delayed, v'.overflow)
      && (forall x :: x in v'.delayed <==> x in v.delayed && x != id)
      && (forall x :: x in v'.overflow <==> x in v.overflow && x != id)
  {
    if id in v.delayed {
      WithoutIs(v.delayed, id);
      OrderRemoved(v.wake, v.delayed, id);
    } else {
      WithoutIs(v.overflow, id);
      OrderRemoved(v.wake, v.overflow, id);
    }
  }

  lemma Known(v: View, id: Id)
    requires v.Ok() && (id in v.delayed || id in v.overflow)
    ensures id in v.priority && id in v.place && v.priority[id] < |v.ready|
  {
  }

  lemma RankRemoved(priority: map<Id, nat>, priorities: nat, rank: map<Id, TickType>,
                    events: map<EventList, seq<Id>>, e: EventList, id: Id)
    requires RanksOk(priority, priorities, rank, events) && e in events && id in events[e] && Distinct(events[e])
    ensures RanksOk(priority, priorities, rank, events[e := Without(events[e], id)])
  {
    OrderRemoved(rank, events[e], id);
  }

  lemma UnblockKeepsRanks(v: View, id: Id)
    requires v.Ok() && (id in v.delayed || id in v.overflow)
    ensures var v' := Unblock(v, id);
      |v'.ready| == |v.ready| && RanksOk(v'.priority, |v'.ready|, v'.rank, v'.events)
  {
    hide PlacesOk, ClockOk, TopOk, RanksOk;
    Known(v, id);
    if v.place[id].Waiting? {
      RankRemoved(v.priority, |v.ready|, v.rank, v.events, v.place[id].events, id);
    }
  }

  lemma UnblockOk(v: View, id: Id)
    requires v.Ok() && (id in v.delayed || id in v.overflow)
    ensures Unblock(v, id).Ok()
  {
    hide PlacesOk, EventsOk, TopOk, RanksOk, ClockOk;
    Known(v, id);
    UnblockKeepsRanks(v, id);
    UnblockKeepsPlaces(v, id);
    UnblockKeepsEvents(v, id);
    UnblockKeepsClock(v, id);
  }

  lemma UnblockWakes(v: View, id: Id)
    requires v.Ok() && (id in v.delayed || id in v.overflow)
    ensures Unblock(v, id).Sleeping() == v.Sleeping() - {id}
  {
    UnblockKeepsClock(v, id);
    var v' := Unblock(v, id);
    SleepersWithout(v.due, v.delayed, v.overflow, id, v'.delayed, v'.overflow);
  }

  // -------------------------------------------------------------------- ticks

  /** The count at which the tick that each waits for comes next, once the
      delay list `out` has been swapped out: a list that is swapped out is
      looked at again only after the overflow list has had its round. */
  function NextDue(due: map<Id, nat>, out: seq<Id>): map<Id, nat> {
    map id | id in due :: if id in out then due[id] + 2 * TICKS else due[id]
  }

  /** One step of the tick count; at the wrap the delay lists swap roles. */
  function NextTick(v: View): View {
    var tick := if v.tick == MAX_DELAY then 0 else v.tick + 1;
    var v' := v.(tick := tick, now := v.now + 1);
    if tick == 0 then v'.(delayed := v.overflow, overflow := v.delayed, due := NextDue(v.due, v.delayed)) else v'
  }

  lemma TickCounts(now: nat, tick: TickType)
    requires tick == now % TICKS
    ensures (now + 1) % TICKS == if tick == MAX_DELAY then 0 else tick + 1
  {
  }

  lemma HeadOf<T>(s: seq<T>) returns (x: T)
    requires s != []
    ensures x in s
  {
    x := s[0];
  }

  /** Whatever is on the delay list when the tick wraps would have been due
      before: the list that is swapped out is empty. */
  lemma SwappedOutEmpty(v: View)
    requires v.Going() && v.tick == MAX_DELAY
    ensures v.delayed == [] && NextDue(v.due, v.delayed) == v.due
  {
    if v.delayed != [] {
      var id := HeadOf(v.delayed);
      assert false;
    }
  }

  lemma ListsSwap(priority: map<Id, nat>, ready: seq<ListState<Id>>, place: map<Id, Place>, pending: seq<Id>,
                  events: map<EventList, seq<Id>>, delayed: seq<Id>, overflow: seq<Id>)
    requires PlacesOk(priority, ready, delayed, overflow) && EventsOk(place, pending, events, delayed, overflow)
    ensures PlacesOk(priority, ready, overflow, delayed) && EventsOk(place, pending, events, overflow, delayed)
  {
  }

  lemma ClockSwaps(now: nat, wake: map<Id, TickType>, due: map<Id, nat>, delayed: seq<Id>, overflow: seq<Id>)
    requires ClockOk(now, MAX_DELAY, wake, due, delayed, overflow)
    requires forall id :: !(id in delayed && id in overflow)
    ensures ClockOk(now + 1, 0, wake, NextDue(due, delayed), overflow, delayed)
  {
    TickCounts(now, MAX_DELAY);
  }

  lemma ClockSteps(now: nat, tick: TickType, wake: map<Id, TickType>, due: map<Id, nat>,
                   delayed: seq<Id>, overflow: seq<Id>)
    requires ClockOk(now, tick, wake, due, delayed, overflow) && tick < MAX_DELAY
    ensures ClockOk(now + 1, tick + 1, wake, due, delayed, overflow)
  {
    TickCounts(now, tick);
  }

  lemma OnOneDelayList(v: View)
    requires v.Ok()
    ensures forall id :: !(id in v.delayed && id in v.overflow)
  {
  }

  lemma NextTickOk(v: View)
    requires v.Ok()
    ensures NextTick(v).Ok()
  {
    hide PlacesOk, EventsOk, TopOk, RanksOk, ClockOk;
    if v.tick == MAX_DELAY {
      OnOneDelayList(v);
      ListsSwap(v.priority, v.ready, v.place, v.pending, v.events, v.delayed, v.overflow);
      ClockSwaps(v.now, v.wake, v.due, v.delayed, v.overflow);
    } else {
      ClockSteps(v.now, v.tick, v.wake, v.due, v.delayed, v.overflow);
    }
  }

  /** While nobody has been passed by, counting wakes nobody and forgets nobody. */
  lemma NextTickSleeping(v: View)
    requires v.Going() || v.tick != MAX_DELAY
    ensures NextTick(v).Sleeping() == v.Sleeping()
    ensures v.Settled() ==> forall id :: id in NextTick(v).overflow ==> id in v.wake && v.wake[id] < NextTick(v).tick
  {
    hide PlacesOk, EventsOk, TopOk, RanksOk, ClockOk;
    if v.tick == MAX_DELAY {
      SwappedOutEmpty(v);
    }
  }

  /** The inner loop of prvCheckDelayedList: wakes from the head of the delay
      list until a wake time lies ahead. */
  ghost function WakeDue(v: View): (v': View)
    requires v.Ok()
    ensures v'.Ok()
    decreases |v.delayed|
  {
    if v.delayed == [] || v.tick < v.wake[v.delayed[0]] then v
    else
      UnblockOk(v, v.delayed[0]);
      WakeDue(Unblock(v, v.delayed[0]))
  }

  lemma NothingDue(v: View)
    requires v.Ok() && (v.delayed == [] || v.tick < v.wake[v.delayed[0]])
    ensures After(v.Sleeping(), v.now) == v.Sleeping()
    ensures forall id :: id in v.delayed ==> id in v.wake && v.wake[id] > v.tick
  {
    hide PlacesOk, EventsOk, TopOk, RanksOk;
    forall id | id in v.delayed ensures v.wake[id] > v.tick {
      var i :| 0 <= i < |v.delayed| && v.delayed[i] == id;
      assert ValuesIn(v.wake, v.delayed)[0] <= ValuesIn(v.wake, v.delayed)[i];
    }
  }

  lemma HeadDue(v: View)
    requires v.Ok() && v.delayed != [] && v.wake[v.delayed[0]] <= v.tick
    ensures v.delayed[0] in v.Sleeping() && v.Sleeping()[v.delayed[0]] <= v.now
  {
    assert v.delayed[0] in v.delayed;
  }

  lemma AfterWithout(sleeping: map<Id, nat>, now: nat, id: Id)
    requires id in sleeping && sleeping[id] <= now
    ensures After(sleeping - {id}, now) == After(sleeping, now)
  {
  }

  lemma UnblockFrame(v: View, id: Id)
    requires v.Ok() && id in v.delayed
    ensures var v' := Unblock(v, id);
      && v'.now == v.now && v'.tick == v.tick && v'.wake == v.wake && v'.overflow == v.overflow
      && (forall x :: x in v'.delayed ==> x in v.delayed)
      && |v'.delayed| < |v.delayed|
  {
    WithoutIs(v.delayed, id);
  }

  /** The loop wakes exactly those whose time has come. */
  lemma {:induction false} WakeDueWakes(v: View)
    requires v.Ok()
    ensures var v' := WakeDue(v);
      && v'.now == v.now && v'.tick == v.tick && v'.wake == v.wake && v'.overflow == v.overflow
      && v'.Sleeping() == After(v.Sleeping(), v.now)
      && (forall id :: id in v'.delayed ==> id in v.wake && v.wake[id] > v.tick)
    decreases |v.delayed|
  {
    if v.delayed == [] || v.tick < v.wake[v.delayed[0]] {
      NothingDue(v);
    } else {
      hide View.Ok, View.Sleeping, Unblock, After;
      var id := v.delayed[0];
      assert id in v.delayed;
      UnblockOk(v, id);
      UnblockWakes(v, id);
      UnblockFrame(v, id);
      WakeDueWakes(Unblock(v, id));
      HeadDue(v);
      AfterWithout(v.Sleeping(), v.now, id);
    }
  }

  /** One turn of the outer loop of prvCheckDelayedList. */
  ghost function ProcessTick(v: View): (v': View)
    requires v.Ok()
    ensures v'.Ok()
  {
    NextTickOk(v);
    WakeDue(NextTick(v))
  }

  /** After a tick nobody on the delay list is passed by, whatever was before. */
  lemma ProcessTickWakes(v: View)
    requires v.Ok()
    ensures var v' := ProcessTick(v);
      v'.Going() && v'.now == v.now + 1 && v'.Sleeping() == After(NextTick(v).Sleeping(), v.now + 1)
  {
    hide PlacesOk, EventsOk, TopOk, RanksOk, ClockOk, SleepersOn, WakeDue, After;
    NextTickOk(v);
    WakeDueWakes(NextTick(v));
  }

  /** The wrapping tick with its two swapped lists is a tick of the unbounded
      clock, at an overflow as at any other tick. */
  lemma ProcessTickRefines(v: View)
    requires v.Going()
    ensures ProcessTick(v).Going() && (v.Settled() ==> ProcessTick(v).Settled())
    ensures ProcessTick(v).AsClock() == Tick(v.AsClock())
  {
    hide PlacesOk, EventsOk, TopOk, RanksOk, ClockOk, SleepersOn, WakeDue;
    NextTickOk(v);
    NextTickSleeping(v);
    var u := NextTick(v);
    WakeDueWakes(u);
    assert ProcessTick(v) == WakeDue(u);
  }

  ghost function ProcessTicks(v: View, n: nat): (v': View)
    requires v.Ok()
    ensures v'.Ok()
  {
    if n == 0 then v else ProcessTick(ProcessTicks(v, n - 1))
  }

  lemma {:induction false} ProcessTicksRefine(v: View, n: nat)
    requires v.Going()
    ensures ProcessTicks(v, n).Going() && (v.Settled() ==> ProcessTicks(v, n).Settled())
    ensures ProcessTicks(v, n).AsClock() == Ticks(v.AsClock(), n)
  {
    hide View.Ok, View.Going, View.Settled, View.Sleeping, View.AsClock, ProcessTick, Tick;
    GoingIsOk(v);
    if n > 0 {
      ProcessTicksRefine(v, n - 1);
      assert ProcessTicks(v, n) == ProcessTick(ProcessTicks(v, n - 1));
      ProcessTickRefines(ProcessTicks(v, n - 1));
    }
  }

  lemma GoingIsOk(v: View)
    ensures v.Going() ==> v.Ok()
    ensures v.Settled() ==> v.Going()
  {
    hide PlacesOk, EventsOk, TopOk, RanksOk, ClockOk;
  }

  lemma {:induction false} ProcessTicksPriority(v: View, n: nat)
    requires v.Ok()
    ensures ProcessTicks(v, n).priority == v.priority
  {
    hide View.Ok, WakeDue;
    if n > 0 {
      ProcessTicksPriority(v, n - 1);
      NextTickOk(ProcessTicks(v, n - 1));
      WakeDuePriority(NextTick(ProcessTicks(v, n - 1)));
    }
  }

  lemma {:induction false} WakeDuePriority(v: View)
    requires v.Ok()
    ensures WakeDue(v).priority == v.priority
    decreases |v.delayed|
  {
    hide PlacesOk, EventsOk, RanksOk, TopOk;
    if !(v.delayed == [] || v.tick < v.wake[v.delayed[0]]) {
      UnblockOk(v, v.delayed[0]);
      UnblockFrame(v, v.delayed[0]);
      WakeDuePriority(Unblock(v, v.delayed[0]));
    }
  }

  // ---------------------------------------------------------- one who sleeps

  /** The count at which a sleeper wakes: when its tick comes, or, if that has
      passed it by, at the next tick, unless the lists are swapped before that. */
  ghost function WakesAt(v: View, id: Id): nat
    requires id in v.Sleeping()
  {
    if v.Sleeping()[id] > v.now then v.Sleeping()[id]
    else if v.tick < MAX_DELAY then v.now + 1
    else v.Sleeping()[id] + 2 * TICKS
  }

  lemma WakesLater(v: View, id: Id)
    requires v.Ok() && id in v.Sleeping()
    ensures WakesAt(v, id) > v.now
  {
    hide PlacesOk, EventsOk, TopOk, RanksOk, Sorted;
  }

  lemma NextTickOfOne(v: View, id: Id)
    requires v.Ok()
    ensures var u := NextTick(v).Sleeping();
      && (id in u <==> id in v.Sleeping())
      && (id in u ==> u[id] == if v.tick < MAX_DELAY || v.Sleeping()[id] > v.now then v.Sleeping()[id]
                               else v.Sleeping()[id] + 2 * TICKS)
  {
    hide EventsOk, TopOk, RanksOk, Sorted, PlacesOk;
    OnOneDelayList(v);
  }

  /** A tick wakes a sleeper whose time it is, and changes nobody else's. */
  lemma TickOfOne(v: View, id: Id)
    requires v.Ok()
    ensures var v' := ProcessTick(v);
      && v'.now == v.now + 1
      && (id in v'.Sleeping() <==> id in v.Sleeping() && WakesAt(v, id) > v'.now)
      && (id in v'.Sleeping() ==> WakesAt(v', id) == WakesAt(v, id))
  {
    hide View.Ok, View.Going, View.Sleeping, ProcessTick, NextTick;
    ProcessTickWakes(v);
    NextTickOfOne(v, id);
    if id in v.Sleeping() {
      WakesLater(v, id);
    }
  }

  lemma TickIsNow(v: View)
    requires v.Ok()
    ensures v.tick == v.now % TICKS
  {
  }

  lemma {:induction false} TicksPass(v: View, n: nat)
    requires v.Ok()
    ensures ProcessTicks(v, n).now == v.now + n
  {
    hide View.Ok, View.Going, View.Sleeping, ProcessTick;
    if n > 0 {
      TicksPass(v, n - 1);
      ProcessTickWakes(ProcessTicks(v, n - 1));
    }
  }
}
