/** The operations of croutine.c other than the tick, on values, and what every
    run of them keeps. */
module CoRoutineSteps {
  import opened Wrappers
  import opened ListSpec
  import opened UnboundedClock
  import opened CoRoutineSpec

  // -------------------------------------------------------------------- delay

  /** Wake times count modulo the width of the tick type. */
  function WakeTime(tick: TickType, ticksToDelay: TickType): TickType {
    var sum: int := tick + ticksToDelay;
    if sum < TICKS then sum else sum - TICKS
  }

  function InsertByValue(value: map<Id, TickType>, list: seq<Id>, id: Id): seq<Id>
    requires id in value && forall x :: x in list ==> x in value
  {
    Inserted(list, SortedPosition(ValuesIn(value, list), value[id]), id)
  }

  /** vCoRoutineAddToDelayedList for the co-routine `id`, with or without an
      event list. */
  ghost function DelayOnly(v: View, id: Id, ticksToDelay: TickType): View
    requires v.Ok() && v.IsReady(id)
  {
    var p := v.priority[id];
    var t := WakeTime(v.tick, ticksToDelay);
    var wake := v.wake[id := t];
    v.(ready := v.ready[p := RemoveAt(v.ready[p], Index(v.ready[p].items, id))],
       wake := wake,
       due := v.due[id := v.now + ticksToDelay],
       delayed := if t < v.tick then v.delayed else InsertByValue(wake, v.delayed, id),
       overflow := if t < v.tick then InsertByValue(wake, v.overflow, id) else v.overflow)
  }

  lemma OrderGrows(value: map<Id, TickType>, list: seq<Id>, id: Id, t: TickType)
    requires InOrder(value, list) && id !in list && Distinct(list)
    ensures (forall x :: x in list ==> x in value) && InOrder(value[id := t], list)
    ensures InOrder(value[id := t], InsertByValue(value[id := t], list, id))
    ensures forall x :: x in InsertByValue(value[id := t], list, id) <==> x in list || x == id
    ensures Distinct(InsertByValue(value[id := t], list, id))
  {
    assert ValuesIn(value[id := t], list) == ValuesIn(value, list);
    OrderInserted(value, list, id, t);
    InsertedKeepsDistinct(list, SortedPosition(ValuesIn(value, list), t), id);
  }

  lemma DelayClock(now: nat, tick: TickType, wake: map<Id, TickType>, due: map<Id, nat>,
                   delayed: seq<Id>, overflow: seq<Id>, id: Id, d: TickType)
    requires ClockOk(now, tick, wake, due, delayed, overflow) && Distinct(delayed) && Distinct(overflow)
    requires id !in delayed && id !in overflow
    ensures var t := WakeTime(tick, d);
      ClockOk(now, tick, wake[id := t], due[id := now + d],
              if t < tick then delayed else InsertByValue(wake[id := t], delayed, id),
              if t < tick then InsertByValue(wake[id := t], overflow, id) else overflow)
  {
    hide Distinct, InOrder, InsertByValue;
    OrderGrows(wake, delayed, id, WakeTime(tick, d));
    OrderGrows(wake, overflow, id, WakeTime(tick, d));
  }

  lemma ReadyIsNotDelayed(v: View, id: Id)
    requires v.Ok() && v.IsReady(id)
    ensures id !in v.delayed && id !in v.overflow && id in v.place && v.place[id] == Nowhere
    ensures Distinct(v.delayed) && Distinct(v.overflow)
  {
  }

  lemma DelayKeepsClock(v: View, id: Id, d: TickType)
    requires v.Ok() && v.IsReady(id)
    ensures var v' := DelayOnly(v, id, d);
      && ClockOk(v'.now, v'.tick, v'.wake, v'.due, v'.delayed, v'.overflow)
      && (forall x :: x in v'.delayed || x in v'.overflow <==> x in v.delayed || x in v.overflow || x == id)
  {
    hide PlacesOk, EventsOk, RanksOk, TopOk, Distinct, InOrder, InsertByValue;
    ReadyIsNotDelayed(v, id);
    DelayClock(v.now, v.tick, v.wake, v.due, v.delayed, v.overflow, id, d);
    OrderGrows(v.wake, v.delayed, id, WakeTime(v.tick, d));
    OrderGrows(v.wake, v.overflow, id, WakeTime(v.tick, d));
  }

  lemma TopAfterRemove(ready: seq<ListState<Id>>, top: nat, p: nat, k: nat)
    requires TopOk(ready, top) && p < |ready| && k < |ready[p].items|
    ensures TopOk(ready[p := RemoveAt(ready[p], k)], top)
  {
  }

  lemma DelayKeepsPlaces(v: View, id: Id, d: TickType)
    requires v.Ok() && v.IsReady(id)
    ensures var v' := DelayOnly(v, id, d);
      PlacesOk(v'.priority, v'.ready, v'.delayed, v'.overflow) && TopOk(v'.ready, v'.top)
  {
    hide EventsOk, RanksOk, PlacesOk, TopOk, InOrder;
    var t := WakeTime(v.tick, d);
    var p := v.priority[id];
    TopAfterRemove(v.ready, v.top, p, Index(v.ready[p].items, id));
    ReadyIsNotDelayed(v, id);
    OrderGrows(v.wake, v.delayed, id, t);
    OrderGrows(v.wake, v.overflow, id, t);
    var list := if t < v.tick then v.overflow else v.delayed;
    ToDelayed(v.priority, v.ready, v.delayed, v.overflow, id, t < v.tick,
              SortedPosition(ValuesIn(v.wake[id := t], list), t));
  }

  lemma DelayKeepsEvents(v: View, id: Id, d: TickType)
    requires v.Ok() && v.IsReady(id)
    ensures var v' := DelayOnly(v, id, d);
      EventsOk(v'.place, v'.pending, v'.events, v'.delayed, v'.overflow)
  {
    hide PlacesOk, RanksOk, TopOk, ClockOk, Distinct, DelayOnly;
    DelayKeepsClock(v, id, d);
    DelayFrame(v, id, d);
  }

  lemma DelayFrame(v: View, id: Id, d: TickType)
    requires v.Ok() && v.IsReady(id)
    ensures var v' := DelayOnly(v, id, d);
      && v'.priority == v.priority && v'.place == v.place && v'.pending == v.pending && v'.events == v.events
      && v'.rank == v.rank && v'.top == v.top && v'.now == v.now && v'.tick == v.tick
      && |v'.ready| == |v.ready|
      && v'.due == v.due[id := v.now + d] && v'.wake == v.wake[id := WakeTime(v.tick, d)]
  {
    hide PlacesOk, EventsOk, RanksOk, TopOk;
  }

  lemma DelayOnlyOk(v: View, id: Id, d: TickType)
    requires v.Ok() && v.IsReady(id)
    ensures DelayOnly(v, id, d).Ok()
  {
    hide PlacesOk, EventsOk, RanksOk, TopOk, ClockOk, DelayOnly;
    DelayKeepsClock(v, id, d);
    DelayKeepsPlaces(v, id, d);
    DelayKeepsEvents(v, id, d);
    DelayFrame(v, id, d);
  }

  /** The wake time lies ahead just when the delay is not zero: a zero delay
      leaves an item whose time is the present tick. */
  lemma DelaySettledIffPositive(v: View, id: Id, d: TickType)
    requires v.Settled() && v.IsReady(id)
    ensures DelayOnly(v, id, d).Settled() <==> d != 0
  {
    hide PlacesOk, EventsOk, RanksOk, TopOk, ClockOk, InOrder, Distinct, InsertByValue;
    DelayOnlyOk(v, id, d);
    ReadyIsNotDelayed(v, id);
    OrdersOf(v);
    OrderGrows(v.wake, v.delayed, id, WakeTime(v.tick, d));
    OrderGrows(v.wake, v.overflow, id, WakeTime(v.tick, d));
  }

  lemma OrdersOf(v: View)
    requires v.Ok()
    ensures InOrder(v.wake, v.delayed) && InOrder(v.wake, v.overflow)
  {
  }

  lemma DelayOnlyRefines(v: View, id: Id, d: TickType)
    requires v.Ok() && v.IsReady(id)
    ensures DelayOnly(v, id, d).AsClock() == UnboundedClock.Delay(v.AsClock(), id, d)
  {
    hide PlacesOk, EventsOk, RanksOk, TopOk, ClockOk, DelayOnly;
    DelayFrame(v, id, d);
    DelayKeepsClock(v, id, d);
    DueOf(v);
  }

  lemma DueOf(v: View)
    requires v.Ok()
    ensures forall x :: x in v.delayed || x in v.overflow ==> x in v.due
  {
  }

  /** The event item joins an event list, behind all of its own priority. */
  ghost function WaitOn(v: View, id: Id, e: EventList): View
    requires v.Ok() && id in v.priority && e in v.events
  {
    v.(events := v.events[e := InsertByValue(v.rank, v.events[e], id)], place := v.place[id := Waiting(e)])
  }

  lemma EventJoins(place: map<Id, Place>, pending: seq<Id>, events: map<EventList, seq<Id>>,
                   delayed: seq<Id>, overflow: seq<Id>, id: Id, e: EventList, at: nat)
    requires EventsOk(place, pending, events, delayed, overflow)
    requires id in place && place[id] == Nowhere && (id in delayed || id in overflow)
    requires e in events && at <= |events[e]|
    ensures EventsOk(place[id := Waiting(e)], pending, events[e := Inserted(events[e], at, id)], delayed, overflow)
  {
    InsertedKeepsDistinct(events[e], at, id);
  }

  lemma RankJoins(priority: map<Id, nat>, priorities: nat, rank: map<Id, TickType>,
                  events: map<EventList, seq<Id>>, e: EventList, id: Id)
    requires RanksOk(priority, priorities, rank, events) && e in events && id in priority
    requires id !in events[e] && Distinct(events[e])
    ensures RanksOk(priority, priorities, rank, events[e := InsertByValue(rank, events[e], id)])
  {
    OrderGrows(rank, events[e], id, rank[id]);
    assert rank[id := rank[id]] == rank;
  }

  lemma NotOnEvents(v: View, id: Id, e: EventList)
    requires v.Ok() && id in v.place && v.place[id] == Nowhere && e in v.events
    ensures id !in v.events[e] && Distinct(v.events[e])
  {
    hide PlacesOk, RanksOk, TopOk, ClockOk;
  }

  lemma WaitOnOk(v: View, id: Id, e: EventList)
    requires v.Ok() && (id in v.delayed || id in v.overflow) && id in v.place && v.place[id] == Nowhere
    requires id in v.priority && e in v.events
    ensures WaitOn(v, id, e).Ok()
  {
    hide PlacesOk, EventsOk, TopOk, ClockOk;
    NotOnEvents(v, id, e);
    RankJoins(v.priority, |v.ready|, v.rank, v.events, e, id);
    EventJoins(v.place, v.pending, v.events, v.delayed, v.overflow, id, e,
               SortedPosition(ValuesIn(v.rank, v.events[e]), v.rank[id]));
  }

  /** vCoRoutineAddToDelayedList, called by the co-routine `id`. */
  ghost function Delay(v: View, id: Id, d: TickType, event: Option<EventList>): (v': View)
    requires v.Ok() && v.IsReady(id) && (event.Some? ==> event.value in v.events)
    ensures v'.Ok()
  {
    DelayOnlyOk(v, id, d);
    DelayFrame(v, id, d);
    DelayKeepsClock(v, id, d);
    ReadyIsNotDelayed(v, id);
    match event
    case None => DelayOnly(v, id, d)
    case Some(e) =>
      WaitOnOk(DelayOnly(v, id, d), id, e);
      WaitOn(DelayOnly(v, id, d), id, e)
  }

  /** A delay of d ticks, with or without an event, is a delay on the unbounded
      clock, and a positive one keeps the two lists on their sides of the tick. */
  lemma DelayRefines(v: View, id: Id, d: TickType, event: Option<EventList>)
    requires v.Ok() && v.IsReady(id) && (event.Some? ==> event.value in v.events)
    ensures Delay(v, id, d, event).AsClock() == UnboundedClock.Delay(v.AsClock(), id, d)
    ensures v.Settled() ==> (Delay(v, id, d, event).Settled() <==> d != 0)
    ensures !Delay(v, id, d, event).IsReady(id)
  {
    hide PlacesOk, EventsOk, RanksOk, TopOk, ClockOk, DelayOnly;
    DelayOnlyOk(v, id, d);
    DelayFrame(v, id, d);
    DelayKeepsClock(v, id, d);
    DelayOnlyRefines(v, id, d);
    if v.Settled() {
      DelaySettledIffPositive(v, id, d);
    }
    ReadyOrSleeping(Delay(v, id, d, event), id);
  }

  /** With an event the co-routine joins that event's list, behind all who are as
      urgent and before all who are less so, and no other list changes; without
      one it waits for none. */
  lemma DelayJoins(v: View, id: Id, d: TickType, event: Option<EventList>)
    requires v.Ok() && v.IsReady(id) && (event.Some? ==> event.value in v.events)
    ensures var v' := Delay(v, id, d, event);
      && id in v.place && v'.pending == v.pending
      && v'.place == v.place[id := if event.Some? then Waiting(event.value) else Nowhere]
      && v'.events.Keys == v.events.Keys
      && (forall e :: e in v.events && event != Some(e) ==> v'.events[e] == v.events[e])
      && (event.Some? ==>
            exists k :: 0 <= k <= |v.events[event.value]| && Joins(v, v'.events[event.value], event.value, id, k))
  {
    hide View.Ok, DelayOnly, InsertByValue, Joins;
    DelayFrame(v, id, d);
    ReadyIsNotDelayed(v, id);
    match event
    case None => assert v.place[id := Nowhere] == v.place;
    case Some(e) => JoinsInOrder(v, id, e);
  }

  /** The list of event e with id at place k. */
  ghost predicate Joins(v: View, list: seq<Id>, e: EventList, id: Id, k: nat)
    requires e in v.events && k <= |v.events[e]|
  {
    && list == v.events[e][..k] + [id] + v.events[e][k..]
    && id in v.priority && (forall x :: x in v.events[e] ==> x in v.priority)
    && (forall i :: 0 <= i < k ==> v.priority[v.events[e][i]] >= v.priority[id])
    && (forall i :: k <= i < |v.events[e]| ==> v.priority[v.events[e][i]] < v.priority[id])
  }

  lemma JoinsInOrder(v: View, id: Id, e: EventList)
    requires v.Ok() && id in v.priority && e in v.events
    ensures id in v.rank && forall x :: x in v.events[e] ==> x in v.rank
    ensures var k := SortedPosition(ValuesIn(v.rank, v.events[e]), v.rank[id]);
      Joins(v, InsertByValue(v.rank, v.events[e], id), e, id, k)
  {
    hide PlacesOk, EventsOk, TopOk, ClockOk, SortedPosition;
    var ranks := ValuesIn(v.rank, v.events[e]);
    SortedInsertStaysSorted(ranks, v.rank[id]);
    assert forall i :: 0 <= i < |ranks| ==> v.events[e][i] in v.events[e] && ranks[i] == v.rank[v.events[e][i]];
  }

  /** A zero delay leaves an item whose time is the present tick.  Made at the
      last tick before the count wraps it is swapped out with the delay list,
      and its tick comes next after two rounds. */
  lemma ZeroDelayIsSwappedOut(v: View, id: Id, event: Option<EventList>)
    requires v.Settled() && v.IsReady(id) && (event.Some? ==> event.value in v.events)
    ensures var next := NextTick(Delay(v, id, 0, event));
      && (id in next.overflow <==> v.tick == MAX_DELAY)
      && id in next.Sleeping()
      && next.Sleeping()[id] == if v.tick == MAX_DELAY then v.now + 2 * TICKS else v.now
  {
    hide PlacesOk, EventsOk, RanksOk, TopOk, ClockOk, InsertByValue;
    DelayFrame(v, id, 0);
    ReadyIsNotDelayed(v, id);
    OrdersOf(v);
    OrderGrows(v.wake, v.delayed, id, WakeTime(v.tick, 0));
  }

  /** How long a delay lasts: a zero delay to the next tick, but two whole rounds
      of the tick count when it is made at the last tick before the wrap. */
  function Lasts(tick: TickType, d: TickType): nat {
    if d > 0 then d else if tick < MAX_DELAY then 1 else 2 * TICKS
  }

  lemma DelayWakes(v: View, id: Id, d: TickType, event: Option<EventList>)
    requires v.Ok() && v.IsReady(id) && (event.Some? ==> event.value in v.events)
    ensures var v' := Delay(v, id, d, event);
      && v'.now == v.now && v'.priority == v.priority
      && id in v'.Sleeping() && WakesAt(v', id) == v.now + Lasts(v.tick, d)
  {
    hide View.Ok, DelayOnly, View.Sleeping;
    DelayFrame(v, id, d);
    DelayRefines(v, id, d, event);
  }

  lemma {:induction false} SleepsThroughTicks(v: View, id: Id, n: nat)
    requires v.Ok()
    ensures var v' := ProcessTicks(v, n);
      && v'.now == v.now + n
      && (id in v'.Sleeping() <==> id in v.Sleeping() && WakesAt(v, id) > v'.now)
      && (id in v'.Sleeping() ==> WakesAt(v', id) == WakesAt(v, id))
  {
    hide View.Ok, View.Sleeping, ProcessTick, WakesAt;
    if n == 0 {
      if id in v.Sleeping() { WakesLater(v, id); }
    } else {
      SleepsThroughTicks(v, id, n - 1);
      TickOfOne(ProcessTicks(v, n - 1), id);
    }
  }

  /** Ticks alone, after any delay. */
  lemma ReadyAfterTicks(v: View, id: Id, d: TickType, event: Option<EventList>, n: nat)
    requires v.Ok() && v.IsReady(id) && (event.Some? ==> event.value in v.events)
    ensures ProcessTicks(Delay(v, id, d, event), n).IsReady(id) <==> n >= Lasts(v.tick, d)
  {
    hide View.Ok, View.Sleeping, Delay, ProcessTicks, WakesAt;
    var u := Delay(v, id, d, event);
    DelayWakes(v, id, d, event);
    SleepsThroughTicks(u, id, n);
    ProcessTicksPriority(u, n);
    ReadyOrSleeping(ProcessTicks(u, n), id);
  }

  // ------------------------------------------------------------------- events

  /** prvCheckPendingReadyList: every co-routine readied by an interrupt. */
  ghost function DrainPending(v: View): (v': View)
    requires v.Ok()
    ensures v'.Ok()
    decreases |v.pending|
  {
    if v.pending == [] then v
    else
      PendingSleeps(v);
      UnblockOk(v, v.pending[0]);
      PendingShrinks(v);
      DrainPending(Unblock(v, v.pending[0]))
  }

  lemma PendingSleeps(v: View)
    requires v.Ok() && v.pending != []
    ensures v.pending[0] in v.delayed || v.pending[0] in v.overflow
    ensures v.pending[0] in v.place && v.place[v.pending[0]] == PendingReady && Distinct(v.pending)
  {
    hide PlacesOk, RanksOk, TopOk, ClockOk;
    assert v.pending[0] in v.pending;
  }

  lemma PendingShrinks(v: View)
    requires v.Ok() && v.pending != []
    ensures v.pending[0] in v.delayed || v.pending[0] in v.overflow
    ensures Unblock(v, v.pending[0]).pending == v.pending[1..]
    ensures v.pending[0] !in v.pending[1..]
  {
    hide PlacesOk, RanksOk, TopOk, ClockOk, EventsOk;
    PendingSleeps(v);
    TailDistinct(v.pending);
    assert Index(v.pending, v.pending[0]) == 0;
  }

  ghost function Members(s: seq<Id>): set<Id> {
    set x | x in s
  }

  lemma {:induction false} DrainPendingReadies(v: View)
    requires v.Ok()
    ensures var v' := DrainPending(v);
      && v'.pending == []
      && v'.AsClock() == Clock(v.now, v.Sleeping() - Members(v.pending))
      && (v.Settled() ==> v'.Settled())
    decreases |v.pending|
  {
    hide View.Ok, View.Sleeping, Unblock;
    if v.pending != [] {
      var id := v.pending[0];
      PendingSleeps(v);
      PendingShrinks(v);
      UnblockOk(v, id);
      UnblockWakes(v, id);
      UnblockSettles(v, id);
      DrainPendingReadies(Unblock(v, id));
      assert Members(v.pending) == {id} + Members(v.pending[1..]);
    }
  }

  lemma {:induction false} DrainPriority(v: View)
    requires v.Ok()
    ensures DrainPending(v).priority == v.priority
    decreases |v.pending|
  {
    hide View.Ok;
    if v.pending != [] {
      PendingSleeps(v);
      UnblockOk(v, v.pending[0]);
      PendingShrinks(v);
      DrainPriority(Unblock(v, v.pending[0]));
    }
  }

  lemma UnblockSettles(v: View, id: Id)
    requires v.Ok() && (id in v.delayed || id in v.overflow)
    ensures Unblock(v, id).now == v.now
    ensures v.Settled() ==> Unblock(v, id).Settled()
  {
    hide PlacesOk, RanksOk, TopOk, EventsOk, ClockOk;
    UnblockOk(v, id);
    UnblockKeepsClock(v, id);
  }

  /** xCoRoutineRemoveFromEventList: the first, which is one of the most
      urgent, of those waiting for the event. */
  ghost function RemoveFromEventList(v: View, e: EventList): View
    requires v.Ok() && e in v.events && v.events[e] != []
  {
    var id := v.events[e][0];
    v.(events := v.events[e := v.events[e][1..]], place := v.place[id := PendingReady], pending := v.pending + [id])
  }

  lemma EventToPending(place: map<Id, Place>, pending: seq<Id>, events: map<EventList, seq<Id>>,
                       delayed: seq<Id>, overflow: seq<Id>, e: EventList)
    requires EventsOk(place, pending, events, delayed, overflow) && e in events && events[e] != []
    ensures var id := events[e][0];
      EventsOk(place[id := PendingReady], pending + [id], events[e := events[e][1..]], delayed, overflow)
  {
    var id := events[e][0];
    assert id in events[e];
    TailDistinct(events[e]);
    InsertedKeepsDistinct(pending, |pending|, id);
    assert Inserted(pending, |pending|, id) == pending + [id];
    assert forall x :: x in events[e] <==> x == id || x in events[e][1..];
  }

  lemma RankTail(priority: map<Id, nat>, priorities: nat, rank: map<Id, TickType>,
                 events: map<EventList, seq<Id>>, e: EventList)
    requires RanksOk(priority, priorities, rank, events) && e in events && events[e] != []
    ensures RanksOk(priority, priorities, rank, events[e := events[e][1..]])
    ensures forall x :: x in events[e] ==> x in priority && priority[x] <= priority[events[e][0]]
  {
    assert forall x :: x in events[e][1..] ==> x in events[e];
    assert ValuesIn(rank, events[e][1..]) == ValuesIn(rank, events[e])[1..];
    forall x | x in events[e] ensures x in priority && priority[x] <= priority[events[e][0]] {
      var i :| 0 <= i < |events[e]| && events[e][i] == x;
      assert ValuesIn(rank, events[e])[0] <= ValuesIn(rank, events[e])[i];
    }
  }

  /** It takes a waiter of the highest priority, and moves nothing else. */
  lemma RemoveFromEventListTakesHighest(v: View, e: EventList)
    requires v.Ok() && e in v.events && v.events[e] != []
    ensures var v' := RemoveFromEventList(v, e);
      && v'.Ok() && v'.AsClock() == v.AsClock() && (v.Settled() ==> v'.Settled())
      && v'.pending == v.pending + [v.events[e][0]]
      && (forall x :: x in v.events[e] ==> x in v.priority && v.priority[x] <= v.priority[v.events[e][0]])
  {
    hide PlacesOk, RanksOk, TopOk, EventsOk, ClockOk;
    EventToPending(v.place, v.pending, v.events, v.delayed, v.overflow, e);
    RankTail(v.priority, |v.ready|, v.rank, v.events, e);
    HeadKnown(v, e);
  }

  lemma HeadKnown(v: View, e: EventList)
    requires v.Ok() && e in v.events && v.events[e] != []
    ensures v.events[e][0] in v.place
  {
    assert v.events[e][0] in v.events[e];
  }

  // ----------------------------------------------------------------- creation

  /** xCoRoutineCreate, with the priority cut down to the highest there is. */
  ghost function Create(v: View, id: Id, priority: nat): View
    requires v.Ok() && id !in v.priority
  {
    var p := if priority >= |v.ready| then |v.ready| - 1 else priority;
    v.(priority := v.priority[id := p], place := v.place[id := Nowhere], rank := v.rank[id := |v.ready| - p],
       ready := v.ready[p := InsertEnd(v.ready[p], id)], top := if p > v.top then p else v.top)
  }

  lemma PlaceNew(priority: map<Id, nat>, ready: seq<ListState<Id>>, delayed: seq<Id>, overflow: seq<Id>,
                 id: Id, p: nat)
    requires PlacesOk(priority, ready, delayed, overflow) && id !in priority && p < |ready|
    ensures ready[p].cursor <= |ready[p].items|
    ensures PlacesOk(priority[id := p], ready[p := InsertEnd(ready[p], id)], delayed, overflow)
  {
    hide InsertEnd, Distinct;
    InsertEndIs(ready[p], id);
    var ready' := ready[p := InsertEnd(ready[p], id)];
    assert forall q, x :: 0 <= q < |ready'| ==> (x in ready'[q].items <==> x in ready[q].items || (q == p && x == id));
  }

  lemma RankNew(priority: map<Id, nat>, priorities: nat, rank: map<Id, TickType>,
                events: map<EventList, seq<Id>>, id: Id, p: nat)
    requires RanksOk(priority, priorities, rank, events) && id !in priority && p < priorities
    ensures RanksOk(priority[id := p], priorities, rank[id := priorities - p], events)
  {
    forall e | e in events ensures InOrder(rank[id := priorities - p], events[e]) {
      assert id !in events[e];
      assert ValuesIn(rank[id := priorities - p], events[e]) == ValuesIn(rank, events[e]);
    }
  }

  lemma PlaceOfNew(place: map<Id, Place>, pending: seq<Id>, events: map<EventList, seq<Id>>,
                   delayed: seq<Id>, overflow: seq<Id>, id: Id)
    requires EventsOk(place, pending, events, delayed, overflow) && id !in place
    ensures EventsOk(place[id := Nowhere], pending, events, delayed, overflow)
  {
  }

  /** A new co-routine is ready, and nothing else moves. */
  lemma CreateReadies(v: View, id: Id, priority: nat)
    requires v.Ok() && id !in v.priority
    ensures var v' := Create(v, id, priority);
      && v'.Ok() && v'.IsReady(id) && v'.AsClock() == v.AsClock() && (v.Settled() ==> v'.Settled())
      && |v'.ready| == |v.ready| && v'.priority == v.priority[id := Min(priority, |v.ready| - 1)]
      && (forall x :: x in v.priority ==> (v'.IsReady(x) <==> v.IsReady(x)))
  {
    hide PlacesOk, RanksOk, TopOk, EventsOk, ClockOk, InsertEnd, View.Sleeping;
    var p := if priority >= |v.ready| then |v.ready| - 1 else priority;
    PrioritiesOf(v);
    PlaceNew(v.priority, v.ready, v.delayed, v.overflow, id, p);
    TopAfterInsert(v.ready, v.top, p, id);
    RankNew(v.priority, |v.ready|, v.rank, v.events, id, p);
    PlaceOfNew(v.place, v.pending, v.events, v.delayed, v.overflow, id);
    NewIsIn(v.ready[p], id);
    var v' := Create(v, id, priority);
    assert v'.AsClock() == v.AsClock() by { SameSleepers(v, v'); }
    forall x | x in v.priority ensures v'.IsReady(x) <==> v.IsReady(x) {
      ReadyOrSleeping(v, x);
      ReadyOrSleeping(v', x);
    }
  }

  lemma SameSleepers(v: View, v': View)
    requires v'.due == v.due && v'.delayed == v.delayed && v'.overflow == v.overflow
    ensures v'.Sleeping() == v.Sleeping()
  {
  }

  function Min(a: int, b: int): int {
    if a < b then a else b
  }

  lemma NewIsIn(l: ListState<Id>, id: Id)
    requires l.Valid() && id !in l.items
    ensures id in InsertEnd(l, id).items
  {
    InsertEndIs(l, id);
  }

  lemma PrioritiesOf(v: View)
    requires v.Ok()
    ensures |v.ready| > 0
    ensures forall p :: 0 <= p < |v.ready| ==>
      v.ready[p].Valid() && forall id :: id in v.ready[p].items ==> id in v.priority
  {
    hide EventsOk, ClockOk, TopOk, ListState.Valid;
  }

  // --------------------------------------------------------------- scheduling

  /** The loop of vCoRoutineSchedule that looks for a ready co-routine. */
  function Lowered(ready: seq<ListState<Id>>, top: nat): (t: nat)
    requires top < |ready|
    ensures t <= top
  {
    if ready[top].items == [] && top > 0 then Lowered(ready, top - 1) else top
  }

  lemma {:induction false} LoweredIsTop(ready: seq<ListState<Id>>, top: nat)
    requires TopOk(ready, top)
    ensures TopOk(ready, Lowered(ready, top))
    ensures ready[Lowered(ready, top)].items == [] ==> forall p :: 0 <= p < |ready| ==> ready[p].items == []
  {
    if ready[top].items == [] && top > 0 {
      LoweredIsTop(ready, top - 1);
    }
  }

  /** The end of vCoRoutineSchedule: one step round the highest ready list. */
  ghost function Pick(v: View): (v': View)
    requires v.Ok()
  {
    var t := Lowered(v.ready, v.top);
    if v.ready[t].items == [] then v.(top := t)
    else PrioritiesOf(v); v.(top := t, ready := v.ready[t := Next(v.ready[t])])
  }

  ghost function Picked(v: View): Option<Id>
    requires v.Ok()
  {
    var t := Lowered(v.ready, v.top);
    if v.ready[t].items == [] then None
    else PrioritiesOf(v); Some(v.ready[t].items[Next(v.ready[t]).cursor - 1])
  }

  lemma CursorMoves(priority: map<Id, nat>, ready: seq<ListState<Id>>, delayed: seq<Id>, overflow: seq<Id>, t: nat)
    requires PlacesOk(priority, ready, delayed, overflow) && t < |ready| && ready[t].items != []
    ensures ready[t].cursor <= |ready[t].items|
    ensures PlacesOk(priority, ready[t := Next(ready[t])], delayed, overflow)
  {
    assert ready[t].Valid();
    hide Distinct;
    var ready' := ready[t := Next(ready[t])];
    assert forall q :: 0 <= q < |ready'| ==> ready'[q].items == ready[q].items;
  }

  lemma PickKeepsAll(v: View)
    requires v.Ok()
    ensures Pick(v).Ok() && Pick(v).AsClock() == v.AsClock() && (v.Settled() ==> Pick(v).Settled())
    ensures forall id :: Pick(v).IsReady(id) <==> v.IsReady(id)
  {
    hide PlacesOk, EventsOk, RanksOk, ClockOk;
    LoweredIsTop(v.ready, v.top);
    PrioritiesOf(v);
    var t := Lowered(v.ready, v.top);
    if v.ready[t].items != [] {
      CursorMoves(v.priority, v.ready, v.delayed, v.overflow, t);
    }
  }

  /** The co-routine that runs is ready and none that is ready is more urgent;
      none runs only when none is ready. */
  lemma PickIsHighest(v: View)
    requires v.Ok()
    ensures Picked(v).None? ==> forall id :: !v.IsReady(id)
    ensures Picked(v).Some? ==>
      v.IsReady(Picked(v).value)
      && forall id :: v.IsReady(id) ==> v.priority[id] <= v.priority[Picked(v).value]
  {
    hide EventsOk, RanksOk, ClockOk, Distinct;
    LoweredIsTop(v.ready, v.top);
  }

  /** vCoRoutineSchedule before it picks, when n ticks have passed. */
  ghost function BeforePick(v: View, n: nat): (v': View)
    requires v.Ok()
    ensures v'.Ok()
  {
    ProcessTicks(DrainPending(v), n)
  }

  lemma ScheduleSettles(v: View, n: nat)
    requires v.Ok()
    ensures v.Settled() ==> Pick(BeforePick(v, n)).Settled()
  {
    hide View.Ok, Pick;
    if v.Settled() {
      DrainPendingReadies(v);
      GoingIsOk(DrainPending(v));
      ProcessTicksRefine(DrainPending(v), n);
      PickKeepsAll(BeforePick(v, n));
    }
  }
}
