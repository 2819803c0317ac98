/** The co-routine scheduler of croutine.c: its variables and the functions that
    update them, each shown to be its step of CoRoutineSpec and CoRoutineSteps. */
module CoRoutine {
  import opened Wrappers
  import opened ListSpec
  import opened UnboundedClock
  import opened CoRoutineSpec
  import opened CoRoutineSteps
  import opened CoRoutineTurns

  /** Unsigned difference of two tick counts. */
  function Elapsed(from: TickType, to: TickType): TickType {
    if from <= to then to - from else to - from + TICKS
  }

  /** However the count has wrapped, the elapsed ticks bring the one to the other. */
  lemma ElapsedIs(now: nat, from: TickType, to: TickType)
    requires from == now % TICKS
    ensures (now + Elapsed(from, to)) % TICKS == to && Elapsed(from, to) < TICKS
  {
  }

  lemma CaughtUp(v: View, to: TickType)
    requires v.Ok()
    ensures var v' := ProcessTicks(v, Elapsed(v.tick, to));
      v'.tick == to && v.now <= v'.now < v.now + TICKS
  {
    hide View.Ok, Elapsed, ProcessTicks;
    TickIsNow(v);
    ElapsedIs(v.now, v.tick, to);
    TicksPass(v, Elapsed(v.tick, to));
    TickIsNow(ProcessTicks(v, Elapsed(v.tick, to)));
  }

  /** Whom the scheduler finds ready when the count has reached `now`: whoever was,
      whoever an interrupt has readied, and whoever's time has come. */
  ghost predicate WasOrBecameReady(v: View, id: Id, now: nat) {
    v.IsReady(id) || id in v.pending || (id in v.Sleeping() && WakesAt(v, id) <= now)
  }

  /** It is ready, and none that is ready has a higher priority. */
  ghost predicate MostUrgent(v: View, id: Id) {
    && v.IsReady(id) && id in v.priority
    && forall other :: v.IsReady(other) ==> other in v.priority && v.priority[other] <= v.priority[id]
  }

  lemma Scheduled(v: View, to: TickType)
    requires v.Ok()
    ensures var b := BeforePick(v, Elapsed(v.tick, to));
      var v' := Pick(b);
      && v'.Ok() && v'.pending == [] && v'.priority == v.priority
      && (forall id :: id in v.priority ==> (v'.IsReady(id) <==> WasOrBecameReady(v, id, v'.now)))
      && (Picked(b).None? ==> forall id :: !v'.IsReady(id))
      && (Picked(b).Some? ==> MostUrgent(v', Picked(b).value))
  {
    hide View.Ok, View.IsReady, View.Sleeping, Elapsed, BeforePick, Pick, Picked, WakesAt;
    ScheduleReadies(v, Elapsed(v.tick, to));
    BeforePickPriority(v, Elapsed(v.tick, to));
    PickIsHighest(BeforePick(v, Elapsed(v.tick, to)));
    PickKeepsAll(BeforePick(v, Elapsed(v.tick, to)));
    ReadyKnown(Pick(BeforePick(v, Elapsed(v.tick, to))));
  }

  lemma ReadyKnown(v: View)
    ensures forall id :: v.IsReady(id) ==> id in v.priority
  {
  }

  class Scheduler {
    var ready: seq<ListState<Id>>             // pxReadyCoRoutineLists
    var top: nat                              // uxTopCoRoutineReadyPriority
    var lists: seq<seq<Id>>                   // xDelayedCoRoutineList1 and 2
    var delayedAt: nat                        // which of them pxDelayedCoRoutineList points to
    var overflowAt: nat                       // and pxOverflowDelayedCoRoutineList
    var pending: seq<Id>                      // xPendingReadyCoRoutineList
    var events: map<EventList, seq<Id>>
    var place: map<Id, Place>                 // where each event item is
    var priority: map<Id, nat>
    var rank: map<Id, TickType>               // values of the event items
    var wake: map<Id, TickType>               // values of the generic items
    var running: Option<Id>                   // pxCurrentCoRoutine
    var tick: TickType                        // xCoRoutineTickCount
    var lastTick: TickType
    var passed: TickType
    ghost var now: nat                        // ticks processed in all
    ghost var due: map<Id, nat>               // wake times on that count

    ghost predicate Pointers()
      reads this
    {
      |lists| == 2 && delayedAt < 2 && overflowAt == 1 - delayedAt
    }

    ghost function State(): View
      requires Pointers()
      reads this
    {
      View(priority, ready, top, place, pending, events, rank, wake, tick, now, due,
           lists[delayedAt], lists[overflowAt])
    }

    ghost predicate Valid()
      reads this
    {
      Pointers() && State().Ok() && (running.Some? ==> running.value in priority)
    }

    /** What also holds whenever no function of the scheduler is at work. */
    ghost predicate Idle()
      reads this
    {
      Valid() && lastTick == tick
    }

    /** And, unless someone asked for a delay of zero ticks. */
    ghost predicate Settled()
      reads this
    {
      Idle() && State().Settled()
    }

    constructor (priorities: nat, eventLists: set<EventList>)
      requires 0 < priorities <= MAX_DELAY
      ensures Settled() && running == None && State().AsClock() == UnboundedClock.Clock(0, map[])
      ensures |ready| == priorities && events.Keys == eventLists && priority == map[]
    {
      var i := 0;
      var empty: seq<ListState<Id>> := [];
      while i < priorities
        invariant i <= priorities && |empty| == i
        invariant forall p :: 0 <= p < i ==> empty[p] == ListState([], 0)
      {
        empty := empty + [ListState([], 0)];
        i := i + 1;
      }
      ready, top, lists, delayedAt, overflowAt := empty, 0, [[], []], 0, 1;
      pending, events := [], map e | e in eventLists :: [];
      place, priority, rank, wake, running := map[], map[], map[], map[], None;
      tick, lastTick, passed, now, due := 0, 0, 0, 0, map[];
    }

    /** prvAddCoRoutineToReadyQueue. */
    method AddToReadyQueue(id: Id)
      requires id in priority && priority[id] < |ready| && ready[priority[id]].cursor <= |ready[priority[id]].items|
      modifies `ready, `top
      ensures var p := priority[id];
        && ready == old(ready)[p := InsertEnd(old(ready)[p], id)]
        && top == if p > old(top) then p else old(top)
    {
      var p := priority[id];
      if p > top {
        top := p;
      }
      ready := ready[p := InsertEnd(ready[p], id)];
    }

    /** uxListRemove of an event item: off the list that it is on. */
    method RemoveEventItem(id: Id)
      requires id in place && (place[id] == PendingReady ==> id in pending)
      requires place[id].Waiting? ==> place[id].events in events && id in events[place[id].events]
      modifies `place, `pending, `events
      ensures place == old(place)[id := Nowhere]
      ensures pending == PendingWithout(old(place), old(pending), id)
      ensures events == EventsWithout(old(place), old(events), id)
    {
      match place[id] {
        case Nowhere =>
        case PendingReady =>
          pending := Without(pending, id);
        case Waiting(e) =>
          events := events[e := Without(events[e], id)];
      }
      place := place[id := Nowhere];
    }

    /** uxListRemove of the generic item of one who sleeps. */
    method RemoveGenericItem(id: Id)
      requires Pointers() && (id in lists[delayedAt] || id in lists[overflowAt])
      modifies `lists
      ensures Pointers()
      ensures lists[delayedAt] == var d := old(lists)[delayedAt]; if id in d then Without(d, id) else d
      ensures lists[overflowAt] == var o := old(lists)[overflowAt];
        if id in old(lists)[delayedAt] then o else Without(o, id)
    {
      var at := if id in lists[delayedAt] then delayedAt else overflowAt;
      lists := lists[at := Without(lists[at], id)];
    }

    /** Both items, in the order in which the caller takes them off. */
    method RemoveItems(id: Id, eventItemFirst: bool)
      requires Pointers() && (id in lists[delayedAt] || id in lists[overflowAt])
      requires id in place && (place[id] == PendingReady ==> id in pending)
      requires place[id].Waiting? ==> place[id].events in events && id in events[place[id].events]
      modifies `lists, `place, `pending, `events
      ensures Pointers()
      ensures place == old(place)[id := Nowhere]
      ensures pending == PendingWithout(old(place), old(pending), id)
      ensures events == EventsWithout(old(place), old(events), id)
      ensures lists[delayedAt] == var d := old(lists)[delayedAt]; if id in d then Without(d, id) else d
      ensures lists[overflowAt] == var o := old(lists)[overflowAt];
        if id in old(lists)[delayedAt] then o else Without(o, id)
    {
      hide Without, EventsWithout, PendingWithout;
      if eventItemFirst {
        RemoveEventItem(id);
        RemoveGenericItem(id);
      } else {
        RemoveGenericItem(id);
        RemoveEventItem(id);
      }
    }

    /** A sleeper is taken off its delay list and off any event list, and is
        made ready: the body of both loops that ready co-routines. */
    method Ready(id: Id, eventItemFirst: bool)
      requires Valid() && (id in lists[delayedAt] || id in lists[overflowAt])
      modifies `ready, `top, `lists, `place, `pending, `events
      ensures Valid() && State() == Unblock(old(State()), id)
    {
      hide View.Ok, Without, InsertEnd, EventsWithout, PendingWithout, Unblock;
      ghost var v := State();
      KnowSleeper(v, id);
      UnblockOk(v, id);
      RemoveItems(id, eventItemFirst);
      AddToReadyQueue(id);
      UnblockIs(v, id, State());
    }

    /** prvCheckPendingReadyList. */
    method CheckPendingReadyList()
      requires Valid()
      modifies `ready, `top, `lists, `place, `pending, `events
      ensures Valid() && State() == DrainPending(old(State()))
    {
      hide View.Ok, Unblock;
      ghost var v := State();
      DrainPendingReadies(v);
      while pending != []
        invariant Valid() && DrainPending(State()) == DrainPending(v)
        decreases |pending|
      {
        PendingSleeps(State());
        PendingShrinks(State());
        Ready(pending[0], true);
      }
    }

    /** prvCheckDelayedList, when the tick count of the kernel is `kernelTicks`. */
    method CheckDelayedList(kernelTicks: TickType)
      requires Idle()
      modifies `ready, `top, `lists, `place, `pending, `events, `delayedAt, `overflowAt,
               `tick, `lastTick, `passed, `now, `due
      ensures Idle() && State() == ProcessTicks(old(State()), Elapsed(old(tick), kernelTicks))
      ensures tick == kernelTicks && old(now) <= now < old(now) + TICKS
    {
      hide View.Ok, ProcessTick;
      CaughtUp(State(), kernelTicks);
      ghost var v := State();
      passed := Elapsed(lastTick, kernelTicks);
      ghost var n := passed;
      while passed != 0
        invariant Valid() && passed <= n
        invariant State() == ProcessTicks(v, n - passed)
        decreases passed
      {
        passed := passed - 1;
        OneTick();
      }
      lastTick := tick;
    }

    /** One turn of the outer loop of prvCheckDelayedList. */
    method OneTick()
      requires Valid()
      modifies `ready, `top, `lists, `place, `pending, `events, `delayedAt, `overflowAt, `tick, `now, `due
      ensures Valid() && State() == ProcessTick(old(State()))
    {
      hide View.Ok, WakeDue, NextDue;
      ghost var v := State();
      NextTickOk(v);
      tick := if tick == MAX_DELAY then 0 else tick + 1;
      now := now + 1;
      if tick == 0 {
        due := NextDue(due, lists[delayedAt]);
        delayedAt, overflowAt := overflowAt, delayedAt;
      }
      assert State() == NextTick(v);
      WakeSleepers();
    }

    /** The inner loop of prvCheckDelayedList. */
    method WakeSleepers()
      requires Valid()
      modifies `ready, `top, `lists, `place, `pending, `events
      ensures Valid() && State() == WakeDue(old(State()))
    {
      hide View.Ok, Unblock;
      ghost var v := State();
      while lists[delayedAt] != []
        invariant Valid() && WakeDue(State()) == WakeDue(v)
        decreases |lists[delayedAt]|
      {
        var id := lists[delayedAt][0];
        HasWakeTime(State());
        if tick < wake[id] {
          break;
        }
        UnblockFrame(State(), id);
        Ready(id, false);
      }
    }

    /** vCoRoutineSchedule, up to the call of the co-routine that it picks. */
    method Schedule(kernelTicks: TickType) returns (picked: Option<Id>)
      requires Idle()
      modifies this
      ensures Idle() && (old(Settled()) ==> Settled())
      ensures tick == kernelTicks && old(now) <= now < old(now) + TICKS
      ensures pending == [] && priority == old(priority)
      ensures forall id :: id in priority ==>
        (State().IsReady(id) <==> WasOrBecameReady(old(State()), id, now))
      ensures picked.None? ==> forall id :: !State().IsReady(id)
      ensures picked.Some? ==> MostUrgent(State(), picked.value)
      ensures var v := BeforePick(old(State()), Elapsed(old(tick), kernelTicks));
        && State() == Pick(v) && picked == Picked(v)
        && running == if picked.Some? then picked else old(running)
    {
      hide View.Ok, View.Settled, ProcessTicks, DrainPending, Pick, Picked;
      ScheduleSettles(State(), Elapsed(tick, kernelTicks));
      Scheduled(State(), kernelTicks);
      CheckPendingReadyList();
      CheckDelayedList(kernelTicks);
      picked := PickNext();
    }

    method PickNext() returns (picked: Option<Id>)
      requires Idle()
      modifies `top, `ready, `running
      ensures Idle()
      ensures State() == Pick(old(State())) && picked == Picked(old(State()))
      ensures running == if picked.Some? then picked else old(running)
    {
      hide PlacesOk, EventsOk, RanksOk, ClockOk, Ahead;
      ghost var v := State();
      PickKeepsAll(v);
      PrioritiesOf(v);
      while ready[top].items == []
        invariant State() == v.(top := top) && top < |ready| && running == old(running)
        invariant Lowered(ready, top) == Lowered(v.ready, v.top)
        decreases top
      {
        if top == 0 {
          picked := None;
          return;
        }
        top := top - 1;
      }
      ready := ready[top := Next(ready[top])];
      picked := Some(ready[top].items[ready[top].cursor - 1]);
      running := picked;
    }

    /** vCoRoutineAddToDelayedList, called by the co-routine that runs. */
    method AddToDelayedList(ticksToDelay: TickType, event: Option<EventList>)
      requires Idle() && running.Some? && State().IsReady(running.value)
      requires event.Some? ==> event.value in events
      modifies `ready, `wake, `due, `lists, `events, `place
      ensures Idle()
      ensures State() == CoRoutineSteps.Delay(old(State()), old(running).value, ticksToDelay, event)
      ensures old(Settled()) ==> (Settled() <==> ticksToDelay != 0)
    {
      hide View.Ok, View.Settled, DelayOnly, WaitOn;
      ghost var v := State();
      var id := running.value;
      assert CoRoutineSteps.Delay(v, id, ticksToDelay, event).Ok();
      if v.Settled() {
        DelayRefines(v, id, ticksToDelay, event);
      }
      DelayOnlyOk(v, id, ticksToDelay);
      DelayFrame(v, id, ticksToDelay);
      InsertsDefined(v, id, ticksToDelay);
      MoveToDelayed(id, ticksToDelay);
      if event.Some? {
        JoinEventList(id, event.value);
      }
    }

    /** The generic item moves from a ready list to a delay list. */
    method MoveToDelayed(id: Id, ticksToDelay: TickType)
      requires Pointers() && State().Ok() && State().IsReady(id)
      modifies `ready, `wake, `due, `lists
      ensures Pointers() && State() == DelayOnly(old(State()), id, ticksToDelay)
    {
      hide View.Ok, InsertByValue, RemoveAt, Index;
      InsertsDefined(State(), id, ticksToDelay);
      var timeToWake := WakeTime(tick, ticksToDelay);
      var p := priority[id];
      ready := ready[p := RemoveAt(ready[p], Index(ready[p].items, id))];
      wake := wake[id := timeToWake];
      due := due[id := now + ticksToDelay];
      if timeToWake < tick {
        lists := lists[overflowAt := InsertByValue(wake, lists[overflowAt], id)];
      } else {
        lists := lists[delayedAt := InsertByValue(wake, lists[delayedAt], id)];
      }
    }

    /** The event item joins an event list. */
    method JoinEventList(id: Id, e: EventList)
      requires Pointers() && State().Ok() && id in priority && e in events
      modifies `events, `place
      ensures Pointers() && State() == WaitOn(old(State()), id, e)
    {
      hide View.Ok, InsertByValue;
      RanksDefined(State(), id, e);
      events := events[e := InsertByValue(rank, events[e], id)];
      place := place[id := Waiting(e)];
    }

    /** xCoRoutineRemoveFromEventList; the result says whether the co-routine
        taken is at least as urgent as the one that runs. */
    method RemoveFromEventList(e: EventList) returns (urgent: bool)
      requires Idle() && e in events && events[e] != [] && running.Some?
      modifies `events, `place, `pending
      ensures old(events[e][0]) in priority && running.value in priority
      ensures urgent <==> priority[old(events[e][0])] >= priority[running.value]
      ensures Pointers() && State() == CoRoutineSteps.RemoveFromEventList(old(State()), e)
      ensures Idle() && (old(Settled()) ==> Settled())
    {
      hide PlacesOk, EventsOk, RanksOk, ClockOk, TopOk, Ahead;
      RemoveFromEventListTakesHighest(State(), e);
      var id := events[e][0];
      HeadKnown(State(), e);
      events := events[e := events[e][1..]];
      place := place[id := PendingReady];
      pending := pending + [id];
      urgent := priority[id] >= priority[running.value];
    }

    /** xCoRoutineCreate. */
    method Create(id: Id, wanted: nat)
      requires Idle() && id !in priority
      modifies `priority, `place, `rank, `ready, `top, `running
      ensures running == if old(running) == None then Some(id) else old(running)
      ensures Pointers() && State() == CoRoutineSteps.Create(old(State()), id, wanted)
      ensures Idle() && (old(Settled()) ==> Settled())
    {
      hide View.Ok, View.Settled, CoRoutineSteps.Create;
      CreateReadies(State(), id, wanted);
      CreateKnows(State(), id, wanted);
      if running == None {
        running := Some(id);
      }
      MakeReady(id, wanted);
    }

    method MakeReady(id: Id, wanted: nat)
      requires Pointers() && State().Ok() && id !in priority
      modifies `priority, `place, `rank, `ready, `top
      ensures Pointers() && State() == CoRoutineSteps.Create(old(State()), id, wanted)
    {
      hide View.Ok, InsertEnd;
      PrioritiesOf(State());
      HowMany(State());
      FillIn(id, wanted);
      AddToReadyQueue(id);
    }

    /** The fields of a new control block. */
    method FillIn(id: Id, wanted: nat)
      requires 0 < |ready| <= MAX_DELAY
      modifies `priority, `place, `rank
      ensures var p := if wanted >= |ready| then |ready| - 1 else wanted;
        && priority == old(priority)[id := p] && place == old(place)[id := Nowhere]
        && rank == old(rank)[id := |ready| - p]
    {
      var p := wanted;
      if p >= |ready| {
        p := |ready| - 1;
      }
      priority := priority[id := p];
      place := place[id := Nowhere];
      rank := rank[id := |ready| - p];
    }
  }

  lemma CreateKnows(v: View, id: Id, wanted: nat)
    requires v.Ok() && id !in v.priority
    ensures CoRoutineSteps.Create(v, id, wanted).priority.Keys == v.priority.Keys + {id}
  {
    hide View.Ok;
  }

  lemma HowMany(v: View)
    requires v.Ok()
    ensures |v.ready| <= MAX_DELAY
  {
    hide EventsOk, TopOk, PlacesOk, ClockOk;
  }

  lemma InsertsDefined(v: View, id: Id, d: TickType)
    requires v.Ok() && v.IsReady(id)
    ensures forall x :: x in v.delayed || x in v.overflow ==> x in v.wake
    ensures id in v.place
  {
    hide EventsOk, TopOk, RanksOk, Distinct;
  }

  lemma RanksDefined(v: View, id: Id, e: EventList)
    requires v.Ok() && id in v.priority && e in v.events
    ensures id in v.rank && forall x :: x in v.events[e] ==> x in v.rank
  {
    hide EventsOk, TopOk, PlacesOk, ClockOk;
  }

  lemma UnblockIs(v: View, id: Id, v': View)
    requires v.Ok() && (id in v.delayed || id in v.overflow) && id in v.priority && id in v.place
    requires v.priority[id] < |v.ready| && v.ready[v.priority[id]].cursor <= |v.ready[v.priority[id]].items|
    requires v.place[id] == PendingReady ==> id in v.pending
    requires v.place[id].Waiting? ==> v.place[id].events in v.events && id in v.events[v.place[id].events]
    requires v'.delayed == if id in v.delayed then Without(v.delayed, id) else v.delayed
    requires v'.overflow == if id in v.delayed then v.overflow else Without(v.overflow, id)
    requires v'.place == v.place[id := Nowhere] && v'.pending == PendingWithout(v.place, v.pending, id)
    requires v'.events == EventsWithout(v.place, v.events, id)
    requires v'.ready == v.ready[v.priority[id] := InsertEnd(v.ready[v.priority[id]], id)]
    requires v'.top == if v.priority[id] > v.top then v.priority[id] else v.top
    requires v'.priority == v.priority && v'.rank == v.rank && v'.wake == v.wake && v'.tick == v.tick
    requires v'.now == v.now && v'.due == v.due
    ensures v' == Unblock(v, id)
  {
    hide View.Ok;
  }

  lemma KnowSleeper(v: View, id: Id)
    requires v.Ok() && (id in v.delayed || id in v.overflow)
    ensures id in v.priority && v.priority[id] < |v.ready|
    ensures v.ready[v.priority[id]].cursor <= |v.ready[v.priority[id]].items|
    ensures id in v.place && (v.place[id] == PendingReady ==> id in v.pending)
    ensures v.place[id].Waiting? ==> v.place[id].events in v.events && id in v.events[v.place[id].events]
  {
    hide RanksOk, ClockOk, TopOk, Distinct;
  }

  lemma HasWakeTime(v: View)
    requires v.Ok() && v.delayed != []
    ensures v.delayed[0] in v.delayed && v.delayed[0] in v.wake
  {
    hide RanksOk, TopOk, EventsOk, PlacesOk;
  }
}
