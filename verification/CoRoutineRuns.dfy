/** Every run of the co-routine scheduler: ticks, delays, events, creations and
    scheduling in any order. */
module CoRoutineRuns {
  import opened Wrappers
  import opened ListSpec
  import opened UnboundedClock
  import opened CoRoutineSpec
  import opened CoRoutineSteps

  datatype Step =
    | TickStep
    | DelayStep(id: Id, ticks: TickType, event: Option<EventList>)
    | EventStep(list: EventList)
    | DrainStep
    | CreateStep(newId: Id, priority: nat)
    | PickStep

  /** What croutine.c asks of its callers: a running co-routine delays itself; an
      event list that is signalled is not empty. */
  ghost predicate Enabled(v: View, s: Step)
    requires v.Ok()
  {
    match s
    case TickStep => true
    case DelayStep(id, d, event) => v.IsReady(id) && (event.Some? ==> event.value in v.events)
    case EventStep(e) => e in v.events && v.events[e] != []
    case DrainStep => true
    case CreateStep(id, _) => id !in v.priority
    case PickStep => true
  }

  ghost function Apply(v: View, s: Step): View
    requires v.Ok() && Enabled(v, s)
  {
    match s
    case TickStep => ProcessTick(v)
    case DelayStep(id, d, event) => CoRoutineSteps.Delay(v, id, d, event)
    case EventStep(e) => RemoveFromEventList(v, e)
    case DrainStep => DrainPending(v)
    case CreateStep(id, p) => Create(v, id, p)
    case PickStep => Pick(v)
  }

  /** The same step on the unbounded clock. */
  ghost function ClockAfter(v: View, s: Step): Clock {
    match s
    case TickStep => Tick(v.AsClock())
    case DelayStep(id, d, _) => UnboundedClock.Delay(v.AsClock(), id, d)
    case DrainStep => Clock(v.now, v.Sleeping() - Members(v.pending))
    case _ => v.AsClock()
  }

  /** Each step keeps the invariants and is its step on the unbounded clock; only
      a zero delay unsettles, and only a tick that follows one is not exact. */
  lemma ApplyRefines(v: View, s: Step)
    requires v.Ok() && Enabled(v, s)
    ensures Apply(v, s).Ok()
    ensures v.Settled() && !(s.DelayStep? && s.ticks == 0) ==> Apply(v, s).Settled()
    ensures v.Going() || !s.TickStep? ==> Apply(v, s).AsClock() == ClockAfter(v, s)
    ensures forall id :: id in v.priority ==> id in Apply(v, s).priority
  {
    hide Ahead, View.Sleeping, Tick, UnboundedClock.Delay, ProcessTick, RemoveFromEventList, DrainPending, Pick,
         PlacesOk, EventsOk, RanksOk, TopOk, ClockOk;
    PriorityStays(v, s);
    GoingIsOk(v);
    match s
    case TickStep => if v.Going() { ProcessTickRefines(v); }
    case DelayStep(id, d, event) => DelayRefines(v, id, d, event);
    case EventStep(e) => RemoveFromEventListTakesHighest(v, e);
    case DrainStep => DrainPendingReadies(v);
    case CreateStep(id, p) => CreateReadies(v, id, p);
    case PickStep => PickKeepsAll(v);
  }

  lemma PriorityStays(v: View, s: Step)
    requires v.Ok() && Enabled(v, s)
    ensures forall id :: id in v.priority ==> id in Apply(v, s).priority
  {
    hide PlacesOk, EventsOk, RanksOk, TopOk, ClockOk, WakeDue, DrainPending;
    match s
    case TickStep => NextTickOk(v); WakeDuePriority(NextTick(v));
    case DelayStep(id, d, event) => DelayFrame(v, id, d);
    case DrainStep => DrainPriority(v);
    case _ =>
  }

  /** A run: each step is enabled where it is taken. */
  ghost predicate Legal(v: View, steps: seq<Step>)
    requires v.Ok()
    decreases |steps|
  {
    steps == [] ||
    (Enabled(v, steps[0]) && (ApplyRefines(v, steps[0]); Legal(Apply(v, steps[0]), steps[1..])))
  }

  ghost function Run(v: View, steps: seq<Step>): (v': View)
    requires v.Ok() && Legal(v, steps)
    ensures v'.Ok()
    decreases |steps|
  {
    if steps == [] then v
    else ApplyRefines(v, steps[0]); Run(Apply(v, steps[0]), steps[1..])
  }

  /** No event readies `id` in the run, and it does not run itself. */
  ghost predicate LeftAlone(v: View, steps: seq<Step>, id: Id)
    requires v.Ok() && Legal(v, steps)
    decreases |steps|
  {
    steps == [] ||
    (&& !(steps[0].DelayStep? && steps[0].id == id)
     && !(steps[0].DrainStep? && id in v.pending)
     && (ApplyRefines(v, steps[0]); LeftAlone(Apply(v, steps[0]), steps[1..], id)))
  }

  function TicksIn(steps: seq<Step>): nat {
    if steps == [] then 0 else (if steps[0].TickStep? then 1 else 0) + TicksIn(steps[1..])
  }

  lemma StepOfSleeper(v: View, s: Step, id: Id)
    requires v.Ok() && Enabled(v, s)
    requires !(s.DelayStep? && s.id == id) && !(s.DrainStep? && id in v.pending)
    ensures var v' := Apply(v, s);
      && v'.Ok() && v'.now == v.now + TicksIn([s])
      && (id in v'.Sleeping() <==> id in v.Sleeping() && WakesAt(v, id) > v'.now)
      && (id in v'.Sleeping() ==> WakesAt(v', id) == WakesAt(v, id))
  {
    hide View.Ok, View.Going, View.Settled, View.Sleeping, Enabled, ProcessTick;
    ApplyRefines(v, s);
    assert TicksIn([]) == 0;
    if s.TickStep? {
      TickOfOne(v, id);
    } else {
      hide Apply;
      TickIsNow(v);
      TickIsNow(Apply(v, s));
      if id in v.Sleeping() { WakesLater(v, id); }
    }
  }

  /** In any run, one who is left alone sleeps just as long as the count is short
      of its time, and then is ready for good. */
  lemma {:induction false} SleepsUntilDue(v: View, steps: seq<Step>, id: Id)
    requires v.Ok() && Legal(v, steps) && LeftAlone(v, steps, id)
    ensures var v' := Run(v, steps);
      id in v'.Sleeping() <==> id in v.Sleeping() && WakesAt(v, id) > v.now + TicksIn(steps)
    decreases |steps|
  {
    hide View.Ok, View.Going, View.Settled, View.Sleeping, Apply, Enabled, WakesAt;
    if steps == [] {
      if id in v.Sleeping() { WakesLater(v, id); }
    } else {
      var s := steps[0];
      ApplyRefines(v, s);
      StepOfSleeper(v, s, id);
      assert TicksIn([s]) + TicksIn(steps[1..]) == TicksIn(steps) by { assert TicksIn([]) == 0; }
      SleepsUntilDue(Apply(v, s), steps[1..], id);
    }
  }

  lemma {:induction false} StaysKnown(v: View, steps: seq<Step>, id: Id)
    requires v.Ok() && Legal(v, steps) && id in v.priority
    ensures id in Run(v, steps).priority
    decreases |steps|
  {
    hide View.Settled, Apply, Enabled;
    if steps != [] {
      ApplyRefines(v, steps[0]);
      StaysKnown(Apply(v, steps[0]), steps[1..], id);
    }
  }

  /** The main theorem: whatever else happens, and however often the tick count
      wraps, a co-routine that delays itself by d > 0 ticks and is not readied
      by an event is ready again exactly once d more ticks are processed; one
      that asks for no ticks waits for one, or for two rounds (Lasts). */
  lemma ReadyExactlyWhenDue(v: View, id: Id, d: TickType, event: Option<EventList>, steps: seq<Step>)
    requires v.Ok() && Enabled(v, DelayStep(id, d, event))
    requires var v' := CoRoutineSteps.Delay(v, id, d, event);
      Legal(v', steps) && LeftAlone(v', steps, id)
    ensures Run(CoRoutineSteps.Delay(v, id, d, event), steps).IsReady(id) <==> TicksIn(steps) >= Lasts(v.tick, d)
  {
    hide View.Ok, View.Sleeping, CoRoutineSteps.Delay, WakesAt;
    DelayWakes(v, id, d, event);
    assert id in v.priority;
    var v' := CoRoutineSteps.Delay(v, id, d, event);
    SleepsUntilDue(v', steps, id);
    StaysKnown(v', steps, id);
    ReadyOrSleeping(Run(v', steps), id);
  }
}
