/** What vCoRoutineSchedule does for each co-routine, and how those of equal
    priority take turns. */
module CoRoutineTurns {
  import opened Wrappers
  import opened ListSpec
  import opened UnboundedClock
  import opened CoRoutineSpec
  import opened CoRoutineSteps

  // --------------------------------------------------------- becoming ready

  lemma {:induction false} WakingAddsNoPending(v: View)
    requires v.Ok() && v.pending == []
    ensures WakeDue(v).pending == []
    decreases |v.delayed|
  {
    hide PlacesOk, RanksOk, TopOk, ClockOk, Without;
    if !(v.delayed == [] || HeadLater(v)) {
      var id := v.delayed[0];
      UnblockOk(v, id);
      UnblockFrame(v, id);
      WakingAddsNoPending(Unblock(v, id));
    }
  }

  /** The head of the delay list lies ahead. */
  ghost predicate HeadLater(v: View)
    requires v.Ok() && v.delayed != []
  {
    v.tick < v.wake[v.delayed[0]]
  }

  lemma {:induction false} TicksAddNoPending(v: View, n: nat)
    requires v.Ok() && v.pending == []
    ensures ProcessTicks(v, n).pending == []
  {
    hide View.Ok, WakeDue;
    if n > 0 {
      TicksAddNoPending(v, n - 1);
      var u := ProcessTicks(v, n - 1);
      NextTickOk(u);
      WakingAddsNoPending(NextTick(u));
    }
  }

  lemma DrainedWakesAt(v: View, id: Id)
    requires v.Ok() && id in DrainPending(v).Sleeping()
    ensures id in v.Sleeping() && WakesAt(DrainPending(v), id) == WakesAt(v, id)
  {
    hide View.Ok, View.Settled, View.Sleeping, DrainPending;
    DrainPendingReadies(v);
    TickIsNow(v);
    TickIsNow(DrainPending(v));
  }

  lemma BeforePickPriority(v: View, n: nat)
    requires v.Ok()
    ensures BeforePick(v, n).priority == v.priority
  {
    hide View.Ok, DrainPending, ProcessTicks;
    DrainPriority(v);
    ProcessTicksPriority(DrainPending(v), n);
  }

  /** When n ticks have passed, the scheduler finds ready whoever was, whoever an
      interrupt has readied, and whoever's time has come, and nobody else. */
  lemma ScheduleReadies(v: View, n: nat)
    requires v.Ok()
    ensures var v' := Pick(BeforePick(v, n));
      && v'.Ok() && v'.pending == [] && v'.now == v.now + n && v'.priority == v.priority
      && forall id :: id in v.priority ==>
           (v'.IsReady(id) <==> v.IsReady(id) || id in v.pending || (id in v.Sleeping() && WakesAt(v, id) <= v.now + n))
  {
    hide View.Ok, View.Settled, View.Sleeping, View.IsReady, DrainPending, ProcessTicks, WakesAt;
    var d, b := DrainPending(v), BeforePick(v, n);
    DrainPendingReadies(v);
    DrainPriority(v);
    TicksAddNoPending(d, n);
    ProcessTicksPriority(d, n);
    TicksPass(d, n);
    PickKeepsAll(b);
    forall id | id in v.priority
      ensures b.IsReady(id) <==> v.IsReady(id) || id in v.pending || (id in v.Sleeping() && WakesAt(v, id) <= v.now + n)
    {
      SleepsThroughTicks(d, id, n);
      if id in d.Sleeping() { DrainedWakesAt(v, id); }
      ReadyOrSleeping(v, id);
      ReadyOrSleeping(b, id);
    }
  }

  // -------------------------------------------------------------------- turns

  /** p is the highest priority at which anything is ready. */
  ghost predicate Highest(ready: seq<ListState<Id>>, p: nat) {
    p < |ready| && ready[p].items != [] && forall q :: p < q < |ready| ==> ready[q].items == []
  }

  lemma LoweredIsHighest(v: View, p: nat)
    requires v.Ok() && Highest(v.ready, p)
    ensures Lowered(v.ready, v.top) == p && v.ready[p].Valid()
  {
    hide EventsOk, RanksOk, ClockOk, Distinct;
    LoweredIsTop(v.ready, v.top);
  }

  /** The scheduler picks n times, and nothing happens in between. */
  ghost function Picks(v: View, n: nat): (v': View)
    requires v.Ok()
    ensures v'.Ok()
  {
    if n == 0 then v else PickKeepsAll(Picks(v, n - 1)); Pick(Picks(v, n - 1))
  }

  lemma {:induction false} PicksWalk(v: View, p: nat, n: nat)
    requires v.Ok() && Highest(v.ready, p)
    ensures v.ready[p].Valid()
    ensures Picks(v, n).ready == v.ready[p := Walk(v.ready[p], n)] && Highest(Picks(v, n).ready, p)
  {
    hide View.Ok, ListState.Valid;
    LoweredIsHighest(v, p);
    ValidCursor(v.ready[p]);
    if n > 0 {
      PicksWalk(v, p, n - 1);
      LoweredIsHighest(Picks(v, n - 1), p);
    }
  }

  lemma ValidCursor(l: ListState<Id>)
    requires l.Valid()
    ensures l.cursor <= |l.items|
  {
  }

  /** The n-th pick is the n-th stop of a walk round the highest ready list: those
      of equal priority run in turn, each once in every round (ListSpec.StopIs). */
  lemma PicksTakeTurns(v: View, p: nat, n: nat)
    requires v.Ok() && Highest(v.ready, p) && n > 0
    ensures v.ready[p].Valid() && Picked(Picks(v, n - 1)) == Some(Stop(v.ready[p], n))
  {
    hide View.Ok, ListState.Valid;
    LoweredIsHighest(v, p);
    ValidCursor(v.ready[p]);
    PicksWalk(v, p, n - 1);
    LoweredIsHighest(Picks(v, n - 1), p);
  }
}
