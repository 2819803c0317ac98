/** Runs of the operations of an event group, in any order and by any tasks. */
module EventGroupRuns {
  import opened EventBits
  import opened ListSpec
  import opened EventGroupSpec

  datatype Step =
    | SetStep(set': Bits)
    | ClearStep(cleared: Bits)
    | WaitStep(task: Task, call: Call, mayBlock: bool)
    | SyncStep(task: Task, set': Bits, wants: Bits, mayBlock: bool)
    | ExpireStep(task: Task)
    | ResumeStep(task: Task, normalValue: Bits)

  /** What the configASSERTs of event_groups.c demand, and that a blocked task
      makes no call until it is resumed. */
  ghost predicate Enabled(g: Group, s: Step) {
    match s
    case SetStep(bits) => IsEvents(bits)
    case ClearStep(bits) => IsEvents(bits)
    case WaitStep(t, call, _) => t !in g.calls && call.Valid()
    case SyncStep(t, bits, wants, _) => t !in g.calls && IsEvents(bits) && Call(wants, true, true).Valid()
    case ExpireStep(t) => t in g.waiting
    case ResumeStep(t, _) => t in g.calls && t !in g.waiting
  }

  ghost function Apply(g: Group, s: Step): Group
    requires Inv(g) && Enabled(g, s)
  {
    Known(g);
    KnownCalls(g);
    match s
    case SetStep(bits) => SetBits(g, bits)
    case ClearStep(bits) => ClearBits(g, bits)
    case WaitStep(t, call, mayBlock) => WaitBits(g, t, call, mayBlock).0
    case SyncStep(t, bits, wants, mayBlock) => Sync(g, t, bits, wants, mayBlock).0
    case ExpireStep(t) => Expire(g, t)
    case ResumeStep(t, normalValue) => Resume(g, t, normalValue).0
  }

  lemma KnownCalls(g: Group)
    requires Inv(g)
    ensures forall t :: t in g.calls ==> t in g.value
  {
    forall t | t in g.calls ensures t in g.value {
      assert TaskOk(g, t);
    }
  }

  lemma ApplyKeepsInv(g: Group, s: Step)
    requires Inv(g) && Enabled(g, s)
    ensures Inv(Apply(g, s))
  {
    hide Inv, SetBits, WaitBits, Sync, Resume, Expire, IsEvents, Call.Valid;
    KnownCalls(g);
    match s
    case SetStep(bits) => SetBitsKeepsInv(g, bits);
    case ClearStep(bits) => InvWithBits(g, bits);
    case WaitStep(t, call, mayBlock) => WaitBitsKeepsInv(g, t, call, mayBlock);
    case SyncStep(t, bits, wants, mayBlock) => SyncKeepsInv(g, t, bits, wants, mayBlock);
    case ExpireStep(t) => ExpireKeepsInv(g, t);
    case ResumeStep(t, normalValue) => ResumeKeepsInv(g, t, normalValue);
  }

  ghost predicate Legal(g: Group, steps: seq<Step>)
    requires Inv(g)
    decreases |steps|
  {
    steps == [] || (Enabled(g, steps[0]) && (ApplyKeepsInv(g, steps[0]); Legal(Apply(g, steps[0]), steps[1..])))
  }

  ghost function Run(g: Group, steps: seq<Step>): (g': Group)
    requires Inv(g) && Legal(g, steps)
    ensures Inv(g')
    decreases |steps|
  {
    if steps == [] then g else ApplyKeepsInv(g, steps[0]); Run(Apply(g, steps[0]), steps[1..])
  }

  /** In every reachable state no task is left waiting whose condition is met by
      the current bits. */
  lemma NoLostWakeUp(g: Group, steps: seq<Step>, t: Task)
    requires Inv(g) && Legal(g, steps) && t in Run(g, steps).waiting
    ensures t in Run(g, steps).calls && !Met(Run(g, steps).bits, Run(g, steps).calls[t])
  {
    NobodySatisfiedWaits(Run(g, steps), t);
  }

  ghost predicate SameItem(g: Group, g': Group, t: Task) {
    t in g'.calls && t !in g'.waiting && t in g.calls && g'.calls[t] == g.calls[t]
    && t in g.value && t in g'.value && g'.value[t] == g.value[t]
  }

  lemma SetBitsLeavesReleased(g: Group, bits: Bits, t: Task)
    requires Inv(g) && IsEvents(bits) && t in g.calls && t !in g.waiting
    ensures forall u :: u in g.waiting ==> u in g.value
    ensures SameItem(g, SetBits(g, bits), t)
  {
    hide Inv, IsEvents, Met, Handed, Without, With;
    KnownCalls(g);
    SetBitsWakesExactly(g, bits);
  }

  lemma SyncLeavesReleased(g: Group, u: Task, bits: Bits, wants: Bits, mayBlock: bool, t: Task)
    requires Inv(g) && IsEvents(bits) && t in g.calls && t !in g.waiting && u != t
    ensures forall x :: x in g.waiting ==> x in g.value
    ensures SameItem(g, Sync(g, u, bits, wants, mayBlock).0, t)
  {
    hide Inv, IsEvents, Covers, With, Without, Encoded, SetBits;
    SetBitsLeavesReleased(g, bits, t);
  }

  lemma HandedStaysOneStep(g: Group, s: Step, t: Task)
    requires Inv(g) && Enabled(g, s) && t in g.calls && t !in g.waiting && !(s.ResumeStep? && s.task == t)
    ensures SameItem(g, Apply(g, s), t)
  {
    hide Inv, IsEvents, Call.Valid, Met, Encoded, Without, With, Covers, Shares, EventsOf, SetBits, Sync;
    Known(g);
    KnownCalls(g);
    match s {
      case SetStep(bits) => SetBitsLeavesReleased(g, bits, t);
      case SyncStep(u, bits, wants, mayBlock) => SyncLeavesReleased(g, u, bits, wants, mayBlock, t);
      case ExpireStep(u) =>
        DistinctOf(g);
        RemovedKeepsDistinct(g.waiting, Index(g.waiting, u));
      case _ =>
    }
  }

  lemma DistinctOf(g: Group)
    requires Inv(g)
    ensures Distinct(g.waiting)
  {
  }

  /** What a woken task was handed reaches it unchanged, whatever the others do
      until it runs again. */
  lemma {:induction false} HandedStays(g: Group, steps: seq<Step>, t: Task)
    requires Inv(g) && Legal(g, steps) && t in g.calls && t !in g.waiting
    requires forall s :: s in steps ==> !(s.ResumeStep? && s.task == t)
    ensures SameItem(g, Run(g, steps), t)
    decreases |steps|
  {
    hide Inv, Enabled, Apply;
    KnownCalls(g);
    if steps != [] {
      assert steps[0] in steps;
      ApplyKeepsInv(g, steps[0]);
      HandedStaysOneStep(g, steps[0], t);
      HandedStays(Apply(g, steps[0]), steps[1..], t);
    }
  }

  /** So a waiter woken by xEventGroupSetBits returns exactly the bits as they
      were set, before any were cleared, and they meet its call. */
  lemma WokenReturnsSetBits(g: Group, bits: Bits, steps: seq<Step>, t: Task, normalValue: Bits)
    requires Inv(g) && IsEvents(bits) && t in g.waiting && t in g.calls && Met(With(g.bits, bits), g.calls[t])
    requires Inv(Apply(g, SetStep(bits))) && Legal(Apply(g, SetStep(bits)), steps)
    requires forall s :: s in steps ==> !(s.ResumeStep? && s.task == t)
    ensures var g' := Run(Apply(g, SetStep(bits)), steps);
      && Enabled(g', ResumeStep(t, normalValue)) && t in g'.value
      && Resume(g', t, normalValue) ==
         (g'.(value := g'.value[t := normalValue], calls := g'.calls - {t}), With(g.bits, bits))
  {
    hide Inv, Legal, Run, IsEvents, Met, Handed, With, Encoded, EventsOf, Shares, Call.Valid, Exit;
    Known(g);
    SetBitsWakesExactly(g, bits);
    BitsOf(g);
    EventsStay(g.bits, bits);
    HandedReadsBack(With(g.bits, bits));
    HandedStays(Apply(g, SetStep(bits)), steps, t);
  }

  lemma BitsOf(g: Group)
    requires Inv(g)
    ensures IsEvents(g.bits)
  {
  }

  // --------------------------------------------------------------- rendezvous

  datatype Arrival = Arrival(task: Task, bits: Bits)

  /** The bits after some have been set. */
  function Joined(bits: Bits, arrivals: seq<Arrival>): Bits {
    if arrivals == [] then bits else With(Joined(bits, arrivals[..|arrivals| - 1]), arrivals[|arrivals| - 1].bits)
  }

  function Tasks(arrivals: seq<Arrival>): (tasks: seq<Task>)
    ensures |tasks| == |arrivals| && forall i :: 0 <= i < |arrivals| ==> tasks[i] == arrivals[i].task
  {
    seq(|arrivals|, i requires 0 <= i < |arrivals| => arrivals[i].task)
  }

  /** Tasks that are not blocked arrive in turn, each but the last too early. */
  ghost predicate Meeting(g: Group, wants: Bits, arrivals: seq<Arrival>) {
    && Inv(g) && g.waiting == [] && Call(wants, true, true).Valid()
    && Distinct(Tasks(arrivals))
    && (forall a :: a in arrivals ==> a.task !in g.calls && IsEvents(a.bits))
    && (forall n :: 0 <= n < |arrivals| ==> Early(g.bits, wants, arrivals, n))
  }

  ghost predicate Early(bits: Bits, wants: Bits, arrivals: seq<Arrival>, n: nat)
    requires n <= |arrivals|
  {
    !Covers(Joined(bits, arrivals[..n]), wants)
  }

  /** The group after all have called xEventGroupSync with a block time. */
  ghost function AllSync(g: Group, wants: Bits, arrivals: seq<Arrival>): (g': Group)
    requires (forall t :: t in g.waiting ==> t in g.value)
    ensures (forall t :: t in g'.waiting ==> t in g'.value)
  {
    if arrivals == [] then g
    else
      var last := arrivals[|arrivals| - 1];
      var before := AllSync(g, wants, arrivals[..|arrivals| - 1]);
      StillKnown(before, last.bits);
      Sync(before, last.task, last.bits, wants, true).0
  }

  lemma StillKnown(g: Group, bits: Bits)
    requires (forall t :: t in g.waiting ==> t in g.value)
    ensures var g' := SetBits(g, bits); forall t :: t in g'.waiting ==> t in g'.value
  {
    SubsetRemains(g.waiting, g.value, With(g.bits, bits));
  }

  lemma {:induction false} SubsetRemains(waiting: seq<Task>, value: map<Task, Bits>, bits: Bits)
    requires forall t :: t in waiting ==> t in value
    ensures forall t :: t in Remaining(waiting, value, bits) ==> t in waiting
  {
    hide Matches;
    if waiting != [] {
      SubsetRemains(waiting[1..], value, bits);
    }
  }

  /** Everybody who waits does so for the same meeting. */
  ghost predicate AllWait(g: Group, wants: Bits) {
    forall t :: t in g.waiting ==> t in g.value && g.value[t] == Encoded(Call(wants, true, true))
  }

  lemma {:induction false} NoneMatch(waiting: seq<Task>, value: map<Task, Bits>, bits: Bits)
    requires forall t :: t in waiting ==> t in value && !Matches(bits, value[t])
    ensures Remaining(waiting, value, bits) == waiting && ToClear(waiting, value, bits) == 0
  {
    hide Matches;
    if waiting != [] {
      NoneMatch(waiting[1..], value, bits);
      assert [waiting[0]] + waiting[1..] == waiting;
    }
  }

  lemma {:induction false} AllMatch(waiting: seq<Task>, value: map<Task, Bits>, bits: Bits, wants: Bits)
    requires forall t :: t in waiting ==> t in value && Matches(bits, value[t]) && ClearMask(value[t]) == wants
    ensures Remaining(waiting, value, bits) == []
    ensures ToClear(waiting, value, bits) == if waiting == [] then 0 else wants
  {
    hide Matches, ClearMask, With;
    WithItself(wants);
    if waiting != [] {
      AllMatch(waiting[1..], value, bits, wants);
    }
  }

  lemma WithItself(a: Bits)
    ensures With(a, a) == a && With(a, 0) == a
  {
  }

  lemma WithoutTwice(a: Bits, b: Bits)
    ensures Without(Without(a, b), b) == Without(a, b) && Without(a, 0) == a
    ensures !Shares(Without(a, b), b)
  {
  }

  /** An early arrival blocks, and the bits add up. */
  lemma EarlyBlocks(g: Group, t: Task, bits: Bits, wants: Bits)
    requires AllWait(g, wants) && t !in g.waiting && Call(wants, true, true).Valid()
    requires !Covers(With(g.bits, bits), wants)
    ensures Sync(g, t, bits, wants, true) ==
            (Group(With(g.bits, bits), g.waiting + [t], g.value[t := Encoded(Call(wants, true, true))],
                   g.calls[t := Call(wants, true, true)]), Blocks)
    ensures AllWait(Sync(g, t, bits, wants, true).0, wants)
  {
    hide Matches, Encoded, With, Without, Covers, Handed, Call.Valid, SetBits;
    SetsEarly(g, bits, wants);
  }

  lemma SetsEarly(g: Group, bits: Bits, wants: Bits)
    requires AllWait(g, wants) && Call(wants, true, true).Valid() && !Covers(With(g.bits, bits), wants)
    ensures SetBits(g, bits) == g.(bits := With(g.bits, bits))
  {
    hide Matches, Encoded, With, Without, Covers, Handed, ClearMask, Call.Valid;
    var now := With(g.bits, bits);
    MatchesIsMet(now, Call(wants, true, true));
    NoneMatch(g.waiting, g.value, now);
    WithoutTwice(now, 0);
    assert HandedOut(g.waiting, g.value, now) == g.value;
  }

  lemma {:induction false} EarlyArrivalsBlock(g: Group, wants: Bits, arrivals: seq<Arrival>)
    requires Meeting(g, wants, arrivals) && !Covers(Joined(g.bits, arrivals), wants)
    ensures forall t :: t in g.waiting ==> t in g.value
    ensures var g' := AllSync(g, wants, arrivals);
      && g'.bits == Joined(g.bits, arrivals) && g'.waiting == Tasks(arrivals) && AllWait(g', wants)
      && (forall t :: t in Tasks(arrivals) ==> t in g'.calls && g'.calls[t] == Call(wants, true, true))
    decreases |arrivals|
  {
    hide Encoded, With, Without, Covers, Call.Valid, IsEvents, Inv, Sync;
    if arrivals != [] {
      var n := |arrivals| - 1;
      var last := arrivals[n];
      ShorterMeeting(g, wants, arrivals);
      assert Early(g.bits, wants, arrivals, n);
      EarlyArrivalsBlock(g, wants, arrivals[..n]);
      var before := AllSync(g, wants, arrivals[..n]);
      LastIsNew(Tasks(arrivals));
      assert Tasks(arrivals[..n]) == Tasks(arrivals)[..n];
      EarlyBlocks(before, last.task, last.bits, wants);
      assert Tasks(arrivals) == Tasks(arrivals[..n]) + [last.task];
    }
  }

  lemma LastIsNew(tasks: seq<Task>)
    requires tasks != [] && Distinct(tasks)
    ensures tasks[|tasks| - 1] !in tasks[..|tasks| - 1] && Distinct(tasks[..|tasks| - 1])
  {
    forall i | 0 <= i < |tasks| - 1 ensures tasks[i] != tasks[|tasks| - 1] {
      assert Differ(tasks, i, |tasks| - 1);
    }
    var front := tasks[..|tasks| - 1];
    forall i, j | 0 <= i < j < |front| ensures Differ(front, i, j) {
      assert Differ(tasks, i, j);
    }
  }

  lemma ShorterMeeting(g: Group, wants: Bits, arrivals: seq<Arrival>)
    requires Meeting(g, wants, arrivals) && arrivals != []
    ensures Meeting(g, wants, arrivals[..|arrivals| - 1])
  {
    hide Inv, Covers, IsEvents, Call.Valid;
    var n := |arrivals| - 1;
    LastIsNew(Tasks(arrivals));
    assert Tasks(arrivals[..n]) == Tasks(arrivals)[..n];
    assert forall a :: a in arrivals[..n] ==> a in arrivals;
    forall k | 0 <= k < n ensures Early(g.bits, wants, arrivals[..n], k) {
      assert Early(g.bits, wants, arrivals, k);
      assert arrivals[..n][..k] == arrivals[..k];
    }
  }

  lemma {:induction false} JoinedEvents(bits: Bits, arrivals: seq<Arrival>)
    requires IsEvents(bits) && forall a :: a in arrivals ==> IsEvents(a.bits)
    ensures IsEvents(Joined(bits, arrivals))
  {
    hide IsEvents, With;
    if arrivals != [] {
      var n := |arrivals| - 1;
      JoinedEvents(bits, arrivals[..n]);
      EventsStay(Joined(bits, arrivals[..n]), arrivals[n].bits);
    }
  }

  /** A meeting on a group that nobody else uses (for groups in wider use see
      EventGroupMeetings): when n tasks sync on the same bits in any order, and
      only with the last are all the bits there, the others block in turn until
      the last releases them all with exactly the bits that were set; the last
      returns the same, and all the bits waited for are left clear. */
  lemma PrivateRendezvous(g: Group, wants: Bits, arrivals: seq<Arrival>)
    requires Meeting(g, wants, arrivals) && arrivals != [] && Covers(Joined(g.bits, arrivals), wants)
    ensures forall t :: t in g.waiting ==> t in g.value
    ensures var n := |arrivals| - 1;
      var all := Joined(g.bits, arrivals);
      var before := AllSync(g, wants, arrivals[..n]);
      var (after, outcome) := Sync(before, arrivals[n].task, arrivals[n].bits, wants, true);
      && before.waiting == Tasks(arrivals[..n])
      && outcome == Returns(all)
      && after.waiting == []
      && (forall t :: t in Tasks(arrivals[..n]) ==> t in after.value && after.value[t] == Handed(all))
      && EventsOf(Handed(all)) == all
      && after.bits == Without(all, wants) && !Shares(after.bits, wants)
  {
    hide Encoded, With, Without, Covers, Call.Valid, IsEvents, Inv, Handed, Matches, ClearMask, Shares, EventsOf;
    var n := |arrivals| - 1;
    var last := arrivals[n];
    ShorterMeeting(g, wants, arrivals);
    assert Early(g.bits, wants, arrivals, n);
    EarlyArrivalsBlock(g, wants, arrivals[..n]);
    var before := AllSync(g, wants, arrivals[..n]);
    var all := With(before.bits, last.bits);
    MatchesIsMet(all, Call(wants, true, true));
    AllMatch(before.waiting, before.value, all, wants);
    WithoutTwice(all, wants);
    BitsOf(g);
    JoinedEvents(g.bits, arrivals);
    HandedReadsBack(all);
  }
}
