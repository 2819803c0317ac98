/** A rendezvous on an event group that is in use by others: tasks that wait for
    other bits, or for the same bits without clearing them, other meetings, and
    bits that are set and cleared in between. */
module EventGroupMeetings {
  import opened EventBits
  import opened ListSpec
  import opened EventGroupSpec
  import opened EventGroupRuns

  function MeetingCall(wants: Bits): Call {
    Call(wants, true, true)
  }

  /** A call that may clear some of the bits. */
  predicate Claims(call: Call, wants: Bits) {
    call.clear && Shares(call.wants, wants)
  }

  /** Those of a list that are among the tasks, in the order of the list. */
  function Only(list: seq<Task>, tasks: seq<Task>): (some: seq<Task>)
    ensures forall t :: t in some <==> t in list && t in tasks
  {
    if list == [] then []
    else (if list[0] in tasks then [list[0]] else []) + Only(list[1..], tasks)
  }

  /** The tasks have arrived: they wait, in the order in which they came, and
      nobody else who waits would clear a bit of the meeting's; of these bits
      exactly those are set that were set before or by the arrivals. */
  ghost predicate Gathered(g: Group, wants: Bits, tasks: seq<Task>, joined: Bits) {
    && Inv(g) && MeetingCall(wants).Valid()
    && Only(g.waiting, tasks) == tasks
    && (forall t :: t in tasks ==> t in g.calls && g.calls[t] == MeetingCall(wants))
    && (forall u :: u in g.waiting && u !in tasks ==> u in g.calls && !Claims(g.calls[u], wants))
    && Common(g.bits, wants) == Common(joined, wants)
  }

  /** The bits of a meeting after a step, given those before it. */
  function Then(joined: Bits, s: Step): Bits {
    match s
    case SetStep(bits) => With(joined, bits)
    case ClearStep(bits) => Without(joined, bits)
    case SyncStep(_, bits, _, _) => With(joined, bits)
    case _ => joined
  }

  /** A step of others: it may set bits of the meeting's but not the last of them,
      and clear any by xEventGroupClearBits; it does not begin to wait for a bit
      of them that it would clear; nor does the block time of one who has arrived
      run out. */
  ghost predicate Foreign(g: Group, s: Step, wants: Bits, tasks: seq<Task>, joined: Bits) {
    match s
    case SetStep(bits) => !Covers(With(joined, bits), wants)
    case ClearStep(_) => true
    case WaitStep(_, call, _) => !Claims(call, wants)
    case SyncStep(_, bits, others, _) => !Covers(With(joined, bits), wants) && !Shares(others, wants)
    case ExpireStep(t) => t !in tasks
    case ResumeStep(t, _) =>
      t in g.calls && t in g.value && (Shares(g.value[t], UNBLOCKED) || !Claims(g.calls[t], wants))
  }

  predicate IsArrival(s: Step, wants: Bits) {
    s.SyncStep? && s.wants == wants && s.mayBlock
  }

  /** The steps of a meeting before the last arrival: each is an arrival with which
      the bits are not all there yet, or a step of others. */
  ghost predicate Gathers(g: Group, wants: Bits, tasks: seq<Task>, joined: Bits, steps: seq<Step>)
    requires Inv(g) && Legal(g, steps)
    decreases |steps|
  {
    steps == [] ||
    (ApplyKeepsInv(g, steps[0]);
     if IsArrival(steps[0], wants) then
       && !Covers(Then(joined, steps[0]), wants)
       && Gathers(Apply(g, steps[0]), wants, tasks + [steps[0].task], Then(joined, steps[0]), steps[1..])
     else
       && Foreign(g, steps[0], wants, tasks, joined)
       && Gathers(Apply(g, steps[0]), wants, tasks, Then(joined, steps[0]), steps[1..]))
  }

  /** Who arrives, and which bits are there when they have. */
  function Arrived(wants: Bits, steps: seq<Step>): seq<Task> {
    if steps == [] then []
    else (if IsArrival(steps[0], wants) then [steps[0].task] else []) + Arrived(wants, steps[1..])
  }

  function BitsThen(joined: Bits, steps: seq<Step>): Bits
    decreases |steps|
  {
    if steps == [] then joined else BitsThen(Then(joined, steps[0]), steps[1..])
  }

  // -------------------------------------------------------------- lists in order

  lemma {:induction false} OnlyConcat(a: seq<Task>, b: seq<Task>, tasks: seq<Task>)
    ensures Only(a + b, tasks) == Only(a, tasks) + Only(b, tasks)
  {
    if a == [] {
      assert a + b == b;
    } else {
      assert (a + b)[1..] == a[1..] + b;
      OnlyConcat(a[1..], b, tasks);
    }
  }

  lemma OnlyOne(t: Task, tasks: seq<Task>)
    ensures Only([t], tasks) == if t in tasks then [t] else []
  {
    assert [t][1..] == [];
  }

  lemma {:induction false} OnlyNobody(list: seq<Task>)
    ensures Only(list, []) == []
  {
    if list != [] {
      OnlyNobody(list[1..]);
    }
  }

  lemma {:induction false} OnlyIgnores(list: seq<Task>, tasks: seq<Task>, t: Task)
    requires t !in list
    ensures Only(list, tasks + [t]) == Only(list, tasks)
  {
    if list != [] {
      OnlyIgnores(list[1..], tasks, t);
    }
  }

  lemma {:induction false} OnlyRemaining(waiting: seq<Task>, value: map<Task, Bits>, bits: Bits, tasks: seq<Task>)
    requires forall t :: t in waiting ==> t in value
    requires forall t :: t in waiting && t in tasks ==> !Matches(bits, value[t])
    ensures Only(Remaining(waiting, value, bits), tasks) == Only(waiting, tasks)
  {
    hide Matches;
    if waiting != [] {
      OnlyRemaining(waiting[1..], value, bits, tasks);
      var rest := Remaining(waiting[1..], value, bits);
      if !Matches(bits, value[waiting[0]]) {
        assert ([waiting[0]] + rest)[1..] == rest;
      }
    }
  }

  lemma OnlyWithout(list: seq<Task>, k: nat, tasks: seq<Task>)
    requires k < |list| && list[k] !in tasks
    ensures Only(Removed(list, k), tasks) == Only(list, tasks)
  {
    hide Only;
    var front, back := list[..k], list[k + 1..];
    OnlyConcat(front, back, tasks);
    OnlyConcat(front, [list[k]], tasks);
    OnlyConcat(front + [list[k]], back, tasks);
    OnlyOne(list[k], tasks);
    assert list == front + [list[k]] + back;
  }

  // ----------------------------------------------------------------- bits of W

  /** Whether all the bits are there depends on these bits alone. */
  lemma SamePart(a: Bits, b: Bits, wants: Bits)
    requires Common(a, wants) == Common(b, wants)
    ensures Covers(a, wants) == Covers(b, wants)
  {
    hide Common;
  }

  lemma PartOfJoin(a: Bits, b: Bits, more: Bits, wants: Bits)
    requires Common(a, wants) == Common(b, wants)
    ensures Common(With(a, more), wants) == Common(With(b, more), wants)
    ensures !Shares(more, wants) ==> Common(With(a, more), wants) == Common(a, wants)
  {
    hide Common, With;
    CommonJoins(a, more, wants);
    CommonJoins(b, more, wants);
    WithZero(Common(a, wants));
  }

  lemma PartOfClear(a: Bits, cleared: Bits, wants: Bits)
    requires !Shares(cleared, wants)
    ensures Common(Without(a, cleared), wants) == Common(a, wants)
  {
    hide Common, Without;
    SharesBothWays(cleared, wants);
    SameLeft(a, cleared, wants);
  }

  // --------------------------------------------------------------------- steps

  /** Setting bits that do not complete the meeting wakes none who has arrived. */
  lemma SetBitsGathered(g: Group, wants: Bits, tasks: seq<Task>, joined: Bits, bits: Bits)
    requires Gathered(g, wants, tasks, joined) && IsEvents(bits) && !Covers(With(joined, bits), wants)
    ensures forall t :: t in g.waiting ==> t in g.value
    ensures Gathered(SetBits(g, bits), wants, tasks, With(joined, bits))
  {
    hide Inv, IsEvents, Shares, Covers, Common, With, Without, Matches, Met, Handed, Encoded, Call.Valid, Only;
    Known(g);
    SetBitsKeepsInv(g, bits);
    SetBitsWakesExactly(g, bits);
    var now := With(g.bits, bits);
    PartOfJoin(g.bits, joined, bits, wants);
    SamePart(now, With(joined, bits), wants);
    NotMetByPart(now, wants);
    NoneArrivedMatches(g, wants, tasks, now);
    OnlyRemaining(g.waiting, g.value, now, tasks);
    ClearsNoneOfThese(g, wants, tasks, bits);
    PartOfClear(now, ToClear(g.waiting, g.value, now), wants);
  }

  lemma NotMetByPart(now: Bits, wants: Bits)
    ensures Met(now, MeetingCall(wants)) == Covers(now, wants)
  {
  }

  lemma NoneArrivedMatches(g: Group, wants: Bits, tasks: seq<Task>, now: Bits)
    requires Inv(g) && MeetingCall(wants).Valid() && !Covers(now, wants)
    requires forall t :: t in tasks ==> t in g.calls && g.calls[t] == MeetingCall(wants)
    ensures forall t :: t in g.waiting && t in tasks ==> t in g.value && !Matches(now, g.value[t])
  {
    hide Matches, Covers, Encoded, Call.Valid;
    MatchesIsMet(now, MeetingCall(wants));
    forall t | t in g.waiting && t in tasks ensures t in g.value && !Matches(now, g.value[t]) {
      assert TaskOk(g, t);
    }
  }

  lemma ClearsNoneOfThese(g: Group, wants: Bits, tasks: seq<Task>, bits: Bits)
    requires Inv(g) && IsEvents(bits) && !Covers(With(g.bits, bits), wants)
    requires forall t :: t in tasks ==> t in g.calls && g.calls[t] == MeetingCall(wants)
    requires forall u :: u in g.waiting && u !in tasks ==> u in g.calls && !Claims(g.calls[u], wants)
    ensures forall t :: t in g.waiting ==> t in g.value
    ensures !Shares(ToClear(g.waiting, g.value, With(g.bits, bits)), wants)
  {
    hide Inv, IsEvents, Shares, Covers, With, Without;
    Known(g);
    SetBitsLeaves(g, bits, wants);
  }

  /** An early arrival blocks behind those who came before. */
  lemma ArrivalGathered(g: Group, wants: Bits, tasks: seq<Task>, joined: Bits, t: Task, bits: Bits)
    requires Gathered(g, wants, tasks, joined) && IsEvents(bits) && !Covers(With(joined, bits), wants) && t !in g.calls
    ensures forall u :: u in g.waiting ==> u in g.value
    ensures var (g', outcome) := Sync(g, t, bits, wants, true);
      outcome == Blocks && Gathered(g', wants, tasks + [t], With(joined, bits))
  {
    hide Inv, IsEvents, Shares, Covers, Common, With, Without, Encoded, Call.Valid, SetBits, Only;
    SetBitsGathered(g, wants, tasks, joined, bits);
    SyncKeepsInv(g, t, bits, wants, true);
    PartOfJoin(g.bits, joined, bits, wants);
    SamePart(With(g.bits, bits), With(joined, bits), wants);
    SetBitsKeepsCalls(g, bits);
    WaitersAreCalls(g);
    var waiting := SetBits(g, bits).waiting;
    OnlyConcat(waiting, [t], tasks + [t]);
    OnlyOne(t, tasks + [t]);
    OnlyIgnores(waiting, tasks, t);
  }

  lemma SetBitsKeepsCalls(g: Group, bits: Bits)
    requires Inv(g) && IsEvents(bits)
    ensures forall t :: t in g.waiting ==> t in g.value
    ensures SetBits(g, bits).calls == g.calls && forall t :: t in SetBits(g, bits).waiting ==> t in g.waiting
  {
    hide Inv, IsEvents, Met, Handed, With, Without;
    Known(g);
    SetBitsWakesExactly(g, bits);
  }

  lemma WaitersAreCalls(g: Group)
    requires Inv(g)
    ensures forall t :: t in g.waiting ==> t in g.calls
  {
  }

  /** Blocking on others' bits leaves the meeting. */
  lemma BlockGathered(g: Group, wants: Bits, tasks: seq<Task>, joined: Bits, t: Task, call: Call)
    requires Gathered(g, wants, tasks, joined) && Inv(Block(g, t, call)) && t !in g.calls && !Claims(call, wants)
    ensures Gathered(Block(g, t, call), wants, tasks, joined)
  {
    hide Inv, Shares, Common, Encoded, Call.Valid, Only;
    OnlyConcat(g.waiting, [t], tasks);
    OnlyOne(t, tasks);
  }

  lemma ClearBitsGathered(g: Group, wants: Bits, tasks: seq<Task>, joined: Bits, cleared: Bits)
    requires Gathered(g, wants, tasks, joined)
    ensures Gathered(ClearBits(g, cleared), wants, tasks, Without(joined, cleared))
  {
    hide Inv, Shares, Common, Without, Call.Valid, Only;
    InvWithBits(g, cleared);
    LeftOf(g.bits, cleared, wants);
    LeftOf(joined, cleared, wants);
  }

  lemma ClearGathered(g: Group, wants: Bits, tasks: seq<Task>, joined: Bits, cleared: Bits)
    requires Gathered(g, wants, tasks, joined) && !Shares(cleared, wants)
    ensures Gathered(g.(bits := Without(g.bits, cleared)), wants, tasks, joined)
  {
    hide Inv, Shares, Common, Without, Call.Valid, Only;
    InvWithBits(g, cleared);
    PartOfClear(g.bits, cleared, wants);
  }

  lemma ForeignSyncGathered(g: Group, wants: Bits, tasks: seq<Task>, joined: Bits, t: Task, bits: Bits, others: Bits,
                            mayBlock: bool)
    requires Gathered(g, wants, tasks, joined) && !Covers(With(joined, bits), wants) && t !in g.calls
    requires IsEvents(bits) && MeetingCall(others).Valid() && !Shares(others, wants)
    ensures forall u :: u in g.waiting ==> u in g.value
    ensures Gathered(Sync(g, t, bits, others, mayBlock).0, wants, tasks, With(joined, bits))
  {
    hide Inv, IsEvents, Shares, Covers, Common, With, Without, Encoded, Call.Valid, SetBits, Only, Gathered;
    InvOf(g, wants, tasks, joined);
    SetBitsGathered(g, wants, tasks, joined, bits);
    SyncKeepsInv(g, t, bits, others, mayBlock);
    SetBitsKeepsCalls(g, bits);
    if Covers(With(g.bits, bits), others) {
      ClearGathered(SetBits(g, bits), wants, tasks, With(joined, bits), others);
    } else if mayBlock {
      BlockGathered(SetBits(g, bits), wants, tasks, With(joined, bits), t, MeetingCall(others));
    }
  }

  lemma InvOf(g: Group, wants: Bits, tasks: seq<Task>, joined: Bits)
    requires Gathered(g, wants, tasks, joined)
    ensures Inv(g)
  {
  }

  lemma ForeignWaitGathered(g: Group, wants: Bits, tasks: seq<Task>, joined: Bits, t: Task, call: Call, mayBlock: bool)
    requires Gathered(g, wants, tasks, joined) && t !in g.calls && call.Valid() && !Claims(call, wants)
    ensures Gathered(WaitBits(g, t, call, mayBlock).0, wants, tasks, joined)
  {
    hide Inv, Shares, Common, Met, Encoded, Without, Call.Valid, Only, Gathered;
    InvOf(g, wants, tasks, joined);
    WaitBitsKeepsInv(g, t, call, mayBlock);
    if Met(g.bits, call) {
      if call.clear {
        ClearGathered(g, wants, tasks, joined, call.wants);
      }
    } else if mayBlock {
      BlockGathered(g, wants, tasks, joined, t, call);
    }
  }

  lemma ExpireGathered(g: Group, wants: Bits, tasks: seq<Task>, joined: Bits, t: Task)
    requires Gathered(g, wants, tasks, joined) && t in g.waiting && t !in tasks
    ensures Gathered(Expire(g, t), wants, tasks, joined)
  {
    hide Inv, Shares, Common, Call.Valid, Only;
    ExpireKeepsInv(g, t);
    OnlyWithout(g.waiting, Index(g.waiting, t), tasks);
  }

  lemma ResumeGathered(g: Group, wants: Bits, tasks: seq<Task>, joined: Bits, t: Task, normalValue: Bits)
    requires Gathered(g, wants, tasks, joined) && t in g.calls && t in g.value && t !in g.waiting
    requires Shares(g.value[t], UNBLOCKED) || !Claims(g.calls[t], wants)
    ensures Gathered(Resume(g, t, normalValue).0, wants, tasks, joined)
  {
    hide Inv, Shares, Common, Met, Without, EventsOf, Call.Valid, Only;
    ResumeKeepsInv(g, t, normalValue);
    assert forall u :: u in tasks ==> u in Only(g.waiting, tasks);
    PartOfClearIf(g.bits, g.calls[t], wants);
  }

  lemma PartOfClearIf(bits: Bits, call: Call, wants: Bits)
    ensures call.clear && !Claims(call, wants) ==> Common(Without(bits, call.wants), wants) == Common(bits, wants)
  {
    hide Shares, Common, Without;
    if call.clear && !Claims(call, wants) {
      PartOfClear(bits, call.wants, wants);
    }
  }

  lemma ForeignGathered(g: Group, s: Step, wants: Bits, tasks: seq<Task>, joined: Bits)
    requires Gathered(g, wants, tasks, joined) && !Covers(joined, wants)
    requires Inv(g) && Enabled(g, s) && Foreign(g, s, wants, tasks, joined)
    ensures Gathered(Apply(g, s), wants, tasks, Then(joined, s)) && !Covers(Then(joined, s), wants)
  {
    hide Gathered, Inv, IsEvents, Shares, Covers, Common, With, Without, Call.Valid, SetBits, Sync, WaitBits, Resume,
         Expire, ClearBits, Claims;
    KnownCalls(g);
    match s
    case SetStep(bits) => SetBitsGathered(g, wants, tasks, joined, bits);
    case ClearStep(bits) =>
      ClearBitsGathered(g, wants, tasks, joined, bits);
      ClearingCoversLess(joined, bits, wants);
    case WaitStep(t, call, mayBlock) => ForeignWaitGathered(g, wants, tasks, joined, t, call, mayBlock);
    case SyncStep(t, bits, others, mayBlock) => ForeignSyncGathered(g, wants, tasks, joined, t, bits, others, mayBlock);
    case ExpireStep(t) => ExpireGathered(g, wants, tasks, joined, t);
    case ResumeStep(t, normalValue) => ResumeGathered(g, wants, tasks, joined, t, normalValue);
  }

  // --------------------------------------------------------------- the meeting

  /** Nobody who waits when the meeting begins would clear one of its bits, and the
      bits are not all set already. */
  ghost predicate Opens(g: Group, wants: Bits) {
    && Inv(g) && MeetingCall(wants).Valid() && !Covers(g.bits, wants)
    && (forall u :: u in g.waiting ==> u in g.calls && !Claims(g.calls[u], wants))
  }

  lemma OpensGathered(g: Group, wants: Bits)
    requires Opens(g, wants)
    ensures Gathered(g, wants, [], g.bits)
  {
    OnlyNobody(g.waiting);
  }

  /** Those who have come so far all wait, whatever the others do. */
  lemma {:induction false} EarlyArrivalsWait(g: Group, wants: Bits, tasks: seq<Task>, joined: Bits, steps: seq<Step>)
    requires Gathered(g, wants, tasks, joined) && !Covers(joined, wants)
    requires Inv(g) && Legal(g, steps) && Gathers(g, wants, tasks, joined, steps)
    ensures Gathered(Run(g, steps), wants, tasks + Arrived(wants, steps), BitsThen(joined, steps))
    ensures !Covers(BitsThen(joined, steps), wants)
    decreases |steps|
  {
    hide Gathered, Inv, Apply, Enabled, Foreign, Covers, With;
    if steps == [] {
      assert tasks + [] == tasks;
    } else {
      var s := steps[0];
      ApplyKeepsInv(g, s);
      var after := Apply(g, s);
      if IsArrival(s, wants) {
        ArrivalStep(g, s, wants, tasks, joined);
        EarlyArrivalsWait(after, wants, tasks + [s.task], Then(joined, s), steps[1..]);
        assert tasks + [s.task] + Arrived(wants, steps[1..]) == tasks + ([s.task] + Arrived(wants, steps[1..]));
      } else {
        ForeignGathered(g, s, wants, tasks, joined);
        EarlyArrivalsWait(after, wants, tasks, Then(joined, s), steps[1..]);
        assert [] + Arrived(wants, steps[1..]) == Arrived(wants, steps[1..]);
      }
    }
  }

  lemma ArrivalStep(g: Group, s: Step, wants: Bits, tasks: seq<Task>, joined: Bits)
    requires Inv(g) && Enabled(g, s) && IsArrival(s, wants)
    requires Gathered(g, wants, tasks, joined) && !Covers(Then(joined, s), wants)
    ensures Gathered(Apply(g, s), wants, tasks + [s.task], Then(joined, s))
  {
    hide Gathered, Inv, Covers, With, IsEvents, Call.Valid, Sync;
    ArrivalGathered(g, wants, tasks, joined, s.task, s.set');
  }

  /** What the last arrival does to a gathering. */
  lemma LastArrivalReleases(g: Group, wants: Bits, tasks: seq<Task>, joined: Bits, t: Task, bits: Bits, mayBlock: bool)
    requires Gathered(g, wants, tasks, joined) && IsEvents(bits) && Covers(With(joined, bits), wants) && t !in g.calls
    ensures forall u :: u in g.waiting ==> u in g.value
    ensures var (after, outcome) := Sync(g, t, bits, wants, mayBlock);
      && outcome == Returns(With(g.bits, bits)) && Covers(outcome.bits, wants)
      && (forall u :: u in tasks ==>
            && u !in after.waiting && u in after.value && after.value[u] == Handed(outcome.bits)
            && u in after.calls && after.calls[u] == MeetingCall(wants))
      && EventsOf(Handed(outcome.bits)) == outcome.bits
      && !Shares(after.bits, wants)
  {
    hide Inv, IsEvents, Shares, Covers, Common, With, Without, Encoded, Handed, EventsOf, Call.Valid, SetBits, Only;
    Known(g);
    KnownCalls(g);
    BitsOf(g);
    var now := With(g.bits, bits);
    PartOfJoin(g.bits, joined, bits, wants);
    SamePart(now, With(joined, bits), wants);
    NotMetByPart(now, wants);
    SetBitsWakesExactly(g, bits);
    SetBitsKeepsCalls(g, bits);
    SyncMeets(g, t, bits, wants, mayBlock);
    EventsStay(g.bits, bits);
    HandedReadsBack(now);
    assert forall u :: u in tasks ==> u in Only(g.waiting, tasks);
  }

  /** The meeting, on a group that others use too: when tasks sync on the same bits
      in any order and only with the last are all the bits there, those before
      wait in the order in which they came; the last returns what is set then,
      every bit of the meeting included, releases them all with that same value,
      and leaves none of the meeting's bits set. */
  lemma Rendezvous(g: Group, wants: Bits, steps: seq<Step>, last: Task, bits: Bits, mayBlock: bool)
    requires Opens(g, wants) && Legal(g, steps) && Gathers(g, wants, [], g.bits, steps)
    requires Enabled(Run(g, steps), SyncStep(last, bits, wants, mayBlock))
    requires Covers(With(BitsThen(g.bits, steps), bits), wants)
    ensures var before := Run(g, steps);
      && Only(before.waiting, Arrived(wants, steps)) == Arrived(wants, steps)
      && (forall u :: u in before.waiting ==> u in before.value)
      && var (after, outcome) := Sync(before, last, bits, wants, mayBlock);
      && outcome == Returns(With(before.bits, bits)) && Covers(outcome.bits, wants)
      && (forall u :: u in Arrived(wants, steps) ==>
            && u !in after.waiting && u in after.value && after.value[u] == Handed(outcome.bits)
            && u in after.calls && after.calls[u] == MeetingCall(wants))
      && EventsOf(Handed(outcome.bits)) == outcome.bits
      && !Shares(after.bits, wants)
  {
    hide Inv, Legal, Gathers, Run, IsEvents, Shares, Covers, Common, With, Handed, EventsOf, Call.Valid, Sync, Only;
    OpensGathered(g, wants);
    EarlyArrivalsWait(g, wants, [], g.bits, steps);
    assert [] + Arrived(wants, steps) == Arrived(wants, steps);
    LastArrivalReleases(Run(g, steps), wants, Arrived(wants, steps), BitsThen(g.bits, steps), last, bits,
                        mayBlock);
  }

  /** And so each of them returns, whenever it runs again and whatever the others
      do until then, what the last one returned, and clears nothing. */
  lemma MembersReturn(g: Group, wants: Bits, steps: seq<Step>, arrival: Step, more: seq<Step>, u: Task,
                      normalValue: Bits)
    requires Opens(g, wants) && Legal(g, steps) && Gathers(g, wants, [], g.bits, steps)
    requires arrival.SyncStep? && arrival.wants == wants && Enabled(Run(g, steps), arrival)
    requires Covers(With(BitsThen(g.bits, steps), arrival.set'), wants)
    requires u in Arrived(wants, steps)
    requires var after := Apply(Run(g, steps), arrival);
      Inv(after) && Legal(after, more) && forall s :: s in more ==> !(s.ResumeStep? && s.task == u)
    ensures var z := Run(Apply(Run(g, steps), arrival), more);
      && Enabled(z, ResumeStep(u, normalValue)) && u in z.value
      && Resume(z, u, normalValue) ==
         (z.(value := z.value[u := normalValue], calls := z.calls - {u}), With(Run(g, steps).bits, arrival.set'))
  {
    hide Inv, Legal, Gathers, Run, IsEvents, Shares, Covers, Common, With, Handed, EventsOf, Call.Valid, Sync, Only,
         Met;
    Rendezvous(g, wants, steps, arrival.task, arrival.set', arrival.mayBlock);
    var before := Run(g, steps);
    BitsOf(before);
    EventsStay(before.bits, arrival.set');
    HandedReadsBack(With(before.bits, arrival.set'));
    HandedStays(Apply(before, arrival), more, u);
  }
}
