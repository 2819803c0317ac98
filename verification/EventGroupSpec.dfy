/** What the operations of event_groups.c compute, on values, the invariant that
    no satisfied waiter stays asleep, and what a blocked call gets to see. */
module EventGroupSpec {
  import opened EventBits
  import opened ListSpec

  type Task = nat

  /** The group's bits and its list of waiting tasks; the value of each task's
      event item; and the calls in which tasks are blocked or not yet resumed. */
  datatype Group = Group(bits: Bits, waiting: seq<Task>, value: map<Task, Bits>, calls: map<Task, Call>)

  // ---------------------------------------------------------------- invariant

  /** Still blocked: its item says what it waits for, and that is not the case. */
  ghost predicate Asleep(bits: Bits, value: Bits, call: Call) {
    value == Encoded(call) && !Met(bits, call)
  }

  /** To be resumed: its time is out, or it was handed bits that meet its call. */
  ghost predicate Released(value: Bits, call: Call) {
    value == Encoded(call) || (Shares(value, UNBLOCKED) && Met(EventsOf(value), call))
  }

  ghost predicate TaskOk(g: Group, t: Task) {
    && t in g.calls && t in g.value && g.calls[t].Valid()
    && (t in g.waiting ==> Asleep(g.bits, g.value[t], g.calls[t]))
    && (t !in g.waiting ==> Released(g.value[t], g.calls[t]))
  }

  ghost predicate Inv(g: Group) {
    && IsEvents(g.bits)
    && Distinct(g.waiting)
    && (forall t :: t in g.waiting ==> t in g.calls)
    && (forall t :: t in g.calls ==> TaskOk(g, t))
  }

  /** No lost wake-up: nobody whose condition holds is left waiting. */
  lemma NobodySatisfiedWaits(g: Group, t: Task)
    requires Inv(g) && t in g.waiting
    ensures t in g.calls && !Met(g.bits, g.calls[t])
  {
    assert TaskOk(g, t);
  }

  // ----------------------------------------------------------------- set bits

  /** Those left waiting, in their order. */
  function Remaining(waiting: seq<Task>, value: map<Task, Bits>, bits: Bits): seq<Task>
    requires forall t :: t in waiting ==> t in value
  {
    if waiting == [] then []
    else if Matches(bits, value[waiting[0]]) then Remaining(waiting[1..], value, bits)
    else [waiting[0]] + Remaining(waiting[1..], value, bits)
  }

  /** The bits that the woken tasks asked to have cleared. */
  function ToClear(waiting: seq<Task>, value: map<Task, Bits>, bits: Bits): Bits
    requires forall t :: t in waiting ==> t in value
  {
    if waiting == [] then 0
    else
      var rest := ToClear(waiting[1..], value, bits);
      if Matches(bits, value[waiting[0]]) then With(ClearMask(value[waiting[0]]), rest) else rest
  }

  /** The item values, those of the woken tasks replaced. */
  function HandedOut(waiting: seq<Task>, value: map<Task, Bits>, bits: Bits): map<Task, Bits>
    requires forall t :: t in waiting ==> t in value
  {
    map t | t in value :: if t in waiting && Matches(bits, value[t]) then Handed(bits) else value[t]
  }

  function SetBits(g: Group, bits: Bits): Group
    requires forall t :: t in g.waiting ==> t in g.value
  {
    var now := With(g.bits, bits);
    Group(Without(now, ToClear(g.waiting, g.value, now)), Remaining(g.waiting, g.value, now),
          HandedOut(g.waiting, g.value, now), g.calls)
  }

  lemma {:induction false} RemainingIs(waiting: seq<Task>, value: map<Task, Bits>, bits: Bits)
    requires (forall t :: t in waiting ==> t in value) && Distinct(waiting)
    ensures var r := Remaining(waiting, value, bits);
      Distinct(r) && forall t :: t in r <==> t in waiting && !Matches(bits, value[t])
  {
    hide Matches;
    if waiting != [] {
      TailDistinct(waiting);
      RemainingIs(waiting[1..], value, bits);
      var rest := Remaining(waiting[1..], value, bits);
      InsertedKeepsFirst(waiting[0], rest);
      assert forall t :: t in waiting <==> t == waiting[0] || t in waiting[1..];
    }
  }

  lemma InsertedKeepsFirst(t: Task, rest: seq<Task>)
    requires Distinct(rest) && t !in rest
    ensures Distinct([t] + rest) && forall u :: u in [t] + rest <==> u == t || u in rest
  {
    InsertedKeepsDistinct(rest, 0, t);
    assert Inserted(rest, 0, t) == [t] + rest;
  }

  /** A bit is cleared just when some woken task waited for it with the request
      to clear on exit. */
  lemma {:induction false} ToClearIs(waiting: seq<Task>, value: map<Task, Bits>, bits: Bits, mask: Bits)
    requires forall t :: t in waiting ==> t in value
    ensures Shares(ToClear(waiting, value, bits), mask) <==>
            exists t :: t in waiting && Matches(bits, value[t]) && Shares(ClearMask(value[t]), mask)
  {
    hide Matches, ClearMask, Shares, With;
    NothingShared(mask);
    if waiting != [] {
      ToClearIs(waiting[1..], value, bits, mask);
      var t0 := waiting[0];
      WithShares(ClearMask(value[t0]), ToClear(waiting[1..], value, bits), mask);
      assert forall t :: t in waiting <==> t == t0 || t in waiting[1..];
    }
  }

  /** xEventGroupSetBits wakes exactly the waiters whose call is met by the old
      bits with the new, hands each of them those bits, and leaves the rest. */
  lemma SetBitsWakesExactly(g: Group, bits: Bits)
    requires Inv(g) && IsEvents(bits)
    ensures forall t :: t in g.waiting ==> t in g.value
    ensures var g' := SetBits(g, bits);
      && Distinct(g'.waiting) && g'.value.Keys == g.value.Keys && g'.calls == g.calls
      && (forall t :: t in g'.waiting <==> t in g.waiting && !Met(With(g.bits, bits), g.calls[t]))
      && (forall t :: t in g.value ==>
            g'.value[t] == if t in g.waiting && t !in g'.waiting then Handed(With(g.bits, bits)) else g.value[t])
  {
    hide Matches, Met, Handed, Encoded, With, Without, Shares, IsEvents, Call.Valid;
    Known(g);
    RemainingIs(g.waiting, g.value, With(g.bits, bits));
    forall t | t in g.waiting ensures Matches(With(g.bits, bits), g.value[t]) <==> Met(With(g.bits, bits), g.calls[t]) {
      assert TaskOk(g, t);
      MatchesIsMet(With(g.bits, bits), g.calls[t]);
    }
  }

  lemma Known(g: Group)
    requires Inv(g)
    ensures forall t :: t in g.waiting ==> t in g.value && t in g.calls
  {
    forall t | t in g.waiting ensures t in g.value {
      assert TaskOk(g, t);
    }
  }

  /** The bits left: of those set before or now, those that no woken task asked
      to have cleared. */
  lemma SetBitsLeaves(g: Group, bits: Bits, mask: Bits)
    requires Inv(g) && IsEvents(bits)
    ensures forall t :: t in g.waiting ==> t in g.value
    ensures var now := With(g.bits, bits);
      var cleared := ToClear(g.waiting, g.value, now);
      && SetBits(g, bits).bits == Without(now, cleared)
      && (Shares(cleared, mask) <==>
            exists t :: t in g.waiting && Met(now, g.calls[t]) && g.calls[t].clear && Shares(g.calls[t].wants, mask))
  {
    hide Matches, Met, ClearMask, Encoded, With, Without, Shares, IsEvents, Call.Valid;
    Known(g);
    var now := With(g.bits, bits);
    ToClearIs(g.waiting, g.value, now, mask);
    forall t | t in g.waiting
      ensures Matches(now, g.value[t]) <==> Met(now, g.calls[t])
      ensures ClearMask(g.value[t]) == if g.calls[t].clear then g.calls[t].wants else 0
    {
      assert TaskOk(g, t);
      MatchesIsMet(now, g.calls[t]);
    }
    NothingShared(mask);
  }

  lemma SetBitsKeepsInv(g: Group, bits: Bits)
    requires Inv(g) && IsEvents(bits)
    ensures forall t :: t in g.waiting ==> t in g.value
    ensures Inv(SetBits(g, bits))
  {
    hide Matches, Met, ClearMask, Encoded, Handed, With, Without, Shares, IsEvents, Call.Valid, EventsOf, ToClear,
         Remaining;
    SetBitsWakesExactly(g, bits);
    var g' := SetBits(g, bits);
    var now := With(g.bits, bits);
    EventsStay(g.bits, bits);
    EventsStay(now, ToClear(g.waiting, g.value, now));
    HandedReadsBack(now);
    forall t | t in g'.calls ensures TaskOk(g', t) {
      assert TaskOk(g, t);
      if t in g'.waiting {
        ClearingIsSafe(now, ToClear(g.waiting, g.value, now), g.calls[t]);
      }
    }
  }

  // --------------------------------------------------------- the other calls

  datatype Outcome = Returns(bits: Bits) | Blocks

  function Block(g: Group, t: Task, call: Call): Group {
    Group(g.bits, g.waiting + [t], g.value[t := Encoded(call)], g.calls[t := call])
  }

  function Exit(g: Group, call: Call): Group {
    if call.clear then g.(bits := Without(g.bits, call.wants)) else g
  }

  /** xEventGroupWaitBits up to where it returns or blocks. */
  function WaitBits(g: Group, t: Task, call: Call, mayBlock: bool): (Group, Outcome) {
    if Met(g.bits, call) then (Exit(g, call), Returns(g.bits))
    else if !mayBlock then (g, Returns(g.bits))
    else (Block(g, t, call), Blocks)
  }

  /** xEventGroupSync up to where it returns or blocks. */
  function Sync(g: Group, t: Task, bits: Bits, wants: Bits, mayBlock: bool): (Group, Outcome)
    requires forall u :: u in g.waiting ==> u in g.value
  {
    var set' := SetBits(g, bits);
    var now := With(g.bits, bits);
    if Covers(now, wants) then (set'.(bits := Without(set'.bits, wants)), Returns(now))
    else if mayBlock then (Block(set', t, Call(wants, true, true)), Blocks)
    else (set', Returns(set'.bits))
  }

  function ClearBits(g: Group, bits: Bits): Group {
    g.(bits := Without(g.bits, bits))
  }

  /** The block time of a waiting task runs out. */
  function Expire(g: Group, t: Task): Group
    requires t in g.waiting
  {
    g.(waiting := Removed(g.waiting, Index(g.waiting, t)))
  }

  /** What both blocking calls do once the task runs again. */
  function Resume(g: Group, t: Task, normalValue: Bits): (Group, Bits)
    requires t in g.calls && t in g.value
  {
    var back := g.(value := g.value[t := normalValue], calls := g.calls - {t});
    if Shares(g.value[t], UNBLOCKED) then (back, EventsOf(g.value[t]))
    else if Met(g.bits, g.calls[t]) then (Exit(back, g.calls[t]), EventsOf(g.bits))
    else (back, EventsOf(g.bits))
  }

  /** An event group starts with no bits and nobody waiting. */
  lemma StartsEmpty(value: map<Task, Bits>)
    ensures Inv(Group(0, [], value, map[]))
  {
    NothingShared(CONTROL);
  }

  lemma InvWithBits(g: Group, mask: Bits)
    requires Inv(g)
    ensures Inv(g.(bits := Without(g.bits, mask)))
  {
    hide Met, Encoded, Without, IsEvents, Call.Valid;
    EventsStay(g.bits, mask);
    var g' := g.(bits := Without(g.bits, mask));
    forall t | t in g'.calls ensures TaskOk(g', t) {
      assert TaskOk(g, t);
      if t in g.waiting { ClearingIsSafe(g.bits, mask, g.calls[t]); }
    }
  }

  /** A wait that finds its condition met returns the bits as they were and takes
      what it asked to have cleared, and nothing else; otherwise it blocks at the
      end of the list with just the call that was made, or changes nothing. */
  lemma WaitBitsTakes(g: Group, t: Task, call: Call, mayBlock: bool, mask: Bits)
    ensures var (g', outcome) := WaitBits(g, t, call, mayBlock);
      && (outcome == Blocks <==> !Met(g.bits, call) && mayBlock)
      && (outcome != Blocks ==>
            outcome == Returns(g.bits) && g'.waiting == g.waiting && g'.value == g.value && g'.calls == g.calls)
      && (outcome == Blocks ==> g'.bits == g.bits && g'.waiting == g.waiting + [t] && g'.calls == g.calls[t := call])
      && (outcome == Blocks ==> t in g'.value && forall u :: u in g.value && u != t ==> g'.value[u] == g.value[u])
      && (Met(g.bits, call) && call.clear ==> !Shares(g'.bits, call.wants))
      && (!Met(g.bits, call) || !call.clear || !Shares(mask, call.wants) ==>
            Shares(g'.bits, mask) == Shares(g.bits, mask))
  {
    hide Met, Shares, Without, Encoded;
    WithoutShares(g.bits, call.wants, mask);
  }

  lemma InvBlock(g: Group, t: Task, call: Call)
    requires Inv(g) && t !in g.calls && call.Valid() && !Met(g.bits, call)
    ensures Inv(Block(g, t, call))
  {
    hide Met, Encoded, IsEvents, Call.Valid;
    var g' := Block(g, t, call);
    InsertedKeepsDistinct(g.waiting, |g.waiting|, t);
    assert Inserted(g.waiting, |g.waiting|, t) == g.waiting + [t];
    forall u | u in g'.calls ensures TaskOk(g', u) {
      if u != t { assert TaskOk(g, u); }
    }
  }

  lemma WaitBitsKeepsInv(g: Group, t: Task, call: Call, mayBlock: bool)
    requires Inv(g) && t !in g.calls && call.Valid()
    ensures Inv(WaitBits(g, t, call, mayBlock).0)
  {
    hide Met, Encoded, IsEvents, Inv, Call.Valid;
    if Met(g.bits, call) {
      InvWithBits(g, call.wants);
    } else {
      InvBlock(g, t, call);
    }
  }

  lemma SyncKeepsInv(g: Group, t: Task, bits: Bits, wants: Bits, mayBlock: bool)
    requires Inv(g) && t !in g.calls && IsEvents(bits) && Call(wants, true, true).Valid()
    ensures forall u :: u in g.waiting ==> u in g.value
    ensures Inv(Sync(g, t, bits, wants, mayBlock).0)
  {
    hide Encoded, IsEvents, Inv, Covers, Without, With, Call.Valid, ToClear, Remaining, HandedOut;
    SetBitsKeepsInv(g, bits);
    var set' := SetBits(g, bits);
    var now := With(g.bits, bits);
    if Covers(now, wants) {
      InvWithBits(set', wants);
    } else if mayBlock {
      ClearingIsSafe(now, ToClear(g.waiting, g.value, now), Call(wants, true, true));
      InvBlock(set', t, Call(wants, true, true));
    }
  }

  /** A sync sets its bits as xEventGroupSetBits would.  Then it returns at once,
      with all the bits, just when they are all there, and leaves none of them
      set but all others as they are; otherwise it blocks for all of them, to
      be cleared, or returns the bits that its own setting left. */
  lemma SyncMeets(g: Group, t: Task, bits: Bits, wants: Bits, mayBlock: bool)
    requires Inv(g)
    ensures forall u :: u in g.waiting ==> u in g.value
    ensures var (g', outcome) := Sync(g, t, bits, wants, mayBlock);
      var now, s := With(g.bits, bits), SetBits(g, bits);
      if Covers(now, wants) then
        outcome == Returns(now) && !Shares(g'.bits, wants) && g' == s.(bits := Without(s.bits, wants))
      else if mayBlock then
        && outcome == Blocks && g'.bits == s.bits && g'.waiting == s.waiting + [t]
        && g'.calls == s.calls[t := Call(wants, true, true)]
      else outcome == Returns(g'.bits) && g' == s
  {
    hide Covers, With, Without, Shares, Encoded, SetBits, Inv;
    Known(g);
    WithoutShares(SetBits(g, bits).bits, wants, 0);
  }

  lemma ExpireKeepsInv(g: Group, t: Task)
    requires Inv(g) && t in g.waiting
    ensures Inv(Expire(g, t)) && Expire(g, t) == g.(waiting := Expire(g, t).waiting)
    ensures forall u :: u in Expire(g, t).waiting <==> u in g.waiting && u != t
  {
    hide Met, Encoded, IsEvents, Call.Valid;
    var k := Index(g.waiting, t);
    RemovedKeepsDistinct(g.waiting, k);
    var g' := Expire(g, t);
    forall u | u in g'.calls ensures TaskOk(g', u) {
      assert TaskOk(g, u);
    }
  }

  lemma ResumeKeepsInv(g: Group, t: Task, normalValue: Bits)
    requires Inv(g) && t in g.calls && t in g.value && t !in g.waiting
    ensures Inv(Resume(g, t, normalValue).0)
  {
    hide Met, Encoded, IsEvents, Without, Shares, EventsOf, Call.Valid;
    var back := g.(value := g.value[t := normalValue], calls := g.calls - {t});
    forall u | u in back.calls ensures TaskOk(back, u) {
      assert TaskOk(g, u);
    }
    InvWithBits(back, g.calls[t].wants);
  }

  /** What a call that blocked returns: bits that meet it if it was woken, and
      otherwise the current bits. */
  lemma ResumeSees(g: Group, t: Task, normalValue: Bits)
    requires Inv(g) && t in g.calls && t !in g.waiting
    ensures t in g.value
    ensures var (g', result) := Resume(g, t, normalValue);
      && g'.waiting == g.waiting && g'.calls == g.calls - {t} && g'.value == g.value[t := normalValue]
      && if Shares(g.value[t], UNBLOCKED) then Met(result, g.calls[t]) && g'.bits == g.bits
      else
        && result == g.bits
        && g'.bits == if Met(g.bits, g.calls[t]) && g.calls[t].clear then Without(g.bits, g.calls[t].wants) else g.bits
  {
    hide Met, Encoded, Without, IsEvents, EventsOf, Shares, Call.Valid;
    assert TaskOk(g, t);
    EventsStay(g.bits, 0);
    EncodedReadsBack(g.calls[t]);
  }
}
