/** What a blocked call waits for, in terms of the arguments it was made with. */
module EventGroupCalls {
  import opened EventBits
  import opened ListSpec
  import opened EventGroupSpec
  import opened EventGroupRuns

  /** The condition that the caller of xEventGroupWaitBits asks for. */
  predicate Satisfied(bits: Bits, wants: Bits, all: bool) {
    if all then bits & wants == wants else bits & wants != 0
  }

  /** It holds when more bits are set. */
  predicate SatisfiedWith(bits: Bits, more: Bits, wants: Bits, all: bool) {
    Satisfied(bits | more, wants, all)
  }

  lemma MetIsSatisfied(a: Bits, b: Bits, call: Call)
    ensures Met(With(a, b), call) == SatisfiedWith(a, b, call.wants, call.all)
    ensures Met(a, call) == Satisfied(a, call.wants, call.all)
  {
  }

  lemma AllIsCovers(bits: Bits, wants: Bits)
    ensures Met(bits, Call(wants, true, true)) == Covers(bits, wants)
  {
  }

  lemma CallStaysOneStep(g: Group, s: Step, t: Task)
    requires Inv(g) && Enabled(g, s) && t in g.calls && !(s.ResumeStep? && s.task == t)
    ensures t in Apply(g, s).calls && Apply(g, s).calls[t] == g.calls[t]
  {
    hide Inv, IsEvents, Call.Valid, Met, Encoded, Without, With, Covers, Shares, EventsOf, SetBits;
    Known(g);
    KnownCalls(g);
    match s {
      case SetStep(bits) => SetBitsWakesExactly(g, bits);
      case SyncStep(u, bits, wants, mayBlock) => SetBitsWakesExactly(g, bits);
      case _ =>
    }
  }

  /** Whatever others do, a blocked task waits for what it asked. */
  lemma {:induction false} CallStays(g: Group, steps: seq<Step>, t: Task)
    requires Inv(g) && Legal(g, steps) && t in g.calls
    requires forall s :: s in steps ==> !(s.ResumeStep? && s.task == t)
    ensures t in Run(g, steps).calls && Run(g, steps).calls[t] == g.calls[t]
    decreases |steps|
  {
    hide Inv, Enabled, Apply;
    if steps != [] {
      assert steps[0] in steps;
      ApplyKeepsInv(g, steps[0]);
      CallStaysOneStep(g, steps[0], t);
      CallStays(Apply(g, steps[0]), steps[1..], t);
    }
  }

  lemma SetWakesWaiter(z: Group, t: Task, bits: Bits, call: Call)
    requires Inv(z) && IsEvents(bits) && t in z.waiting && t in z.calls && z.calls[t] == call
    ensures forall u :: u in z.waiting ==> u in z.value
    ensures t !in SetBits(z, bits).waiting <==> SatisfiedWith(z.bits, bits, call.wants, call.all)
  {
    hide Inv, IsEvents, Met, With, Handed, SatisfiedWith, Satisfied, SetBits;
    SetBitsWakesExactly(z, bits);
    MetIsSatisfied(z.bits, bits, call);
  }

  /** A task that asks to wait, and is not satisfied at once, is woken, however
      long after, by just those settings of bits that satisfy what it asked. */
  lemma BlockedWaitWakes(g: Group, t: Task, wants: Bits, clear: bool, all: bool, steps: seq<Step>, bits: Bits)
    requires Inv(g) && Enabled(g, WaitStep(t, Call(wants, clear, all), true)) && IsEvents(bits)
    requires !Satisfied(g.bits, wants, all)
    requires var g' := Apply(g, WaitStep(t, Call(wants, clear, all), true));
      && Inv(g') && Legal(g', steps) && (forall s :: s in steps ==> !(s.ResumeStep? && s.task == t))
      && t in Run(g', steps).waiting
    ensures WaitBits(g, t, Call(wants, clear, all), true).1 == Blocks
    ensures var z := Run(Apply(g, WaitStep(t, Call(wants, clear, all), true)), steps);
      && Enabled(z, SetStep(bits))
      && (t !in Apply(z, SetStep(bits)).waiting <==> SatisfiedWith(z.bits, bits, wants, all))
  {
    hide Inv, Legal, Run, IsEvents, Met, Call.Valid, Satisfied, SatisfiedWith, SetBits, WaitBits, With, Shares;
    var call := Call(wants, clear, all);
    MetIsSatisfied(g.bits, 0, call);
    WaitBitsTakes(g, t, call, true, 0);
    CallStays(Apply(g, WaitStep(t, call, true)), steps, t);
    SetWakesWaiter(Run(Apply(g, WaitStep(t, call, true)), steps), t, bits, call);
  }

  /** And one that syncs with too few bits, by just those settings with which all
      the bits that it waits for are there. */
  lemma BlockedSyncWakes(g: Group, t: Task, own: Bits, wants: Bits, steps: seq<Step>, bits: Bits)
    requires Inv(g) && Enabled(g, SyncStep(t, own, wants, true)) && IsEvents(bits)
    requires !SatisfiedWith(g.bits, own, wants, true)
    requires var g' := Apply(g, SyncStep(t, own, wants, true));
      && Inv(g') && Legal(g', steps) && (forall s :: s in steps ==> !(s.ResumeStep? && s.task == t))
      && t in Run(g', steps).waiting
    ensures var z := Run(Apply(g, SyncStep(t, own, wants, true)), steps);
      && Enabled(z, SetStep(bits))
      && (t !in Apply(z, SetStep(bits)).waiting <==> SatisfiedWith(z.bits, bits, wants, true))
  {
    hide Inv, Legal, Run, IsEvents, Met, Call.Valid, SatisfiedWith, SetBits, Sync, With, Covers, Shares, Without;
    var call := Call(wants, true, true);
    MetIsSatisfied(g.bits, own, call);
    AllIsCovers(With(g.bits, own), wants);
    SyncMeets(g, t, own, wants, true);
    CallStays(Apply(g, SyncStep(t, own, wants, true)), steps, t);
    SetWakesWaiter(Run(Apply(g, SyncStep(t, own, wants, true)), steps), t, bits, call);
  }
}
