/** One step of the processor of cpu.hpp. */
module Processors {
  import opened Wrappers
  import opened StackFrame
  import opened ContextSpec
  import opened Nesting
  import V = ExceptionVectors

  /** What an instruction leaves: the processor, the enabled interrupts, and
      whether it wrote the program counter. */
  datatype Outcome = Outcome(cpu: Cpu, enabled: set<nat>, branched: bool)

  /** What the instruction at hand does. */
  type Effect = (Cpu, set<nat>) -> Outcome

  predicate ThumbSet(c: Cpu) {
    c.xpsr & THUMB != 0
  }

  /** Without the Thumb bit every instruction faults. */
  function Fetched(c: Cpu): Cpu {
    if ThumbSet(c) then c else c.(pending := c.pending + {V.HARDFAULT})
  }

  ghost predicate Takes(c: Cpu, enabled: set<nat>, priority: seq<int>, next: Option<nat>)
    requires PrioritiesOk(priority)
  {
    match next
    case Some(n) => exists current :: ToTake(c, enabled, priority, n, current)
    case None => forall n, current :: !ToTake(c, enabled, priority, n, current)
  }

  /** Pending and not disabled: Reset, NMI, HardFault, SVCall, PendSV and SysTick
      always, an external interrupt if it is enabled. */
  predicate Asks(c: Cpu, enabled: set<nat>, n: nat) {
    n in c.pending && (n == 1 || n == 2 || n == 3 || n == 11 || n == 14 || n == 15 || (16 <= n < 32 && n in enabled))
  }

  /** n is more urgent than all else that asks, the lower number first among equals,
      and than what runs: priority 4 in thread mode, that of each active
      exception from HardFault on, or 0 under PRIMASK. */
  ghost predicate IsNext(c: Cpu, enabled: set<nat>, priority: seq<int>, n: nat)
    requires |priority| == 32
  {
    && Asks(c, enabled, n)
    && (forall m: nat :: Asks(c, enabled, m) && m != n ==>
          priority[n] < priority[m] || (priority[n] == priority[m] && n < m))
    && if c.primask then priority[n] < 0
       else priority[n] < 4 && forall k :: 3 <= k < 32 && k in c.active ==> priority[n] < priority[k]
  }

  lemma AsksIsCandidate(c: Cpu, enabled: set<nat>, priority: seq<int>, n: nat)
    requires PrioritiesOk(priority)
    ensures Asks(c, enabled, n) <==>
      n < V.SLOTS && V.Implemented(n) && Slots(c, enabled, priority)[n].Candidate()
    ensures n < V.SLOTS ==> Slots(c, enabled, priority)[n].priority == priority[n]
    ensures n < V.SLOTS ==> (Slots(c, enabled, priority)[n].active <==> n in c.active)
  {
  }

  lemma TopIs(c: Cpu, enabled: set<nat>, priority: seq<int>, n: nat)
    requires PrioritiesOk(priority)
    ensures n < V.SLOTS && V.IsTop(Slots(c, enabled, priority), V.SLOTS, Some(n)) <==>
      && Asks(c, enabled, n)
      && (forall m: nat :: Asks(c, enabled, m) && m != n ==>
            priority[n] < priority[m] || (priority[n] == priority[m] && n < m))
  {
    hide Slots, Asks, V.Implemented;
    forall m: nat
      ensures Asks(c, enabled, m) <==> m < V.SLOTS && V.Implemented(m) && Slots(c, enabled, priority)[m].Candidate()
      ensures m < V.SLOTS ==> Slots(c, enabled, priority)[m].priority == priority[m]
    {
      AsksIsCandidate(c, enabled, priority, m);
    }
  }

  lemma ToTakeIsNext(c: Cpu, enabled: set<nat>, priority: seq<int>, n: nat, current: int)
    requires PrioritiesOk(priority)
    requires V.IsCurrentPriority(Slots(c, enabled, priority), V.HARDFAULT, c.primask, current)
    ensures ToTake(c, enabled, priority, n, current) <==> IsNext(c, enabled, priority, n)
  {
    hide Slots, Asks, V.IsTop;
    TopIs(c, enabled, priority, n);
    forall k: nat ensures k < V.SLOTS ==> Slots(c, enabled, priority)[k].priority == priority[k]
      ensures k < V.SLOTS ==> (Slots(c, enabled, priority)[k].active <==> k in c.active)
    {
      AsksIsCandidate(c, enabled, priority, k);
    }
    if Asks(c, enabled, n) { AsksIsCandidate(c, enabled, priority, n); }
  }

  /** What is taken, if anything, in terms of the processor itself. */
  lemma TakesIsNext(c: Cpu, enabled: set<nat>, priority: seq<int>, next: Option<nat>)
    requires PrioritiesOk(priority)
    ensures Takes(c, enabled, priority, next) <==>
      match next
      case Some(n) => IsNext(c, enabled, priority, n)
      case None => forall n: nat :: !IsNext(c, enabled, priority, n)
  {
    hide IsNext, V.IsExecutionPriority, V.IsTop;
    var slots := Slots(c, enabled, priority);
    var least := V.LeastExists(slots, V.HARDFAULT, V.SLOTS);
    var current := if c.primask then 0 else least;
    forall n: nat, other: int
      ensures ToTake(c, enabled, priority, n, other) ==> IsNext(c, enabled, priority, n)
    {
      if ToTake(c, enabled, priority, n, other) { ToTakeIsNext(c, enabled, priority, n, other); }
    }
    forall n: nat ensures ToTake(c, enabled, priority, n, current) <==> IsNext(c, enabled, priority, n) {
      ToTakeIsNext(c, enabled, priority, n, current);
    }
  }

  lemma NextIs(c: Cpu, enabled: set<nat>, priority: seq<int>, next: Option<nat>)
    requires PrioritiesOk(priority)
    ensures Takes(c, enabled, priority, next) ==>
      forall n: nat :: next == Some(n) <==> IsNext(c, enabled, priority, n)
  {
    hide Takes, Asks;
    TakesIsNext(c, enabled, priority, next);
  }

  class Processor {
    var cpu: Cpu
    var enabled: set<nat>
    const priority: seq<int>
    var dirty: bool            // the program counter has been written

    /** Between steps the program counter is always marked as written. */
    ghost predicate Valid()
      reads this
    {
      PrioritiesOk(priority) && cpu.Ok() && dirty
    }

    /** next_exception_to_take. */
    method NextExceptionToTake() returns (next: Option<nat>)
      requires PrioritiesOk(priority)
      ensures Takes(cpu, enabled, priority, next)
      ensures forall n: nat :: next == Some(n) <==> IsNext(cpu, enabled, priority, n)
    {
      hide V.IsTop, V.IsCurrentPriority, IsNext;
      var slots := Slots(cpu, enabled, priority);
      var vector := new V.ExceptionVector(slots);
      var top := vector.TopPending();
      if top.None? {
        NothingToTake(slots, cpu, enabled, priority);
        NextIs(cpu, enabled, priority, None);
        return None;
      }
      var current := vector.CurrentExecutionPriority(cpu.primask);
      if priority[top.value] < current {
        assert ToTake(cpu, enabled, priority, top.value, current);
        NextIs(cpu, enabled, priority, Some(top.value));
        return Some(top.value);
      }
      NotUrgent(slots, cpu, enabled, priority, top.value, current);
      NextIs(cpu, enabled, priority, None);
      return None;
    }

    method GetNextInstructionAddress(address: Word, size: Word) returns (next: Word)
      ensures next == NextAddress(cpu, dirty, address, size)
    {
      if !dirty {
        next := address + size;
      } else {
        next := cpu.Pc();
      }
    }

    method Execute(effect: Effect)
      modifies `cpu, `enabled, `dirty
      ensures Outcome(cpu, enabled, dirty) == effect(Prefetched(old(cpu)), old(enabled))
    {
      cpu := Prefetched(cpu);
      dirty := false;
      var o := effect(cpu, enabled);
      cpu, enabled, dirty := o.cpu, o.enabled, o.branched;
    }

    /** The end of a step: the exception is entered, or the program goes on. */
    method Finish(ex: Option<nat>, address: Word, size: Word)
      requires cpu.Ok() && (ex.Some? ==> ex.value < 32)
      modifies `cpu, `dirty
      ensures cpu == Finished(old(cpu), ex, address, NextAddress(old(cpu), old(dirty), address, size)) && dirty
    {
      hide ExceptionEntry, WithoutBit0, NextAddress;
      var next := GetNextInstructionAddress(address, size);
      if ex.Some? {
        cpu := cpu.(pc := address);
        cpu := ExceptionEntry(cpu, ex.value, address, next);
      } else {
        cpu := cpu.(pc := next);
      }
      dirty := true;
    }

    /** step, for an instruction of `size` bytes with the given effect. */
    method Step(effect: Effect, size: Word) returns (ghost before: Option<nat>, ghost after: Option<nat>)
      requires Valid()
      requires forall c: Cpu, e :: c.Ok() ==> effect(c, e).cpu.Ok()
      modifies `cpu, `enabled, `dirty
      ensures IsStep(old(cpu), old(enabled), priority, effect, size, before, after, cpu, enabled)
      ensures PrioritiesOk(priority) && dirty
    {
      hide Takes, Finished, WithoutBit0, ThumbSet, Prefetched, NextAddress;
      var address := cpu.Pc();
      if !ThumbSet(cpu) {
        cpu := cpu.(pending := cpu.pending + {V.HARDFAULT});
      }
      assert cpu == Fetched(old(cpu));
      PcOfFetched(old(cpu));
      var ex := NextExceptionToTake();
      before, after := ex, None;
      if ex.None? {
        PrefetchedOk(cpu);
        Execute(effect);
        ex := NextExceptionToTake();
        after := ex;
      }
      if ex.Some? {
        TakenNumber(cpu, enabled, priority, ex.value);
      }
      Finish(ex, address, size);
    }
  }

  /** The instruction sees the program counter two instructions ahead. */
  function Prefetched(c: Cpu): Cpu {
    c.(pc := c.Pc() + 4)
  }

  function NextAddress(c: Cpu, branched: bool, address: Word, size: Word): Word {
    if branched then c.Pc() else address + size
  }

  function Finished(c: Cpu, ex: Option<nat>, address: Word, next: Word): Cpu
    requires c.Ok() && (ex.Some? ==> ex.value < 32)
  {
    if ex.Some? then ExceptionEntry(c.(pc := address), ex.value, address, next) else c.(pc := next)
  }

  /** What the instruction leaves of a step that starts in state c. */
  function Executed(c: Cpu, enabled: set<nat>, effect: Effect): Outcome {
    effect(Prefetched(Fetched(c)), enabled)
  }

  /** A step takes an exception before the instruction, or runs the instruction
      and may then take one. */
  ghost predicate IsStep(c: Cpu, enabled: set<nat>, priority: seq<int>, effect: Effect, size: Word,
                         before: Option<nat>, after: Option<nat>, c': Cpu, enabled': set<nat>) {
    && PrioritiesOk(priority) && c.Ok()
    && Takes(Fetched(c), enabled, priority, before)
    && (if before.Some? then
          && before.value < 32 && enabled' == enabled
          && c' == Finished(Fetched(c), before, c.Pc(), NextAddress(Fetched(c), true, c.Pc(), size))
        else
          var o := Executed(c, enabled, effect);
          && Takes(o.cpu, o.enabled, priority, after) && enabled' == o.enabled
          && o.cpu.Ok() && (after.Some? ==> after.value < 32)
          && c' == Finished(o.cpu, after, c.Pc(), NextAddress(o.cpu, o.branched, c.Pc(), size)))
  }

  /** No instruction is lost: an exception taken before the instruction stacks
      the address of that instruction, whatever exception it is. */
  lemma EarlyExceptionReturnsHere(c: Cpu, enabled: set<nat>, priority: seq<int>, effect: Effect, size: Word,
                                  before: Option<nat>, after: Option<nat>, c': Cpu, enabled': set<nat>)
    requires IsStep(c, enabled, priority, effect, size, before, after, c', enabled') && before.Some?
    ensures c.Ok() && before.value < 32
    ensures c' == ExceptionEntry(Fetched(c).(pc := c.Pc()), before.value, c.Pc(), c.Pc())
    ensures Holds(c'.mem, FrameFor(c.Sp()), FrameWords(Fetched(c), c.Pc()))
  {
    hide Takes, ExceptionEntry, Holds, FrameFor, NumberOf, ExcReturnFor, FrameWords, Prefetched, Written, Fetched,
         Cpu.Sp, Cpu.Pc;
    FetchedOk(c);
    FetchedSame(c);
    SameFrame(Fetched(c), c.Pc(), c.Pc());
    EntryIs(Fetched(c).(pc := c.Pc()), before.value, c.Pc(), c.Pc());
  }

  lemma FetchedSame(c: Cpu)
    ensures Fetched(c).Pc() == c.Pc() && Fetched(c).Sp() == c.Sp()
  {
    hide Aligned4, WithoutBit0, ThumbSet;
  }

  /** The program counter is not part of what a frame is made from. */
  lemma SameFrame(c: Cpu, pc: Word, returnAddress: Word)
    requires c.Ok()
    ensures var d := c.(pc := pc); d.Sp() == c.Sp() && FrameWords(d, returnAddress) == FrameWords(c, returnAddress)
  {
    hide Aligned4, WithAlign, AlignBit;
  }

  /** An exception taken after the instruction stacks the address at which the
      program would have gone on; HardFault that of the instruction itself. */
  lemma LateExceptionReturnsNext(c: Cpu, enabled: set<nat>, priority: seq<int>, effect: Effect, size: Word,
                                 after: Option<nat>, c': Cpu, enabled': set<nat>)
    requires IsStep(c, enabled, priority, effect, size, None, after, c', enabled') && after.Some?
    ensures var o := Executed(c, enabled, effect);
      var d, goesOn := o.cpu, if o.branched then o.cpu.Pc() else c.Pc() + size;
      && d.Ok() && Finished(d, None, c.Pc(), goesOn).pc == goesOn
      && Holds(c'.mem, FrameFor(d.Sp()),
               FrameWords(d, if after.value == V.HARDFAULT then c.Pc() else goesOn))
  {
    hide Takes, ExceptionEntry, Holds, FrameFor, NumberOf, ExcReturnFor, ThumbSet, Aligned4, WithAlign, AlignBit,
         Prefetched, WithoutBit0, Cpu.Pc, Executed;
    var o := Executed(c, enabled, effect);
    EntryIs(o.cpu.(pc := c.Pc()), after.value, c.Pc(), NextAddress(o.cpu, o.branched, c.Pc(), size));
  }

  /** What the instruction gets to see. */
  function Seen(c: Cpu): Cpu {
    c.(pc := c.Pc() + 4, pending := if c.xpsr & 0x0100_0000 != 0 then c.pending else c.pending + {3})
  }

  /** Without exceptions a step runs its instruction, which sees the program counter
      four bytes on, and goes on behind it unless it branched.  Without the Thumb
      bit HardFault is pending from then on. */
  lemma PlainStep(c: Cpu, enabled: set<nat>, priority: seq<int>, effect: Effect, size: Word, c': Cpu,
                  enabled': set<nat>)
    requires IsStep(c, enabled, priority, effect, size, None, None, c', enabled')
    ensures var o := effect(Seen(c), enabled);
      enabled' == o.enabled && c' == o.cpu.(pc := if o.branched then o.cpu.Pc() else c.Pc() + size)
  {
    hide Takes, Cpu.Pc, Seen, Prefetched, Fetched;
    SeenIs(c);
  }

  lemma SeenIs(c: Cpu)
    ensures Seen(c) == Prefetched(Fetched(c))
  {
    hide WithoutBit0;
  }

  lemma FetchedOk(c: Cpu)
    requires c.Ok()
    ensures Fetched(c).Ok()
  {
  }

  lemma PrefetchedOk(c: Cpu)
    requires c.Ok()
    ensures Prefetched(c).Ok()
  {
  }

  lemma PcOfFetched(c: Cpu)
    ensures Fetched(c).Pc() == c.Pc()
  {
  }

  lemma NothingToTake(slots: seq<V.Slot>, c: Cpu, enabled: set<nat>, priority: seq<int>)
    requires PrioritiesOk(priority) && slots == Slots(c, enabled, priority)
    requires V.IsTop(slots, V.SLOTS, None)
    ensures Takes(c, enabled, priority, None)
  {
    hide V.IsCurrentPriority;
  }

  lemma NotUrgent(slots: seq<V.Slot>, c: Cpu, enabled: set<nat>, priority: seq<int>, n: V.Number, current: int)
    requires PrioritiesOk(priority) && slots == Slots(c, enabled, priority)
    requires V.IsTop(slots, V.SLOTS, Some(n)) && V.IsCurrentPriority(slots, V.HARDFAULT, c.primask, current)
    requires priority[n] >= current
    ensures Takes(c, enabled, priority, None)
  {
    forall m, other | ToTake(c, enabled, priority, m, other) ensures false {
      V.TopIsUnique(slots, Some(n), Some(m));
      PriorityIsUnique(slots, c.primask, current, other);
    }
  }

  lemma PriorityIsUnique(slots: seq<V.Slot>, primask: bool, a: int, b: int)
    requires |slots| == V.SLOTS
    requires V.IsCurrentPriority(slots, V.HARDFAULT, primask, a) && V.IsCurrentPriority(slots, V.HARDFAULT, primask, b)
    ensures a == b
  {
  }

  lemma TakenNumber(c: Cpu, enabled: set<nat>, priority: seq<int>, n: nat)
    requires PrioritiesOk(priority) && Takes(c, enabled, priority, Some(n))
    ensures n < 32
  {
  }

  // ------------------------------------------------------- steps keep nesting

  /** The machine of Nesting when the instruction begins. */
  function Begun(m: Machine): Machine {
    m.(cpu := Prefetched(Fetched(m.cpu)))
  }

  lemma BegunKeepsInv(m: Machine, priority: seq<int>)
    requires Nesting.Inv(m, priority)
    ensures Nesting.Inv(Begun(m), priority)
  {
    FetchedKeepsInv(m, priority);
    PcKeepsInv(m.(cpu := Fetched(m.cpu)), priority, Fetched(m.cpu).Pc() + 4);
  }

  lemma FetchedKeepsInv(m: Machine, priority: seq<int>)
    requires Nesting.Inv(m, priority)
    ensures Nesting.Inv(m.(cpu := Fetched(m.cpu)), priority)
  {
    hide ThumbSet, Nesting.Inv;
    if !ThumbSet(m.cpu) {
      ApplyKeepsInv(m, priority, Raise(V.HARDFAULT));
    }
  }

  /** The invariant does not depend on the program counter. */
  lemma PcKeepsInv(m: Machine, priority: seq<int>, pc: Word)
    requires Nesting.Inv(m, priority)
    ensures Nesting.Inv(m.(cpu := m.cpu.(pc := pc)), priority)
  {
    hide NumberOf, FrameHolds, PrioritiesOk;
    ApplyKeepsInv(m, priority, Nesting.Execute(m.cpu.(pc := pc)));
  }

  /** The contexts when an exception is entered from state d. */
  function EnteredContexts(contexts: seq<Nesting.Context>, d: Cpu, ex: Option<nat>, address: Word, next: Word)
    : seq<Nesting.Context>
  {
    if ex.Some? then contexts + [Nesting.Context(d.(pc := address), ex.value, address, next)] else contexts
  }

  lemma FinishKeepsInv(m: Machine, priority: seq<int>, ex: Option<nat>, address: Word, next: Word)
    requires PrioritiesOk(priority) && Nesting.Inv(m, priority) && Takes(m.cpu, m.enabled, priority, ex)
    requires m.cpu.Ok() && (ex.Some? ==> ex.value < 32 && !Refaults(m.cpu))
    requires FramesHold(Finished(m.cpu, ex, address, next).mem, m.contexts)
    ensures Nesting.Inv(Machine(Finished(m.cpu, ex, address, next), m.enabled,
                                EnteredContexts(m.contexts, m.cpu, ex, address, next)), priority)
  {
    hide Nesting.Inv, FramesHold, ExceptionEntry, ToTake;
    if ex.Some? {
      var current :| ToTake(m.cpu, m.enabled, priority, ex.value, current);
      PcKeepsInv(m, priority, address);
      var m' := m.(cpu := m.cpu.(pc := address));
      SameToTake(m.cpu, address, m.enabled, priority, ex.value, current);
      ApplyKeepsInv(m', priority, Nesting.Take(ex.value, current, address, next));
    } else {
      PcKeepsInv(m, priority, next);
    }
  }

  lemma SameToTake(c: Cpu, pc: Word, enabled: set<nat>, priority: seq<int>, n: nat, current: int)
    requires PrioritiesOk(priority) && ToTake(c, enabled, priority, n, current)
    ensures ToTake(c.(pc := pc), enabled, priority, n, current)
  {
    hide V.IsTop, V.IsCurrentPriority;
    assert Slots(c.(pc := pc), enabled, priority) == Slots(c, enabled, priority);
  }

  /** A turn of the processor: its instruction, the exceptions taken before and
      after it, what the instruction is as a run of Nesting, and where it ends. */
  datatype Turn = Turn(effect: Effect, size: Word, before: Option<nat>, after: Option<nat>,
                       body: seq<Nesting.Step>, end: Cpu, enabled: set<nat>) {
    function Taken(): Option<nat> {
      if before.Some? then before else after
    }
  }

  /** The machine when the instruction is over, or was passed over. */
  ghost function Middle(m: Machine, priority: seq<int>, t: Turn): Machine
    requires Nesting.Inv(m, priority)
    requires t.before.None? ==> (BegunKeepsInv(m, priority); Legal(Begun(m), priority, t.body))
  {
    if t.before.Some? then m.(cpu := Fetched(m.cpu))
    else BegunKeepsInv(m, priority); Run(Begun(m), priority, t.body)
  }

  /** A step of the processor whose instruction does what Nesting allows and
      leaves the frames whole, with no second HardFault under PRIMASK. */
  ghost predicate TurnOk(m: Machine, priority: seq<int>, t: Turn)
    requires Nesting.Inv(m, priority)
  {
    && IsStep(m.cpu, m.enabled, priority, t.effect, t.size, t.before, t.after, t.end, t.enabled)
    && (t.before.None? ==>
          && (BegunKeepsInv(m, priority); Legal(Begun(m), priority, t.body))
          && var o := Executed(m.cpu, m.enabled, t.effect);
          Middle(m, priority, t).cpu == o.cpu && Middle(m, priority, t).enabled == o.enabled)
    && (t.Taken().Some? ==> !Refaults(Middle(m, priority, t).cpu))
    && FramesHold(t.end.mem, Middle(m, priority, t).contexts)
  }

  ghost function AfterTurn(m: Machine, priority: seq<int>, t: Turn): Machine
    requires Nesting.Inv(m, priority) && TurnOk(m, priority, t)
  {
    var middle := Middle(m, priority, t);
    var branched := t.before.Some? || Executed(m.cpu, m.enabled, t.effect).branched;
    Machine(t.end, t.enabled,
            EnteredContexts(middle.contexts, middle.cpu, t.Taken(), m.cpu.Pc(),
                            NextAddress(middle.cpu, branched, m.cpu.Pc(), t.size)))
  }

  /** Such a step keeps the nesting of exceptions. */
  lemma StepKeepsNesting(m: Machine, priority: seq<int>, t: Turn)
    requires Nesting.Inv(m, priority) && TurnOk(m, priority, t)
    ensures Nesting.Inv(AfterTurn(m, priority, t), priority)
  {
    hide Nesting.Inv, FramesHold, Takes, Finished, Fetched, Prefetched, NextAddress, WithoutBit0, Legal, Run, Refaults;
    var middle := Middle(m, priority, t);
    if t.before.Some? {
      FetchedKeepsInv(m, priority);
      FetchedOk(m.cpu);
      FinishKeepsInv(middle, priority, t.before, m.cpu.Pc(), NextAddress(middle.cpu, true, m.cpu.Pc(), t.size));
    } else {
      var branched := Executed(m.cpu, m.enabled, t.effect).branched;
      FinishKeepsInv(middle, priority, t.after, m.cpu.Pc(), NextAddress(middle.cpu, branched, m.cpu.Pc(), t.size));
    }
  }

  ghost predicate TurnsOk(m: Machine, priority: seq<int>, turns: seq<Turn>)
    requires Nesting.Inv(m, priority)
    decreases |turns|
  {
    turns == [] ||
    (&& TurnOk(m, priority, turns[0])
     && (StepKeepsNesting(m, priority, turns[0]); TurnsOk(AfterTurn(m, priority, turns[0]), priority, turns[1..])))
  }

  ghost function AfterTurns(m: Machine, priority: seq<int>, turns: seq<Turn>): (m': Machine)
    requires Nesting.Inv(m, priority) && TurnsOk(m, priority, turns)
    ensures Nesting.Inv(m', priority)
    decreases |turns|
  {
    if turns == [] then m
    else
      StepKeepsNesting(m, priority, turns[0]);
      AfterTurns(AfterTurn(m, priority, turns[0]), priority, turns[1..])
  }

  /** After any number of steps of the processor, from a quiet one
      (Nesting.StartsQuiet) or any that a run reaches: handler mode holds exactly
      while something is active, what is active are the exceptions whose frames
      are stacked, each strictly more urgent than those below it, and there are
      at most five. */
  lemma ProgramsNest(m: Machine, priority: seq<int>, turns: seq<Turn>)
    requires Nesting.Inv(m, priority) && TurnsOk(m, priority, turns)
    ensures var m' := AfterTurns(m, priority, turns);
      && (m'.cpu.handler <==> m'.cpu.active != {})
      && m'.cpu.active == Numbers(m'.contexts)
      && |m'.contexts| <= 5
      && forall i, j :: 0 <= i < j < |m'.contexts| ==> Interrupts(m'.contexts[j], m'.contexts[i], priority)
  {
    hide Nesting.Inv, AfterTurns, TurnsOk, Interrupts;
    var m' := AfterTurns(m, priority, turns);
    DepthIsBounded(m', priority);
    AllStrictlyNested(m', priority);
  }
}
