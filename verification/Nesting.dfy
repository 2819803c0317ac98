/** Runs of the processor of cpu.hpp in which exceptions nest: those that may be
    raised are HardFault, SVCall, PendSV, SysTick and the external interrupts, and
    priorities are fixed. */
module Nesting {
  import opened Wrappers
  import opened StackFrame
  import opened ContextSpec
  import V = ExceptionVectors

  /** An exception that was taken: the state it interrupted, its number, and the
      addresses of the interrupted instruction and of the one after it. */
  datatype Context = Context(before: Cpu, number: nat, instruction: Word, next: Word) {
    function Return(): Word {
      ReturnAddress(number, instruction, next)
    }
  }

  /** The contexts are what the stacks hold, the innermost last. */
  datatype Machine = Machine(cpu: Cpu, enabled: set<nat>, contexts: seq<Context>)

  predicate Raisable(n: nat) {
    V.HARDFAULT <= n < V.SLOTS && V.Implemented(n)
  }

  ghost predicate PrioritiesOk(priority: seq<int>) {
    |priority| == V.SLOTS && forall n :: 0 <= n < V.SLOTS ==> V.PriorityOk(n, priority[n])
  }

  /** The exception vector as the processor sees it. */
  function Slots(c: Cpu, enabled: set<nat>, priority: seq<int>): (slots: seq<V.Slot>)
    requires |priority| == V.SLOTS
    ensures |slots| == V.SLOTS
  {
    seq(V.SLOTS, n requires 0 <= n < V.SLOTS =>
      V.Slot(if V.Implemented(n) then n else 0, priority[n], n in c.pending, n < V.EXTI_00 || n in enabled,
             n in c.active))
  }

  /** next_exception_to_take: the top pending exception, if its priority is below
      that of the current execution. */
  ghost predicate ToTake(c: Cpu, enabled: set<nat>, priority: seq<int>, n: nat, current: int)
    requires PrioritiesOk(priority)
  {
    && n < V.SLOTS
    && V.IsTop(Slots(c, enabled, priority), V.SLOTS, Some(n))
    && V.IsCurrentPriority(Slots(c, enabled, priority), V.HARDFAULT, c.primask, current)
    && priority[n] < current
  }

  /** PRIMASK pretends priority 0 even inside the HardFault handler, which runs
      at -1: another HardFault is then taken on top of it. */
  predicate Refaults(c: Cpu) {
    c.primask && V.HARDFAULT in c.active
  }

  // ---------------------------------------------------------------- invariant

  ghost function Numbers(contexts: seq<Context>): set<nat> {
    set x | x in contexts :: x.number
  }

  /** Each context was interrupted by something strictly more urgent than all
      that was active in it. */
  ghost predicate ChainOk(contexts: seq<Context>, priority: seq<int>)
    requires PrioritiesOk(priority)
  {
    contexts == [] ||
    (var front, last := contexts[..|contexts| - 1], contexts[|contexts| - 1];
     && ChainOk(front, priority)
     && Raisable(last.number)
     && CpuOk(last.before, front)
     && forall m :: m in Numbers(front) ==> m < V.SLOTS && priority[last.number] < priority[m])
  }

  ghost predicate CpuOk(c: Cpu, contexts: seq<Context>) {
    && ModesOk(c)
    && c.active == Numbers(contexts)
    && (contexts != [] ==> NumberOf(c.xpsr) == contexts[|contexts| - 1].number)
  }

  ghost predicate FrameHolds(mem: Memory, x: Context) {
    x.before.Ok() && Holds(mem, FrameFor(x.before.Sp()), FrameWords(x.before, x.Return()))
  }

  ghost predicate FramesHold(mem: Memory, contexts: seq<Context>) {
    forall x :: x in contexts ==> FrameHolds(mem, x)
  }

  ghost predicate Inv(m: Machine, priority: seq<int>) {
    && PrioritiesOk(priority)
    && CpuOk(m.cpu, m.contexts)
    && ChainOk(m.contexts, priority)
    && FramesHold(m.cpu.mem, m.contexts)
    && (forall n :: n in m.cpu.pending ==> Raisable(n))
  }

  // --------------------------------------------------------------------- runs

  datatype Step =
    | Raise(n: nat)
    | Enable(enabled: set<nat>)
    | Execute(after: Cpu)
    | Take(n: nat, current: int, instruction: Word, next: Word)
    | Return

  /** What instructions may do between exceptions: anything to registers, stack
      pointers, PRIMASK, CONTROL and memory, as long as the frames stay whole, and
      in handler mode the main stack stays selected; and clear what is pending
      (Raise and Enable are the steps that set it, and enable or disable). */
  ghost predicate Executes(m: Machine, after: Cpu) {
    && after.Ok() && after.handler == m.cpu.handler
    && (after.handler ==> !after.spSel)
    && NumberOf(after.xpsr) == NumberOf(m.cpu.xpsr)
    && after.active == m.cpu.active && after.pending <= m.cpu.pending
    && FramesHold(after.mem, m.contexts)
  }

  ghost predicate Enabled(m: Machine, priority: seq<int>, s: Step)
    requires Inv(m, priority)
  {
    match s
    case Raise(n) => Raisable(n)
    case Enable(_) => true
    case Execute(after) => Executes(m, after)
    case Take(n, current, instruction, next) =>
      && ToTake(m.cpu, m.enabled, priority, n, current) && !Refaults(m.cpu)
      && FramesHold(ExceptionEntry(m.cpu, n, instruction, next).mem, m.contexts)
    case Return =>
      && m.contexts != []
      && var x := m.contexts[|m.contexts| - 1];
      x.before.Ok() && FrameIntact(x.before, x.Return(), m.cpu)
  }

  ghost function Apply(m: Machine, priority: seq<int>, s: Step): Machine
    requires Inv(m, priority) && Enabled(m, priority, s)
  {
    match s
    case Raise(n) => m.(cpu := m.cpu.(pending := m.cpu.pending + {n}))
    case Enable(enabled) => m.(enabled := enabled)
    case Execute(after) => m.(cpu := after)
    case Take(n, _, instruction, next) =>
      m.(cpu := ExceptionEntry(m.cpu, n, instruction, next),
         contexts := m.contexts + [Context(m.cpu, n, instruction, next)])
    case Return =>
      var x := m.contexts[|m.contexts| - 1];
      m.(cpu := BranchInterworking(m.cpu, ExcReturn(x.before)), contexts := m.contexts[..|m.contexts| - 1])
  }

  /** An exception is taken only if it is strictly more urgent than every one
      that is active, just as long as PRIMASK does not hide an active HardFault;
      what is taken then is a second HardFault. */
  lemma TakenIsMoreUrgent(m: Machine, priority: seq<int>, n: nat, current: int)
    requires Inv(m, priority) && ToTake(m.cpu, m.enabled, priority, n, current)
    ensures Raisable(n)
    ensures (forall k :: k in m.cpu.active ==> k < V.SLOTS && priority[n] < priority[k]) <==> !Refaults(m.cpu)
    ensures n in m.cpu.active <==> Refaults(m.cpu)
    ensures Refaults(m.cpu) ==> n == V.HARDFAULT
  {
    hide ModesOk, FramesHold, NumberOf;
    var slots := Slots(m.cpu, m.enabled, priority);
    assert slots[n].Candidate();
    ChainRaisable(m.contexts, priority);
    if !Refaults(m.cpu) {
      forall k | k in m.cpu.active ensures k < V.SLOTS && priority[n] < priority[k] {
        assert Raisable(k);
        assert slots[k].active;
      }
    }
  }

  /** And it is taken whenever it is raised there. */
  lemma SecondHardFaultIsTaken(m: Machine, priority: seq<int>)
    requires Inv(m, priority) && Refaults(m.cpu) && V.HARDFAULT in m.cpu.pending
    ensures ToTake(m.cpu, m.enabled, priority, V.HARDFAULT, 0)
  {
    hide ModesOk, FramesHold, NumberOf, ChainOk;
    var slots := Slots(m.cpu, m.enabled, priority);
    assert slots[V.HARDFAULT].Candidate();
    assert forall n :: 0 <= n < V.SLOTS && slots[n].Candidate() ==> Raisable(n);
  }

  lemma {:induction false} ChainRaisable(contexts: seq<Context>, priority: seq<int>)
    requires PrioritiesOk(priority) && ChainOk(contexts, priority)
    ensures forall k :: k in Numbers(contexts) ==> Raisable(k)
  {
    hide CpuOk;
    if contexts != [] {
      ChainRaisable(contexts[..|contexts| - 1], priority);
      NumbersGrow(contexts);
    }
  }

  lemma NumbersGrow(contexts: seq<Context>)
    requires contexts != []
    ensures Numbers(contexts) == Numbers(contexts[..|contexts| - 1]) + {contexts[|contexts| - 1].number}
  {
    var front, last := contexts[..|contexts| - 1], contexts[|contexts| - 1];
    assert contexts == front + [last];
    assert forall x :: x in contexts <==> x in front || x == last;
  }

  lemma ChainGrows(m: Machine, priority: seq<int>, x: Context)
    requires PrioritiesOk(priority) && CpuOk(m.cpu, m.contexts) && ChainOk(m.contexts, priority)
    requires x.before == m.cpu && Raisable(x.number)
    requires forall k :: k in m.cpu.active ==> k < V.SLOTS && priority[x.number] < priority[k]
    ensures ChainOk(m.contexts + [x], priority)
    ensures Numbers(m.contexts + [x]) == m.cpu.active + {x.number}
  {
    hide ModesOk, NumberOf, PrioritiesOk, Raisable;
    var contexts := m.contexts + [x];
    NumbersGrow(contexts);
    assert contexts[..|contexts| - 1] == m.contexts;
    assert CpuOk(m.cpu, m.contexts);
  }

  lemma EnteredOk(c: Cpu, contexts: seq<Context>, n: nat, instruction: Word, next: Word)
    requires CpuOk(c, contexts) && n < 32 && Numbers(contexts + [Context(c, n, instruction, next)]) == c.active + {n}
    ensures CpuOk(ExceptionEntry(c, n, instruction, next), contexts + [Context(c, n, instruction, next)])
    ensures ExceptionEntry(c, n, instruction, next).pending == c.pending - {n}
  {
    hide ExceptionEntry, NumberOf, FrameFor, Holds, ExcReturnFor, Written, Numbers;
    EntryIs(c, n, instruction, next);
  }

  lemma TakeKeepsInv(m: Machine, priority: seq<int>, n: nat, current: int, instruction: Word, next: Word)
    requires Inv(m, priority) && Enabled(m, priority, Take(n, current, instruction, next))
    ensures Inv(Apply(m, priority, Take(n, current, instruction, next)), priority)
  {
    hide ToTake, FrameHolds, ExceptionEntry, CpuOk, ChainOk, PrioritiesOk, Raisable, Numbers;
    var x := Context(m.cpu, n, instruction, next);
    TakenIsMoreUrgent(m, priority, n, current);
    RaisableBelow(n);
    CpuIsOk(m.cpu, m.contexts);
    ChainGrows(m, priority, x);
    EnteredOk(m.cpu, m.contexts, n, instruction, next);
    FrameOfEntry(m.cpu, n, instruction, next);
  }

  lemma CpuIsOk(c: Cpu, contexts: seq<Context>)
    requires CpuOk(c, contexts)
    ensures c.Ok()
  {
  }

  lemma RaisableBelow(n: nat)
    requires Raisable(n)
    ensures 0 < n < 32
  {
  }

  lemma FrameOfEntry(c: Cpu, n: nat, instruction: Word, next: Word)
    requires c.Ok() && n < 32
    ensures FrameHolds(ExceptionEntry(c, n, instruction, next).mem, Context(c, n, instruction, next))
  {
    hide ExceptionEntry, NumberOf, FrameFor, Holds, ExcReturn;
    EntryIs(c, n, instruction, next);
  }

  /** A return restores the state that was interrupted, and the branches for a
      mismatch with the number of active exceptions are not taken. */
  lemma ReturnRestores(m: Machine, priority: seq<int>)
    requires Inv(m, priority) && Enabled(m, priority, Return)
    ensures var x := m.contexts[|m.contexts| - 1];
      var c := x.before;
      var u := Apply(m, priority, Return).cpu;
      && x.number == NumberOf(m.cpu.xpsr) && x.number in m.cpu.active
      && ReturnTarget(m.cpu, Kind(ReturnBits(ExcReturn(c)))) ==
         Target(c.handler, c.spSel, if c.UsesPsp() then m.cpu.psp else m.cpu.msp)
      && (if c.handler then |m.cpu.active| > 1 else |m.cpu.active| == 1)
      && u.r == CallerSavedFrom(m.cpu.r, c.r) && u.lr == c.lr && u.Pc() == WithoutBit0(x.Return())
      && u.Sp() == c.Sp() && (if c.UsesPsp() then u.msp == m.cpu.msp else u.psp == m.cpu.psp)
      && Status(u.xpsr) == Status(c.xpsr) && NumberOf(u.xpsr) == NumberOf(c.xpsr)
      && u.handler == c.handler && u.spSel == c.spSel && u.nPriv == m.cpu.nPriv
      && u.active == c.active && u.mem == m.cpu.mem && u.pending == m.cpu.pending && ModesOk(u)
  {
    hide NumberOf, FrameFor, Holds, PrioritiesOk, ExcReturn, Kind, ReturnBits, WithoutBit0, Status, Aligned4,
         BranchInterworking, ExceptionEntry, FramesHold, CallerSavedFrom;
    var front, x := m.contexts[..|m.contexts| - 1], m.contexts[|m.contexts| - 1];
    NumbersGrow(m.contexts);
    NotItself(m.contexts, priority);
    RaisableBelow(x.number);
    assert m.cpu.active == x.before.active + {x.number};
    ReturnTargetIs(x.before, m.cpu, x.number);
    ActiveCount(x.before.active, x.number);
    EntryIs(x.before, x.number, x.instruction, x.next);
    EntryReturnRestores(x.before, x.number, x.instruction, x.next,
                        ExceptionEntry(x.before, x.number, x.instruction, x.next), m.cpu);
  }

  lemma NotItself(contexts: seq<Context>, priority: seq<int>)
    requires PrioritiesOk(priority) && ChainOk(contexts, priority) && contexts != []
    ensures contexts[|contexts| - 1].number !in Numbers(contexts[..|contexts| - 1])
  {
    hide CpuOk;
  }

  lemma ActiveCount(s: set<nat>, n: nat)
    requires n !in s
    ensures if s == {} then |s + {n}| == 1 else |s + {n}| > 1
  {
    if s != {} {
      var m :| m in s;
      TwoElements(s + {n}, m, n);
    } else {
      assert s + {n} == {n};
    }
  }

  lemma ReturnKeepsInv(m: Machine, priority: seq<int>)
    requires Inv(m, priority) && Enabled(m, priority, Return)
    ensures Inv(Apply(m, priority, Return), priority)
  {
    hide NumberOf, FrameHolds, PrioritiesOk, ModesOk, BranchInterworking, Status, WithoutBit0, CallerSavedFrom,
         FrameIntact;
    ReturnRestores(m, priority);
  }

  lemma ApplyKeepsInv(m: Machine, priority: seq<int>, s: Step)
    requires Inv(m, priority) && Enabled(m, priority, s)
    ensures Inv(Apply(m, priority, s), priority)
  {
    match s
    case Raise(n) => hide NumberOf, FrameHolds, PrioritiesOk;
    case Enable(_) => hide NumberOf, FrameHolds, PrioritiesOk;
    case Execute(after) => hide NumberOf, FrameHolds, PrioritiesOk;
    case Take(n, current, instruction, next) => hide *; TakeKeepsInv(m, priority, n, current, instruction, next);
    case Return => hide *; ReturnKeepsInv(m, priority);
  }

  ghost predicate Legal(m: Machine, priority: seq<int>, steps: seq<Step>)
    requires Inv(m, priority)
    decreases |steps|
  {
    steps == [] ||
    (&& Enabled(m, priority, steps[0])
     && (ApplyKeepsInv(m, priority, steps[0]); Legal(Apply(m, priority, steps[0]), priority, steps[1..])))
  }

  ghost function Run(m: Machine, priority: seq<int>, steps: seq<Step>): (m': Machine)
    requires Inv(m, priority) && Legal(m, priority, steps)
    ensures Inv(m', priority)
    decreases |steps|
  {
    if steps == [] then m
    else ApplyKeepsInv(m, priority, steps[0]); Run(Apply(m, priority, steps[0]), priority, steps[1..])
  }

  /** A processor in thread mode with nothing active or pending. */
  lemma StartsQuiet(c: Cpu, enabled: set<nat>, priority: seq<int>)
    requires PrioritiesOk(priority)
    requires c.Ok() && !c.handler && NumberOf(c.xpsr) == 0 && c.active == {} && c.pending == {}
    ensures Inv(Machine(c, enabled, []), priority)
  {
  }

  lemma {:induction false} DepthByPriority(contexts: seq<Context>, priority: seq<int>)
    requires PrioritiesOk(priority) && ChainOk(contexts, priority) && contexts != []
    ensures Raisable(contexts[|contexts| - 1].number)
    ensures -1 <= priority[contexts[|contexts| - 1].number] <= 4 - |contexts|
  {
    hide CpuOk;
    var n := |contexts| - 1;
    if n > 0 {
      DepthByPriority(contexts[..n], priority);
      assert contexts[..n][n - 1] in contexts[..n];
      assert contexts[n - 1].number in Numbers(contexts[..n]);
    }
  }

  lemma DepthIsBounded(m: Machine, priority: seq<int>)
    requires Inv(m, priority)
    ensures (m.cpu.handler <==> m.cpu.active != {}) && m.cpu.active == Numbers(m.contexts) && |m.contexts| <= 5
  {
    hide NumberOf, FrameHolds;
    if m.contexts != [] {
      DepthByPriority(m.contexts, priority);
    }
  }

  /** In every state that a run reaches: handler mode holds exactly when something
      is active, the active exceptions are those whose frames are stacked, and
      there are at most five of them. */
  lemma NestingIsBounded(m: Machine, priority: seq<int>, steps: seq<Step>)
    requires Inv(m, priority) && Legal(m, priority, steps)
    ensures var m' := Run(m, priority, steps);
      && (m'.cpu.handler <==> m'.cpu.active != {})
      && m'.cpu.active == Numbers(m'.contexts)
      && |m'.contexts| <= 5
  {
    hide Inv, Run;
    DepthIsBounded(Run(m, priority, steps), priority);
  }

  /** Each active exception is strictly more urgent than those that it
      interrupted. */
  lemma {:induction false} StrictlyNested(contexts: seq<Context>, priority: seq<int>, i: nat, j: nat)
    requires PrioritiesOk(priority) && ChainOk(contexts, priority) && i < j < |contexts|
    ensures contexts[i].number < V.SLOTS && contexts[j].number < V.SLOTS
    ensures priority[contexts[j].number] < priority[contexts[i].number]
  {
    hide CpuOk;
    var n := |contexts| - 1;
    if j < n {
      StrictlyNested(contexts[..n], priority, i, j);
    } else {
      assert contexts[..n][i] in contexts[..n];
      assert contexts[i].number in Numbers(contexts[..n]);
    }
  }

  /** The one is active on top of the other, and strictly more urgent. */
  predicate Interrupts(inner: Context, outer: Context, priority: seq<int>) {
    && inner.number < |priority| && outer.number < |priority|
    && priority[inner.number] < priority[outer.number]
  }

  lemma AllStrictlyNested(m: Machine, priority: seq<int>)
    requires Inv(m, priority)
    ensures forall i, j :: 0 <= i < j < |m.contexts| ==> Interrupts(m.contexts[j], m.contexts[i], priority)
  {
    hide CpuOk, ChainOk, FramesHold;
    forall i, j | 0 <= i < j < |m.contexts| ensures Interrupts(m.contexts[j], m.contexts[i], priority) {
      StrictlyNested(m.contexts, priority, i, j);
    }
  }
}
