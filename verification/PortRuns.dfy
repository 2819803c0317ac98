/** Runs of tasks that PendSV switches between: each resumes with the registers,
    stack pointer, address and status with which it was interrupted. */
module PortRuns {
  import opened StackFrame
  import opened ContextSpec
  import opened PortSpec
  import opened PortStack

  ghost function SwitchedContexts(y: System, next: Word): seq<Context>
    requires y.task < |y.contexts|
  {
    y.contexts[y.task := Context(y.cpu, next)]
  }

  /** When the handler restores, every task is suspended, the one that was
      running included. */
  lemma AllSuspendedThen(g: Config, y: System, instruction: Word, next: Word, k: Cpu, t: nat)
    requires Inv(g, y) && Room(g, y) && KernelRan(g, SaveOf(g, y, instruction, next), k, t)
    ensures AllSuspended(g, k.mem, y.made, SwitchedContexts(y, next), -1)
  {
    hide At, FrameFor, Below, Running, ExceptionEntry, Suspended, SaveOf;
    RunningOk(y.cpu);
    var s := SaveOf(g, y, instruction, next);
    var contexts := SwitchedContexts(y, next);
    SavedSelf(g, y, instruction, next);
    forall j | j in y.made ensures Suspended(g.owner, k.mem, g.tcb[j], j, contexts[j]) {
      if j == y.task {
        StaysSuspended(g.owner, s.mem, k.mem, g.tcb[j], j, contexts[j]);
      } else {
        forall a | g.owner(a) == Stack(j) || g.owner(a) == Tcb(j) ensures k.mem(a) == y.cpu.mem(a) {
          SaveLeaves(g, y, instruction, next, a);
        }
        StaysSuspended(g.owner, y.cpu.mem, k.mem, g.tcb[j], j, contexts[j]);
      }
    }
  }

  /** The whole of what is a task's own: CONTROL.nPRIV is not among what the
      handler saves. */
  ghost predicate SameTask(u: Cpu, x: Context) {
    && u.r == x.before.r && u.lr == x.before.lr
    && u.Pc() == WithoutBit0(x.resumeAt)
    && u.Sp() == x.before.Sp()
    && Status(u.xpsr) == Status(x.before.xpsr)
    && Running(u)
  }

  /** While vTaskSwitchContext runs, interrupts are masked, and the words that the
      handler will need are on the main stack. */
  lemma HandlerState(g: Config, y: System, instruction: Word, next: Word)
    requires Inv(g, y) && Room(g, y)
    ensures var s := SaveOf(g, y, instruction, next);
      && s.handler && s.nPriv == y.cpu.nPriv && s.active == {PENDSV} && NumberOf(s.xpsr) == PENDSV
      && s.primask && Up8(s.msp) == y.cpu.msp
      && s.mem(At(s.msp, 0)) == g.current && s.mem(At(s.msp, 1)) == ExcReturn(y.cpu)
  {
    hide At, FrameFor, Below, ExceptionEntry, Suspended, AllSuspended, NumberOf, Holds, ExcReturnFor, CalleeSaved,
         Written, FrameWords;
    RunningOk(y.cpu);
    EntryIs(y.cpu, PENDSV, instruction, next);
    SavedSelf(g, y, instruction, next);
    BelowThenAbove(y.cpu.msp);
  }

  /** What the end of the handler gives to a suspended task. */
  lemma ResumesSuspended(g: Config, k: Cpu, i: nat, x: Context)
    requires i < |g.tcb| && Suspended(g.owner, k.mem, g.tcb[i], i, x)
    requires k.Ok() && k.handler && k.active == {PENDSV} && NumberOf(k.xpsr) == PENDSV
    requires k.mem(At(k.msp, 0)) == g.current && k.mem(g.current) == g.tcb[i]
    requires k.mem(At(k.msp, 1)) == ExcReturnFor(false, true)
    ensures var u := Switched(k);
      && SameTask(u, x) && u.mem == k.mem && u.nPriv == k.nPriv && !u.primask && u.msp == Up8(k.msp)
      && u.pending == k.pending
  {
    hide At, FrameFor, Below, Above, NumberOf, ExcReturnFor, ExceptionEntry, Holds, Status, WithoutBit0, Aligned4,
         BranchInterworking,
         CalleeSaved, Owned, Kind, ReturnBits, IsExcReturn, HighHalf, Up8;
    RunningOk(x.before);
    RestoreIs(k, Below(Frame(x)), CalleeSaved(x.before));
    BelowThenAbove(Frame(x));
    var h := Restore(k);
    EntryIs(x.before, PENDSV, 0, x.resumeAt);
    var e := ExceptionEntry(x.before, PENDSV, 0, x.resumeAt);
    EntryReturnRestores(x.before, PENDSV, 0, x.resumeAt, e, h);
    RegistersBack(h.r, x.before);
  }

  lemma RegistersBack(r: seq<Word>, c: Cpu)
    requires |r| == 13 && c.Ok() && r[4..12] == CalleeSaved(c)
    ensures CallerSavedFrom(r, c.r) == c.r
  {
    assert forall k :: 4 <= k < 12 ==> r[k] == r[4..12][k - 4];
    assert forall k :: 4 <= k < 12 ==> c.r[k] == c.r[4..12][k - 4];
  }

  /** The state after a switch to task t. */
  ghost function AfterSwitch(y: System, next: Word, k: Cpu, t: nat): System
    requires k.Ok() && y.task < |y.contexts|
  {
    System(Switched(k), t, y.made, SwitchedContexts(y, next))
  }

  /** A switch resumes the chosen task in the state in which it was interrupted,
      even if it is the one that was running, and keeps all the others; whether
      it is privileged is left as the interrupted task had it, the main stack
      is where it was, and interrupts are not masked. */
  lemma SwitchResumes(g: Config, y: System, instruction: Word, next: Word, k: Cpu, t: nat)
    requires Inv(g, y) && Room(g, y) && KernelRan(g, SaveOf(g, y, instruction, next), k, t)
    requires t in y.made
    ensures var u := Switched(k);
      && SameTask(u, SwitchedContexts(y, next)[t]) && u.nPriv == y.cpu.nPriv
      && !u.primask && u.msp == y.cpu.msp && u.mem == k.mem && u.pending == k.pending
    ensures Inv(g, AfterSwitch(y, next, k, t))
  {
    hide At, NumberOf, Suspended, Running, SaveOf, ExcReturnFor, Status, WithoutBit0, Switched, Room;
    RunningKind(y.cpu);
    AllSuspendedThen(g, y, instruction, next, k, t);
    HandlerState(g, y, instruction, next);
    ResumesSuspended(g, k, t, SwitchedContexts(y, next)[t]);
  }

  lemma RunningKind(c: Cpu)
    requires Running(c)
    ensures ExcReturn(c) == ExcReturnFor(false, true)
  {
  }

  // --------------------------------------------------------------------- runs

  datatype Step =
    | Execute(after: Cpu)
    | Switch(instruction: Word, next: Word, kernel: Cpu, to: nat)
    | Create(i: nat, top: Word, code: Word, parameter: Word, returnAddress: Word)

  /** What a task may write: its own stack, the kernel's data, and the stacks and
      control blocks of tasks that do not exist yet. */
  predicate MayWrite(o: Owner, task: nat, made: set<nat>) {
    match o
    case Kernel => true
    case Tcb(j) => j !in made
    case Stack(j) => j == task || j !in made
  }

  /** A task may do anything to its registers, its privilege and what it may
      write, but not point pxCurrentTCB elsewhere. */
  ghost predicate Executes(g: Config, y: System, after: Cpu) {
    && Running(after)
    && after.mem(g.current) == y.cpu.mem(g.current)
    && forall a :: after.mem(a) != y.cpu.mem(a) ==> MayWrite(g.owner(a), y.task, y.made)
  }

  /** A task that does not exist yet, with room for two frames on its stack. */
  ghost predicate Creatable(g: Config, y: System, i: nat, top: Word) {
    && i < |g.tcb| && i !in y.made && top & 7 == 0
    && Owned(g.owner, Below(top), Stack(i)) && Owned(g.owner, Below(Below(top)), Stack(i))
  }

  /** The stack of the new task is initialised, and its top of stack goes into its
      control block. */
  function CreatedMemory(g: Config, y: System, i: nat, top: Word, code: Word, parameter: Word, returnAddress: Word)
    : Memory
    requires i < |g.tcb|
  {
    Write(InitialisedMemory(y.cpu.mem, top, code, parameter, returnAddress), g.tcb[i], Below(Below(top)))
  }

  ghost predicate Enabled(g: Config, y: System, s: Step)
    requires Inv(g, y)
  {
    match s
    case Execute(after) => Executes(g, y, after)
    case Switch(instruction, next, k, t) =>
      && Room(g, y) && t in y.made
      && (RunningOk(y.cpu); KernelRan(g, SaveOf(g, y, instruction, next), k, t))
    case Create(i, top, _, _, _) => Creatable(g, y, i, top)
  }

  ghost function Apply(g: Config, y: System, s: Step): System
    requires Inv(g, y) && Enabled(g, y, s)
  {
    match s
    case Execute(after) => y.(cpu := after)
    case Switch(_, next, k, t) => AfterSwitch(y, next, k, t)
    case Create(i, top, code, parameter, returnAddress) =>
      System(y.cpu.(mem := CreatedMemory(g, y, i, top, code, parameter, returnAddress)), y.task, y.made + {i},
             y.contexts[i := FreshContext(y.cpu.mem, top, code, parameter, returnAddress)])
  }

  lemma ExecuteKeepsInv(g: Config, y: System, after: Cpu)
    requires Inv(g, y) && Executes(g, y, after)
    ensures Inv(g, y.(cpu := after))
  {
    hide Suspended, Running;
    forall j | j in y.made && j != y.task ensures Suspended(g.owner, after.mem, g.tcb[j], j, y.contexts[j]) {
      StaysSuspended(g.owner, y.cpu.mem, after.mem, g.tcb[j], j, y.contexts[j]);
    }
  }

  lemma FourElsewhere(g: Config, y: System, i: nat, top: Word, code: Word, parameter: Word, returnAddress: Word,
                      a: Word)
    requires Creatable(g, y, i, top) && g.owner(a) != Stack(i)
    ensures InitialisedMemory(y.cpu.mem, top, code, parameter, returnAddress)(a) == y.cpu.mem(a)
  {
    hide At, Below;
  }

  /** Creation writes to nothing that is in use. */
  lemma CreateKeepsInv(g: Config, y: System, s: Step)
    requires Inv(g, y) && s.Create? && Enabled(g, y, s)
    ensures Inv(g, Apply(g, y, s))
  {
    hide Suspended, Running, FreshContext, InitialisedMemory, Below;
    var y', i, contexts := Apply(g, y, s), s.i, Apply(g, y, s).contexts;
    SameRunning(y.cpu, y'.cpu);
    forall a | g.owner(a) != Stack(i) && g.owner(a) != Tcb(i) ensures y'.cpu.mem(a) == y.cpu.mem(a) {
      FourElsewhere(g, y, i, s.top, s.code, s.parameter, s.returnAddress, a);
    }
    FreshIsSuspended(g.owner, y.cpu.mem, y'.cpu.mem, g.tcb[i], i, s.top, s.code, s.parameter, s.returnAddress);
    forall j | j in y'.made && j != y.task ensures Suspended(g.owner, y'.cpu.mem, g.tcb[j], j, contexts[j]) {
      if j != i {
        StaysSuspended(g.owner, y.cpu.mem, y'.cpu.mem, g.tcb[j], j, contexts[j]);
      }
    }
  }

  lemma SameRunning(c: Cpu, c': Cpu)
    requires Running(c) && c' == c.(mem := c'.mem)
    ensures Running(c')
  {
  }

  lemma ApplyKeepsInv(g: Config, y: System, s: Step)
    requires Inv(g, y) && Enabled(g, y, s)
    ensures Inv(g, Apply(g, y, s))
  {
    hide Inv, Running, SaveOf, Switched, Room, KernelRan, Executes;
    match s
    case Execute(after) => ExecuteKeepsInv(g, y, after);
    case Switch(instruction, next, k, t) => SwitchResumes(g, y, instruction, next, k, t);
    case Create(_, _, _, _, _) => CreateKeepsInv(g, y, s);
  }

  ghost predicate Legal(g: Config, y: System, steps: seq<Step>)
    requires Inv(g, y)
    decreases |steps|
  {
    steps == [] ||
    (Enabled(g, y, steps[0]) && (ApplyKeepsInv(g, y, steps[0]); Legal(g, Apply(g, y, steps[0]), steps[1..])))
  }

  ghost function Run(g: Config, y: System, steps: seq<Step>): (y': System)
    requires Inv(g, y) && Legal(g, y, steps)
    ensures Inv(g, y')
    decreases |steps|
  {
    if steps == [] then y else ApplyKeepsInv(g, y, steps[0]); Run(g, Apply(g, y, steps[0]), steps[1..])
  }

  /** Until it is switched to again, what a task left off with is not touched. */
  lemma {:induction false} ContextStays(g: Config, y: System, steps: seq<Step>, i: nat)
    requires Inv(g, y) && Legal(g, y, steps) && i in y.made && i != y.task
    requires forall s :: s in steps ==> !(s.Switch? && s.to == i)
    ensures var y' := Run(g, y, steps);
      && i in y'.made && y'.task != i && i < |y.contexts| == |y'.contexts| == |g.tcb|
      && y'.contexts[i] == y.contexts[i]
    decreases |steps|
  {
    hide Suspended, Running, SaveOf, Switched, Room, KernelRan, Executes;
    if steps != [] {
      assert steps[0] in steps;
      ApplyKeepsInv(g, y, steps[0]);
      StepLeaves(g, y, steps[0], i);
      ContextStays(g, Apply(g, y, steps[0]), steps[1..], i);
    }
  }

  lemma StepLeaves(g: Config, y: System, s: Step, i: nat)
    requires Inv(g, y) && Enabled(g, y, s) && i in y.made && i != y.task && !(s.Switch? && s.to == i)
    ensures var y' := Apply(g, y, s);
      && i in y'.made && y'.task != i && i < |y.contexts| == |y'.contexts| == |g.tcb|
      && y'.contexts[i] == y.contexts[i]
  {
    hide Suspended, Running, SaveOf, Switched, Room, KernelRan, Executes;
  }

  /** The main theorem: a task that is switched out, after any run of other tasks
      and switches among them, resumes with all its registers, its stack pointer,
      its status and at the address at which it was interrupted. */
  lemma SwitchesAreInvisible(g: Config, y: System, out: Step, steps: seq<Step>, back: Step)
    requires Inv(g, y) && out.Switch? && Enabled(g, y, out) && out.to != y.task
    requires Inv(g, Apply(g, y, out)) && Legal(g, Apply(g, y, out), steps)
    requires forall s :: s in steps ==> !(s.Switch? && s.to == y.task)
    requires var z := Run(g, Apply(g, y, out), steps);
      back.Switch? && back.to == y.task && Enabled(g, z, back)
    ensures var z := Run(g, Apply(g, y, out), steps);
      SameTask(Apply(g, z, back).cpu, Context(y.cpu, out.next)) && !Apply(g, z, back).cpu.primask
  {
    hide Suspended, Running, SaveOf, Switched, Room, SameTask, Executes, Run, Legal;
    var z := Run(g, Apply(g, y, out), steps);
    ContextStays(g, Apply(g, y, out), steps, y.task);
    SwitchResumes(g, z, back.instruction, back.next, back.kernel, back.to);
  }
}
