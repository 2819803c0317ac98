/** How a new task starts from its stack, and how the first one is started. */
module PortStart {
  import opened StackFrame
  import opened ContextSpec
  import opened PortSpec
  import opened PortStack
  import opened PortRuns

  /** So the first switch to a new task (PortRuns.SwitchResumes) starts its code,
      with the parameter in r0, the port's return address in lr, the Thumb bit
      set, and an empty stack. */
  lemma NewTaskStarts(u: Cpu, mem: Memory, top: Word, code: Word, parameter: Word, returnAddress: Word)
    requires top & 7 == 0
    requires SameTask(u, FreshContext(mem, top, code, parameter, returnAddress))
    ensures u.r[0] == parameter && u.lr == returnAddress && u.Pc() == WithoutBit0(code) && u.Sp() == top
    ensures Status(u.xpsr) == THUMB && !u.handler && u.spSel
  {
    hide At, Below, FrameFor, Aligned4, NumberOf, WithoutBit0, Words;
    FreshWords(mem, top, code, parameter, returnAddress);
    InitialStatus();
  }

  /** A task that is created in the course of a run, whatever runs until it is
      switched to for the first time, starts its code. */
  lemma CreatedTaskStarts(g: Config, y: System, create: Step, steps: seq<Step>, first: Step)
    requires Inv(g, y) && create.Create? && Enabled(g, y, create)
    requires Inv(g, Apply(g, y, create)) && Legal(g, Apply(g, y, create), steps)
    requires forall s :: s in steps ==> !(s.Switch? && s.to == create.i)
    requires var z := Run(g, Apply(g, y, create), steps);
      first.Switch? && first.to == create.i && Enabled(g, z, first)
    ensures var u := Apply(g, Run(g, Apply(g, y, create), steps), first).cpu;
      && u.Ok() && u.r[0] == create.parameter && u.lr == create.returnAddress
      && u.Pc() == WithoutBit0(create.code) && u.Sp() == create.top
      && Status(u.xpsr) == THUMB && !u.handler && u.spSel && !u.primask
  {
    hide Suspended, SaveOf, Switched, Room, Executes, Run, Legal, FreshContext, NumberOf, Status, WithoutBit0, Aligned4,
         KernelRan, Owned, CreatedMemory;
    var z := Run(g, Apply(g, y, create), steps);
    ContextStays(g, Apply(g, y, create), steps, create.i);
    SwitchResumes(g, z, first.instruction, first.next, first.kernel, first.to);
    NewTaskStarts(Apply(g, z, first).cpu, y.cpu.mem, create.top, create.code, create.parameter, create.returnAddress);
  }

  lemma InitialStatus()
    ensures Status(INITIAL_XPSR) == THUMB
  {
  }

  /** vPortStartFirstTask: the first task does not come from an exception; its
      frame is popped by hand. */
  function StartFirstTask(c: Cpu, current: Word): Cpu
    requires c.Ok()
  {
    var m := c.mem;
    var p := Above(m(m(current)));
    var d := c.(r := c.r[0 := m(At(p, 0))][1 := m(At(p, 1))][2 := m(At(p, 7))][3 := m(At(p, 6))][4 := m(At(p, 4))]
                        [5 := m(At(p, 5))],
                lr := m(At(p, 5)), psp := Above(p), primask := false, spSel := true, nPriv := false);
    BranchInterworking(d, d.r[3])
  }

  /** It starts like any other: at its code, with its parameter, the port's
      return address and an empty stack. */
  lemma FirstTaskStarts(owner: Ownership, c: Cpu, current: Word, tcb: Word, i: nat, mem: Memory, top: Word, code: Word,
                        parameter: Word, returnAddress: Word)
    requires c.Ok() && !c.handler && c.mem(current) == tcb && top & 7 == 0
    requires Suspended(owner, c.mem, tcb, i, FreshContext(mem, top, code, parameter, returnAddress))
    ensures var u := StartFirstTask(c, current);
      && u.r[0] == parameter && u.lr == returnAddress && u.pc == WithoutBit0(code) && u.Sp() == top
      && !u.handler && u.spSel && !u.primask && !u.nPriv && u.xpsr == WithThumb(c.xpsr, code)
  {
    hide At, Below, Above, FrameFor, Aligned4, NumberOf, WithoutBit0, WithThumb, IsExcReturn, Owned, FrameWords,
         CalleeSaved, FreshRegisters, Frame;
    FreshWords(mem, top, code, parameter, returnAddress);
    EightAligned(top);
    BelowThenAbove(Below(top));
    BelowThenAbove(top);
    var x := FreshContext(mem, top, code, parameter, returnAddress);
    EightWords(c.mem, Below(top), FrameWords(x.before, code));
  }

  /** From there on the runs of PortRuns begin: if the tasks made so far are
      suspended, the invariant of those runs holds when the first one starts. */
  lemma RunsBegin(g: Config, c: Cpu, made: set<nat>, contexts: seq<Context>, i: nat, mem: Memory, top: Word, code: Word,
                  parameter: Word, returnAddress: Word)
    requires g.Ok() && i in made && AllSuspended(g, c.mem, made, contexts, -1)
    requires contexts[i] == FreshContext(mem, top, code, parameter, returnAddress) && top & 7 == 0
    requires c.Ok() && !c.handler && c.active == {} && NumberOf(c.xpsr) == 0 && c.mem(g.current) == g.tcb[i]
    ensures Inv(g, System(StartFirstTask(c, g.current), i, made, contexts))
  {
    hide At, Above, Suspended, NumberOf, WithoutBit0, WithThumb, IsExcReturn, FreshContext;
    ThumbLeavesNumber(c.xpsr, c.mem(At(Above(c.mem(c.mem(g.current))), 6)));
  }

  lemma ThumbLeavesNumber(xpsr: Word, address: Word)
    ensures NumberOf(WithThumb(xpsr, address)) == NumberOf(xpsr)
  {
    hide WithThumb, NumberBits;
    ThumbLeavesBits(xpsr, address);
  }

  lemma ThumbLeavesBits(xpsr: Word, address: Word)
    ensures NumberBits(WithThumb(xpsr, address)) == NumberBits(xpsr)
  {
  }
}
