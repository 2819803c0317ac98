/** The context switch of port.c on values: the PendSV handler in the steps of its
    assembly, the stack of a new task, and the start of the first one. */
module PortSpec {
  import opened StackFrame
  import opened ContextSpec

  const PENDSV := 14
  const INITIAL_XPSR: Word := 0x0100_0000

  // ------------------------------------------------------------------ handler

  function Below(top: Word): Word {
    top - 32
  }

  function Above(top: Word): Word {
    top + 32
  }

  function HighHalf(top: Word): Word {
    top + 16
  }

  function Down8(sp: Word): Word {
    sp - 8
  }

  function Up8(sp: Word): Word {
    sp + 8
  }

  /** r4-r11, as the handler lays them out. */
  function CalleeSaved(c: Cpu): (words: seq<Word>)
    requires c.Ok()
    ensures |words| == 8
  {
    c.r[4..12]
  }

  /** The registers after the save. */
  function Shuffled(r: seq<Word>, end: Word, tcb: Word, current: Word): (r': seq<Word>)
    requires |r| == 13
    ensures |r'| == 13
  {
    r[0 := end][2 := tcb][3 := current][4 := r[8]][5 := r[9]][6 := r[10]][7 := r[11]]
  }

  /** The handler up to its call of vTaskSwitchContext: the callee-saved registers
      go below the process stack pointer, the new top of stack into the control
      block, and interrupts are masked; `current` is where pxCurrentTCB is. */
  function Save(c: Cpu, current: Word): Cpu
    requires c.Ok()
  {
    var tcb := c.mem(current);
    var top := Below(c.psp);
    var saved := Written(Write(c.mem, tcb, top), top, CalleeSaved(c));
    var sp := Down8(c.msp);
    c.(r := Shuffled(c.r, Above(top), tcb, current),
       mem := Write(Write(saved, At(sp, 0), current), At(sp, 1), c.lr),
       msp := sp, primask := true)
  }

  /** r4-r11 as they are loaded from a top of stack; r0 ends half way. */
  function Loaded(r: seq<Word>, m: Memory, top: Word): (r': seq<Word>)
    requires |r| == 13
    ensures |r'| == 13
  {
    var high := HighHalf(top);
    r[0 := high][4 := m(At(top, 0))][5 := m(At(top, 1))][6 := m(At(top, 2))][7 := m(At(top, 3))]
     [8 := m(At(high, 0))][9 := m(At(high, 1))][10 := m(At(high, 2))][11 := m(At(high, 3))]
  }

  /** The handler after that call: the registers of whichever task is now the
      current one. */
  function Restore(c: Cpu): Cpu
    requires c.Ok()
  {
    var m := c.mem;
    var current, lr := m(At(c.msp, 0)), m(At(c.msp, 1));
    var tcb := m(current);
    var top := m(tcb);
    c.(r := Loaded(c.r[1 := tcb][2 := current][3 := lr], m, top), psp := Above(top), msp := Up8(c.msp),
       primask := false)
  }

  lemma HighHalf0(top: Word)
    ensures At(HighHalf(top), 0) == At(top, 4)
  {
  }

  lemma HighHalf1(top: Word)
    ensures At(HighHalf(top), 1) == At(top, 5)
  {
  }

  lemma HighHalf2(top: Word)
    ensures At(HighHalf(top), 2) == At(top, 6)
  {
  }

  lemma HighHalf3(top: Word)
    ensures At(HighHalf(top), 3) == At(top, 7)
  {
  }

  lemma BelowThenAbove(a: Word)
    ensures Above(Below(a)) == a && Up8(Down8(a)) == a
  {
  }

  lemma EightWords(mem: Memory, frame: Word, words: seq<Word>)
    requires |words| == 8 && Holds(mem, frame, words)
    ensures mem(At(frame, 0)) == words[0] && mem(At(frame, 1)) == words[1]
    ensures mem(At(frame, 2)) == words[2] && mem(At(frame, 3)) == words[3]
    ensures mem(At(frame, 4)) == words[4] && mem(At(frame, 5)) == words[5]
    ensures mem(At(frame, 6)) == words[6] && mem(At(frame, 7)) == words[7]
  {
    hide At;
  }

  lemma FourToEleven(r: seq<Word>, words: seq<Word>)
    requires |r| == 13 && |words| == 8
    requires r[4] == words[0] && r[5] == words[1] && r[6] == words[2] && r[7] == words[3]
    requires r[8] == words[4] && r[9] == words[5] && r[10] == words[6] && r[11] == words[7]
    ensures r[4..12] == words
  {
  }

  lemma RestoreIs(c: Cpu, top: Word, words: seq<Word>)
    requires c.Ok() && c.mem(c.mem(c.mem(At(c.msp, 0)))) == top && |words| == 8 && Holds(c.mem, top, words)
    ensures var t := Restore(c);
      && t.r[4..12] == words && t.r[3] == c.mem(At(c.msp, 1)) && t.psp == Above(top) && t.msp == Up8(c.msp)
  {
    hide At, Above, HighHalf, Up8;
    HighHalf0(top);
    HighHalf1(top);
    HighHalf2(top);
    HighHalf3(top);
    EightWords(c.mem, top, words);
    FourToEleven(Restore(c).r, words);
  }

  // ---------------------------------------------------------------- ownership

  /** Each address is the kernel's (its data and the main stack), the first word
      of a task's control block, or part of a task's stack. */
  datatype Owner = Kernel | Tcb(task: nat) | Stack(task: nat)

  type Ownership = Word -> Owner

  ghost predicate Owned(owner: Ownership, frame: Word, o: Owner) {
    forall k :: 0 <= k < 8 ==> owner(At(frame, k)) == o
  }

  lemma WrittenLeaves(mem: Memory, frame: Word, words: seq<Word>, owner: Ownership, o: Owner, a: Word)
    requires |words| <= 8 && Owned(owner, frame, o) && owner(a) != o
    ensures Written(mem, frame, words)(a) == mem(a)
  {
    hide At;
    if words != [] {
      WrittenLeaves(mem, frame, words[..|words| - 1], owner, o, a);
    }
  }

  lemma HoldsIfSame(mem: Memory, mem': Memory, frame: Word, words: seq<Word>)
    requires |words| <= 8 && Holds(mem, frame, words)
    requires forall k :: 0 <= k < |words| ==> mem'(At(frame, k)) == mem(At(frame, k))
    ensures Holds(mem', frame, words)
  {
  }

  // -------------------------------------------------------- suspended context

  /** A task that was switched out: the state in which PendSV interrupted it, and
      the address to go on from. */
  datatype Context = Context(before: Cpu, resumeAt: Word)

  /** The state of a task that runs: thread mode on the process stack, privileged
      or not. */
  ghost predicate Running(c: Cpu) {
    c.Ok() && !c.handler && c.spSel && c.active == {} && NumberOf(c.xpsr) == 0
  }

  function Frame(x: Context): Word {
    FrameFor(x.before.Sp())
  }

  /** All that the task needs is on its own stack. */
  ghost predicate Suspended(owner: Ownership, mem: Memory, tcb: Word, i: nat, x: Context) {
    && Running(x.before)
    && Owned(owner, Frame(x), Stack(i)) && Owned(owner, Below(Frame(x)), Stack(i))
    && mem(tcb) == Below(Frame(x))
    && Holds(mem, Frame(x), FrameWords(x.before, x.resumeAt))
    && Holds(mem, Below(Frame(x)), CalleeSaved(x.before))
  }

  /** It stays so while nobody writes to its stack and control block. */
  lemma StaysSuspended(owner: Ownership, mem: Memory, mem': Memory, tcb: Word, i: nat, x: Context)
    requires Suspended(owner, mem, tcb, i, x) && owner(tcb) == Tcb(i)
    requires forall a :: owner(a) == Stack(i) || owner(a) == Tcb(i) ==> mem'(a) == mem(a)
    ensures Suspended(owner, mem', tcb, i, x)
  {
    hide At, FrameFor, Below, WithAlign, AlignBit, Aligned4, Running, FrameWords, CalleeSaved;
    RunningOk(x.before);
    HoldsIfSame(mem, mem', Frame(x), FrameWords(x.before, x.resumeAt));
    HoldsIfSame(mem, mem', Below(Frame(x)), CalleeSaved(x.before));
  }

  lemma RunningOk(c: Cpu)
    requires Running(c)
    ensures c.Ok() && c.UsesPsp() && ModesOk(c) && c.active == {}
  {
  }

  // ------------------------------------------------------------------- switch

  /** The control blocks of the tasks, where pxCurrentTCB is, and whose each
      address is. */
  datatype Config = Config(tcb: seq<Word>, current: Word, owner: Ownership) {
    ghost predicate Ok() {
      owner(current) == Kernel && forall i :: 0 <= i < |tcb| ==> owner(tcb[i]) == Tcb(i)
    }
  }

  /** The task that runs, which tasks have been created, and where each of the
      others left off. */
  datatype System = System(cpu: Cpu, task: nat, made: set<nat>, contexts: seq<Context>)

  ghost predicate AllSuspended(g: Config, mem: Memory, made: set<nat>, contexts: seq<Context>, but: int) {
    && |contexts| == |g.tcb| && (forall j :: j in made ==> j < |g.tcb|)
    && forall j :: j in made && j != but ==> Suspended(g.owner, mem, g.tcb[j], j, contexts[j])
  }

  ghost predicate Inv(g: Config, y: System) {
    && g.Ok() && y.task < |g.tcb| && y.task in y.made
    && Running(y.cpu)
    && y.cpu.mem(g.current) == g.tcb[y.task]
    && AllSuspended(g, y.cpu.mem, y.made, y.contexts, y.task)
  }

  /** There is room for two frames on the task's stack, and for two words on the
      main stack, apart from pxCurrentTCB. */
  ghost predicate Room(g: Config, y: System) {
    var frame := FrameFor(y.cpu.Sp());
    var sp := Down8(y.cpu.msp);
    && Owned(g.owner, frame, Stack(y.task)) && Owned(g.owner, Below(frame), Stack(y.task))
    && g.owner(At(sp, 0)) == Kernel && g.owner(At(sp, 1)) == Kernel
    && At(sp, 0) != g.current && At(sp, 1) != g.current
  }

  /** What vTaskSwitchContext may do: write to the kernel's memory, but not to the
      words just pushed, and make task t the current one. */
  ghost predicate KernelRan(g: Config, s: Cpu, k: Cpu, t: nat) {
    && k.Ok() && k.handler == s.handler && k.nPriv == s.nPriv && k.active == s.active
    && NumberOf(k.xpsr) == NumberOf(s.xpsr) && k.msp == s.msp
    && (forall a :: g.owner(a) != Kernel ==> k.mem(a) == s.mem(a))
    && k.mem(At(s.msp, 0)) == s.mem(At(s.msp, 0)) && k.mem(At(s.msp, 1)) == s.mem(At(s.msp, 1))
    && t < |g.tcb| && k.mem(g.current) == g.tcb[t]
  }

  ghost function Entered(y: System, instruction: Word, next: Word): Cpu
    requires y.cpu.Ok()
  {
    ExceptionEntry(y.cpu, PENDSV, instruction, next)
  }

  ghost function SaveOf(g: Config, y: System, instruction: Word, next: Word): (s: Cpu)
    requires y.cpu.Ok()
  {
    EntryIs(y.cpu, PENDSV, instruction, next);
    Save(Entered(y, instruction, next), g.current)
  }

  /** PendSV is taken, the handler runs, and it branches to what was pushed. */
  function Switched(k: Cpu): Cpu
    requires k.Ok()
  {
    BranchInterworking(Restore(k), Restore(k).r[3])
  }

  lemma SaveLeaves(g: Config, y: System, instruction: Word, next: Word, a: Word)
    requires Inv(g, y) && Room(g, y)
    requires g.owner(a) != Stack(y.task) && g.owner(a) != Tcb(y.task) && g.owner(a) != Kernel
    ensures SaveOf(g, y, instruction, next).mem(a) == y.cpu.mem(a)
  {
    hide At, FrameFor, Below, Running, FrameWords, ExceptionEntry, Suspended, Holds, ExcReturnFor, NumberOf;
    RunningOk(y.cpu);
    EntryIs(y.cpu, PENDSV, instruction, next);
    var e := Entered(y, instruction, next);
    var frame := FrameFor(y.cpu.Sp());
    EntryLeaves(g, y, instruction, next, g.current);
    WrittenLeaves(Write(e.mem, g.tcb[y.task], Below(frame)), Below(frame), CalleeSaved(e), g.owner, Stack(y.task), a);
    EntryLeaves(g, y, instruction, next, a);
  }

  lemma EntryLeaves(g: Config, y: System, instruction: Word, next: Word, a: Word)
    requires Inv(g, y) && Room(g, y) && g.owner(a) != Stack(y.task)
    ensures Entered(y, instruction, next).mem(a) == y.cpu.mem(a)
  {
    hide At, FrameFor, Below, Running, FrameWords, ExceptionEntry, Suspended, Holds, ExcReturnFor, NumberOf;
    RunningOk(y.cpu);
    EntryIs(y.cpu, PENDSV, instruction, next);
    WrittenLeaves(y.cpu.mem, FrameFor(y.cpu.Sp()), FrameWords(y.cpu, next), g.owner, Stack(y.task), a);
  }

  lemma FramesApart(frame: Word, k: nat, j: nat)
    requires k < 8 && j < 8
    ensures At(frame, k) != At(Below(frame), j)
  {
  }

  /** What the save leaves in memory, for any two areas and control block. */
  lemma SavedAreas(mem: Memory, tcb: Word, frame: Word, words: seq<Word>, saved: seq<Word>, owner: Ownership, i: nat)
    requires |words| == 8 && |saved| == 8 && Holds(mem, frame, words) && owner(tcb) == Tcb(i)
    requires Owned(owner, frame, Stack(i)) && Owned(owner, Below(frame), Stack(i))
    ensures var m := Written(Write(mem, tcb, Below(frame)), Below(frame), saved);
      m(tcb) == Below(frame) && Holds(m, frame, words) && Holds(m, Below(frame), saved)
  {
    hide At, Below;
    var before := Write(mem, tcb, Below(frame));
    WrittenHolds(before, Below(frame), saved);
    WrittenLeaves(before, Below(frame), saved, owner, Stack(i), tcb);
    forall k | 0 <= k < 8 ensures Written(before, Below(frame), saved)(At(frame, k)) == words[k] {
      forall j | 0 <= j < 8 ensures At(frame, k) != At(Below(frame), j) {
        FramesApart(frame, k, j);
      }
      WrittenElsewhere(before, Below(frame), saved, At(frame, k));
      assert owner(At(frame, k)) == Stack(i);
    }
  }

  lemma SavedSelf(g: Config, y: System, instruction: Word, next: Word)
    requires Inv(g, y) && Room(g, y)
    ensures var s := SaveOf(g, y, instruction, next);
      && Suspended(g.owner, s.mem, g.tcb[y.task], y.task, Context(y.cpu, next))
      && s.mem(At(s.msp, 0)) == g.current && s.mem(At(s.msp, 1)) == ExcReturn(y.cpu)
  {
    hide At, FrameFor, Below, Running, FrameWords, ExceptionEntry, Holds, ExcReturnFor, NumberOf, Owned, AllSuspended,
         CalleeSaved, Written, Down8, Aligned4;
    RunningOk(y.cpu);
    EntryIs(y.cpu, PENDSV, instruction, next);
    EntryLeaves(g, y, instruction, next, g.current);
    var e := Entered(y, instruction, next);
    var s := SaveOf(g, y, instruction, next);
    var frame := FrameFor(y.cpu.Sp());
    SameCalleeSaved(y.cpu, e);
    SavedAreas(e.mem, g.tcb[y.task], frame, FrameWords(y.cpu, next), CalleeSaved(e), g.owner, y.task);
    WordsApart(s.msp, 0, 1);
    PushesLeave(g, y.task, Written(Write(e.mem, g.tcb[y.task], Below(frame)), Below(frame), CalleeSaved(e)), s.mem,
                s.msp, ExcReturn(y.cpu), Context(y.cpu, next));
  }

  lemma SameCalleeSaved(c: Cpu, e: Cpu)
    requires c.Ok() && e.r == c.r
    ensures e.Ok() && CalleeSaved(e) == CalleeSaved(c)
  {
  }

  lemma PushesLeave(g: Config, i: nat, before: Memory, after: Memory, sp: Word, lr: Word, x: Context)
    requires g.owner(At(sp, 0)) == Kernel && g.owner(At(sp, 1)) == Kernel && i < |g.tcb| && g.Ok()
    requires after == Write(Write(before, At(sp, 0), g.current), At(sp, 1), lr)
    requires Suspended(g.owner, before, g.tcb[i], i, x)
    ensures Suspended(g.owner, after, g.tcb[i], i, x)
  {
    hide At, Suspended;
    StaysSuspended(g.owner, before, after, g.tcb[i], i, x);
  }
}
