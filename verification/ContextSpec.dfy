/** Exception entry and return on values: context_switcher.hpp and
    interworking_brancher.hpp. */
module ContextSpec {
  import opened StackFrame

  const HARDFAULT := 3

  /** The registers, PRIMASK, the execution mode, memory, and which exceptions are
      active or pending. */
  datatype Cpu = Cpu(r: seq<Word>, msp: Word, psp: Word, lr: Word, pc: Word, xpsr: Word,
                     primask: bool, spSel: bool, nPriv: bool, handler: bool, mem: Memory,
                     active: set<nat>, pending: set<nat>) {

    ghost predicate Ok() {
      |r| == 13
    }

    predicate UsesPsp() {
      !handler && spSel
    }

    /** The stack pointer as it reads, in the bank that the mode selects. */
    function Sp(): Word {
      Aligned4(if UsesPsp() then psp else msp)
    }

    function WithSp(sp: Word): Cpu {
      if UsesPsp() then this.(psp := sp) else this.(msp := sp)
    }

    function Pc(): Word {
      WithoutBit0(pc)
    }
  }

  // -------------------------------------------------------------------- entry

  function FrameWords(c: Cpu, returnAddress: Word): (words: seq<Word>)
    requires c.Ok()
    ensures |words| == 8
  {
    [c.r[0], c.r[1], c.r[2], c.r[3], c.r[12], c.lr, returnAddress, WithAlign(c.xpsr, AlignBit(c.Sp()))]
  }

  function ExcReturnFor(handler: bool, spSel: bool): Word {
    if handler then RETURN_TO_HANDLER else if !spSel then RETURN_TO_MAIN else RETURN_TO_PROCESS
  }

  function ExcReturn(c: Cpu): Word {
    ExcReturnFor(c.handler, c.spSel)
  }

  function PushStack(c: Cpu, returnAddress: Word): Cpu
    requires c.Ok()
  {
    var frame := FrameFor(c.Sp());
    c.WithSp(frame).(mem := Written(c.mem, frame, FrameWords(c, returnAddress)), lr := ExcReturn(c))
  }

  function BranchLink(c: Cpu, address: Word): Cpu {
    c.(xpsr := WithThumb(c.xpsr, address), pc := WithoutBit0(WithoutBit0(address)))
  }

  function ReturnAddress(n: nat, instruction: Word, next: Word): Word {
    if n == HARDFAULT then instruction else next
  }

  /** Where the vector of exception n is. */
  function VectorAddress(n: nat): Word
    requires n < 32
  {
    (4 * n) as Word
  }

  function ExceptionEntry(c: Cpu, n: nat, instruction: Word, next: Word): Cpu
    requires c.Ok() && n < 32
  {
    var p := PushStack(c, ReturnAddress(n, instruction, next));
    var q := p.(handler := true, xpsr := WithNumber(p.xpsr, n), spSel := false,
                active := p.active + {n}, pending := p.pending - {n});
    BranchLink(q, q.mem(VectorAddress(n)))
  }

  // ------------------------------------------------------------------- return

  /** The low four bits say where to return to. */
  function Kind(returnAddress: Word): Word {
    returnAddress & 0xF
  }

  function ReturnBits(address: Word): Word {
    address & 0x0FFF_FFFF
  }

  predicate IsExcReturn(address: Word) {
    (address >> 28) & 0xF == 0xF
  }

  function UnstackedMsp(kind: Word, msp: Word, xpsr: Word): Word {
    if kind == 1 || kind == 9 then Unstacked(msp, xpsr) else msp
  }

  function UnstackedPsp(kind: Word, psp: Word, xpsr: Word): Word {
    if kind == 13 then Unstacked(psp, xpsr) else psp
  }

  function RestoredXpsr(xpsr: Word, forceThread: bool): Word {
    if forceThread then WithNumber(Kept(xpsr), 0) else Kept(xpsr)
  }

  function RestoredRegisters(r: seq<Word>, m: Memory, frame: Word): seq<Word>
    requires |r| == 13
  {
    r[0 := m(At(frame, 0))][1 := m(At(frame, 1))][2 := m(At(frame, 2))][3 := m(At(frame, 3))][12 := m(At(frame, 4))]
  }

  function PopStack(c: Cpu, frame: Word, returnAddress: Word): Cpu
    requires c.Ok()
  {
    var xpsr := c.mem(At(frame, 7));
    var kind := Kind(returnAddress);
    c.(r := RestoredRegisters(c.r, c.mem, frame), lr := c.mem(At(frame, 5)), pc := c.mem(At(frame, 6)),
       msp := UnstackedMsp(kind, c.msp, xpsr), psp := UnstackedPsp(kind, c.psp, xpsr),
       xpsr := RestoredXpsr(xpsr, !c.handler && c.nPriv))
  }

  datatype Target = Target(handler: bool, spSel: bool, frame: Word)

  /** The mode, the stack and the frame that EXC_RETURN selects; on a mismatch
      with the number of active exceptions nothing is selected and the frame is
      at 0. */
  function ReturnTarget(c: Cpu, kind: Word): Target {
    if kind == 1 && |c.active| != 1 then Target(true, false, c.msp)
    else if kind == 9 && |c.active| == 1 then Target(false, false, c.msp)
    else if kind == 13 && |c.active| == 1 then Target(false, true, c.psp)
    else Target(c.handler, c.spSel, 0)
  }

  function ExceptionReturn(c: Cpu, returnAddress: Word): Cpu
    requires c.Ok() && c.handler
  {
    var target := ReturnTarget(c, Kind(returnAddress));
    PopStack(c.(handler := target.handler, spSel := target.spSel, active := c.active - {NumberOf(c.xpsr)}),
             target.frame, returnAddress)
  }

  function BranchInterworking(c: Cpu, address: Word): Cpu
    requires c.Ok()
  {
    if c.handler && IsExcReturn(address) then ExceptionReturn(c, ReturnBits(address))
    else c.(xpsr := WithThumb(c.xpsr, address), pc := WithoutBit0(address))
  }

  // -------------------------------------------------------------------- facts

  /** Whether the exception is taken from a handler shows in EXC_RETURN. */
  lemma ExcReturnKinds(c: Cpu)
    ensures IsExcReturn(ExcReturn(c))
    ensures Kind(ReturnBits(ExcReturn(c))) == if c.handler then 1 else if !c.spSel then 9 else 13
  {
  }

  lemma EntryIs(c: Cpu, n: nat, instruction: Word, next: Word)
    requires c.Ok() && n < 32
    ensures var e := ExceptionEntry(c, n, instruction, next);
      && e.handler && !e.spSel && e.nPriv == c.nPriv && e.primask == c.primask
      && e.active == c.active + {n} && e.pending == c.pending - {n}
      && e.lr == ExcReturn(c) && NumberOf(e.xpsr) == n && e.r == c.r && e.Ok()
      && (if c.UsesPsp() then e.psp == FrameFor(c.Sp()) && e.msp == c.msp
          else e.msp == FrameFor(c.Sp()) && e.psp == c.psp)
      && e.mem == Written(c.mem, FrameFor(c.Sp()), FrameWords(c, ReturnAddress(n, instruction, next)))
      && Holds(e.mem, FrameFor(c.Sp()), FrameWords(c, ReturnAddress(n, instruction, next)))
  {
    hide NumberOf, WithNumber, WithThumb, WithoutBit0, FrameFor, Aligned4, ExcReturn, Holds, FrameWords, Written,
         VectorAddress;
    var p := PushStack(c, ReturnAddress(n, instruction, next));
    WrittenHolds(c.mem, FrameFor(c.Sp()), FrameWords(c, ReturnAddress(n, instruction, next)));
    NumberReadsBack(p.xpsr, n, p.mem(VectorAddress(n)));
  }

  lemma VectorIs(n: nat, a: Word)
    requires n < 32 && a as nat == 4 * n
    ensures VectorAddress(n) == a
  {
  }

  /** The handler runs from its entry in the vector table, the n-th word of memory,
      in Thumb state just if the address there has bit 0 set. */
  lemma EntryBranches(c: Cpu, n: nat, instruction: Word, next: Word, vector: Word)
    requires c.Ok() && n < 32 && vector as nat == 4 * n
    ensures var e := ExceptionEntry(c, n, instruction, next);
      && e.Pc() == e.mem(vector) & 0xFFFF_FFFE
      && (e.xpsr & 0x0100_0000 != 0 <==> e.mem(vector) & 1 != 0)
  {
    VectorIs(n, vector);
    hide PushStack, WithNumber, WithThumb, WithoutBit0, VectorAddress;
    var q := ExceptionEntry(c, n, instruction, next);
    var address := q.mem(VectorAddress(n));
    SameBit0(address);
    ThumbIsBit0(WithNumber(PushStack(c, ReturnAddress(n, instruction, next)).xpsr, n), address);
  }

  lemma SameBit0(address: Word)
    ensures WithoutBit0(WithoutBit0(address)) == WithoutBit0(address) == address & 0xFFFF_FFFE
  {
  }

  lemma ThumbIsBit0(xpsr: Word, address: Word)
    ensures WithThumb(xpsr, address) & 0x0100_0000 != 0 <==> address & 1 != 0
    ensures WithThumb(xpsr, address) & 0xFEFF_FFFF == xpsr & 0xFEFF_FFFF
  {
  }

  /** The frame of an exception taken in state `c` is intact in state `h`: its
      words are there, and the stack pointer that was used is back at it. */
  ghost predicate FrameIntact(c: Cpu, returnAddress: Word, h: Cpu)
    requires c.Ok()
  {
    && (if c.UsesPsp() then h.psp else h.msp) == FrameFor(c.Sp())
    && Holds(h.mem, FrameFor(c.Sp()), FrameWords(c, returnAddress))
  }

  /** Modes agree with the active exceptions, as the architecture has it. */
  ghost predicate ModesOk(c: Cpu) {
    && c.Ok()
    && (c.handler <==> c.active != {})
    && (c.handler ==> !c.spSel)
    && (!c.handler ==> NumberOf(c.xpsr) == 0)
  }

  lemma ReturnTargetIs(c: Cpu, h: Cpu, n: nat)
    requires ModesOk(c) && n !in c.active && h.active == c.active + {n} && h.handler
    ensures ReturnTarget(h, Kind(ReturnBits(ExcReturn(c)))) ==
            Target(c.handler, c.spSel, if c.UsesPsp() then h.psp else h.msp)
  {
    hide ExcReturn, Kind, ReturnBits;
    ExcReturnKinds(c);
    if c.active == {} {
      assert h.active == {n};
    } else {
      var m :| m in c.active;
      TwoElements(h.active, m, n);
    }
  }

  lemma TwoElements(s: set<nat>, a: nat, b: nat)
    requires a in s && b in s && a != b
    ensures |s| >= 2
  {
    var t := s - {a};
    assert b in t && |t| == |s| - 1;
  }

  /** r0-r3 and r12 of the one, the rest of the other. */
  function CallerSavedFrom(r: seq<Word>, saved: seq<Word>): seq<Word>
    requires |r| == 13 && |saved| == 13
  {
    r[0 := saved[0]][1 := saved[1]][2 := saved[2]][3 := saved[3]][12 := saved[12]]
  }

  lemma PopIs(c: Cpu, d: Cpu, returnAddress: Word)
    requires ModesOk(c) && d.Ok() && d.handler == c.handler && FrameIntact(c, returnAddress, d)
    ensures var u := PopStack(d, FrameFor(c.Sp()), ReturnBits(ExcReturn(c)));
      && u.r == CallerSavedFrom(d.r, c.r)
      && u.lr == c.lr && u.pc == returnAddress
      && u.xpsr == Kept(WithAlign(c.xpsr, AlignBit(c.Sp())))
      && (if c.UsesPsp() then u.psp == c.Sp() && u.msp == d.msp else u.msp == c.Sp() && u.psp == d.psp)
      && u.handler == d.handler && u.spSel == d.spSel && u.nPriv == d.nPriv && u.primask == d.primask
      && u.active == d.active && u.pending == d.pending && u.mem == d.mem
  {
    hide ExcReturn, Kind, ReturnBits, IsExcReturn, Kept, WithAlign, AlignBit, Aligned4, Unstacked, FrameFor, NumberOf,
         WithNumber, At;
    ExcReturnKinds(c);
    AlignBitIsBit(c.Sp());
    SpIsAligned(c);
    UnstackedIsInverse(c.Sp(), c.xpsr);
    NumberSurvives(c.xpsr, AlignBit(c.Sp()));
    if !c.handler {
      ZeroNumber(Kept(WithAlign(c.xpsr, AlignBit(c.Sp()))));
    }
  }

  lemma SpIsAligned(c: Cpu)
    ensures Aligned4(c.Sp()) == c.Sp()
  {
    AlignedOnce(if c.UsesPsp() then c.psp else c.msp);
  }

  /** The state between the choice of the frame and the pop. */
  function Leaving(c: Cpu, h: Cpu): Cpu {
    h.(handler := c.handler, spSel := c.spSel, active := c.active)
  }

  lemma BranchReturns(c: Cpu, n: nat, returnAddress: Word, h: Cpu)
    requires ModesOk(c) && n !in c.active && h.Ok() && h.handler
    requires NumberOf(h.xpsr) == n && h.active == c.active + {n} && FrameIntact(c, returnAddress, h)
    ensures BranchInterworking(h, ExcReturn(c)) ==
            PopStack(Leaving(c, h), FrameFor(c.Sp()), ReturnBits(ExcReturn(c)))
  {
    hide ExcReturn, Kind, ReturnBits, IsExcReturn, FrameFor, NumberOf, Holds, PopStack, ReturnTarget;
    ExcReturnKinds(c);
    ReturnTargetIs(c, h, n);
    assert h.active - {n} == c.active;
  }

  /** Exception entry, then whatever the handler does as long as the frame stays
      intact, then the branch to EXC_RETURN: the interrupted context is back. */
  lemma EntryReturnRestores(c: Cpu, n: nat, instruction: Word, next: Word, e: Cpu, h: Cpu)
    requires ModesOk(c) && 0 < n < 32 && n !in c.active && e == ExceptionEntry(c, n, instruction, next)
    requires h.Ok() && h.handler && NumberOf(h.xpsr) == n && h.active == e.active
    requires FrameIntact(c, ReturnAddress(n, instruction, next), h)
    ensures var u := BranchInterworking(h, e.lr);
      && u.r == CallerSavedFrom(h.r, c.r)
      && u.lr == c.lr && u.Pc() == WithoutBit0(ReturnAddress(n, instruction, next))
      && Status(u.xpsr) == Status(c.xpsr) && NumberOf(u.xpsr) == NumberOf(c.xpsr)
      && (u.xpsr == c.xpsr <==> Reserved(c.xpsr) == 0 && FrameBit(c.xpsr) == AlignBit(c.Sp()))
      && u.Sp() == c.Sp() && (if c.UsesPsp() then u.msp == h.msp else u.psp == h.psp)
      && u.handler == c.handler && u.spSel == c.spSel && u.nPriv == h.nPriv && u.primask == h.primask
      && u.active == c.active && u.mem == h.mem && u.pending == h.pending
      && ModesOk(u)
  {
    hide ExcReturn, Kind, ReturnBits, IsExcReturn, Kept, WithAlign, AlignBit, Aligned4, Unstacked, FrameFor, NumberOf,
         WithNumber, At, Status, Reserved, FrameBit, WithoutBit0, WithThumb, Holds, PopStack, ReturnTarget,
         BranchInterworking, ExceptionEntry;
    EntryIs(c, n, instruction, next);
    var returnAddress := ReturnAddress(n, instruction, next);
    BranchReturns(c, n, returnAddress, h);
    PopIs(c, Leaving(c, h), returnAddress);
    SpIsAligned(c);
    AlignBitIsBit(c.Sp());
    StatusSurvives(c.xpsr, AlignBit(c.Sp()));
    WholeStatusSurvives(c.xpsr, AlignBit(c.Sp()));
    NumberSurvives(c.xpsr, AlignBit(c.Sp()));
  }
}
