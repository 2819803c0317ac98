/** Exception entry and interworking branches in terms of addresses and words:
    sections B1.5.6 and B1.5.7 of the ARMv6-M Architecture Reference Manual
    (ARM DDI 0419). */
module EntryFrames {
  import opened StackFrame
  import opened ContextSpec

  function LowBitsClear(sp: Word): Word {
    sp & 0xFFFF_FFFC
  }

  /** The stack pointer in use, its low two bits reading as zero. */
  function StackPointer(c: Cpu): Word {
    LowBitsClear(if !c.handler && c.spSel then c.psp else c.msp)
  }

  /** Where it is after an entry from state c. */
  function StackPointerAfter(c: Cpu, e: Cpu): Word {
    if !c.handler && c.spSel then e.psp else e.msp
  }

  lemma LowBitsRead(sp: Word)
    ensures LowBitsClear(sp) == Aligned4(sp)
  {
  }

  lemma StackPointerIs(c: Cpu)
    ensures StackPointer(c) == c.Sp()
  {
    hide LowBitsClear, Aligned4;
    LowBitsRead(if c.UsesPsp() then c.psp else c.msp);
  }

  lemma FrameIsBelow(sp: Word)
    requires Aligned4(sp) == sp
    ensures IsBelow(FrameFor(sp), sp)
  {
  }

  lemma StackedStatus(xpsr: Word, sp: Word)
    ensures StackedXpsr(WithAlign(xpsr, AlignBit(sp)), xpsr, sp)
  {
  }

  lemma PlacesInFrame(frame: Word)
    ensures At(frame, 0) == frame && At(frame, 1) == frame + 4 && At(frame, 2) == frame + 8
    ensures At(frame, 3) == frame + 12 && At(frame, 4) == frame + 16 && At(frame, 5) == frame + 20
    ensures At(frame, 6) == frame + 24 && At(frame, 7) == frame + 28
  {
  }

  /** None of the eight words from the frame's address on. */
  predicate Outside(frame: Word, a: Word) {
    && a != frame && a != frame + 4 && a != frame + 8 && a != frame + 12
    && a != frame + 16 && a != frame + 20 && a != frame + 24 && a != frame + 28
  }

  lemma OutsideFrame(frame: Word, a: Word, k: nat)
    requires Outside(frame, a) && k < 8
    ensures a != At(frame, k)
  {
  }

  /** The eight words that an entry stacks, the lowest first: the last is xPSR,
      with the alignment of the stack pointer in bit 9. */
  ghost predicate Stacked(m: Memory, frame: Word, c: Cpu, returnAddress: Word)
    requires c.Ok()
  {
    && m(frame) == c.r[0] && m(frame + 4) == c.r[1] && m(frame + 8) == c.r[2] && m(frame + 12) == c.r[3]
    && m(frame + 16) == c.r[12] && m(frame + 20) == c.lr && m(frame + 24) == returnAddress
    && StackedXpsr(m(frame + 28), c.xpsr, StackPointer(c))
  }

  ghost predicate StackedXpsr(w: Word, xpsr: Word, sp: Word) {
    w & 0xFFFF_FDFF == xpsr & 0xFFFF_FDFF && (w & 0x200 != 0 <==> sp & 4 != 0)
  }

  /** A frame is below the stack pointer and a multiple of eight. */
  ghost predicate IsBelow(frame: Word, sp: Word) {
    frame & 7 == 0 && sp - frame == if sp & 4 != 0 then 36 else 32
  }

  ghost predicate SameOutside(m: Memory, m': Memory, frame: Word) {
    forall a :: Outside(frame, a) ==> m'(a) == m(a)
  }

  lemma HeldIsStacked(m: Memory, frame: Word, c: Cpu, returnAddress: Word)
    requires c.Ok() && Holds(m, frame, FrameWords(c, returnAddress))
    ensures Stacked(m, frame, c, returnAddress)
  {
    hide At, WithAlign, AlignBit, Aligned4, StackedXpsr, StackPointer;
    PlacesInFrame(frame);
    StackPointerIs(c);
    StackedStatus(c.xpsr, c.Sp());
    var words := FrameWords(c, returnAddress);
    assert m(At(frame, 0)) == words[0] && m(At(frame, 1)) == words[1] && m(At(frame, 2)) == words[2];
    assert m(At(frame, 3)) == words[3] && m(At(frame, 4)) == words[4] && m(At(frame, 5)) == words[5];
    assert m(At(frame, 6)) == words[6] && m(At(frame, 7)) == words[7];
  }

  lemma WritesInFrame(m: Memory, frame: Word, words: seq<Word>)
    requires |words| <= 8
    ensures SameOutside(m, Written(m, frame, words), frame)
  {
    hide At, Written, Outside;
    forall a | Outside(frame, a) ensures Written(m, frame, words)(a) == m(a) {
      forall k | 0 <= k < |words| ensures a != At(frame, k) { OutsideFrame(frame, a, k); }
      WrittenElsewhere(m, frame, words, a);
    }
  }

  /** What an entry leaves in memory and in lr: r0-r3, r12, lr, the return address
      and xPSR in this order in the 32 bytes from the new stack pointer on, which
      is eight-aligned below the old one, and nothing else; lr says from where. */
  lemma EntryStacks(c: Cpu, n: nat, instruction: Word, next: Word)
    requires c.Ok() && n < 32
    ensures var e := ExceptionEntry(c, n, instruction, next);
      var frame := StackPointerAfter(c, e);
      && IsBelow(frame, StackPointer(c))
      && Stacked(e.mem, frame, c, if n == 3 then instruction else next)
      && SameOutside(c.mem, e.mem, frame)
      && e.lr == (if c.handler then 0xFFFF_FFF1 else if c.spSel then 0xFFFF_FFFD else 0xFFFF_FFF9)
  {
    hide ExceptionEntry, FrameFor, WithAlign, AlignBit, Aligned4, NumberOf, Written, Holds, FrameWords, Stacked,
         SameOutside, StackPointer, IsBelow, StackedXpsr;
    var returnAddress := ReturnAddress(n, instruction, next);
    EntryIs(c, n, instruction, next);
    StackPointerIs(c);
    SpIsAligned(c);
    FrameIsBelow(c.Sp());
    var e := ExceptionEntry(c, n, instruction, next);
    HeldIsStacked(e.mem, FrameFor(c.Sp()), c, returnAddress);
    WritesInFrame(c.mem, FrameFor(c.Sp()), FrameWords(c, returnAddress));
  }

  /** The ways to return that agree with what is active: to a handler while others
      are active, to thread mode on either stack from the last one. */
  predicate Agrees(kind: Word, active: set<nat>) {
    (kind == 1 && |active| != 1) || (kind == 9 && |active| == 1) || (kind == 13 && |active| == 1)
  }

  /** Each of them selects its mode, stack and frame; any other value, or a mismatch
      with what is active, selects nothing. */
  lemma ReturnSelects(c: Cpu, kind: Word)
    ensures Agrees(kind, c.active) ==>
      ReturnTarget(c, kind) == Target(kind == 1, kind == 13, if kind == 13 then c.psp else c.msp)
    ensures !Agrees(kind, c.active) ==> ReturnTarget(c, kind) == Target(c.handler, c.spSel, 0)
  {
  }

  /** The top four bits are set. */
  predicate TopBits(address: Word) {
    address >= 0xF000_0000
  }

  lemma ReturnsByTopBits(address: Word)
    ensures IsExcReturn(address) == TopBits(address)
  {
  }

  /** The program counter and xPSR after a branch. */
  ghost predicate GoesTo(pc: Word, xpsr': Word, xpsr: Word, address: Word) {
    && pc == address & 0xFFFF_FFFE
    && xpsr' & 0xFEFF_FFFF == xpsr & 0xFEFF_FFFF && (xpsr' & 0x0100_0000 != 0 <==> address & 1 != 0)
  }

  lemma BranchGoesTo(xpsr: Word, address: Word)
    ensures GoesTo(WithoutBit0(address), WithThumb(xpsr, address), xpsr, address)
  {
  }

  /** An interworking branch that is not an exception return goes to the address
      less its bit 0, which becomes the Thumb flag, and changes nothing else. */
  lemma OtherBranches(c: Cpu, address: Word)
    requires c.Ok() && !(c.handler && TopBits(address))
    ensures var u := BranchInterworking(c, address);
      u == c.(pc := u.pc, xpsr := u.xpsr) && GoesTo(u.pc, u.xpsr, c.xpsr, address)
  {
    hide WithThumb, WithoutBit0, IsExcReturn, GoesTo, TopBits;
    BranchGoesTo(c.xpsr, address);
    ReturnsByTopBits(address);
  }
}
