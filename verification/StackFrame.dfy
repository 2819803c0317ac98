/** Words, memory and the eight-word stack frame of an exception: sections B1.5.6
    and B1.5.8 of the ARMv6-M Architecture Reference Manual (ARM DDI 0419). */
module StackFrame {

  type Word = bv32
  type Memory = Word -> Word

  const THUMB: Word := 0x0100_0000
  const RETURN_TO_HANDLER: Word := 0xFFFF_FFF1
  const RETURN_TO_MAIN: Word := 0xFFFF_FFF9
  const RETURN_TO_PROCESS: Word := 0xFFFF_FFFD

  function Write(mem: Memory, address: Word, value: Word): Memory {
    a => if a == address then value else mem(a)
  }

  /** What the stack pointer register reads as. */
  function Aligned4(sp: Word): Word {
    sp & 0xFFFF_FFFC
  }

  function WithoutBit0(address: Word): Word {
    address & 0xFFFF_FFFE
  }

  function FrameFor(sp: Word): Word {
    (sp - 32) & 0xFFFF_FFFB
  }

  function AlignBit(sp: Word): Word {
    (sp >> 2) & 1
  }

  function WithAlign(xpsr: Word, bit: Word): Word {
    (xpsr & 0xFFFF_FDFF) | (bit << 9)
  }

  /** The stack pointer after the frame is popped. */
  function Unstacked(sp: Word, xpsr: Word): Word {
    (sp + 32) | (FrameBit(xpsr) << 2)
  }

  /** The flags, the exception number, the Thumb bit and bit 9. */
  function Kept(xpsr: Word): Word {
    xpsr & 0xF100_023F
  }

  /** What of it is meant to survive: without the alignment bit. */
  function Status(xpsr: Word): Word {
    xpsr & 0xF100_003F
  }

  /** The bits that are neither kept nor read as anything. */
  function Reserved(xpsr: Word): Word {
    xpsr & 0x0EFF_FDC0
  }

  /** Bit 9. */
  function FrameBit(xpsr: Word): Word {
    (xpsr >> 9) & 1
  }

  /** The exception number is six bits wide. */
  function NumberBits(xpsr: Word): bv6 {
    (xpsr & 0x3F) as bv6
  }

  function NumberOf(xpsr: Word): nat {
    NumberBits(xpsr) as nat
  }

  function SixBits(n: nat): bv6
    requires n < 64
  {
    n as bv6
  }

  function WithBits(xpsr: Word, n: bv6): Word {
    (xpsr & 0xFFFF_FFC0) | (n as Word)
  }

  function WithNumber(xpsr: Word, n: nat): Word
    requires n < 64
  {
    WithBits(xpsr, SixBits(n))
  }

  function WithThumb(xpsr: Word, address: Word): Word {
    (xpsr & 0xFEFF_FFFF) | ((address & 1) << 24)
  }

  /** Where r0-r3, r12, lr, the return address and xPSR are in a frame. */
  function At(frame: Word, k: nat): Word
    requires k < 8
  {
    if k == 0 then frame else if k == 1 then frame + 4 else if k == 2 then frame + 8 else if k == 3 then frame + 12
    else if k == 4 then frame + 16 else if k == 5 then frame + 20 else if k == 6 then frame + 24 else frame + 28
  }

  /** A frame as it is written, from the first word on. */
  function Written(mem: Memory, frame: Word, words: seq<Word>): Memory
    requires |words| <= 8
  {
    if words == [] then mem
    else
      var n := |words| - 1;
      Write(Written(mem, frame, words[..n]), At(frame, n), words[n])
  }

  ghost predicate Holds(mem: Memory, frame: Word, words: seq<Word>)
    requires |words| <= 8
  {
    forall k :: 0 <= k < |words| ==> mem(At(frame, k)) == words[k]
  }

  lemma WordsApart(frame: Word, i: nat, j: nat)
    requires i < j < 8
    ensures At(frame, i) != At(frame, j)
  {
  }

  lemma {:induction false} WrittenHolds(mem: Memory, frame: Word, words: seq<Word>)
    requires |words| <= 8
    ensures Holds(Written(mem, frame, words), frame, words)
  {
    hide At;
    if words != [] {
      var n := |words| - 1;
      WrittenHolds(mem, frame, words[..n]);
      forall k | 0 <= k < n ensures Written(mem, frame, words)(At(frame, k)) == words[k] {
        WordsApart(frame, k, n);
        assert Written(mem, frame, words[..n])(At(frame, k)) == words[..n][k];
      }
    }
  }

  lemma {:induction false} WrittenElsewhere(mem: Memory, frame: Word, words: seq<Word>, a: Word)
    requires |words| <= 8 && forall j :: 0 <= j < |words| ==> a != At(frame, j)
    ensures Written(mem, frame, words)(a) == mem(a)
  {
    hide At;
    if words != [] {
      WrittenElsewhere(mem, frame, words[..|words| - 1], a);
    }
  }

  /** Popping a frame gives back the stack pointer, whether or not it had bit 2
      set when the frame was made. */
  lemma UnstackedIsInverse(sp: Word, xpsr: Word)
    requires Aligned4(sp) == sp
    ensures Unstacked(FrameFor(sp), WithAlign(xpsr, AlignBit(sp))) == sp
    ensures Aligned4(FrameFor(sp)) == FrameFor(sp)
  {
  }

  lemma AlignedOnce(sp: Word)
    ensures Aligned4(Aligned4(sp)) == Aligned4(sp)
  {
  }

  /** Through a frame, xPSR keeps its status bits; bit 9 becomes the alignment. */
  lemma StatusSurvives(xpsr: Word, bit: Word)
    requires bit == 0 || bit == 1
    ensures Kept(WithAlign(xpsr, bit)) == Status(xpsr) | (bit << 9)
    ensures Status(Kept(WithAlign(xpsr, bit))) == Status(xpsr) == xpsr & 0xF100_003F
  {
  }

  /** All of it comes back just when the reserved bits are clear and bit 9
      already says how the stack pointer is aligned. */
  lemma WholeStatusSurvives(xpsr: Word, bit: Word)
    requires bit == 0 || bit == 1
    ensures Kept(WithAlign(xpsr, bit)) == xpsr <==> Reserved(xpsr) == 0 && FrameBit(xpsr) == bit
  {
  }

  lemma NumberBitsSurvive(xpsr: Word, bit: Word)
    requires bit == 0 || bit == 1
    ensures NumberBits(Kept(WithAlign(xpsr, bit))) == NumberBits(xpsr)
  {
  }

  lemma NumberSurvives(xpsr: Word, bit: Word)
    requires bit == 0 || bit == 1
    ensures NumberOf(Kept(WithAlign(xpsr, bit))) == NumberOf(xpsr)
  {
    hide NumberBits, Kept, WithAlign;
    NumberBitsSurvive(xpsr, bit);
  }

  lemma AlignBitIsBit(sp: Word)
    ensures AlignBit(sp) == 0 || AlignBit(sp) == 1
  {
  }

  lemma NumberBitsReadBack(xpsr: Word, n: bv6, address: Word)
    ensures NumberBits(WithThumb(WithBits(xpsr, n), address)) == n
  {
  }

  lemma SixBitsReadBack(n: nat)
    requires n < 64
    ensures SixBits(n) as nat == n
  {
  }

  lemma NumberReadsBack(xpsr: Word, n: nat, address: Word)
    requires n < 64
    ensures NumberOf(WithThumb(WithNumber(xpsr, n), address)) == n
  {
    hide NumberBits, WithBits, SixBits, WithThumb;
    SixBitsReadBack(n);
    NumberBitsReadBack(xpsr, SixBits(n), address);
  }

  lemma ZeroBits(xpsr: Word)
    requires NumberBits(xpsr) == 0
    ensures WithBits(xpsr, 0) == xpsr
  {
  }

  lemma ZeroNumber(xpsr: Word)
    requires NumberOf(xpsr) == 0
    ensures WithNumber(xpsr, 0) == xpsr
  {
    hide NumberBits, WithBits;
    ZeroBits(xpsr);
  }
}
