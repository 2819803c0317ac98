/** The stack of a new task, as pxPortInitialiseStack of port.c writes it. */
module PortStack {
  import opened StackFrame
  import opened ContextSpec
  import opened PortSpec

  /** The four words of the frame that are written. */
  function InitialisedMemory(mem: Memory, top: Word, code: Word, parameter: Word, returnAddress: Word): Memory {
    var f := Below(top);
    var high := Write(Write(mem, At(f, 7), INITIAL_XPSR), At(f, 6), code);
    Write(Write(high, At(f, 5), returnAddress), At(f, 0), parameter)
  }

  /** Eight words of memory. */
  function Words(mem: Memory, f: Word): (words: seq<Word>)
    ensures |words| == 8 && Holds(mem, f, words)
  {
    [mem(At(f, 0)), mem(At(f, 1)), mem(At(f, 2)), mem(At(f, 3)),
     mem(At(f, 4)), mem(At(f, 5)), mem(At(f, 6)), mem(At(f, 7))]
  }

  /** The registers that such a stack stands for: those not written there are
      whatever the memory held. */
  function FreshRegisters(mem: Memory, f: Word, parameter: Word): (r: seq<Word>)
    ensures |r| == 13
  {
    [parameter, mem(At(f, 1)), mem(At(f, 2)), mem(At(f, 3))] + Words(mem, Below(f)) + [mem(At(f, 4))]
  }

  function FreshContext(mem: Memory, top: Word, code: Word, parameter: Word, returnAddress: Word): Context
  {
    Context(Cpu(FreshRegisters(mem, Below(top), parameter), 0, top, returnAddress, 0, INITIAL_XPSR,
                false, true, false, false, mem, {}, {}), code)
  }

  function Down(p: Word, bytes: Word): Word {
    p - bytes
  }

  lemma Top4(top: Word)
    ensures Down(top, 4) == At(Below(top), 7)
  {
  }

  lemma Top8(top: Word)
    ensures Down(Down(top, 4), 4) == At(Below(top), 6)
  {
  }

  lemma Top12(top: Word)
    ensures Down(Down(Down(top, 4), 4), 4) == At(Below(top), 5)
  {
  }

  lemma Top32(top: Word)
    ensures Down(Down(Down(Down(top, 4), 4), 4), 20) == At(Below(top), 0)
  {
  }

  lemma Top64(top: Word)
    ensures Down(Down(Down(Down(Down(top, 4), 4), 4), 20), 32) == Below(Below(top))
  {
  }

  class TaskStack {
    var mem: Memory

    /** pxPortInitialiseStack. */
    method Initialise(topOfStack: Word, code: Word, parameter: Word, returnAddress: Word) returns (top: Word)
      modifies this
      ensures mem == InitialisedMemory(old(mem), topOfStack, code, parameter, returnAddress)
      ensures top == Below(Below(topOfStack))
    {
      hide At, Below, Write, Down;
      Top4(topOfStack);
      Top8(topOfStack);
      Top12(topOfStack);
      Top32(topOfStack);
      Top64(topOfStack);
      top := Down(topOfStack, 4);
      mem := Write(mem, top, INITIAL_XPSR);
      top := Down(top, 4);
      mem := Write(mem, top, code);
      top := Down(top, 4);
      mem := Write(mem, top, returnAddress);
      top := Down(top, 20);
      mem := Write(mem, top, parameter);
      top := Down(top, 32);
    }
  }

  lemma EightAligned(top: Word)
    requires top & 7 == 0
    ensures Aligned4(top) == top && FrameFor(top) == Below(top)
    ensures WithAlign(INITIAL_XPSR, AlignBit(top)) == INITIAL_XPSR && NumberOf(INITIAL_XPSR) == 0
  {
  }

  lemma InitialisedFrame(mem: Memory, top: Word, code: Word, parameter: Word, returnAddress: Word)
    ensures var f := Below(top);
      Holds(InitialisedMemory(mem, top, code, parameter, returnAddress), f,
            [parameter, mem(At(f, 1)), mem(At(f, 2)), mem(At(f, 3)), mem(At(f, 4)), returnAddress, code, INITIAL_XPSR])
  {
    hide At, Below;
    forall i, j | 0 <= i < j < 8 ensures At(Below(top), i) != At(Below(top), j) {
      WordsApart(Below(top), i, j);
    }
  }

  lemma InitialisedBelow(mem: Memory, top: Word, code: Word, parameter: Word, returnAddress: Word)
    ensures var b := Below(Below(top));
      Holds(InitialisedMemory(mem, top, code, parameter, returnAddress), b, Words(mem, b))
  {
    hide At, Below;
    forall i, j | 0 <= i < 8 && 0 <= j < 8 ensures At(Below(top), i) != At(Below(Below(top)), j) {
      FramesApart(Below(top), i, j);
    }
  }

  lemma FreshWords(mem: Memory, top: Word, code: Word, parameter: Word, returnAddress: Word)
    requires top & 7 == 0
    ensures var x := FreshContext(mem, top, code, parameter, returnAddress);
      var f := Below(top);
      && x.before.Sp() == top && Frame(x) == f && CalleeSaved(x.before) == Words(mem, Below(f))
      && FrameWords(x.before, code) ==
         [parameter, mem(At(f, 1)), mem(At(f, 2)), mem(At(f, 3)), mem(At(f, 4)), returnAddress, code, INITIAL_XPSR]
  {
    hide At, Below, FrameFor, Aligned4, WithAlign, AlignBit, NumberOf, Words;
    EightAligned(top);
  }

  /** A task whose stack was initialised counts as suspended in that state. */
  lemma FreshIsSuspended(owner: Ownership, mem: Memory, mem': Memory, tcb: Word, i: nat, top: Word, code: Word,
                         parameter: Word, returnAddress: Word)
    requires top & 7 == 0 && owner(tcb) == Tcb(i)
    requires Owned(owner, Below(top), Stack(i)) && Owned(owner, Below(Below(top)), Stack(i))
    requires mem' == Write(InitialisedMemory(mem, top, code, parameter, returnAddress), tcb, Below(Below(top)))
    ensures Suspended(owner, mem', tcb, i, FreshContext(mem, top, code, parameter, returnAddress))
  {
    hide At, Below, FrameFor, Aligned4, WithAlign, AlignBit, NumberOf, InitialisedMemory, FrameWords, CalleeSaved,
         FreshRegisters, Words, Frame;
    EightAligned(top);
    FreshWords(mem, top, code, parameter, returnAddress);
    InitialisedFrame(mem, top, code, parameter, returnAddress);
    InitialisedBelow(mem, top, code, parameter, returnAddress);
    var m := InitialisedMemory(mem, top, code, parameter, returnAddress);
    var x := FreshContext(mem, top, code, parameter, returnAddress);
    HoldsIfSame(m, mem', Below(top), FrameWords(x.before, code));
    HoldsIfSame(m, mem', Below(Below(top)), CalleeSaved(x.before));
  }
}
