/** The context switcher and the interworking brancher as they write registers,
    modes and stack memory in place, each method shown to be its function in
    ContextSpec. */
module ContextSwitchers {
  import opened StackFrame
  import opened ContextSpec

  class ContextSwitcher {
    var r: seq<Word>           // r0-r12
    var msp: Word              // the two banked stack pointers
    var psp: Word
    var lr: Word
    var pc: Word
    var xpsr: Word
    var primask: bool
    var spSel: bool
    var nPriv: bool
    var handler: bool
    var mem: Memory
    var active: set<nat>
    var pending: set<nat>

    ghost predicate Valid()
      reads this
    {
      |r| == 13
    }

    ghost function State(): (c: Cpu)
      reads this
      ensures Valid() ==> c.Ok()
    {
      Cpu(r, msp, psp, lr, pc, xpsr, primask, spSel, nPriv, handler, mem, active, pending)
    }

    method GetSp() returns (sp: Word)
      ensures sp == State().Sp()
    {
      sp := Aligned4(if !handler && spSel then psp else msp);
    }

    method SetSp(sp: Word)
      modifies `msp, `psp
      ensures State() == old(State()).WithSp(sp)
    {
      if !handler && spSel {
        psp := sp;
      } else {
        msp := sp;
      }
    }

    method Write32(address: Word, value: Word)
      modifies `mem
      ensures mem == Write(old(mem), address, value)
    {
      mem := Write(mem, address, value);
    }

    method PushStack(returnAddress: Word)
      requires Valid()
      modifies `msp, `psp, `mem, `lr
      ensures State() == ContextSpec.PushStack(old(State()), returnAddress)
    {
      hide Aligned4, FrameFor, WithAlign, AlignBit, Written, ExcReturnFor;
      var sp := GetSp();
      var frame := FrameFor(sp);
      SetSp(frame);
      var status := WithAlign(xpsr, AlignBit(sp));
      WriteFrame(frame, returnAddress, status);
      assert FrameWords(old(State()), returnAddress) == [r[0], r[1], r[2], r[3], r[12], lr, returnAddress, status];
      SetExcReturn();
    }

    method WriteFrame(frame: Word, returnAddress: Word, status: Word)
      requires Valid()
      modifies `mem
      ensures mem == Written(old(mem), frame, [r[0], r[1], r[2], r[3], r[12], lr, returnAddress, status])
    {
      hide Write, At, Written;
      Write32(At(frame, 0), r[0]);
      Write32(At(frame, 1), r[1]);
      Write32(At(frame, 2), r[2]);
      Write32(At(frame, 3), r[3]);
      Write32(At(frame, 4), r[12]);
      Write32(At(frame, 5), lr);
      Write32(At(frame, 6), returnAddress);
      Write32(At(frame, 7), status);
      WrittenInTurn(old(mem), frame, [r[0], r[1], r[2], r[3], r[12], lr, returnAddress, status]);
    }

    method SetExcReturn()
      modifies `lr
      ensures lr == ExcReturnFor(handler, spSel)
    {
      if handler {
        lr := 0xFFFF_FFF1;
      } else if !spSel {
        lr := 0xFFFF_FFF9;
      } else {
        lr := 0xFFFF_FFFD;
      }
    }

    method PopStack(frame: Word, returnAddress: Word)
      requires Valid()
      modifies `r, `msp, `psp, `lr, `pc, `xpsr
      ensures State() == ContextSpec.PopStack(old(State()), frame, returnAddress)
      ensures Valid()
    {
      hide RestoredXpsr, At, Kind, UnstackedMsp, UnstackedPsp, RestoredRegisters;
      PopRegisters(frame);
      var status := mem(At(frame, 7));
      UnstackSp(Kind(returnAddress), status);
      RestoreXpsr(status);
    }

    method RestoreXpsr(status: Word)
      modifies `xpsr
      ensures xpsr == RestoredXpsr(status, !handler && nPriv)
    {
      hide Kept, WithNumber;
      xpsr := Kept(status);
      if !handler && nPriv {
        xpsr := WithNumber(xpsr, 0);
      }
    }

    method PopRegisters(frame: Word)
      requires Valid()
      modifies `r, `lr, `pc
      ensures Valid()
      ensures r == RestoredRegisters(old(r), mem, frame)
      ensures lr == mem(At(frame, 5)) && pc == mem(At(frame, 6))
    {
      hide At;
      r := r[0 := mem(At(frame, 0))];
      r := r[1 := mem(At(frame, 1))];
      r := r[2 := mem(At(frame, 2))];
      r := r[3 := mem(At(frame, 3))];
      r := r[12 := mem(At(frame, 4))];
      lr := mem(At(frame, 5));
      pc := mem(At(frame, 6));
    }

    method UnstackSp(kind: Word, status: Word)
      modifies `msp, `psp
      ensures msp == UnstackedMsp(kind, old(msp), status) && psp == UnstackedPsp(kind, old(psp), status)
    {
      hide Unstacked;
      if kind == 1 || kind == 9 {
        msp := Unstacked(msp, status);
      } else if kind == 13 {
        psp := Unstacked(psp, status);
      }
    }

    /** Handler mode, for exception number n. */
    method Activate(n: nat)
      requires n < 32
      modifies `handler, `xpsr, `spSel, `active, `pending
      ensures State() == old(State()).(handler := true, xpsr := WithNumber(old(xpsr), n), spSel := false,
                                       active := old(active) + {n}, pending := old(pending) - {n})
    {
      hide WithNumber;
      handler := true;
      xpsr := WithNumber(xpsr, n);
      spSel := false;
      active := active + {n};
      pending := pending - {n};
    }

    /** exception_entry, for the pending exception number n. */
    method ExceptionEntry(n: nat, instruction: Word, next: Word)
      requires Valid() && n < 32
      modifies `msp, `psp, `mem, `lr, `handler, `xpsr, `spSel, `active, `pending, `pc
      ensures State() == ContextSpec.ExceptionEntry(old(State()), n, instruction, next)
    {
      hide WithNumber, WithThumb, WithoutBit0, ContextSpec.PushStack, VectorAddress;
      var returnAddress := if n == HARDFAULT then instruction else next;
      PushStack(returnAddress);
      Activate(n);
      var address := mem(VectorAddress(n));
      BranchLinkInterworking(address);
    }

    method BranchLinkInterworking(address: Word)
      modifies `xpsr, `pc
      ensures State() == BranchLink(old(State()), address)
    {
      xpsr := WithThumb(xpsr, address);
      var target := WithoutBit0(address);
      pc := WithoutBit0(target);
    }

    method ExceptionReturn(returnAddress: Word)
      requires Valid() && handler
      modifies this
      ensures State() == ContextSpec.ExceptionReturn(old(State()), returnAddress)
      ensures Valid()
    {
      hide NumberOf, Kind, ContextSpec.PopStack, ReturnTarget;
      var from := NumberOf(xpsr);
      var frame := SelectTarget(Kind(returnAddress));
      active := active - {from};
      PopStack(frame, returnAddress);
    }

    /** The switch of exception_return. */
    method SelectTarget(kind: Word) returns (frame: Word)
      requires handler
      modifies `handler, `spSel
      ensures Target(handler, spSel, frame) == ReturnTarget(old(State()), kind)
    {
      frame := 0;
      if kind == 1 {
        if |active| != 1 {
          frame := msp;
          handler := true;
          spSel := false;
        }
      } else if kind == 9 {
        if |active| == 1 {
          frame := msp;
          handler := false;
          spSel := false;
        }
      } else if kind == 13 {
        if |active| == 1 {
          frame := psp;
          handler := false;
          spSel := true;
        }
      }
    }

    method BranchInterworking(address: Word)
      requires Valid()
      modifies this
      ensures State() == ContextSpec.BranchInterworking(old(State()), address)
    {
      hide ContextSpec.ExceptionReturn, IsExcReturn, ReturnBits, WithThumb, WithoutBit0;
      if handler && IsExcReturn(address) {
        ExceptionReturn(ReturnBits(address));
      } else {
        xpsr := WithThumb(xpsr, address);
        pc := WithoutBit0(address);
      }
    }
  }

  lemma WrittenInTurn(mem: Memory, frame: Word, words: seq<Word>)
    requires |words| == 8
    ensures Written(mem, frame, words) ==
            Write(Write(Write(Write(Write(Write(Write(Write(mem, At(frame, 0), words[0]), At(frame, 1), words[1]),
              At(frame, 2), words[2]), At(frame, 3), words[3]), At(frame, 4), words[4]), At(frame, 5), words[5]),
              At(frame, 6), words[6]), At(frame, 7), words[7])
  {
    hide Write, At;
    WrittenLast(mem, frame, words, 8);
    WrittenLast(mem, frame, words, 7);
    WrittenLast(mem, frame, words, 6);
    WrittenLast(mem, frame, words, 5);
    WrittenLast(mem, frame, words, 4);
    WrittenLast(mem, frame, words, 3);
    WrittenLast(mem, frame, words, 2);
    WrittenLast(mem, frame, words, 1);
    assert words[..8] == words;
    assert Written(mem, frame, words[..0]) == mem;
  }

  lemma WrittenLast(mem: Memory, frame: Word, words: seq<Word>, n: nat)
    requires 0 < n <= |words| <= 8
    ensures Written(mem, frame, words[..n]) ==
            Write(Written(mem, frame, words[..n - 1]), At(frame, n - 1), words[n - 1])
  {
    hide At, Write;
    assert words[..n][..n - 1] == words[..n - 1];
  }
}
