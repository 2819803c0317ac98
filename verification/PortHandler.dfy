/** The PendSV handler of port.c, instruction by instruction. */
module PortHandlers {
  import opened StackFrame
  import opened ContextSpec
  import opened PortSpec
  import ContextSwitchers

  class Handler {
    var r: seq<Word>
    var msp: Word
    var psp: Word
    var lr: Word
    var primask: bool
    var mem: Memory

    ghost predicate Valid()
      reads this
    {
      |r| == 13
    }

    /** The processor with these registers and this memory, the rest as in c. */
    ghost function In(c: Cpu): Cpu
      reads this
    {
      c.(r := r, msp := msp, psp := psp, lr := lr, primask := primask, mem := mem)
    }

    /** stmia r0!, {r4-r7} */
    method StoreLow()
      requires Valid()
      modifies `r, `mem
      ensures Valid() && r == old(r)[0 := HighHalf(old(r)[0])]
      ensures var a := old(r)[0];
        mem == Write(Write(Write(Write(old(mem), At(a, 0), old(r)[4]), At(a, 1), old(r)[5]), At(a, 2), old(r)[6]),
                     At(a, 3), old(r)[7])
    {
      hide At, Write, HighHalf;
      mem := Write(mem, At(r[0], 0), r[4]);
      mem := Write(mem, At(r[0], 1), r[5]);
      mem := Write(mem, At(r[0], 2), r[6]);
      mem := Write(mem, At(r[0], 3), r[7]);
      r := r[0 := HighHalf(r[0])];
    }

    /** ldmia r0!, {r4-r7} */
    method LoadLow()
      requires Valid()
      modifies `r
      ensures Valid()
      ensures var a := old(r)[0];
        r == old(r)[0 := HighHalf(a)][4 := mem(At(a, 0))][5 := mem(At(a, 1))][6 := mem(At(a, 2))][7 := mem(At(a, 3))]
    {
      hide At, HighHalf;
      var a := r[0];
      r := r[4 := mem(At(a, 0))];
      r := r[5 := mem(At(a, 1))];
      r := r[6 := mem(At(a, 2))];
      r := r[7 := mem(At(a, 3))];
      r := r[0 := HighHalf(a)];
    }

    /** mov r4-r7, r8-r11 */
    method HighToLow()
      requires Valid()
      modifies `r
      ensures Valid() && r == old(r)[4 := old(r)[8]][5 := old(r)[9]][6 := old(r)[10]][7 := old(r)[11]]
    {
      r := r[4 := r[8]];
      r := r[5 := r[9]];
      r := r[6 := r[10]];
      r := r[7 := r[11]];
    }

    /** mov r8-r11, r4-r7 */
    method LowToHigh()
      requires Valid()
      modifies `r
      ensures Valid() && r == old(r)[8 := old(r)[4]][9 := old(r)[5]][10 := old(r)[6]][11 := old(r)[7]]
    {
      r := r[8 := r[4]];
      r := r[9 := r[5]];
      r := r[10 := r[6]];
      r := r[11 := r[7]];
    }

    /** The two stores, with r0 at the new top of stack. */
    method StoreAll()
      requires Valid()
      modifies `r, `mem
      ensures Valid()
      ensures var o := old(r);
        && r == o[0 := Above(o[0])][4 := o[8]][5 := o[9]][6 := o[10]][7 := o[11]]
        && mem == Written(old(mem), o[0], o[4..12])
    {
      hide At, Write, HighHalf, Above, Written;
      ghost var words := r[4..12];
      assert words == [r[4], r[5], r[6], r[7], r[8], r[9], r[10], r[11]];
      TwoHalves(r[0]);
      StoredInTwo(mem, r[0], words);
      StoreLow();
      HighToLow();
      StoreLow();
    }

    /** push {r3, r14} */
    method PushForCall()
      requires Valid()
      modifies `msp, `mem
      ensures msp == Down8(old(msp)) && mem == Write(Write(old(mem), At(msp, 0), r[3]), At(msp, 1), lr)
    {
      hide At, Write, Down8;
      msp := Down8(msp);
      mem := Write(mem, At(msp, 0), r[3]);
      mem := Write(mem, At(msp, 1), lr);
    }

    /** The first five instructions: the new top of stack goes into the control
        block. */
    method MakeRoom(current: Word)
      requires Valid()
      modifies `r, `mem
      ensures Valid()
      ensures var tcb := old(mem)(current);
        r == old(r)[0 := Below(psp)][3 := current][2 := tcb] && mem == Write(old(mem), tcb, Below(psp))
    {
      hide Write, Below;
      r := r[0 := psp];
      r := r[3 := current];
      r := r[2 := mem(r[3])];
      r := r[0 := Below(r[0])];
      mem := Write(mem, r[2], r[0]);
    }

    /** From the start of the handler to the call of vTaskSwitchContext. */
    method SaveContext(current: Word, ghost c: Cpu)
      requires Valid()
      modifies this
      ensures Valid() && In(c) == Save(old(In(c)), current)
    {
      hide At, Write, HighHalf, Above, Below, Down8, Written, Save, CalleeSaved;
      ghost var d, tcb := In(c), mem(current);
      MakeRoom(current);
      RoomMade(d.r, r, r[0], tcb, current, Above(r[0]));
      StoreAll();
      assert r == Shuffled(d.r, Above(Below(psp)), tcb, current);
      PushForCall();
      primask := true;
      SaveIs(d, current, r, mem, msp);
    }

    /** The high registers are loaded through the low ones. */
    method LoadHigh()
      requires Valid()
      modifies `r
      ensures Valid() && r[0] == HighHalf(old(r)[0])
      ensures r[1] == old(r)[1] && r[2] == old(r)[2] && r[3] == old(r)[3] && r[12] == old(r)[12]
      ensures var a := old(r)[0];
        r[8] == mem(At(a, 0)) && r[9] == mem(At(a, 1)) && r[10] == mem(At(a, 2)) && r[11] == mem(At(a, 3))
    {
      hide At, HighHalf;
      LoadLow();
      LowToHigh();
    }

    /** The two loads, with r0 at the saved top of stack. */
    method LoadAll()
      requires Valid()
      modifies `r, `psp
      ensures Valid() && psp == Above(old(r)[0])
      ensures r == Loaded(old(r), mem, old(r)[0])
    {
      hide At, HighHalf, Above, Below;
      ghost var top, r0 := r[0], r;
      TwoHalves(top);
      BackToTop(top);
      r := r[0 := HighHalf(r[0])];
      LoadHigh();
      psp := r[0];
      r := r[0 := Below(r[0])];
      ghost var r1 := r;
      LoadLow();
      LoadedIs(r0, r1, r, mem, top);
    }

    /** From the return of vTaskSwitchContext to the branch to r3. */
    method RestoreContext(ghost c: Cpu)
      requires Valid()
      modifies `r, `msp, `psp, `primask
      ensures Valid() && In(c) == Restore(old(In(c)))
    {
      hide At, Loaded, Above, Up8;
      ghost var m := mem;
      primask := false;
      r := r[2 := mem(At(msp, 0))];
      r := r[3 := mem(At(msp, 1))];
      msp := Up8(msp);
      r := r[1 := mem(r[2])];
      r := r[0 := mem(r[1])];
      LoadedFrom(old(r), r, mem, r[0]);
      LoadAll();
    }
  }

  lemma SaveIs(c: Cpu, current: Word, r: seq<Word>, mem: Memory, msp: Word)
    requires c.Ok()
    requires var top := Below(c.psp);
      var tcb := c.mem(current);
      var saved := Written(Write(c.mem, tcb, top), top, c.r[4..12]);
      && r == Shuffled(c.r, Above(top), tcb, current)
      && mem == Write(Write(saved, At(msp, 0), current), At(msp, 1), c.lr)
    requires msp == Down8(c.msp)
    ensures c.(r := r, mem := mem, msp := msp, primask := true) == Save(c, current)
  {
    hide At, Write, Above, Below, Down8, Written, Shuffled;
  }

  lemma UpdatesAgree<T>(r: seq<T>, r1: seq<T>, r': seq<T>, h: T, a0: T, a1: T, a2: T, a3: T, b0: T, b1: T, b2: T, b3: T)
    requires |r| == 13 && |r1| == 13 && r1[1] == r[1] && r1[2] == r[2] && r1[3] == r[3] && r1[12] == r[12]
    requires r1[8] == b0 && r1[9] == b1 && r1[10] == b2 && r1[11] == b3
    requires r' == r1[0 := h][4 := a0][5 := a1][6 := a2][7 := a3]
    ensures r' == r[0 := h][4 := a0][5 := a1][6 := a2][7 := a3][8 := b0][9 := b1][10 := b2][11 := b3]
  {
  }

  lemma LoadedIs(r: seq<Word>, r1: seq<Word>, r': seq<Word>, m: Memory, top: Word)
    requires |r| == 13 && |r1| == 13 && r1[1] == r[1] && r1[2] == r[2] && r1[3] == r[3] && r1[12] == r[12]
    requires var high := HighHalf(top);
      && r1[8] == m(At(high, 0)) && r1[9] == m(At(high, 1)) && r1[10] == m(At(high, 2)) && r1[11] == m(At(high, 3))
      && r' == r1[0 := high][4 := m(At(top, 0))][5 := m(At(top, 1))][6 := m(At(top, 2))][7 := m(At(top, 3))]
    ensures r' == Loaded(r, m, top)
  {
    hide At, HighHalf;
    var high := HighHalf(top);
    UpdatesAgree(r, r1, r', high, m(At(top, 0)), m(At(top, 1)), m(At(top, 2)), m(At(top, 3)),
                 m(At(high, 0)), m(At(high, 1)), m(At(high, 2)), m(At(high, 3)));
  }

  lemma LoadedFrom(r: seq<Word>, r': seq<Word>, m: Memory, top: Word)
    requires |r| == 13 && |r'| == 13 && r' == r[2 := r'[2]][3 := r'[3]][1 := r'[1]][0 := top]
    ensures Loaded(r', m, top) == Loaded(r[1 := r'[1]][2 := r'[2]][3 := r'[3]], m, top)
  {
    hide At, HighHalf;
    assert r'[0 := HighHalf(top)] == r[1 := r'[1]][2 := r'[2]][3 := r'[3]][0 := HighHalf(top)];
  }

  /** The registers between the first five instructions and the stores, and what
      the stores make of them. */
  lemma RoomMade<T>(r: seq<T>, r1: seq<T>, low: T, tcb: T, current: T, end: T)
    requires |r| == 13 && r1 == r[0 := low][3 := current][2 := tcb]
    ensures r1[4..12] == r[4..12]
    ensures r1[0 := end][4 := r1[8]][5 := r1[9]][6 := r1[10]][7 := r1[11]] ==
            r[0 := end][2 := tcb][3 := current][4 := r[8]][5 := r[9]][6 := r[10]][7 := r[11]]
  {
  }

  lemma TwoHalves(top: Word)
    ensures HighHalf(HighHalf(top)) == Above(top)
  {
  }

  lemma BackToTop(top: Word)
    ensures Below(Above(top)) == top
  {
  }

  lemma StoredInTwo(mem: Memory, top: Word, words: seq<Word>)
    requires |words| == 8
    ensures var high := HighHalf(top);
      var m := Write(Write(Write(Write(mem, At(top, 0), words[0]), At(top, 1), words[1]), At(top, 2), words[2]),
                     At(top, 3), words[3]);
      Written(mem, top, words) ==
      Write(Write(Write(Write(m, At(high, 0), words[4]), At(high, 1), words[5]), At(high, 2), words[6]),
            At(high, 3), words[7])
  {
    hide At, HighHalf, Write, Written;
    HighHalf0(top);
    HighHalf1(top);
    HighHalf2(top);
    HighHalf3(top);
    ContextSwitchers.WrittenInTurn(mem, top, words);
  }
}
