/** The register-list transfers of exec.hpp: PUSH, POP, STM and LDM, over mapped
    memory of aligned words. */
module RegisterTransfer {
  import opened Wrappers
  import opened Alu

  const SP := 13
  const LR := 14
  const PC := 15

  type Memory32 = UInt32 -> UInt32

  function Put(mem: Memory32, address: UInt32, value: UInt32): Memory32 {
    a => if a == address then value else mem(a)
  }

  /** The word `bytes` after an address. */
  function After(address: UInt32, bytes: int): UInt32 {
    (address + bytes) % BASE
  }

  /** The stack pointer reads with its low two bits clear. */
  function Aligned(sp: UInt32): UInt32 {
    sp - sp % 4
  }

  // -------------------------------------------------------------------- lists

  /** Whether each of the 16 registers is in the list of a PUSH: bit 8 of the
      encoding is LR. */
  function PushList(field: seq<bool>): (list: seq<bool>)
    requires |field| == 9
    ensures |list| == 16 && list[..8] == field[..8]
  {
    field[..8] + [false, false, false, false, false, false, field[8], false]
  }

  /** In a POP it is PC. */
  function PopList(field: seq<bool>): (list: seq<bool>)
    requires |field| == 9
    ensures |list| == 16 && list[..8] == field[..8]
  {
    field[..8] + [false, false, false, false, false, false, false, field[8]]
  }

  /** The population count of the first n bits. */
  function Count(list: seq<bool>, n: nat): (c: nat)
    requires n <= |list|
    ensures c <= n
  {
    if n == 0 then 0 else Count(list, n - 1) + Bit(list[n - 1])
  }

  lemma {:induction false} CountGrows(list: seq<bool>, m: nat, n: nat)
    requires m <= n <= |list|
    ensures Count(list, m) <= Count(list, n)
    ensures m < n && list[m] ==> Count(list, m) < Count(list, n)
  {
    if m < n {
      CountGrows(list, m, n - 1);
    }
  }

  lemma {:induction false} CountOfPrefix(a: seq<bool>, b: seq<bool>, n: nat)
    requires n <= |a| && n <= |b| && a[..n] == b[..n]
    ensures Count(a, n) == Count(b, n)
  {
    if n > 0 {
      assert a[..n][n - 1] == b[..n][n - 1] && a[..n - 1] == a[..n][..n - 1] && b[..n - 1] == b[..n][..n - 1];
      CountOfPrefix(a, b, n - 1);
    }
  }

  lemma {:induction false} CountNone(list: seq<bool>, m: nat, n: nat)
    requires m <= n <= |list| && forall k :: m <= k < n ==> !list[k]
    ensures Count(list, n) == Count(list, m)
  {
    if m < n {
      CountNone(list, m, n - 1);
    }
  }

  /** PUSH and POP of the same list transfer as many words, and the last word of
      the one, if it is LR, is the last of the other, PC. */
  lemma PushAndPopAgree(field: seq<bool>)
    requires |field| == 9
    ensures Count(PushList(field), 16) == Count(PopList(field), 16)
    ensures Count(PushList(field), LR) == Count(PopList(field), 8) == Count(field, 8)
  {
    CountOfPrefix(PushList(field), field, 8);
    CountOfPrefix(PopList(field), field, 8);
    CountNone(PushList(field), 8, 14);
    CountNone(PopList(field), 8, 15);
  }

  // ----------------------------------------------------------------- transfers

  /** Memory after the listed ones of the first n registers are stored. */
  function Stored(mem: Memory32, base: UInt32, r: seq<UInt32>, list: seq<bool>, n: nat): Memory32
    requires n <= |list| && n <= |r|
  {
    if n == 0 then mem
    else if list[n - 1] then Put(Stored(mem, base, r, list, n - 1), After(base, 4 * Count(list, n - 1)), r[n - 1])
    else Stored(mem, base, r, list, n - 1)
  }

  /** Registers after the listed ones of the first n are loaded. */
  function Loaded(mem: Memory32, base: UInt32, r: seq<UInt32>, list: seq<bool>, n: nat): (r': seq<UInt32>)
    requires n <= |list| && n <= |r|
    ensures |r'| == |r|
  {
    if n == 0 then r
    else if list[n - 1] then Loaded(mem, base, r, list, n - 1)[n - 1 := mem(After(base, 4 * Count(list, n - 1)))]
    else Loaded(mem, base, r, list, n - 1)
  }

  lemma AddressesDiffer(base: UInt32, i: nat, j: nat)
    requires i < j <= 16
    ensures After(base, 4 * i) != After(base, 4 * j)
  {
    assert base + 4 * i < BASE ==> After(base, 4 * i) == base + 4 * i;
    assert base + 4 * i >= BASE ==> After(base, 4 * i) == base + 4 * i - BASE;
    assert base + 4 * j < BASE ==> After(base, 4 * j) == base + 4 * j;
    assert base + 4 * j >= BASE ==> After(base, 4 * j) == base + 4 * j - BASE;
  }

  /** Each listed register is where its rank in the list says. */
  lemma {:induction false} StoredHolds(mem: Memory32, base: UInt32, r: seq<UInt32>, list: seq<bool>, n: nat, k: nat)
    requires k < n <= |list| && n <= |r| && n <= 16 && list[k]
    ensures Stored(mem, base, r, list, n)(After(base, 4 * Count(list, k))) == r[k]
  {
    hide After;
    if k < n - 1 {
      StoredHolds(mem, base, r, list, n - 1, k);
      CountGrows(list, k, n - 1);
      AddressesDiffer(base, Count(list, k), Count(list, n - 1));
    }
  }

  lemma {:induction false} LoadedAt(mem: Memory32, base: UInt32, r: seq<UInt32>, list: seq<bool>, n: nat, k: nat)
    requires n <= |list| && n <= |r| && k < |r|
    ensures Loaded(mem, base, r, list, n)[k] ==
            if k < n && list[k] then mem(After(base, 4 * Count(list, k))) else r[k]
  {
    hide After;
    if n > 0 {
      LoadedAt(mem, base, r, list, n - 1, k);
    }
  }

  /** The n words from an address on are the same in both memories. */
  ghost predicate Agree(m: Memory32, m': Memory32, base: UInt32, n: nat) {
    forall i :: 0 <= i < n ==> m'(After(base, 4 * i)) == m(After(base, 4 * i))
  }

  /** Loading what was stored gives the listed registers back, whatever happened
      in between to the registers and to the rest of memory. */
  lemma LoadAfterStore(mem: Memory32, base: UInt32, r: seq<UInt32>, stored: seq<bool>, n: nat,
                       mem': Memory32, s: seq<UInt32>, loaded: seq<bool>, k: nat)
    requires |r| == 16 && |s| == 16 && |stored| == 16 && |loaded| == 16 && 8 <= n <= 16
    requires stored[..8] == loaded[..8] && k < 8
    requires Agree(Stored(mem, base, r, stored, n), mem', base, Count(stored, n))
    ensures Loaded(mem', base, s, loaded, 8)[k] == if loaded[k] then r[k] else s[k]
  {
    hide After;
    LoadedAt(mem', base, s, loaded, 8, k);
    assert stored[..8][k] == loaded[..8][k];
    assert stored[..k] == stored[..8][..k] && loaded[..k] == loaded[..8][..k];
    CountOfPrefix(stored, loaded, k);
    if loaded[k] {
      StoredHolds(mem, base, r, stored, n, k);
      CountGrows(stored, k, n);
    }
  }

  // -------------------------------------------------------------------- layout

  ghost function Members(list: seq<bool>, n: nat): set<nat>
    requires n <= |list|
  {
    set k | 0 <= k < n && list[k]
  }

  lemma {:induction false} CountIsSize(list: seq<bool>, n: nat)
    requires n <= |list|
    ensures Count(list, n) == |Members(list, n)|
  {
    if n > 0 {
      CountIsSize(list, n - 1);
      assert Members(list, n) == Members(list, n - 1) + if list[n - 1] then {n - 1} else {};
    }
  }

  /** Each listed register goes to its own word, by how many lower ones are listed,
      and no other word changes. */
  lemma {:induction false} StoredLayout(mem: Memory32, base: UInt32, r: seq<UInt32>, list: seq<bool>, n: nat)
    requires n <= |list| && n <= |r| && n <= 16
    ensures forall k :: 0 <= k < n && list[k] ==>
      Stored(mem, base, r, list, n)((base + 4 * |Members(list, k)|) % BASE) == r[k]
    ensures forall a: UInt32 :: (forall i :: 0 <= i < |Members(list, n)| ==> a != (base + 4 * i) % BASE) ==>
      Stored(mem, base, r, list, n)(a) == mem(a)
  {
    forall k | 0 <= k < n && list[k]
      ensures Stored(mem, base, r, list, n)((base + 4 * |Members(list, k)|) % BASE) == r[k]
    {
      CountIsSize(list, k);
      StoredHolds(mem, base, r, list, n, k);
    }
    forall a: UInt32 | forall i :: 0 <= i < |Members(list, n)| ==> a != (base + 4 * i) % BASE
      ensures Stored(mem, base, r, list, n)(a) == mem(a)
    {
      CountIsSize(list, n);
      StoredElsewhere(mem, base, r, list, n, a);
    }
  }

  lemma {:induction false} StoredElsewhere(mem: Memory32, base: UInt32, r: seq<UInt32>, list: seq<bool>, n: nat,
                                           a: UInt32)
    requires n <= |list| && n <= |r|
    requires forall i :: 0 <= i < Count(list, n) ==> a != (base + 4 * i) % BASE
    ensures Stored(mem, base, r, list, n)(a) == mem(a)
  {
    if n > 0 {
      CountGrows(list, n - 1, n);
      StoredElsewhere(mem, base, r, list, n - 1, a);
    }
  }

  lemma StartIs(sp: UInt32, n: nat)
    ensures (sp - sp % 4 - 4 * n) % BASE == After(Aligned(sp), -4 * n)
  {
  }

  lemma MembersOfPush(field: seq<bool>)
    requires |field| == 9
    ensures forall k :: 0 <= k <= 8 ==> |Members(PushList(field), k)| == |Members(field, k)|
    ensures |Members(PushList(field), 14)| == |Members(field, 8)|
    ensures |Members(PushList(field), 15)| == |Members(field, 9)| == Count(PushList(field), 16)
  {
    hide Members;
    var list := PushList(field);
    CountOfPush(field);
    forall k | 0 <= k <= 8 ensures |Members(list, k)| == |Members(field, k)| {
      CountOfPrefix(list, field, k);
      CountIsSize(list, k);
      CountIsSize(field, k);
    }
    CountIsSize(field, 8);
    CountIsSize(field, 9);
    CountIsSize(list, 15);
    CountIsSize(list, 14);
  }

  /** What PUSH leaves: the stack pointer lower by four for each bit of the list,
      r0-r7 in ascending order from there, LR on top, and all else as it was. */
  lemma PushLayout(mem: Memory32, r: seq<UInt32>, field: seq<bool>, start: UInt32)
    requires |r| == 16 && |field| == 9
    requires start == (r[SP] - r[SP] % 4 - 4 * |Members(field, 9)|) % BASE
    ensures start == After(Aligned(r[SP]), -4 * Count(PushList(field), 16))
    ensures var m := Stored(mem, start, r, PushList(field), 15);
      && (forall k :: 0 <= k < 8 && field[k] ==> m((start + 4 * |Members(field, k)|) % BASE) == r[k])
      && (field[8] ==> m((start + 4 * |Members(field, 8)|) % BASE) == r[LR])
      && (forall a: UInt32 :: (forall i :: 0 <= i < |Members(field, 9)| ==> a != (start + 4 * i) % BASE) ==>
            m(a) == mem(a))
  {
    hide Stored, Members, After, Aligned, Count, PushList;
    MembersOfPush(field);
    StartIs(r[SP], |Members(field, 9)|);
    PushWords(mem, r, field, start);
  }

  lemma PushWords(mem: Memory32, r: seq<UInt32>, field: seq<bool>, start: UInt32)
    requires |r| == 16 && |field| == 9
    ensures var m := Stored(mem, start, r, PushList(field), 15);
      && (forall k :: 0 <= k < 8 && field[k] ==> m((start + 4 * |Members(field, k)|) % BASE) == r[k])
      && (field[8] ==> m((start + 4 * |Members(field, 8)|) % BASE) == r[LR])
      && (forall a: UInt32 :: (forall i :: 0 <= i < |Members(field, 9)| ==> a != (start + 4 * i) % BASE) ==>
            m(a) == mem(a))
  {
    hide Stored, Members, After;
    var list := PushList(field);
    MembersOfPush(field);
    StoredLayout(mem, start, r, list, 15);
    var m := Stored(mem, start, r, list, 15);
    forall k | 0 <= k < 8 && field[k] ensures m((start + 4 * |Members(field, k)|) % BASE) == r[k] {
      assert list[k] == list[..8][k] == field[..8][k];
    }
    assert list[LR] == field[8];
  }

  lemma CountOfPush(field: seq<bool>)
    requires |field| == 9
    ensures Count(PushList(field), 15) == Count(PushList(field), 16) == Count(field, 9)
    ensures Count(PushList(field), 14) == Count(field, 8)
    ensures forall k :: 0 <= k <= 8 ==> PushList(field)[..k] == field[..k]
  {
    var list := PushList(field);
    CountOfPrefix(list, field, 8);
    CountNone(list, 8, 14);
    CountNone(list, 15, 16);
    forall k | 0 <= k <= 8 ensures list[..k] == field[..k] {
      assert list[..k] == list[..8][..k] && field[..k] == field[..8][..k];
    }
  }

  // -------------------------------------------------------------- instructions

  class Core {
    var r: seq<UInt32>           // r0-r12, sp, lr, pc
    var mem: Memory32

    ghost predicate Valid()
      reads this
    {
      |r| == 16
    }

    method Push(field: seq<bool>)
      requires Valid() && |field| == 9 && exists k :: 0 <= k < 9 && field[k]
      modifies this
      ensures Valid()
      ensures var start := After(Aligned(old(r)[SP]), -4 * Count(PushList(field), 16));
        && mem == Stored(old(mem), start, old(r), PushList(field), 15)
        && r == old(r)[SP := start]
    {
      hide After;
      var list := PushList(field);
      var storedSize := 4 * Count(list, 16);
      var start := After(Aligned(r[SP]), -storedSize);
      var count := 0;
      for rid := 0 to 15
        invariant r == old(r) && count == Count(list, rid)
        invariant mem == Stored(old(mem), start, r, list, rid)
      {
        if list[rid] {
          mem := Put(mem, After(start, count * 4), r[rid]);
          count := count + 1;
        }
      }
      r := r[SP := start];
    }

    /** The result is the address that a POP of PC branches to. */
    method Pop(field: seq<bool>) returns (target: Option<UInt32>)
      requires Valid() && |field| == 9 && exists k :: 0 <= k < 9 && field[k]
      modifies `r
      ensures Valid()
      ensures var base := Aligned(old(r)[SP]);
        var list := PopList(field);
        && r == Loaded(mem, base, old(r), list, 8)[SP := After(base, 4 * Count(list, 16))]
        && target == if list[PC] then Some(mem(After(base, 4 * Count(list, 8)))) else None
    {
      hide After;
      var list := PopList(field);
      var frameStart := Aligned(r[SP]);
      var storedSize := 4 * Count(list, 16);
      var spBase := frameStart;
      AfterNothing(frameStart);
      for rid := 0 to 8
        invariant r == Loaded(mem, frameStart, old(r), list, rid)
        invariant spBase == After(frameStart, 4 * Count(list, rid))
      {
        if list[rid] {
          r := r[rid := mem(spBase)];
          AfterAfter(frameStart, 4 * Count(list, rid), 4);
          spBase := After(spBase, 4);
        }
      }
      r := r[SP := After(frameStart, storedSize)];
      target := None;
      if list[PC] {
        target := Some(mem(spBase));
      }
    }

    method Stm(rn: nat, list: seq<bool>)
      requires Valid() && rn < 8 && |list| == 16 && forall k :: 8 <= k < 16 ==> !list[k]
      modifies this
      ensures Valid()
      ensures mem == Stored(old(mem), old(r)[rn], old(r), list, 8)
      ensures r == old(r)[rn := After(old(r)[rn], 4 * Count(list, 8))]
    {
      hide After;
      var address := r[rn];
      AfterNothing(address);
      for rid := 0 to 8
        invariant r == old(r)
        invariant address == After(r[rn], 4 * Count(list, rid))
        invariant mem == Stored(old(mem), r[rn], r, list, rid)
      {
        if list[rid] {
          mem := Put(mem, address, r[rid]);
          AfterAfter(r[rn], 4 * Count(list, rid), 4);
          address := After(address, 4);
        }
      }
      r := r[rn := address];
    }

    method Ldm(rn: nat, list: seq<bool>)
      requires Valid() && rn < 8 && |list| == 16 && forall k :: 8 <= k < 16 ==> !list[k]
      modifies `r
      ensures Valid()
      ensures var base := old(r)[rn];
        var loaded := Loaded(mem, base, old(r), list, 8);
        r == if list[rn] then loaded else loaded[rn := After(base, 4 * Count(list, 8))]
    {
      hide After;
      var address := r[rn];
      AfterNothing(address);
      for rid := 0 to 8
        invariant r == Loaded(mem, old(r)[rn], old(r), list, rid)
        invariant address == After(old(r)[rn], 4 * Count(list, rid))
      {
        if list[rid] {
          r := r[rid := mem(address)];
          AfterAfter(old(r)[rn], 4 * Count(list, rid), 4);
          address := After(address, 4);
        }
      }
      if !list[rn] {
        r := r[rn := address];
      }
    }
  }

  lemma AfterNothing(a: UInt32)
    ensures After(a, 0) == a
  {
  }

  lemma AfterAfter(a: UInt32, m: int, n: int)
    ensures After(After(a, m), n) == After(a, m + n)
  {
    var q := (a + m) / BASE;
    var q' := (After(a, m) + n) / BASE;
    assert a + m + n == (q + q') * BASE + After(After(a, m), n);
  }

  lemma AlignedStays(a: UInt32, n: nat)
    requires n <= 16
    ensures var start := After(Aligned(a), -4 * n); Aligned(start) == start && After(start, 4 * n) == Aligned(a)
  {
    AfterAfter(Aligned(a), -4 * n, 4 * n);
    AfterNothing(Aligned(a));
    assert Aligned(a) - 4 * n >= 0 ==> After(Aligned(a), -4 * n) == Aligned(a) - 4 * n;
    assert Aligned(a) - 4 * n < 0 ==> After(Aligned(a), -4 * n) == Aligned(a) - 4 * n + BASE;
  }

  /** PUSH, then anything that leaves the stacked words and the stack pointer as
      they are, then POP of the same list: the listed low registers and the stack
      pointer are back, nothing else changes, and a pushed LR is the target. */
  lemma PushPopIsIdentity(mem: Memory32, r: seq<UInt32>, field: seq<bool>, m: Memory32, s: seq<UInt32>)
    requires |r| == 16 && |s| == 16 && |field| == 9
    requires s[SP] == After(Aligned(r[SP]), -4 * Count(PushList(field), 16))
    requires Agree(Stored(mem, s[SP], r, PushList(field), 15), m, s[SP], Count(PushList(field), 16))
    ensures var list := PopList(field);
      var popped := Loaded(m, Aligned(s[SP]), s, list, 8)[SP := After(Aligned(s[SP]), 4 * Count(list, 16))];
      && (forall k :: 0 <= k < 8 ==> popped[k] == if field[k] then r[k] else s[k])
      && popped[SP] == Aligned(r[SP])
      && (forall k :: 8 <= k < 16 && k != SP ==> popped[k] == s[k])
      && (if list[PC] then Some(m(After(Aligned(s[SP]), 4 * Count(list, 8)))) else None)
         == (if field[8] then Some(r[LR]) else None)
  {
    hide After, Aligned;
    var pushList, list := PushList(field), PopList(field);
    AlignedStays(r[SP], Count(pushList, 16));
    PushAndPopAgree(field);
    CountNone(pushList, 15, 16);
    forall k | 0 <= k < 8 ensures Loaded(m, s[SP], s, list, 8)[k] == if field[k] then r[k] else s[k] {
      LoadAfterStore(mem, s[SP], r, pushList, 15, m, s, list, k);
      assert list[..8][k] == field[..8][k];
    }
    forall k | 8 <= k < 16 ensures Loaded(m, s[SP], s, list, 8)[k] == s[k] {
      LoadedAt(m, s[SP], s, list, 8, k);
    }
    if field[8] {
      StoredHolds(mem, s[SP], r, pushList, 15, LR);
      CountGrows(pushList, LR, 15);
    }
  }

  /** STM, then anything that leaves the stored words, then LDM from the same base:
      the listed registers are back, and the base register ends where it does
      after the STM unless it is itself in the list. */
  lemma StoreLoadMultipleIsIdentity(mem: Memory32, r: seq<UInt32>, rn: nat, list: seq<bool>, m: Memory32,
                                    s: seq<UInt32>)
    requires |r| == 16 && |s| == 16 && rn < 8 && |list| == 16 && s[rn] == r[rn]
    requires Agree(Stored(mem, r[rn], r, list, 8), m, r[rn], Count(list, 8))
    ensures var loaded := Loaded(m, s[rn], s, list, 8);
      var after := if list[rn] then loaded else loaded[rn := After(s[rn], 4 * Count(list, 8))];
      && (forall k :: 0 <= k < 8 && k != rn ==> after[k] == if list[k] then r[k] else s[k])
      && after[rn] == (if list[rn] then r[rn] else After(r[rn], 4 * Count(list, 8)))
      && (forall k :: 8 <= k < 16 ==> after[k] == s[k])
  {
    hide After;
    forall k | 0 <= k < 8 ensures Loaded(m, s[rn], s, list, 8)[k] == if list[k] then r[k] else s[k] {
      LoadAfterStore(mem, r[rn], r, list, 8, m, s, list, k);
    }
    forall k | 8 <= k < 16 ensures Loaded(m, s[rn], s, list, 8)[k] == s[k] {
      LoadedAt(m, s[rn], s, list, 8, k);
    }
  }
}
