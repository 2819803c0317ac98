/** The adder of alu.hpp and the instructions of exec.hpp that thread or compare
    with its carry: section A2.2.1 of the ARMv6-M Architecture Reference Manual
    (ARM DDI 0419). */
module Alu {

  const BASE := 0x1_0000_0000
  const HALF := 0x8000_0000

  /** Words as numbers, for arithmetic; StackFrame has them as bit vectors. */
  type UInt32 = x: int | 0 <= x < 0x1_0000_0000

  predicate SignBit(x: UInt32) {
    x >= HALF
  }

  function Signed(x: UInt32): int {
    if SignBit(x) then x - BASE else x
  }

  function Complement(x: UInt32): UInt32 {
    BASE - 1 - x
  }

  function Bit(b: bool): int {
    if b then 1 else 0
  }

  datatype Sum = Sum(result: UInt32, carry: bool, overflow: bool)

  /** add_with_carry: a sum in 64 bits, of which the low 32 are the result and bit
      32 is the carry.  The sign bit of an exclusive or is set when the signs
      differ. */
  function AddWithCarry(a: UInt32, b: UInt32, carryIn: bool): Sum {
    var big := a + b + Bit(carryIn);
    var result: UInt32 := big % BASE;
    Sum(result, (big / BASE) % 2 == 1, !(SignBit(a) != SignBit(b)) && SignBit(a) != SignBit(result))
  }

  /** The result and the carry are the exact sum; the overflow says exactly when
      the result is not the sum of the signed values. */
  lemma AdderIsExact(a: UInt32, b: UInt32, carryIn: bool)
    ensures var s := AddWithCarry(a, b, carryIn);
      && s.result + BASE * Bit(s.carry) == a + b + Bit(carryIn)
      && (s.overflow <==> !(-HALF <= Signed(a) + Signed(b) + Bit(carryIn) < HALF))
      && (!s.overflow ==> Signed(s.result) == Signed(a) + Signed(b) + Bit(carryIn))
  {
  }

  // --------------------------------------------------------- words in sequence

  /** Little-endian sequences of words. */
  function Value(words: seq<UInt32>): (v: nat)
  {
    if words == [] then 0 else words[0] + BASE * Value(words[1..])
  }

  function Power(n: nat): (p: nat)
    ensures p > 0
  {
    if n == 0 then 1 else BASE * Power(n - 1)
  }

  /** What a chain of ADC instructions computes, lowest word first. */
  function AddWords(a: seq<UInt32>, b: seq<UInt32>, carryIn: bool): (r: (seq<UInt32>, bool))
    requires |a| == |b|
    ensures |r.0| == |a|
  {
    if a == [] then ([], carryIn)
    else
      var s := AddWithCarry(a[0], b[0], carryIn);
      var rest := AddWords(a[1..], b[1..], s.carry);
      ([s.result] + rest.0, rest.1)
  }

  /** What a chain of SBC instructions computes: the second operand complemented,
      the carry in the sense of "no borrow". */
  function SubtractWords(a: seq<UInt32>, b: seq<UInt32>, carryIn: bool): (r: (seq<UInt32>, bool))
    requires |a| == |b|
    ensures |r.0| == |a|
  {
    if a == [] then ([], carryIn)
    else
      var s := AddWithCarry(a[0], Complement(b[0]), carryIn);
      var rest := SubtractWords(a[1..], b[1..], s.carry);
      ([s.result] + rest.0, rest.1)
  }

  lemma SignOfComplement(x: UInt32)
    ensures Signed(Complement(x)) == -1 - Signed(x)
  {
  }

  lemma {:induction false} ValueBelow(words: seq<UInt32>)
    ensures Value(words) < Power(|words|)
  {
    if words != [] {
      ValueBelow(words[1..]);
      assert BASE * Value(words[1..]) <= BASE * (Power(|words| - 1) - 1);
    }
  }

  /** Threading the carry through words of any number adds exactly. */
  lemma {:induction false} AddWordsIsExact(a: seq<UInt32>, b: seq<UInt32>, carryIn: bool)
    requires |a| == |b|
    ensures var (sum, carry) := AddWords(a, b, carryIn);
      Value(sum) + Power(|a|) * Bit(carry) == Value(a) + Value(b) + Bit(carryIn)
  {
    if a != [] {
      AdderIsExact(a[0], b[0], carryIn);
      var s := AddWithCarry(a[0], b[0], carryIn);
      AddWordsIsExact(a[1..], b[1..], s.carry);
      var (rest, carry) := AddWords(a[1..], b[1..], s.carry);
      assert ([s.result] + rest)[1..] == rest;
      Chained(Value(rest), Power(|a| - 1), Bit(carry), Value(a[1..]), Value(b[1..]), Bit(s.carry));
    }
  }

  /** An equation between the upper words, one word up. */
  lemma Chained(rest: int, power: int, carry: int, a: int, b: int, c: int)
    requires rest + power * carry == a + b + c
    ensures BASE * rest + (BASE * power) * carry == BASE * a + BASE * b + BASE * c
  {
  }

  /** With a carry in of 1 the chain subtracts exactly, modulo the width, and the
      carry out says that there was no borrow. */
  lemma {:induction false} SubtractWordsIsExact(a: seq<UInt32>, b: seq<UInt32>, carryIn: bool)
    requires |a| == |b|
    ensures var (difference, carry) := SubtractWords(a, b, carryIn);
      Value(difference) + Power(|a|) * Bit(carry) == Value(a) - Value(b) + Power(|a|) - 1 + Bit(carryIn)
  {
    if a != [] {
      AdderIsExact(a[0], Complement(b[0]), carryIn);
      var s := AddWithCarry(a[0], Complement(b[0]), carryIn);
      SubtractWordsIsExact(a[1..], b[1..], s.carry);
      var (rest, carry) := SubtractWords(a[1..], b[1..], s.carry);
      assert ([s.result] + rest)[1..] == rest;
      Chained(Value(rest), Power(|a| - 1), Bit(carry), Value(a[1..]) - Value(b[1..]), Power(|a| - 1) - 1, Bit(s.carry));
    }
  }

  lemma SubtractionIsExact(a: seq<UInt32>, b: seq<UInt32>)
    requires |a| == |b|
    ensures var (difference, carry) := SubtractWords(a, b, true);
      && (carry <==> Value(a) >= Value(b))
      && Value(difference) == if Value(a) >= Value(b) then Value(a) - Value(b) else Value(a) - Value(b) + Power(|a|)
  {
    SubtractWordsIsExact(a, b, true);
    ValueBelow(a);
    ValueBelow(b);
    ValueBelow(SubtractWords(a, b, true).0);
  }

  /** The chain has come to word i, with `done` below and the carry flag c. */
  ghost predicate Adding(a: seq<UInt32>, b: seq<UInt32>, carryIn: bool, i: nat, done: seq<UInt32>, c: bool)
    requires |a| == |b|
  {
    && i <= |a|
    && var rest := AddWords(a[i..], b[i..], c);
    AddWords(a, b, carryIn) == (done + rest.0, rest.1)
  }

  lemma AddingStarts(a: seq<UInt32>, b: seq<UInt32>, carryIn: bool)
    requires |a| == |b|
    ensures Adding(a, b, carryIn, 0, [], carryIn)
  {
    assert a[0..] == a && b[0..] == b;
    assert [] + AddWords(a, b, carryIn).0 == AddWords(a, b, carryIn).0;
  }

  lemma AddingSteps(a: seq<UInt32>, b: seq<UInt32>, carryIn: bool, i: nat, done: seq<UInt32>, c: bool, result: UInt32,
                    carry: bool)
    requires |a| == |b| && Adding(a, b, carryIn, i, done, c) && i < |a|
    requires result + BASE * Bit(carry) == a[i] + b[i] + Bit(c)
    ensures Adding(a, b, carryIn, i + 1, done + [result], carry)
  {
    AdderIsExact(a[i], b[i], c);
    assert a[i..][1..] == a[i + 1..] && b[i..][1..] == b[i + 1..];
    var rest := AddWords(a[i + 1..], b[i + 1..], carry).0;
    assert done + ([result] + rest) == done + [result] + rest;
  }

  lemma AddingEnds(a: seq<UInt32>, b: seq<UInt32>, carryIn: bool, done: seq<UInt32>, c: bool)
    requires |a| == |b| && Adding(a, b, carryIn, |a|, done, c)
    ensures AddWords(a, b, carryIn) == (done, c)
    ensures Value(done) + Power(|a|) * Bit(c) == Value(a) + Value(b) + Bit(carryIn)
  {
    assert done + [] == done;
    AddWordsIsExact(a, b, carryIn);
  }

  ghost predicate Subtracting(a: seq<UInt32>, b: seq<UInt32>, carryIn: bool, i: nat, done: seq<UInt32>, c: bool)
    requires |a| == |b|
  {
    && i <= |a|
    && var rest := SubtractWords(a[i..], b[i..], c);
    SubtractWords(a, b, carryIn) == (done + rest.0, rest.1)
  }

  lemma SubtractingStarts(a: seq<UInt32>, b: seq<UInt32>, carryIn: bool)
    requires |a| == |b|
    ensures Subtracting(a, b, carryIn, 0, [], carryIn)
  {
    assert a[0..] == a && b[0..] == b;
    assert [] + SubtractWords(a, b, carryIn).0 == SubtractWords(a, b, carryIn).0;
  }

  lemma SubtractingSteps(a: seq<UInt32>, b: seq<UInt32>, carryIn: bool, i: nat, done: seq<UInt32>, c: bool,
                         result: UInt32, carry: bool)
    requires |a| == |b| && Subtracting(a, b, carryIn, i, done, c) && i < |a|
    requires result - BASE * Bit(!carry) == a[i] - b[i] - Bit(!c)
    ensures Subtracting(a, b, carryIn, i + 1, done + [result], carry)
  {
    AdderIsExact(a[i], Complement(b[i]), c);
    assert a[i..][1..] == a[i + 1..] && b[i..][1..] == b[i + 1..];
    var rest := SubtractWords(a[i + 1..], b[i + 1..], carry).0;
    assert done + ([result] + rest) == done + [result] + rest;
  }

  lemma SubtractingEnds(a: seq<UInt32>, b: seq<UInt32>, carryIn: bool, done: seq<UInt32>, c: bool)
    requires |a| == |b| && Subtracting(a, b, carryIn, |a|, done, c)
    ensures SubtractWords(a, b, carryIn) == (done, c)
    ensures Value(done) - Power(|a|) * Bit(!c) == Value(a) - Value(b) - Bit(!carryIn)
  {
    assert done + [] == done;
    SubtractWordsIsExact(a, b, carryIn);
  }

  // -------------------------------------------------------------- instructions

  datatype Condition = EQ | NE | CS | CC | MI | PL | VS | VC | HI | LS | GE | LT | GT | LE

  class Core {
    var r: seq<UInt32>
    var n: bool
    var z: bool
    var c: bool
    var v: bool

    ghost predicate Valid()
      reads this
    {
      |r| == 16
    }

    method SetFlags(s: Sum)
      modifies `n, `z, `c, `v
      ensures c == s.carry && v == s.overflow && n == SignBit(s.result) && z == (s.result == 0)
    {
      c := s.carry;
      v := s.overflow;
      n := SignBit(s.result);
      z := 0 == s.result;
    }

    /** ADC (register). */
    method Adc(rdn: nat, rm: nat)
      requires Valid() && rdn < 8 && rm < 8
      modifies this
      ensures Valid() && r == old(r)[rdn := r[rdn]]
      ensures r[rdn] + BASE * Bit(c) == old(r)[rdn] + old(r)[rm] + Bit(old(c))
      ensures v <==> !(-HALF <= Signed(old(r)[rdn]) + Signed(old(r)[rm]) + Bit(old(c)) < HALF)
      ensures n == SignBit(r[rdn]) && z == (r[rdn] == 0)
    {
      var s := AddWithCarry(r[rdn], r[rm], c);
      AdderIsExact(r[rdn], r[rm], c);
      r := r[rdn := s.result];
      SetFlags(s);
    }

    /** SBC (register): a clear carry flag is a borrow, before and after. */
    method Sbc(rdn: nat, rm: nat)
      requires Valid() && rdn < 8 && rm < 8
      modifies this
      ensures Valid() && r == old(r)[rdn := r[rdn]]
      ensures r[rdn] - BASE * Bit(!c) == old(r)[rdn] - old(r)[rm] - Bit(!old(c))
      ensures v <==> !(-HALF <= Signed(old(r)[rdn]) - Signed(old(r)[rm]) - Bit(!old(c)) < HALF)
      ensures n == SignBit(r[rdn]) && z == (r[rdn] == 0)
    {
      var s := AddWithCarry(r[rdn], Complement(r[rm]), c);
      AdderIsExact(r[rdn], Complement(r[rm]), c);
      SignOfComplement(r[rm]);
      r := r[rdn := s.result];
      SetFlags(s);
    }

    /** Numbers of any length added by ADC, one word after the other in r0 with
        the carry flag between them; the loads and stores leave the flags. */
    method AddLong(a: seq<UInt32>, b: seq<UInt32>) returns (sum: seq<UInt32>)
      requires Valid() && |a| == |b|
      modifies this
      ensures Valid() && (sum, c) == AddWords(a, b, old(c))
      ensures Value(sum) + Power(|a|) * Bit(c) == Value(a) + Value(b) + Bit(old(c))
    {
      hide Adding, AddWords, Value, Power, Bit;
      ghost var carryIn := c;
      sum := [];
      AddingStarts(a, b, c);
      var i := 0;
      while i < |a|
        invariant Valid() && Adding(a, b, carryIn, i, sum, c) && i <= |a|
      {
        r := r[0 := a[i]][1 := b[i]];
        ghost var carry := c;
        Adc(0, 1);
        AddingSteps(a, b, carryIn, i, sum, carry, r[0], c);
        sum := sum + [r[0]];
        i := i + 1;
      }
      AddingEnds(a, b, carryIn, sum, c);
    }

    /** And subtracted by SBC. */
    method SubtractLong(a: seq<UInt32>, b: seq<UInt32>) returns (difference: seq<UInt32>)
      requires Valid() && |a| == |b|
      modifies this
      ensures Valid() && (difference, c) == SubtractWords(a, b, old(c))
      ensures Value(difference) - Power(|a|) * Bit(!c) == Value(a) - Value(b) - Bit(!old(c))
    {
      hide Subtracting, SubtractWords, Value, Power, Bit;
      ghost var carryIn := c;
      difference := [];
      SubtractingStarts(a, b, c);
      var i := 0;
      while i < |a|
        invariant Valid() && Subtracting(a, b, carryIn, i, difference, c) && i <= |a|
      {
        r := r[0 := a[i]][1 := b[i]];
        ghost var carry := c;
        Sbc(0, 1);
        SubtractingSteps(a, b, carryIn, i, difference, carry, r[0], c);
        difference := difference + [r[0]];
        i := i + 1;
      }
      SubtractingEnds(a, b, carryIn, difference, c);
    }

    /** condition_passed, for the conditions that test something. */
    predicate Passed(condition: Condition)
      reads this
    {
      ConditionHolds(condition, n, z, c, v)
    }

    /** After a comparison the flags order the operands, unsigned by the carry and
        signed by N and V. */
    method CmpReg(rn: nat, rm: nat)
      requires Valid() && rn < 16 && rm < 16
      modifies `n, `z, `c, `v
      ensures c <==> r[rn] >= r[rm]
      ensures n == v <==> Signed(r[rn]) >= Signed(r[rm])
      ensures z <==> r[rn] == r[rm]
      ensures n == SignBit((r[rn] - r[rm]) % BASE)
      ensures forall condition :: Passed(condition) <==> Orders(condition, r[rn], r[rm])
    {
      var s := AddWithCarry(r[rn], Complement(r[rm]), true);
      CompareIs(r[rn], r[rm]);
      forall condition {
        ConditionsAfterCompare(r[rn], r[rm], condition);
      }
      SetFlags(s);
    }
  }

  predicate ConditionHolds(condition: Condition, n: bool, z: bool, c: bool, v: bool) {
    match condition
    case EQ => z
    case NE => !z
    case CS => c
    case CC => !c
    case MI => n
    case PL => !n
    case VS => v
    case VC => !v
    case HI => c && !z
    case LS => !(c && !z)
    case GE => n == v
    case LT => n != v
    case GT => n == v && !z
    case LE => !(n == v && !z)
  }

  lemma CompareIs(a: UInt32, b: UInt32)
    ensures var s := AddWithCarry(a, Complement(b), true);
      && (s.carry <==> a >= b)
      && (SignBit(s.result) == s.overflow <==> Signed(a) >= Signed(b))
      && (s.result == 0 <==> a == b)
      && s.result == (a - b) % BASE
  {
  }

  /** The order that the name of a condition stands for. */
  predicate Orders(condition: Condition, a: UInt32, b: UInt32) {
    match condition
    case EQ => a == b
    case NE => a != b
    case CS => a >= b
    case CC => a < b
    case MI => SignBit((a - b) % BASE)
    case PL => !SignBit((a - b) % BASE)
    case VS => !(-HALF <= Signed(a) - Signed(b) < HALF)
    case VC => -HALF <= Signed(a) - Signed(b) < HALF
    case HI => a > b
    case LS => a <= b
    case GE => Signed(a) >= Signed(b)
    case LT => Signed(a) < Signed(b)
    case GT => Signed(a) > Signed(b)
    case LE => Signed(a) <= Signed(b)
  }

  /** So each condition after a comparison is the order that its name says. */
  lemma ConditionsAfterCompare(a: UInt32, b: UInt32, condition: Condition)
    ensures var s := AddWithCarry(a, Complement(b), true);
      ConditionHolds(condition, SignBit(s.result), s.result == 0, s.carry, s.overflow) <==> Orders(condition, a, b)
  {
  }
}
