/** The template assembler of CodeGenerator.cpp: a 16-character template of
    literal bits and field letters, and a value for each letter. */
module Assembler {
  import opened Division

  predicate Literal(c: char) {
    c == '1' || c == '0'
  }

  /** The field letters of a template in order of first appearance: the order in
      which their values are passed. */
  function Letters(t: string): (letters: string)
    ensures forall c :: c in letters <==> c in t && !Literal(c)
  {
    if t == "" then ""
    else
      var front, c := Letters(t[..|t| - 1]), t[|t| - 1];
      assert t == t[..|t| - 1] + [c];
      if Literal(c) || c in front then front else front + [c]
  }

  function Power2(n: nat): (p: nat)
    ensures p > 0
  {
    if n == 0 then 1 else 2 * Power2(n - 1)
  }

  /** The width of a field: how often its letter occurs. */
  function Width(t: string, c: char): nat {
    if t == "" then 0 else (if t[0] == c then 1 else 0) + Width(t[1..], c)
  }

  /** The bits at the places of a letter, read from left to right, even if they
      are not next to each other. */
  function FieldValue(t: string, bits: seq<bool>, c: char): nat
    requires |bits| == |t|
  {
    if t == "" then 0
    else (if t[0] == c && bits[0] then Power2(Width(t[1..], c)) else 0) + FieldValue(t[1..], bits[1..], c)
  }

  /** Every literal place holds its literal, and every field reads back as its
      value, cut to the width of the field. */
  ghost predicate Assembles(t: string, letters: string, args: seq<nat>, bits: seq<bool>) {
    && |bits| == |t| && |letters| <= |args|
    && (forall p :: 0 <= p < |t| && Literal(t[p]) ==> bits[p] == (t[p] == '1'))
    && (forall j :: 0 <= j < |letters| ==> ReadsBack(t, letters[j], args[j], bits))
  }

  ghost predicate ReadsBack(t: string, c: char, value: nat, bits: seq<bool>)
    requires |bits| == |t|
  {
    FieldValue(t, bits, c) == value % Power2(Width(t, c))
  }

  /** A value without the low bits that a template's fields have taken. */
  predicate Shifted(t: string, c: char, arg: nat, value: nat) {
    value == arg / Power2(Width(t, c))
  }

  lemma OneMoreBit(v: nat, n: nat)
    ensures v % Power2(n + 1) == (if v / Power2(n) % 2 == 1 then Power2(n) else 0) + v % Power2(n)
    ensures v / Power2(n) / 2 == v / Power2(n + 1)
  {
    var p, q := Power2(n), v / Power2(n);
    assert v == q * p + v % p;
    assert q == 2 * (q / 2) + q % 2;
    assert v == (q / 2) * (2 * p) + ((q % 2) * p + v % p);
    QuotientIs(v, 2 * p, q / 2, (q % 2) * p + v % p);
  }

  /** One more character at the left of what is assembled. */
  lemma FieldGrows(t: string, c: char, arg: nat, bits: seq<bool>, bit: bool, value: nat)
    requires t != "" && |bits| == |t| - 1
    requires ReadsBack(t[1..], c, arg, bits) && Shifted(t[1..], c, arg, value)
    requires t[0] == c ==> bit == (value % 2 == 1)
    ensures ReadsBack(t, c, arg, [bit] + bits)
    ensures Shifted(t, c, arg, if t[0] == c then value / 2 else value)
  {
    assert ([bit] + bits)[1..] == bits;
    OneMoreBit(arg, Width(t[1..], c));
  }

  ghost predicate NoDuplicates(s: string) {
    forall i, j :: 0 <= i < j < |s| ==> Differ(s, i, j)
  }

  ghost predicate Differ(s: string, i: nat, j: nat)
    requires i < |s| && j < |s|
  {
    s[i] != s[j]
  }

  lemma {:induction false} LettersDiffer(t: string)
    ensures NoDuplicates(Letters(t))
  {
    if t != "" {
      var front, c := Letters(t[..|t| - 1]), t[|t| - 1];
      LettersDiffer(t[..|t| - 1]);
      forall i, j | 0 <= i < j < |Letters(t)| ensures Differ(Letters(t), i, j) {
        if j < |front| {
          assert Differ(front, i, j);
        }
      }
    }
  }

  /** The one is in the template before the other ever is. */
  ghost predicate ComesFirst(t: string, a: char, b: char) {
    exists p :: 0 <= p < |t| && t[p] == a && b !in t[..p]
  }

  /** So the values go to the fields from left to right, as they first appear. */
  lemma {:induction false} LettersInOrder(t: string, i: nat, j: nat)
    requires i < j < |Letters(t)|
    ensures Letters(t)[i] != Letters(t)[j] && ComesFirst(t, Letters(t)[i], Letters(t)[j])
  {
    LettersDiffer(t);
    assert Differ(Letters(t), i, j);
    var n := |t| - 1;
    var front, c := t[..n], t[n];
    if j < |Letters(front)| {
      LettersInOrder(front, i, j);
      var p :| 0 <= p < |front| && front[p] == Letters(t)[i] && Letters(t)[j] !in front[..p];
      assert t[p] == Letters(t)[i] && t[..p] == front[..p];
    } else {
      assert Letters(front)[i] in front;
      var p :| 0 <= p < |front| && front[p] == Letters(front)[i];
      assert t[p] == Letters(t)[i] && t[..p] == front[..p];
    }
  }

  /** The bits at the places of a letter, the leftmost first. */
  function BitsAt(t: string, bits: seq<bool>, c: char): seq<bool>
    requires |bits| == |t|
  {
    if t == "" then [] else (if t[0] == c then [bits[0]] else []) + BitsAt(t[1..], bits[1..], c)
  }

  /** A binary number, the most significant bit first. */
  function Binary(bits: seq<bool>): nat {
    if bits == [] then 0 else 2 * Binary(bits[..|bits| - 1]) + if bits[|bits| - 1] then 1 else 0
  }

  lemma {:induction false} BinaryOfFirst(b: bool, rest: seq<bool>)
    ensures Binary([b] + rest) == (if b then Power2(|rest|) else 0) + Binary(rest)
  {
    if rest == [] {
      assert Binary([]) == 0;
    } else {
      var n := |rest| - 1;
      assert ([b] + rest)[..n + 1] == [b] + rest[..n];
      BinaryOfFirst(b, rest[..n]);
    }
  }

  /** A field is the binary number that its bits make, read from left to right. */
  lemma {:induction false} FieldIsBinary(t: string, bits: seq<bool>, c: char)
    requires |bits| == |t|
    ensures FieldValue(t, bits, c) == Binary(BitsAt(t, bits, c)) && |BitsAt(t, bits, c)| == Width(t, c)
  {
    if t != "" {
      FieldIsBinary(t[1..], bits[1..], c);
      BinaryOfFirst(bits[0], BitsAt(t[1..], bits[1..], c));
      assert [] + BitsAt(t[1..], bits[1..], c) == BitsAt(t[1..], bits[1..], c);
    }
  }

  lemma NoLetters(t: string)
    ensures Letters(t[..0]) == ""
  {
  }

  lemma LettersStep(t: string, p: nat)
    requires p < |t|
    ensures Letters(t[..p + 1]) ==
            if Literal(t[p]) || t[p] in Letters(t[..p]) then Letters(t[..p]) else Letters(t[..p]) + [t[p]]
    ensures |Letters(t[..p + 1])| <= |Letters(t)|
  {
    assert t[..p + 1][..p] == t[..p];
    LettersGrow(t, p + 1);
  }

  /** Whether a letter is among the first n. */
  method IsAmong(names: array<char>, n: nat, c: char) returns (found: bool)
    requires n <= names.Length
    ensures found <==> c in names[..n]
  {
    found := false;
    for j := 0 to n
      invariant found <==> c in names[..j]
    {
      if names[j] == c {
        found := true;
      }
    }
  }

  /** The first loop of assemble_instruction: the letters, from left to right. */
  method FindFields(t: string, args: seq<nat>, names: array<char>, values: array<nat>) returns (i: nat)
    requires names.Length == 6 && values.Length == 6
    requires '\0' !in t && |Letters(t)| <= 6 && |Letters(t)| <= |args|
    modifies names, values
    ensures i == |Letters(t)| && names[..i] == Letters(t) && values[..i] == args[..i]
  {
    hide Letters;
    i := 0;
    var last: char := '\0';
    NoLetters(t);
    var p := 0;
    while p < |t|
      invariant p <= |t| && i == |Letters(t[..p])| && |Letters(t[..p])| <= |Letters(t)|
      invariant names[..i] == Letters(t[..p]) && values[..i] == args[..i]
      invariant last == '\0' || last in Letters(t[..p])
    {
      var c := t[p];
      p := p + 1;
      LettersStep(t, p - 1);
      if c != '1' && c != '0' && c != last {
        var found := IsAmong(names, i, c);
        if !found {
          values[i] := args[i];
          names[i] := c;
          last := c;
          i := i + 1;
        }
      }
    }
    assert t[..p] == t;
  }

  lemma {:induction false} LettersGrow(t: string, p: nat)
    requires p <= |t|
    ensures |Letters(t[..p])| <= |Letters(t)|
    decreases |t| - p
  {
    if p < |t| {
      assert t[..p + 1][..p] == t[..p];
      LettersGrow(t, p + 1);
    } else {
      assert t[..p] == t;
    }
  }

  /** The place of a letter in the fields: the search of the second loop. */
  method Search(names: array<char>, i: nat, c: char) returns (j: nat)
    requires i <= names.Length && c in names[..i]
    ensures j < i && names[j] == c
  {
    j := 0;
    while names[j] != c
      invariant j < i && c in names[j..i]
      decreases i - j
    {
      assert names[j..i] == [names[j]] + names[j + 1..i];
      j := j + 1;
    }
  }

  /** What the second loop has assembled from place p on. */
  ghost predicate Progress(t: string, p: nat, letters: string, args: seq<nat>, values: seq<nat>, instr: seq<bool>)
    requires p <= |t| == |instr| == 16
  {
    && |letters| <= |args| && |letters| <= |values|
    && Assembles(t[p..], letters, args, instr[..16 - p])
    && (forall j :: 0 <= j < |letters| ==> Shifted(t[p..], letters[j], args[j], values[j]))
  }

  lemma NoProgress(t: string, letters: string, args: seq<nat>, values: seq<nat>, instr: seq<bool>)
    requires |t| == |instr| == 16 && |letters| <= |args| && |letters| <= |values|
    requires forall j :: 0 <= j < |letters| ==> values[j] == args[j]
    ensures Progress(t, 16, letters, args, values, instr)
  {
    assert t[16..] == "" && instr[..0] == [];
    assert Power2(0) == 1;
    assert forall j :: 0 <= j < |letters| ==> Width("", letters[j]) == 0;
  }

  /** The step at place p, for a literal or for the field number f. */
  lemma ProgressStep(t: string, p: nat, letters: string, args: seq<nat>, values: seq<nat>, instr: seq<bool>,
                     bit: bool, f: nat, values': seq<nat>, instr': seq<bool>)
    requires 0 < p <= |t| == |instr| == 16 && Progress(t, p, letters, args, values, instr)
    requires instr' == [bit] + instr[..15] && NoDuplicates(letters)
    requires if Literal(t[p - 1]) then bit == (t[p - 1] == '1') && values' == values
             else
               && f < |letters| && letters[f] == t[p - 1]
               && bit == (values[f] % 2 == 1) && values' == values[f := values[f] / 2]
    requires forall c :: c in letters ==> !Literal(c)
    ensures Progress(t, p - 1, letters, args, values', instr')
  {
    var rest, bits := t[p..], instr[..16 - p];
    var t' := t[p - 1..];
    assert t'[1..] == rest;
    assert instr'[..17 - p] == [bit] + bits;
    forall j | 0 <= j < |letters|
      ensures ReadsBack(t', letters[j], args[j], [bit] + bits) && Shifted(t', letters[j], args[j], values'[j])
    {
      assert letters[j] in letters;
      if !Literal(t[p - 1]) && j != f {
        assert if j < f then Differ(letters, j, f) else Differ(letters, f, j);
      }
      FieldGrows(t', letters[j], args[j], bits, bit, values[j]);
    }
    forall q | 0 <= q < |t'| && Literal(t'[q]) ensures ([bit] + bits)[q] == (t'[q] == '1') {
      if q > 0 {
        assert t'[q] == rest[q - 1];
      }
    }
  }

  /** assemble_instruction.  A half word is its 16 bits, the most significant one
      first, so that a shift right moves them all one place on. */
  method AssembleInstruction(t: string, args: seq<nat>) returns (instr: seq<bool>)
    requires |t| == 16 && '\0' !in t && |Letters(t)| <= 6 && |Letters(t)| <= |args|
    ensures Assembles(t, Letters(t), args, instr)
  {
    hide Progress, Letters, Assembles;
    var names := new char[6];
    var values := new nat[6];
    var i := FindFields(t, args, names, values);
    LettersDiffer(t);
    LettersAre(t);
    instr := seq(16, _ => false);
    ghost var letters := Letters(t);
    NoProgress(t, letters, args, values[..], instr);
    var p := 16;
    while p > 0
      invariant p <= 16 && |instr| == 16 && names[..i] == letters
      invariant Progress(t, p, letters, args, values[..], instr)
    {
      p := p - 1;
      var c := t[p];
      ghost var before, was := instr, values[..];
      instr := [false] + instr[..15];
      if c == '1' {
        instr := [true] + instr[1..];
        ProgressStep(t, p + 1, letters, args, was, before, true, 0, values[..], instr);
      } else if c == '0' {
        ProgressStep(t, p + 1, letters, args, was, before, false, 0, values[..], instr);
      } else {
        assert c in letters;
        var j := Search(names, i, c);
        var bit := values[j] % 2 == 1;
        instr := [bit] + instr[1..];
        values[j] := values[j] / 2;
        assert values[..] == was[j := was[j] / 2];
        ProgressStep(t, p + 1, letters, args, was, before, bit, j, values[..], instr);
      }
    }
    Finished(t, letters, args, values[..], instr);
  }

  lemma LettersAre(t: string)
    ensures forall c :: c in Letters(t) <==> c in t && !Literal(c)
  {
  }

  lemma Finished(t: string, letters: string, args: seq<nat>, values: seq<nat>, instr: seq<bool>)
    requires |t| == |instr| == 16 && Progress(t, 0, letters, args, values, instr)
    ensures Assembles(t, letters, args, instr)
  {
    assert t[0..] == t && instr[..16] == instr;
  }

  lemma {:induction false} BitsAreOne(t: string, a: seq<bool>, b: seq<bool>, c: char, p: nat)
    requires |a| == |t| == |b| && p < |t| && t[p] == c
    requires FieldValue(t, a, c) == FieldValue(t, b, c)
    ensures a[p] == b[p]
  {
    FieldBelow(t[1..], a[1..], c);
    FieldBelow(t[1..], b[1..], c);
    if p > 0 {
      BitsAreOne(t[1..], a[1..], b[1..], c, p - 1);
    }
  }

  lemma {:induction false} FieldBelow(t: string, bits: seq<bool>, c: char)
    requires |bits| == |t|
    ensures FieldValue(t, bits, c) < Power2(Width(t, c))
  {
    if t != "" {
      FieldBelow(t[1..], bits[1..], c);
    }
  }

  /** Reading the fields back determines the half word: there is one result only. */
  lemma OneResult(t: string, args: seq<nat>, a: seq<bool>, b: seq<bool>)
    requires Assembles(t, Letters(t), args, a) && Assembles(t, Letters(t), args, b)
    ensures a == b
  {
    forall p | 0 <= p < |t| ensures a[p] == b[p] {
      if !Literal(t[p]) {
        assert t[p] in Letters(t);
        var j :| 0 <= j < |Letters(t)| && Letters(t)[j] == t[p];
        assert ReadsBack(t, Letters(t)[j], args[j], a) && ReadsBack(t, Letters(t)[j], args[j], b);
        BitsAreOne(t, a, b, t[p], p);
      }
    }
  }
}
