/** The words of event_groups.c: event bits below, control bits above. */
module EventBits {

  type Bits = bv32

  const CLEAR_ON_EXIT: Bits := 0x0100_0000
  const UNBLOCKED: Bits := 0x0200_0000
  const WAIT_FOR_ALL: Bits := 0x0400_0000
  const CONTROL: Bits := 0xFF00_0000
  const IN_USE: Bits := 0x8000_0000  // taskEVENT_LIST_ITEM_VALUE_IN_USE

  function With(a: Bits, b: Bits): Bits {
    a | b
  }

  function Without(a: Bits, b: Bits): Bits {
    a & !b
  }

  function Common(a: Bits, b: Bits): Bits {
    a & b
  }

  /** Some bit of the one is in the other. */
  predicate Shares(a: Bits, b: Bits) {
    Common(a, b) != 0
  }

  /** Every bit of the one is in the other. */
  predicate Covers(a: Bits, b: Bits) {
    Common(a, b) == b
  }

  predicate IsEvents(b: Bits) {
    !Shares(b, CONTROL)
  }

  function EventsOf(value: Bits): Bits {
    Without(value, CONTROL)
  }

  /** What a blocked call waits for. */
  datatype Call = Call(wants: Bits, clear: bool, all: bool) {
    predicate Valid() {
      IsEvents(wants) && wants != 0
    }
  }

  /** prvTestWaitCondition. */
  predicate Met(bits: Bits, call: Call) {
    if call.all then Covers(bits, call.wants) else Shares(bits, call.wants)
  }

  function ControlBits(clear: bool, all: bool): Bits {
    var control: Bits := if clear then With(0, CLEAR_ON_EXIT) else 0;
    if all then With(control, WAIT_FOR_ALL) else control
  }

  function InUse(itemValue: Bits): Bits {
    With(itemValue, IN_USE)
  }

  /** The item value of a task that blocks. */
  function Encoded(call: Call): Bits {
    InUse(With(call.wants, ControlBits(call.clear, call.all)))
  }

  /** The item value of a task that is woken. */
  function Handed(bits: Bits): Bits {
    InUse(With(bits, UNBLOCKED))
  }

  /** The test of the loop in xEventGroupSetBits, on an item value alone. */
  predicate Matches(bits: Bits, value: Bits) {
    if !Shares(value & CONTROL, WAIT_FOR_ALL) then Shares(bits, EventsOf(value)) else Covers(bits, EventsOf(value))
  }

  function ClearMask(value: Bits): Bits {
    if Shares(value & CONTROL, CLEAR_ON_EXIT) then EventsOf(value) else 0
  }

  lemma EncodedFlags(wants: Bits, control: Bits)
    requires wants & CONTROL == 0 && control & !(CLEAR_ON_EXIT | WAIT_FOR_ALL) == 0
    ensures (wants | control | IN_USE) & !CONTROL == wants
    ensures (wants | control | IN_USE) & CONTROL & CLEAR_ON_EXIT == control & CLEAR_ON_EXIT
    ensures (wants | control | IN_USE) & CONTROL & WAIT_FOR_ALL == control & WAIT_FOR_ALL
    ensures (wants | control | IN_USE) & UNBLOCKED == 0 && (wants | control | IN_USE) & 0x8000_0000 != 0
  {
  }

  /** The control bits clash neither with the bits waited for nor with IN_USE:
      the item value says exactly what the call asked for. */
  lemma EncodedReadsBack(call: Call)
    requires call.Valid()
    ensures EventsOf(Encoded(call)) == call.wants
    ensures Shares(Encoded(call) & CONTROL, CLEAR_ON_EXIT) <==> call.clear
    ensures Shares(Encoded(call) & CONTROL, WAIT_FOR_ALL) <==> call.all
    ensures !Shares(Encoded(call), UNBLOCKED) && Shares(Encoded(call), 0x8000_0000)
  {
    EncodedFlags(call.wants, ControlBits(call.clear, call.all));
  }

  /** So the loop's test on the item value is the caller's wait condition. */
  lemma MatchesIsMet(bits: Bits, call: Call)
    requires call.Valid()
    ensures Matches(bits, Encoded(call)) <==> Met(bits, call)
    ensures ClearMask(Encoded(call)) == if call.clear then call.wants else 0
  {
    hide Encoded, Shares, Covers, EventsOf, Call.Valid;
    EncodedReadsBack(call);
  }

  lemma HandedReadsBack(bits: Bits)
    requires IsEvents(bits)
    ensures EventsOf(Handed(bits)) == bits && Shares(Handed(bits), UNBLOCKED) && Shares(Handed(bits), 0x8000_0000)
  {
  }

  lemma StayBelow(a: Bits, b: Bits)
    requires Common(a, CONTROL) == 0
    ensures Common(Without(a, b), CONTROL) == 0 && Without(a, CONTROL) == a
  {
  }

  lemma JoinBelow(a: Bits, b: Bits)
    requires Common(a, CONTROL) == 0 && Common(b, CONTROL) == 0
    ensures Common(With(a, b), CONTROL) == 0
  {
  }

  lemma EventsStay(a: Bits, b: Bits)
    requires IsEvents(a)
    ensures IsEvents(Without(a, b)) && EventsOf(a) == a
    ensures IsEvents(b) ==> IsEvents(With(a, b))
  {
    hide Common, Without, With;
    StayBelow(a, b);
    if IsEvents(b) {
      JoinBelow(a, b);
    }
  }

  lemma SubsetAll(bits: Bits, mask: Bits, wants: Bits)
    requires bits & wants != wants
    ensures (bits & !mask) & wants != wants
  {
  }

  lemma SubsetAny(bits: Bits, mask: Bits, wants: Bits)
    requires bits & wants == 0
    ensures (bits & !mask) & wants == 0
  {
  }

  /** Clearing bits never makes a condition true. */
  lemma ClearingIsSafe(bits: Bits, mask: Bits, call: Call)
    requires !Met(bits, call)
    ensures !Met(Without(bits, mask), call)
  {
    if call.all {
      SubsetAll(bits, mask, call.wants);
    } else {
      SubsetAny(bits, mask, call.wants);
    }
  }

  lemma CommonJoins(a: Bits, b: Bits, mask: Bits)
    ensures Common(With(a, b), mask) == With(Common(a, mask), Common(b, mask))
  {
  }

  lemma JoinIsZero(a: Bits, b: Bits)
    ensures With(a, b) == 0 <==> a == 0 && b == 0
  {
  }

  lemma WithShares(a: Bits, b: Bits, mask: Bits)
    ensures Shares(With(a, b), mask) <==> Shares(a, mask) || Shares(b, mask)
  {
    hide Common, With;
    CommonJoins(a, b, mask);
    JoinIsZero(Common(a, mask), Common(b, mask));
  }

  lemma WithZero(a: Bits)
    ensures With(a, 0) == a && With(0, a) == a
  {
  }

  lemma WithAssociates(a: Bits, b: Bits, c: Bits)
    ensures With(a, With(b, c)) == With(With(a, b), c)
  {
  }

  lemma WithoutShares(a: Bits, b: Bits, mask: Bits)
    ensures !Shares(Without(a, b), b)
    ensures !Shares(mask, b) ==> Shares(Without(a, b), mask) == Shares(a, mask)
  {
    hide Common, Without;
    NothingLeft(a, b);
    if !Shares(mask, b) {
      SameLeft(a, b, mask);
    }
  }

  lemma NothingLeft(a: Bits, b: Bits)
    ensures Common(Without(a, b), b) == 0
  {
  }

  lemma SameLeft(a: Bits, b: Bits, mask: Bits)
    requires Common(mask, b) == 0
    ensures Common(Without(a, b), mask) == Common(a, mask)
  {
  }

  /** What is left in a part depends on what was in that part. */
  lemma LeftOf(a: Bits, b: Bits, mask: Bits)
    ensures Common(Without(a, b), mask) == Without(Common(a, mask), b)
  {
  }

  lemma ClearingCoversLess(a: Bits, b: Bits, wants: Bits)
    ensures Covers(Without(a, b), wants) ==> Covers(a, wants)
  {
  }

  lemma SharesBothWays(a: Bits, b: Bits)
    ensures Shares(a, b) == Shares(b, a)
  {
    assert a & b == b & a;
  }

  lemma NothingShared(mask: Bits)
    ensures !Shares(0, mask)
  {
  }
}
