/** The framing of message buffers: each message is stored as its length in
    sizeof(size_t) little-endian bytes, followed by its payload. */
module Messages {
  import opened Wrappers
  import opened RingIndex

  const HEADER_SIZE := 4

  type Bytes = seq<byte>

  predicate IsMessage(m: Bytes) {
    0 < |m| && |m| + HEADER_SIZE < SIZE_MODULUS
  }

  predicate AreMessages(ms: seq<Bytes>) {
    forall m :: m in ms ==> IsMessage(m)
  }

  /** The memory image of a size_t on a little-endian machine. */
  function LengthBytes(n: size_t): (bytes: Bytes)
    ensures |bytes| == HEADER_SIZE
  {
    [n % 0x100, n / 0x100 % 0x100, n / 0x1_0000 % 0x100, n / 0x100_0000]
  }

  function LengthOf(bytes: Bytes): size_t
    requires |bytes| == HEADER_SIZE
  {
    var b0: int, b1: int, b2: int, b3: int := bytes[0], bytes[1], bytes[2], bytes[3];
    b0 + 0x100 * b1 + 0x1_0000 * b2 + 0x100_0000 * b3
  }

  lemma LengthRoundTrip(n: size_t)
    ensures LengthOf(LengthBytes(n)) == n
  {
    assert n / 0x1_0000 == n / 0x100 / 0x100 && n / 0x100_0000 == n / 0x1_0000 / 0x100;
  }

  lemma LengthRoundTripBack(bytes: Bytes)
    requires |bytes| == HEADER_SIZE
    ensures LengthBytes(LengthOf(bytes)) == bytes
  {
    var b0: int, b1: int, b2: int, b3: int := bytes[0], bytes[1], bytes[2], bytes[3];
    var n := b0 + 0x100 * (b1 + 0x100 * (b2 + 0x100 * b3));
    assert n / 0x100 == b1 + 0x100 * (b2 + 0x100 * b3);
    assert n / 0x1_0000 == n / 0x100 / 0x100 == b2 + 0x100 * b3;
    assert n / 0x100_0000 == n / 0x1_0000 / 0x100 == b3;
  }

  function Record(m: Bytes): Bytes
    requires IsMessage(m)
  {
    LengthBytes(|m|) + m
  }

  function Encode(ms: seq<Bytes>): Bytes
    requires AreMessages(ms)
  {
    if ms == [] then [] else Record(ms[0]) + Encode(ms[1..])
  }

  /** Reads buffer contents back as records; None when they do not frame. */
  function Decode(bytes: Bytes): (r: Option<seq<Bytes>>)
    ensures r.Some? ==> AreMessages(r.value)
  {
    if bytes == [] then
      Some([])
    else if |bytes| < HEADER_SIZE then
      None
    else
      var n := LengthOf(bytes[..HEADER_SIZE]);
      var end := HEADER_SIZE + n;
      if n == 0 || end >= SIZE_MODULUS || |bytes| < end then
        None
      else
        match Decode(bytes[end..])
        case None => None
        case Some(rest) => Some([bytes[HEADER_SIZE..end]] + rest)
  }

  lemma {:induction false} DecodeEncode(ms: seq<Bytes>)
    requires AreMessages(ms)
    ensures Decode(Encode(ms)) == Some(ms)
  {
    if ms != [] {
      var m, bytes := ms[0], Encode(ms);
      assert IsMessage(m);
      LengthRoundTrip(|m|);
      assert bytes[..HEADER_SIZE] == LengthBytes(|m|);
      assert bytes[HEADER_SIZE..HEADER_SIZE + |m|] == m;
      assert bytes[HEADER_SIZE + |m|..] == Encode(ms[1..]);
      DecodeEncode(ms[1..]);
      assert [m] + ms[1..] == ms;
    }
  }

  /** Non-empty framed bytes start with the record of their first message. */
  lemma FirstRecord(bytes: Bytes)
    requires Decode(bytes).Some? && bytes != []
    ensures var ms := Decode(bytes).value;
      ms != [] && HEADER_SIZE + |ms[0]| <= |bytes|
      && LengthOf(bytes[..HEADER_SIZE]) == |ms[0]|
      && bytes[HEADER_SIZE..HEADER_SIZE + |ms[0]|] == ms[0]
      && Decode(bytes[HEADER_SIZE + |ms[0]|..]) == Some(ms[1..])
  {
    var ms := Decode(bytes).value;
    assert ms[1..] == Decode(bytes[HEADER_SIZE + LengthOf(bytes[..HEADER_SIZE])..]).value;
  }

  lemma Reassemble(bytes: Bytes, ms: seq<Bytes>)
    requires AreMessages(ms) && ms != [] && HEADER_SIZE + |ms[0]| <= |bytes|
    requires LengthOf(bytes[..HEADER_SIZE]) == |ms[0]|
    requires bytes[HEADER_SIZE..HEADER_SIZE + |ms[0]|] == ms[0]
    requires bytes[HEADER_SIZE + |ms[0]|..] == Encode(ms[1..])
    ensures Encode(ms) == bytes
  {
    var header, end := bytes[..HEADER_SIZE], HEADER_SIZE + |ms[0]|;
    LengthRoundTripBack(header);
    assert Record(ms[0]) == header + bytes[HEADER_SIZE..end];
    assert bytes == header + bytes[HEADER_SIZE..end] + bytes[end..];
  }

  lemma {:induction false} EncodeDecode(bytes: Bytes, ms: seq<Bytes>)
    requires Decode(bytes) == Some(ms)
    ensures Encode(ms) == bytes
    decreases |bytes|
  {
    if bytes != [] {
      FirstRecord(bytes);
      EncodeDecode(bytes[HEADER_SIZE + |ms[0]|..], ms[1..]);
      Reassemble(bytes, ms);
    }
  }

  lemma Regroup(x: Bytes, y: Bytes, z: Bytes)
    ensures x + (y + z) == x + y + z
  {
  }

  lemma {:induction false} EncodeConcat(a: seq<Bytes>, b: seq<Bytes>)
    requires AreMessages(a) && AreMessages(b)
    ensures AreMessages(a + b) && Encode(a + b) == Encode(a) + Encode(b)
  {
    hide Record, IsMessage;
    if a == [] {
      assert a + b == b;
    } else {
      EncodeConcat(a[1..], b);
      assert (a + b)[1..] == a[1..] + b;
      Regroup(Record(a[0]), Encode(a[1..]), Encode(b));
    }
  }

  /** Appending one record to framed bytes appends one message. */
  lemma AppendRecord(bytes: Bytes, m: Bytes)
    requires Decode(bytes).Some? && IsMessage(m)
    ensures Decode(bytes + Record(m)) == Some(Decode(bytes).value + [m])
  {
    var ms := Decode(bytes).value;
    EncodeDecode(bytes, ms);
    EncodeConcat(ms, [m]);
    assert Encode([m]) == Record(m);
    DecodeEncode(ms + [m]);
  }

  /** What is left after a header and the payload it announces are taken. */
  lemma TakeRecord(bytes: Bytes, header: Bytes, data: Bytes, rest: Bytes)
    requires Decode(bytes).Some? && bytes == header + (data + rest)
    requires |header| == HEADER_SIZE && |data| == LengthOf(header)
    ensures Decode(rest).Some? && Decode(bytes) == Some([data] + Decode(rest).value)
  {
    var end := HEADER_SIZE + |data|;
    assert bytes[..HEADER_SIZE] == header;
    assert bytes[HEADER_SIZE..end] == data && bytes[end..] == rest;
  }
}
