/** One writer and one reader on a message buffer, interleaved: what every step
    keeps, and when every run delivers what was sent. */
module MessageInterleaving {
  import opened Wrappers
  import opened RingIndex
  import opened Messages
  import opened MessageSteps

  // ---------------------------------------------------------------- invariant

  /** The tail, or the one that a call in progress will put back. */
  function HeldTail(s: State): size_t {
    if s.reader.Holding() then s.reader.originalTail else s.tail
  }

  /** The bytes that are not taken for good. */
  ghost function Unread(c: Config, s: State): Bytes
    requires Shaped(c, s)
  {
    UsedPlusFree(c.length, s.head, HeldTail(s));
    Window(s.buffer, HeldTail(s), BytesInBuffer(c.length, s.head, HeldTail(s)))
  }

  /** The space that the writer may use. */
  function Space(c: Config, s: State): size_t
    requires Shaped(c, s)
  {
    SpacesAvailable(c.length, s.head, HeldTail(s))
  }

  /** A header whose payload is not published yet. */
  ghost function LoneHeader(w: Writer): Bytes
    requires w.Copying? ==> |w.message| < SIZE_MODULUS
  {
    if w.Copying? && w.payload then LengthBytes(|w.message|) else []
  }

  ghost function Undelivered(s: State): seq<Bytes>
    requires s.delivered <= s.sent
  {
    s.sent[|s.delivered|..]
  }

  ghost predicate WriterOk(c: Config, buffer: Bytes, head: size_t, space: size_t, w: Writer)
    requires c.Valid() && |buffer| == c.length && head < c.length
  {
    match w
    case WriterIdle => true
    case Deciding(m, seen) =>
      && IsMessage(m) && |m| <= c.longest
      && (seen.Some? && seen.value >= HEADER_SIZE + |m| ==> space >= HEADER_SIZE + |m|)
    case Copying(m, payload, done) =>
      && c.Sendable(m)
      && |m| + (if payload then 0 else HEADER_SIZE) <= space
      && done <= |w.Data()| <= c.length
      && Window(buffer, head, done) == w.Data()[..done]
  }

  /** Whatever the reader counted, once it exceeds a header, covers the whole
      first message. */
  ghost predicate Covers(available: size_t, u: seq<Bytes>) {
    available > HEADER_SIZE ==> u != [] && HEADER_SIZE + |u[0]| <= available
  }

  ghost predicate ReaderOk(unread: Bytes, u: seq<Bytes>, r: Reader) {
    match r
    case ReaderIdle => true
    case Counted(available) => available <= |unread| && Covers(available, u)
    case Fetching(_, available, got) => HEADER_SIZE < available <= |unread| && Covers(available, u) && got <= unread
    case Sized(_, _, remaining, n) =>
      u != [] && n == |u[0]| && (r.Holding() || |u[0]| <= remaining <= |unread|)
    case Delivering(count, got) => u != [] && count == |u[0]| <= |unread| && got <= unread
    case Halted => true
  }

  /** The reader has taken a header for good. */
  predicate Took(r: Reader) {
    (r.Sized? && !r.Holding()) || r.Delivering?
  }

  /** The unread bytes are exactly the undelivered messages, less a header the
      reader has taken for good, plus a header published ahead of its payload. */
  ghost predicate Framed(unread: Bytes, u: seq<Bytes>, r: Reader, trailer: Bytes) {
    && AreMessages(u)
    && if Took(r) then u != [] && unread == u[0] + Encode(u[1..]) + trailer
       else unread == Encode(u) + trailer
  }

  /** The reader makes the calls, with the buffers, that the configuration says;
      while it holds a header its tail is just past it. */
  predicate CallsOk(c: Config, tail: size_t, r: Reader)
    requires c.Valid() && (r.Sized? ==> r.originalTail < c.length)
  {
    && (r.Fetching? || r.Sized? ==> if r.call.Peek? then c.peeks else r.call.capacity >= c.capacity)
    && (r.Holding() ==> tail == Advance(c.length, r.originalTail, HEADER_SIZE))
  }

  ghost predicate Inv(c: Config, s: State) {
    && Shaped(c, s)
    && s.delivered <= s.sent && (forall m :: m in s.sent ==> c.Sendable(m))
    && CallsOk(c, s.tail, s.reader)
    && WriterOk(c, s.buffer, s.head, Space(c, s), s.writer)
    && ReaderOk(Unread(c, s), Undelivered(s), s.reader)
    && Framed(Unread(c, s), Undelivered(s), s.reader, LoneHeader(s.writer))
  }

  /** Inv from facts about the unread bytes and the undelivered messages. */
  lemma InvBy(c: Config, s: State, unread: Bytes, u: seq<Bytes>)
    requires Shaped(c, s) && Unread(c, s) == unread
    requires |s.delivered| <= |s.sent| && s.sent == s.delivered + u
    requires (forall m :: m in s.sent ==> c.Sendable(m)) && CallsOk(c, s.tail, s.reader)
    requires WriterOk(c, s.buffer, s.head, Space(c, s), s.writer)
    requires ReaderOk(unread, u, s.reader) && Framed(unread, u, s.reader, LoneHeader(s.writer))
    ensures Inv(c, s)
  {
    assert Undelivered(s) == u;
  }

  lemma InitialInv(c: Config)
    requires c.Valid()
    ensures Inv(c, Initial(c))
  {
  }

  // ------------------------------------------------------------- writer steps

  lemma StoreAt(buffer: Bytes, head: size_t, done: nat, data: Bytes, n: nat)
    requires head < |buffer| <= SIZE_MODULUS / 2 && done + n <= |data| <= |buffer|
    requires Window(buffer, head, done) == data[..done]
    ensures var after := Store(buffer, Advance(|buffer|, head, done), data[done..done + n]);
      && (forall j :: 0 <= j < done + n ==> after[Advance(|buffer|, head, j)] == data[j])
      && (forall k :: 0 <= k < |buffer| && (forall j :: 0 <= j < done + n ==> k != Advance(|buffer|, head, j))
            ==> after[k] == buffer[k])
  {
    var length := |buffer|;
    var start := Advance(length, head, done);
    var after := Store(buffer, start, data[done..done + n]);
    forall j | 0 <= j < done + n
      ensures after[Advance(length, head, j)] == data[j]
    {
      var k := Advance(length, head, j);
      if j < done {
        assert Window(buffer, head, done)[j] == buffer[k];
      } else {
        AdvanceAdvance(length, head, done, j - done);
      }
    }
    forall k | 0 <= k < length && forall j :: 0 <= j < done + n ==> k != Advance(length, head, j)
      ensures after[k] == buffer[k]
    {
      var offset := if k < start then k + length - start else k - start;
      AdvanceAdvance(length, head, done, if offset < n then offset else 0);
    }
  }

  /** A stored piece lengthens what is copied and leaves the unread bytes. */
  lemma StoredChunk(buffer: Bytes, head: size_t, tail: size_t, done: nat, data: Bytes, n: nat)
    requires 0 < |buffer| <= SIZE_MODULUS / 2 && InRange(|buffer|, head, tail)
    requires done + n <= |data| <= SpacesAvailable(|buffer|, head, tail)
    requires |data| <= |buffer| && Window(buffer, head, done) == data[..done]
    ensures var after := Store(buffer, Advance(|buffer|, head, done), data[done..done + n]);
      var used := BytesInBuffer(|buffer|, head, tail);
      && used < |buffer|
      && Window(after, tail, used) == Window(buffer, tail, used)
      && Window(after, head, done + n) == data[..done + n]
  {
    var after := Store(buffer, Advance(|buffer|, head, done), data[done..done + n]);
    var used := BytesInBuffer(|buffer|, head, tail);
    StoreAt(buffer, head, done, data, n);
    UsedPlusFree(|buffer|, head, tail);
    WindowExtends(buffer, after, head, tail, data[..done + n]);
    WindowSplits(after, tail, used + done + n, used);
  }

  lemma WriteChunkInv(c: Config, s: State, n: nat)
    requires Inv(c, s) && CanWrite(c, s, n)
    ensures Inv(c, WriteChunkStep(c, s, n))
  {
    hide Store, Window, Framed, ReaderOk, CallsOk, Encode;
    var w, s' := s.writer, WriteChunkStep(c, s, n);
    StoredChunk(s.buffer, s.head, HeldTail(s), w.done, w.Data(), n);
    assert Unread(c, s') == Unread(c, s);
    assert WriterOk(c, s'.buffer, s'.head, Space(c, s), s'.writer);
    InvBy(c, s', Unread(c, s), Undelivered(s));
  }

  lemma PublishedBytes(c: Config, s: State)
    requires Inv(c, s) && CanPublishHead(c, s)
    ensures var data, s' := s.writer.Data(), PublishHeadStep(c, s);
      && Unread(c, s') == Unread(c, s) + data
      && Space(c, s') == Space(c, s) - |data|
  {
    hide Encode, Framed, Store, ReaderOk;
    var data, buffer := s.writer.Data(), s.buffer;
    forall j | 0 <= j < |data|
      ensures buffer[Advance(c.length, s.head, j)] == data[j]
    {
      assert Window(buffer, s.head, |data|)[j] == data[j];
    }
    WindowExtends(buffer, buffer, s.head, HeldTail(s), data);
    HeadMoves(c.length, s.head, HeldTail(s), |data|);
    UsedPlusFree(c.length, s.head, HeldTail(s));
    UsedPlusFree(c.length, Advance(c.length, s.head, |data|), HeldTail(s));
  }

  lemma EncodeSnoc(u: seq<Bytes>, m: Bytes)
    requires AreMessages(u) && IsMessage(m)
    ensures AreMessages(u + [m])
    ensures Encode(u) + LengthBytes(|m|) + m == Encode(u + [m])
  {
    EncodeConcat(u, [m]);
    assert Encode([m]) == Record(m);
  }

  /** The same when the reader has already taken the first header. */
  lemma EncodeSnocTaken(u: seq<Bytes>, m: Bytes)
    requires AreMessages(u) && u != [] && IsMessage(m)
    ensures AreMessages((u + [m])[1..])
    ensures u[0] + Encode(u[1..]) + LengthBytes(|m|) + m == (u + [m])[0] + Encode((u + [m])[1..])
  {
    EncodeSnoc(u[1..], m);
    assert (u + [m])[1..] == u[1..] + [m];
    assert u[0] + Encode(u[1..]) + LengthBytes(|m|) + m == u[0] + (Encode(u[1..]) + LengthBytes(|m|) + m);
  }

  /** Publishing the payload completes the record of the message. */
  lemma RecordCompleted(unread: Bytes, u: seq<Bytes>, r: Reader, m: Bytes)
    requires IsMessage(m) && ReaderOk(unread, u, r) && Framed(unread, u, r, LengthBytes(|m|))
    ensures ReaderOk(unread + m, u + [m], r) && Framed(unread + m, u + [m], r, [])
  {
    if Took(r) {
      EncodeSnocTaken(u, m);
    } else {
      EncodeSnoc(u, m);
    }
  }

  /** Publishing a header changes nothing for the reader but the byte count. */
  lemma HeaderPublished(unread: Bytes, u: seq<Bytes>, r: Reader, header: Bytes)
    requires ReaderOk(unread, u, r) && Framed(unread, u, r, [])
    ensures ReaderOk(unread + header, u, r) && Framed(unread + header, u, r, header)
  {
  }

  lemma PublishPayloadInv(c: Config, s: State)
    requires Inv(c, s) && CanPublishHead(c, s) && s.writer.payload
    ensures Inv(c, PublishHeadStep(c, s))
  {
    hide Encode, Framed, Window, Store, ReaderOk;
    var s', u, m := PublishHeadStep(c, s), Undelivered(s), s.writer.message;
    PublishedBytes(c, s);
    RecordCompleted(Unread(c, s), u, s.reader, m);
    assert s.sent == s.delivered + u;
    InvBy(c, s', Unread(c, s) + m, u + [m]);
  }

  lemma PublishHeaderInv(c: Config, s: State)
    requires Inv(c, s) && CanPublishHead(c, s) && !s.writer.payload
    ensures Inv(c, PublishHeadStep(c, s))
  {
    hide Encode, Framed, Window, Store, ReaderOk;
    var s', u, header := PublishHeadStep(c, s), Undelivered(s), s.writer.Data();
    PublishedBytes(c, s);
    HeaderPublished(Unread(c, s), u, s.reader, header);
    InvBy(c, s', Unread(c, s) + header, u);
  }

  // ------------------------------------------------------------- reader steps

  lemma CountCovers(unread: Bytes, u: seq<Bytes>, r: Reader, w: Writer)
    requires |unread| < SIZE_MODULUS && (w.Copying? ==> |w.message| < SIZE_MODULUS)
    requires Framed(unread, u, r, LoneHeader(w)) && !Took(r)
    ensures Covers(|unread|, u)
  {
    if u != [] {
      assert Encode(u) == Record(u[0]) + Encode(u[1..]);
    }
  }

  /** The bytes from the present tail on. */
  ghost function Ahead(c: Config, s: State): Bytes
    requires Shaped(c, s)
  {
    UsedPlusFree(c.length, s.head, s.tail);
    Window(s.buffer, s.tail, BytesInBuffer(c.length, s.head, s.tail))
  }

  lemma ReleasedBytes(c: Config, s: State)
    requires Inv(c, s) && CanPublishTail(c, s)
    ensures var s' := PublishTailStep(c, s);
      && Unread(c, s) == s.reader.got + Ahead(c, s')
      && SpacesAvailable(c.length, s'.head, s'.tail) == Space(c, s) + |s.reader.got|
  {
    hide Encode, Framed, Store, WriterOk;
    var got, s' := s.reader.got, PublishTailStep(c, s);
    UsedPlusFree(c.length, s.head, s.tail);
    var unread := Unread(c, s);
    assert |got| <= |unread|;
    WindowShrinks(s.buffer, s.head, s.tail, |got|);
    UsedPlusFree(c.length, s'.head, s'.tail);
    assert Window(s.buffer, s.tail, |got|) == unread[..|got|] == got;
  }

  lemma SplitAgrees(a: Bytes, b: Bytes, a': Bytes, b': Bytes)
    requires |a| == |a'| && a + b == a' + b'
    ensures a == a' && b == b'
  {
    assert a == (a + b)[..|a|] && b == (a + b)[|a|..];
  }

  lemma Regroup(a: Bytes, b: Bytes, d: Bytes, e: Bytes)
    ensures a + b + d + e == a + (b + d + e)
  {
  }

  /** Four bytes off the front of framed bytes are the first header. */
  lemma TakeHeader(u: seq<Bytes>, trailer: Bytes, got: Bytes, rest: Bytes)
    requires AreMessages(u) && u != [] && |got| == HEADER_SIZE && |u[0]| < SIZE_MODULUS
    requires got + rest == Encode(u) + trailer
    ensures LengthOf(got) == |u[0]| && rest == u[0] + Encode(u[1..]) + trailer
  {
    assert u[0] in u && IsMessage(u[0]);
    Regroup(LengthBytes(|u[0]|), u[0], Encode(u[1..]), trailer);
    SplitAgrees(got, rest, LengthBytes(|u[0]|), u[0] + Encode(u[1..]) + trailer);
    LengthRoundTrip(|u[0]|);
  }

  lemma TakePayload(u: seq<Bytes>, trailer: Bytes, got: Bytes, rest: Bytes)
    requires AreMessages(u) && u != [] && |got| == |u[0]|
    requires got + rest == u[0] + Encode(u[1..]) + trailer
    ensures got == u[0] && rest == Encode(u[1..]) + trailer
  {
    assert got + rest == u[0] + (Encode(u[1..]) + trailer);
    SplitAgrees(got, rest, u[0], Encode(u[1..]) + trailer);
  }

  lemma WriterOkWithMoreSpace(c: Config, buffer: Bytes, head: size_t, space: size_t, more: size_t, w: Writer)
    requires c.Valid() && |buffer| == c.length && head < c.length && space <= more
    requires WriterOk(c, buffer, head, space, w)
    ensures WriterOk(c, buffer, head, more, w)
  {
  }

  /** Taking the header leaves the payload in front, wholly published; if the
      header will be put back, nothing has changed yet. */
  lemma HeaderTaken(unread: Bytes, u: seq<Bytes>, r: Reader, trailer: Bytes, rest: Bytes, tail: size_t)
    requires r.Fetching? && |r.got| == HEADER_SIZE && ReaderOk(unread, u, r) && Framed(unread, u, r, trailer)
    requires unread == r.got + rest
    ensures u != [] && LengthOf(r.got) == |u[0]|
    ensures var r' := Sized(r.call, tail, SubSize(r.available, HEADER_SIZE), LengthOf(r.got));
      var unread' := if r'.Holding() then unread else rest;
      ReaderOk(unread', u, r') && Framed(unread', u, r', trailer)
  {
    assert u[0] in u && IsMessage(u[0]);
    TakeHeader(u, trailer, r.got, rest);
  }

  lemma TakeHeaderInv(c: Config, s: State)
    requires Inv(c, s) && CanPublishTail(c, s) && s.reader.Fetching?
    ensures Inv(c, PublishTailStep(c, s))
  {
    hide Encode, Framed, Window, Store, WriterOk, ReaderOk, LengthOf;
    var s', u := PublishTailStep(c, s), Undelivered(s);
    ReleasedBytes(c, s);
    assert Unread(c, s') == if s'.reader.Holding() then Unread(c, s) else Ahead(c, s');
    HeaderTaken(Unread(c, s), u, s.reader, LoneHeader(s.writer), Ahead(c, s'), s.tail);
    WriterOkWithMoreSpace(c, s.buffer, s.head, Space(c, s), Space(c, s'), s.writer);
    InvBy(c, s', Unread(c, s'), u);
  }

  /** Delivering takes the first message off the unread bytes. */
  lemma Delivered(unread: Bytes, u: seq<Bytes>, r: Reader, trailer: Bytes, rest: Bytes)
    requires r.Delivering? && |r.got| == r.count && ReaderOk(unread, u, r) && Framed(unread, u, r, trailer)
    requires unread == r.got + rest
    ensures u == [r.got] + u[1..] && Framed(rest, u[1..], ReaderIdle, trailer)
  {
    TakePayload(u, trailer, r.got, rest);
  }

  lemma DeliverInv(c: Config, s: State)
    requires Inv(c, s) && CanPublishTail(c, s) && s.reader.Delivering?
    ensures Inv(c, PublishTailStep(c, s))
  {
    hide Encode, Framed, Window, Store, WriterOk;
    var s', u := PublishTailStep(c, s), Undelivered(s);
    ReleasedBytes(c, s);
    Delivered(Unread(c, s), u, s.reader, LoneHeader(s.writer), Unread(c, s'));
    WriterOkWithMoreSpace(c, s.buffer, s.head, Space(c, s), Space(c, s'), s.writer);
    InvBy(c, s', Unread(c, s'), u[1..]);
  }

  /** Reading on from where a copy stopped gives a longer prefix. */
  lemma ReadOn(buffer: Bytes, tail: size_t, used: nat, got: Bytes, n: nat)
    requires tail < |buffer| <= SIZE_MODULUS / 2 && |got| + n <= used <= |buffer|
    requires got <= Window(buffer, tail, used)
    ensures got + Window(buffer, Advance(|buffer|, tail, |got|), n) <= Window(buffer, tail, used)
  {
    var k := |got|;
    WindowSplits(buffer, tail, used, k + n);
    WindowSplits(buffer, tail, k + n, k);
    var part := Window(buffer, tail, k + n);
    assert part == part[..k] + part[k..];
    assert part[..k] == Window(buffer, tail, used)[..k] == got;
  }

  lemma ReadChunkInv(c: Config, s: State, n: nat)
    requires Inv(c, s) && CanRead(c, s, n)
    ensures Inv(c, ReadChunkStep(c, s, n))
  {
    hide Encode, Store, WriterOk;
    var s', unread := ReadChunkStep(c, s, n), Unread(c, s);
    UsedPlusFree(c.length, s.head, s.tail);
    ReadOn(s.buffer, s.tail, |unread|, s.reader.got, n);
    assert Unread(c, s') == unread && Undelivered(s') == Undelivered(s);
  }

  lemma CheckLengthInv(c: Config, s: State)
    requires Inv(c, s) && s.reader.Sized?
    ensures Inv(c, CheckLengthStep(c, s))
  {
    hide Encode, Window, Store, WriterOk;
    var s', u := CheckLengthStep(c, s), Undelivered(s);
    assert u[0] in s.sent && c.Sendable(u[0]);
    UsedPlusFree(c.length, s.head, HeldTail(s));
    assert Unread(c, s') == Unread(c, s) && Undelivered(s') == u;
  }

  lemma SetWriterInv(c: Config, s: State, w: Writer)
    requires Inv(c, s) && (w.Copying? ==> !w.payload && w.done == 0)
    requires LoneHeader(s.writer) == []
    requires WriterOk(c, s.buffer, s.head, Space(c, s), w)
    ensures Inv(c, s.(writer := w))
  {
    InvBy(c, s.(writer := w), Unread(c, s), Undelivered(s));
  }

  lemma SetReaderInv(c: Config, s: State, r: Reader)
    requires Inv(c, s) && !s.reader.Sized? && !s.reader.Delivering?
    requires r.ReaderIdle? || r.Counted? || r.Halted? || (r.Fetching? && r.got == [])
    requires CallsOk(c, s.tail, r) && ReaderOk(Unread(c, s), Undelivered(s), r)
    ensures Inv(c, s.(reader := r))
  {
    InvBy(c, s.(reader := r), Unread(c, s), Undelivered(s));
  }

  lemma DecideInv(c: Config, s: State)
    requires Inv(c, s) && s.writer.Deciding? && s.writer.space.Some?
    ensures Inv(c, DecideStep(s))
  {
    UsedPlusFree(c.length, s.head, HeldTail(s));
    SetWriterInv(c, s, DecideStep(s).writer);
  }

  lemma CountInv(c: Config, s: State)
    requires Inv(c, s) && (s.reader.ReaderIdle? || s.reader.Counted?)
    ensures Inv(c, CountStep(c, s))
  {
    UsedPlusFree(c.length, s.head, s.tail);
    CountCovers(Unread(c, s), Undelivered(s), s.reader, s.writer);
    SetReaderInv(c, s, CountStep(c, s).reader);
  }

  // ------------------------------------------- when a writer sees a held header

  /** The exact condition under which no header that is put back can have been
      overwritten.  A reader that asks for lengths, or that may refuse a message,
      is safe only if the ring is so small that the four bytes of a held header
      never make the difference for the writer: a refused message fills the ring,
      or all messages are of one byte and fill it without a rest. */
  predicate Safe(c: Config)
    requires c.Valid()
  {
    || (!c.peeks && (c.Roomy() || c.Room() == HEADER_SIZE + 1 + c.capacity))
    || c.Longest() == 0
    || (c.Longest() == 1 && c.Room() % (HEADER_SIZE + 1) == 0)
  }

  lemma {:induction false} BytewiseLength(u: seq<Bytes>)
    requires AreMessages(u) && forall m :: m in u ==> |m| == 1
    ensures |Encode(u)| == (HEADER_SIZE + 1) * |u|
  {
    if u != [] {
      assert u[0] in u;
      BytewiseLength(u[1..]);
    }
  }

  /** Four bytes more than are free do not make room for a message that has none. */
  lemma HeldHeaderMakesNoRoom(c: Config, u: seq<Bytes>, free: nat, n: nat)
    requires c.Valid() && Safe(c) && AreMessages(u) && (forall m :: m in u ==> c.Sendable(m))
    requires u != [] && (|u[0]| > c.capacity || c.peeks)
    requires free + |Encode(u)| == c.Room() && 0 < n <= c.longest && HEADER_SIZE + n <= free + HEADER_SIZE
    ensures HEADER_SIZE + n <= free
  {
    assert u[0] in u && c.Sendable(u[0]);
    assert |Encode(u)| == HEADER_SIZE + |u[0]| + |Encode(u[1..])|;
    if c.Longest() == 1 && c.Room() % (HEADER_SIZE + 1) == 0 {
      BytewiseLength(u);
      MultiplesOf5(c.Room(), |u|, free);
    }
  }

  lemma MultiplesOf5(room: nat, count: nat, free: nat)
    requires room % 5 == 0 && free + 5 * count == room
    ensures free % 5 == 0
  {
  }

  /** The writer sees four bytes more than are free while a header is held. */
  lemma HeldSpace(c: Config, s: State)
    requires Inv(c, s) && s.reader.Holding()
    ensures SpacesAvailable(c.length, s.head, s.tail) == Space(c, s) + HEADER_SIZE
    ensures Space(c, s) + |Unread(c, s)| == c.Room()
  {
    hide Store, WriterOk, Window;
    var u, old' := Undelivered(s), s.reader.originalTail;
    assert u[0] in u && IsMessage(u[0]);
    UsedPlusFree(c.length, s.head, old');
    TailMoves(c.length, s.head, old', HEADER_SIZE);
    UsedPlusFree(c.length, s.head, s.tail);
  }

  lemma ReadSpaceInv(c: Config, s: State)
    requires Inv(c, s) && s.writer.Deciding? && (Safe(c) || !s.reader.Holding())
    ensures Inv(c, ReadSpaceStep(c, s))
  {
    if s.reader.Holding() {
      HeldSpace(c, s);
      var u, n := Undelivered(s), |s.writer.message|;
      assert forall m :: m in u ==> m in s.sent;
      assert Unread(c, s) == Encode(u);
      if SpacesAvailable(c.length, s.head, s.tail) >= HEADER_SIZE + n {
        HeldHeaderMakesNoRoom(c, u, Space(c, s), n);
      }
    }
    SetWriterInv(c, s, ReadSpaceStep(c, s).writer);
  }

  lemma WriterInv(c: Config, s: State, step: Step)
    requires Inv(c, s) && (Safe(c) || !s.reader.Holding()) && !s.reader.Halted?
    requires step.SendCall? || step.ReadSpace? || step.Decide? || step.WriteChunk? || step.PublishHead?
    ensures Inv(c, Next(c, s, step))
  {
    hide Safe, Store, Window, Framed, ReaderOk, Encode;
    match step
    case WriteChunk(n) => if CanWrite(c, s, n) { WriteChunkInv(c, s, n); }
    case PublishHead =>
      if CanPublishHead(c, s) {
        if s.writer.payload { PublishPayloadInv(c, s); } else { PublishHeaderInv(c, s); }
      }
    case SendCall(m) =>
      if s.writer.WriterIdle? && IsMessage(m) && |m| <= c.longest { SetWriterInv(c, s, Deciding(m, None)); }
    case ReadSpace => if s.writer.Deciding? { ReadSpaceInv(c, s); }
    case Decide => if s.writer.Deciding? && s.writer.space.Some? { DecideInv(c, s); }
    case _ =>
  }

  lemma ReaderInv(c: Config, s: State, step: Step)
    requires Inv(c, s) && !s.reader.Halted?
    requires step.CountBytes? || step.StartReceive? || step.StartPeek? || step.ReadChunk? || step.PublishTail?
      || step.CheckLength?
    ensures Inv(c, Next(c, s, step))
  {
    hide Safe, Store, Window, Framed, WriterOk, Encode;
    match step
    case ReadChunk(n) => if CanRead(c, s, n) { ReadChunkInv(c, s, n); }
    case PublishTail =>
      if CanPublishTail(c, s) {
        if s.reader.Fetching? { TakeHeaderInv(c, s); } else { DeliverInv(c, s); }
      }
    case CheckLength => if s.reader.Sized? { CheckLengthInv(c, s); }
    case CountBytes => if s.reader.ReaderIdle? || s.reader.Counted? { CountInv(c, s); }
    case StartReceive(capacity) =>
      if s.reader.Counted? && capacity >= c.capacity { SetReaderInv(c, s, StartReceiveStep(s, capacity).reader); }
    case StartPeek => if s.reader.Counted? && c.peeks { SetReaderInv(c, s, StartPeekStep(s).reader); }
    case _ =>
  }

  lemma NextInv(c: Config, s: State, step: Step)
    requires Inv(c, s) && (Safe(c) || !s.reader.Holding())
    ensures Inv(c, Next(c, s, step))
  {
    if s.reader.Halted? { return; }
    hide Inv, Safe, Next;
    if step.SendCall? || step.ReadSpace? || step.Decide? || step.WriteChunk? || step.PublishHead? {
      WriterInv(c, s, step);
    } else {
      ReaderInv(c, s, step);
    }
  }

  // ------------------------------------------------------------- safe readers

  lemma {:induction false} RunInv(c: Config, steps: seq<Step>)
    requires c.Valid() && Safe(c)
    ensures Inv(c, Run(c, steps))
  {
    if steps == [] {
      InitialInv(c);
    } else {
      hide Inv, Next, Safe;
      RunInv(c, steps[..|steps| - 1]);
      NextInv(c, Run(c, steps[..|steps| - 1]), steps[|steps| - 1]);
    }
  }

  /** What the reader delivered is a prefix of what was sent, and while both sides
      are idle the buffer holds exactly the messages not delivered yet. */
  ghost predicate InOrder(c: Config, s: State)
    requires Shaped(c, s)
  {
    && s.delivered <= s.sent
    && (s.writer.WriterIdle? && s.reader.ReaderIdle? ==> Decode(Ahead(c, s)) == Some(s.sent[|s.delivered|..]))
  }

  /** In every interleaving with a safe reader it delivers whole messages, in the
      order and with the bytes they were sent. */
  lemma DeliversInOrder(c: Config, steps: seq<Step>)
    requires c.Valid() && Safe(c)
    ensures InOrder(c, Run(c, steps))
  {
    RunInv(c, steps);
    var s := Run(c, steps);
    var u := Undelivered(s);
    if s.writer.WriterIdle? && s.reader.ReaderIdle? {
      DecodeEncode(u);
      assert Ahead(c, s) == Unread(c, s) == Encode(u);
    }
  }

  lemma PayloadAhead(c: Config, s: State)
    requires Inv(c, s) && s.reader.Sized?
    ensures s.delivered < s.sent && s.sent[|s.delivered|] <= Ahead(c, s)
  {
    hide Store, WriterOk;
    var u := Undelivered(s);
    assert u[0] == s.sent[|s.delivered|];
    if s.reader.Holding() {
      HeldSpace(c, s);
      WindowShrinks(s.buffer, s.head, s.reader.originalTail, HEADER_SIZE);
      assert IsMessage(u[0]) by { assert u[0] in u; }
      TakeHeader(u, LoneHeader(s.writer), Window(s.buffer, s.reader.originalTail, HEADER_SIZE), Ahead(c, s));
    }
  }

  /** The reader only takes a header whose payload is published with it. */
  lemma NeverTakesLoneHeader(c: Config, steps: seq<Step>)
    requires c.Valid() && Safe(c)
    ensures var s := Run(c, steps);
      && (s.reader.Fetching? ==>
            s.delivered < s.sent && HEADER_SIZE + |s.sent[|s.delivered|]| <= |Ahead(c, s)|)
      && (s.reader.Sized? ==>
            s.delivered < s.sent && s.reader.nextLength == |s.sent[|s.delivered|]|
            && s.sent[|s.delivered|] <= Ahead(c, s))
  {
    RunInv(c, steps);
    var s := Run(c, steps);
    var u := Undelivered(s);
    assert u != [] ==> u[0] == s.sent[|s.delivered|];
    if s.reader.Sized? {
      PayloadAhead(c, s);
    }
  }
}
