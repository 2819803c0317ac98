/** One writer and one reader on a message buffer, interleaved.

    Each read of the other side's index, each piece of a copy into or out of
    the ring, and each publication of xHead or xTail is a step of its own, so
    the header and the payload of a message become visible at different times.
    A copy may be cut into any pieces: the two memcpy calls of a wrapped copy,
    or single bytes. */
module MessageSteps {
  import opened Wrappers
  import opened RingIndex
  import opened Messages

  /** `longest` is the longest message the writer sends, `capacity` the smallest
      buffer the reader passes to a receive; `peeks` says whether the reader also
      asks for the length of the next message. */
  datatype Config = Config(length: size_t, longest: size_t, capacity: size_t, peeks: bool) {
    predicate Valid() {
      HEADER_SIZE < length <= SIZE_MODULUS / 2 && longest < SIZE_MODULUS / 2
    }

    /** How many bytes the ring can hold. */
    function Room(): nat
      requires Valid()
    {
      length - 1
    }

    /** The longest message that is ever in the ring. */
    function Longest(): nat
      requires Valid()
    {
      Min(longest, Room() - HEADER_SIZE)
    }

    /** A message the writer may send and the ring can hold. */
    predicate Sendable(m: Bytes)
      requires Valid()
    {
      IsMessage(m) && |m| <= Longest()
    }

    /** The reader's buffer takes every message that fits in the ring. */
    predicate Roomy()
      requires Valid()
    {
      Longest() <= capacity
    }
  }

  datatype Writer =
    | WriterIdle
    | Deciding(message: Bytes, space: Option<size_t>)
    | Copying(message: Bytes, payload: bool, done: nat)
  {
    function Data(): Bytes
      requires Copying? && |message| < SIZE_MODULUS
    {
      if payload then message else LengthBytes(|message|)
    }
  }

  /** The reader's two calls that take a header: xStreamBufferReceive with the
      size of the caller's buffer, and xStreamBufferNextMessageLengthBytes. */
  datatype Call = Receive(capacity: size_t) | Peek
  {
    /** Whether the tail is put back once the length is known. */
    predicate PutsBack(nextLength: size_t) {
      Peek? || nextLength > capacity
    }
  }

  datatype Reader =
    | ReaderIdle
    | Counted(available: size_t)
    | Fetching(call: Call, available: size_t, got: Bytes)
    | Sized(call: Call, originalTail: size_t, remaining: size_t, nextLength: size_t)
    | Delivering(count: size_t, got: Bytes)
    | Halted
  {
    /** How many bytes the copy in progress takes. */
    function Wanted(): size_t
      requires Fetching? || Delivering?
    {
      if Fetching? then HEADER_SIZE else count
    }

    /** The tail has been moved past a header, and will be put back. */
    predicate Holding() {
      Sized? && call.PutsBack(nextLength)
    }
  }

  /** `sent` and `delivered` record what the two calls completed so far. */
  datatype State = State(buffer: Bytes, head: size_t, tail: size_t,
                         writer: Writer, reader: Reader,
                         sent: seq<Bytes>, delivered: seq<Bytes>)

  datatype Step =
    | SendCall(message: Bytes)
    | ReadSpace
    | Decide
    | WriteChunk(n: nat)
    | PublishHead
    | CountBytes
    | StartReceive(capacity: size_t)
    | StartPeek
    | ReadChunk(n: nat)
    | PublishTail
    | CheckLength

  predicate Shaped(c: Config, s: State) {
    && c.Valid() && |s.buffer| == c.length && InRange(c.length, s.head, s.tail)
    && (s.writer.Copying? ==> |s.writer.message| + HEADER_SIZE < SIZE_MODULUS && s.writer.done <= |s.writer.Data()|)
    && (s.reader.Fetching? || s.reader.Delivering? ==> |s.reader.got| <= s.reader.Wanted() <= c.length)
    && (s.reader.Sized? ==> s.reader.originalTail < c.length)
  }

  function Initial(c: Config): State
    requires c.Valid()
  {
    State(seq(c.length, _ => 0), 0, 0, WriterIdle, ReaderIdle, [], [])
  }

  /** Stores data at `start`, wrapping at the end of the buffer. */
  function Store(buffer: Bytes, start: size_t, data: Bytes): (after: Bytes)
    requires start < |buffer| <= SIZE_MODULUS / 2 && |data| <= |buffer|
    ensures |after| == |buffer|
  {
    seq(|buffer|, k requires 0 <= k < |buffer| =>
      var offset := if k < start then k + |buffer| - start else k - start;
      if offset < |data| then data[offset] else buffer[k])
  }

  // The writer's program: xStreamBufferSend and prvWriteMessageToBuffer.

  function ReadSpaceStep(c: Config, s: State): (s': State)
    requires Shaped(c, s) && s.writer.Deciding?
    ensures Shaped(c, s')
  {
    s.(writer := s.writer.(space := Some(SpacesAvailable(c.length, s.head, s.tail))))
  }

  function DecideStep(s: State): State
    requires s.writer.Deciding? && s.writer.space.Some?
  {
    var required := |s.writer.message| + HEADER_SIZE;
    s.(writer := if s.writer.space.value >= required then Copying(s.writer.message, false, 0) else WriterIdle)
  }

  predicate CanWrite(c: Config, s: State, n: nat)
    requires Shaped(c, s)
  {
    s.writer.Copying? && s.writer.done + n <= |s.writer.Data()| <= c.length
  }

  function WriteChunkStep(c: Config, s: State, n: nat): (s': State)
    requires Shaped(c, s) && CanWrite(c, s, n)
    ensures Shaped(c, s')
  {
    var w := s.writer;
    s.(buffer := Store(s.buffer, Advance(c.length, s.head, w.done), w.Data()[w.done..w.done + n]),
       writer := w.(done := w.done + n))
  }

  predicate CanPublishHead(c: Config, s: State)
    requires Shaped(c, s)
  {
    s.writer.Copying? && s.writer.done == |s.writer.Data()| <= c.length
  }

  function PublishHeadStep(c: Config, s: State): (s': State)
    requires Shaped(c, s) && CanPublishHead(c, s)
    ensures Shaped(c, s')
  {
    var w, head' := s.writer, Advance(c.length, s.head, |s.writer.Data()|);
    if w.payload then s.(head := head', writer := WriterIdle, sent := s.sent + [w.message])
    else s.(head := head', writer := Copying(w.message, true, 0))
  }

  // The reader's program: xStreamBufferReceive with prvReadMessageFromBuffer, and
  // xStreamBufferNextMessageLengthBytes.

  function CountStep(c: Config, s: State): (s': State)
    requires Shaped(c, s)
    ensures Shaped(c, s')
  {
    s.(reader := Counted(BytesInBuffer(c.length, s.head, s.tail)))
  }

  function StartReceiveStep(s: State, capacity: size_t): State
    requires s.reader.Counted?
  {
    s.(reader := if s.reader.available > HEADER_SIZE then Fetching(Receive(capacity), s.reader.available, [])
                 else ReaderIdle)
  }

  /** With fewer bytes than a header and a payload, configASSERT demands that
      there are none; otherwise it disables interrupts and loops for ever. */
  function StartPeekStep(s: State): State
    requires s.reader.Counted?
  {
    s.(reader := if s.reader.available > HEADER_SIZE then Fetching(Peek, s.reader.available, [])
                 else if s.reader.available == 0 then ReaderIdle
                 else Halted)
  }

  predicate CanRead(c: Config, s: State, n: nat)
    requires Shaped(c, s)
  {
    (s.reader.Fetching? || s.reader.Delivering?) && |s.reader.got| + n <= s.reader.Wanted()
  }

  function ReadChunkStep(c: Config, s: State, n: nat): (s': State)
    requires Shaped(c, s) && CanRead(c, s, n)
    ensures Shaped(c, s')
  {
    var r := s.reader;
    s.(reader := r.(got := r.got + Window(s.buffer, Advance(c.length, s.tail, |r.got|), n)))
  }

  predicate CanPublishTail(c: Config, s: State)
    requires Shaped(c, s)
  {
    (s.reader.Fetching? || s.reader.Delivering?) && |s.reader.got| == s.reader.Wanted()
  }

  function PublishTailStep(c: Config, s: State): (s': State)
    requires Shaped(c, s) && CanPublishTail(c, s)
    ensures Shaped(c, s')
  {
    var r, tail' := s.reader, Advance(c.length, s.tail, |s.reader.got|);
    if r.Fetching? then
      s.(tail := tail', reader := Sized(r.call, s.tail, SubSize(r.available, HEADER_SIZE), LengthOf(r.got)))
    else s.(tail := tail', reader := ReaderIdle, delivered := s.delivered + [r.got])
  }

  function CheckLengthStep(c: Config, s: State): (s': State)
    requires Shaped(c, s) && s.reader.Sized?
    ensures Shaped(c, s')
  {
    var r := s.reader;
    if r.Holding() then
      s.(tail := r.originalTail, reader := ReaderIdle)
    else
      var count := Min(r.remaining, r.nextLength);
      s.(reader := if 0 < count <= c.length then Delivering(count, []) else ReaderIdle)
  }

  /** A step that is not the next one of its side changes nothing, and once the
      processor is halted no step does. */
  function Next(c: Config, s: State, step: Step): (s': State)
    requires Shaped(c, s)
    ensures Shaped(c, s')
  {
    if s.reader.Halted? then s else
    match step
    case SendCall(m) =>
      if s.writer.WriterIdle? && IsMessage(m) && |m| <= c.longest then s.(writer := Deciding(m, None)) else s
    case ReadSpace => if s.writer.Deciding? then ReadSpaceStep(c, s) else s
    case Decide =>
      if s.writer.Deciding? && s.writer.space.Some? && IsMessage(s.writer.message) then DecideStep(s) else s
    case WriteChunk(n) => if CanWrite(c, s, n) then WriteChunkStep(c, s, n) else s
    case PublishHead => if CanPublishHead(c, s) then PublishHeadStep(c, s) else s
    case CountBytes => if s.reader.ReaderIdle? || s.reader.Counted? then CountStep(c, s) else s
    case StartReceive(capacity) =>
      if s.reader.Counted? && capacity >= c.capacity then StartReceiveStep(s, capacity) else s
    case StartPeek => if s.reader.Counted? && c.peeks then StartPeekStep(s) else s
    case ReadChunk(n) => if CanRead(c, s, n) then ReadChunkStep(c, s, n) else s
    case PublishTail => if CanPublishTail(c, s) then PublishTailStep(c, s) else s
    case CheckLength => if s.reader.Sized? then CheckLengthStep(c, s) else s
  }

  /** The state after a run, the last step last. */
  function Run(c: Config, steps: seq<Step>): (s: State)
    requires c.Valid()
    ensures Shaped(c, s)
  {
    if steps == [] then Initial(c)
    else Next(c, Run(c, steps[..|steps| - 1]), steps[|steps| - 1])
  }
}
