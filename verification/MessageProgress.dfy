/** Calls come to an end: from whatever state the other side has left, the steps of
    one call, undisturbed, complete it. */
module MessageProgress {
  import opened Wrappers
  import opened RingIndex
  import opened Messages
  import opened MessageSteps
  import opened MessageInterleaving
  import opened MessageLoss

  // ------------------------------------------------------------------ receives

  /** The rest of a receive that has begun to copy a payload of `count` bytes. */
  function PayloadSteps(count: size_t, got: nat): seq<Step>
    requires got <= count
  {
    [ReadChunk(count - got), PublishTail]
  }

  function HeaderSteps(got: nat): seq<Step>
    requires got <= HEADER_SIZE
  {
    [ReadChunk(HEADER_SIZE - got), PublishTail]
  }

  /** The next message that is to be delivered. */
  function NextMessage(s: State): Bytes
    requires |s.delivered| < |s.sent|
  {
    s.sent[|s.delivered|]
  }

  /** The state when the next message has been received. */
  function Received(c: Config, s: State): State
    requires Shaped(c, s) && |s.delivered| < |s.sent| && HEADER_SIZE + |NextMessage(s)| <= c.length
  {
    s.(tail := Advance(c.length, s.tail, HEADER_SIZE + |NextMessage(s)|), reader := ReaderIdle,
       delivered := s.delivered + [NextMessage(s)])
  }

  lemma NextIsSendable(c: Config, s: State)
    requires Inv(c, s) && |s.delivered| < |s.sent|
    ensures IsMessage(NextMessage(s)) && 0 < |NextMessage(s)| && HEADER_SIZE + |NextMessage(s)| < c.length
    ensures Undelivered(s) != [] && Undelivered(s)[0] == NextMessage(s)
  {
    assert NextMessage(s) in s.sent;
  }

  lemma TakenHasNext(c: Config, s: State)
    requires Inv(c, s) && (s.reader.Fetching? || s.reader.Sized? || s.reader.Delivering?)
    ensures |s.delivered| < |s.sent|
  {
  }

  lemma DeliveringFinishes(c: Config, s: State)
    requires Inv(c, s) && s.reader.Delivering?
    ensures |s.delivered| < |s.sent| && |s.reader.got| <= s.reader.count == |NextMessage(s)| <= c.length
    ensures RunOn(c, s, PayloadSteps(s.reader.count, |s.reader.got|)) ==
            s.(tail := Advance(c.length, s.tail, |NextMessage(s)|), reader := ReaderIdle,
               delivered := s.delivered + [NextMessage(s)])
  {
    hide RunOn, Store, WriterOk, Encode;
    TakenHasNext(c, s);
    NextIsSendable(c, s);
    var n := s.reader.count - |s.reader.got|;
    var s1 := ReadChunkStep(c, s, n);
    ReadChunkInv(c, s, n);
    var s2 := PublishTailStep(c, s1);
    DeliverInv(c, s1);
    TwoSteps(c, s, s1, s2, ReadChunk(n), PublishTail);
    assert s2.delivered <= s2.sent && s2.delivered[|s.delivered|] == s2.sent[|s.delivered|];
  }

  /** When the length is known a receive goes on to the payload. */
  lemma SizedGoesOn(c: Config, s: State)
    requires Inv(c, s) && s.reader.Sized? && !s.reader.Holding()
    ensures |s.delivered| < |s.sent|
    ensures Next(c, s, CheckLength) == s.(reader := Delivering(|NextMessage(s)|, []))
  {
    hide Store, WriterOk, Encode, Window;
    TakenHasNext(c, s);
    NextIsSendable(c, s);
  }

  lemma SizedFinishes(c: Config, s: State)
    requires Inv(c, s) && s.reader.Sized? && !s.reader.Holding()
    ensures |s.delivered| < |s.sent| && |NextMessage(s)| <= c.length
    ensures RunOn(c, s, [CheckLength] + PayloadSteps(|NextMessage(s)|, 0)) ==
            s.(tail := Advance(c.length, s.tail, |NextMessage(s)|), reader := ReaderIdle,
               delivered := s.delivered + [NextMessage(s)])
  {
    hide RunOn, Next, Inv, Shaped, PayloadSteps;
    InvIsShaped(c, s);
    SizedGoesOn(c, s);
    CheckLengthInv(c, s);
    var s1 := Next(c, s, CheckLength);
    SizedStep(c, s);
    DeliveringFinishes(c, s1);
    assert ([CheckLength] + PayloadSteps(|NextMessage(s)|, 0))[1..] == PayloadSteps(|NextMessage(s)|, 0);
    RunOnStep(c, s, [CheckLength] + PayloadSteps(|NextMessage(s)|, 0), s1);
  }

  lemma InvIsShaped(c: Config, s: State)
    requires Inv(c, s)
    ensures Shaped(c, s)
  {
  }

  lemma SizedStep(c: Config, s: State)
    requires Shaped(c, s) && s.reader.Sized?
    ensures Next(c, s, CheckLength) == CheckLengthStep(c, s)
  {
  }

  /** The header: a receive that takes the message goes on past it; one that is
      refused, and a call for the length, then puts the tail back. */
  lemma FetchingGoesOn(c: Config, s: State)
    requires Inv(c, s) && s.reader.Fetching?
    ensures |s.delivered| < |s.sent| && |s.reader.got| <= HEADER_SIZE <= c.length
    ensures var s' := RunOn(c, s, HeaderSteps(|s.reader.got|));
      && Inv(c, s')
      && s' == s.(tail := Advance(c.length, s.tail, HEADER_SIZE), reader := s'.reader)
      && s'.reader.Sized? && s'.reader.call == s.reader.call && s'.reader.originalTail == s.tail
      && s'.reader.nextLength == |NextMessage(s)|
  {
    hide RunOn, Store, WriterOk, Encode;
    TakenHasNext(c, s);
    NextIsSendable(c, s);
    var n := HEADER_SIZE - |s.reader.got|;
    var s1 := ReadChunkStep(c, s, n);
    ReadChunkInv(c, s, n);
    var s2 := PublishTailStep(c, s1);
    TakeHeaderInv(c, s1);
    TwoSteps(c, s, s1, s2, ReadChunk(n), PublishTail);
  }

  /** All that is left of a receive, or of a call for the length. */
  function RestSteps(s: State): seq<Step>
    requires s.reader.Fetching? && |s.reader.got| <= HEADER_SIZE && |s.delivered| < |s.sent|
    requires |NextMessage(s)| < SIZE_MODULUS
  {
    HeaderSteps(|s.reader.got|) + [CheckLength]
    + if s.reader.call.PutsBack(|NextMessage(s)|) then [] else PayloadSteps(|NextMessage(s)|, 0)
  }

  lemma FetchingFinishes(c: Config, s: State)
    requires Inv(c, s) && s.reader.Fetching?
    ensures |s.delivered| < |s.sent| && |s.reader.got| <= HEADER_SIZE && HEADER_SIZE + |NextMessage(s)| <= c.length
    ensures RunOn(c, s, RestSteps(s)) ==
            if s.reader.call.PutsBack(|NextMessage(s)|) then s.(reader := ReaderIdle) else Received(c, s)
  {
    hide RunOn, Next, Inv, Shaped, HeaderSteps, PayloadSteps;
    InvIsShaped(c, s);
    TakenHasNext(c, s);
    NextIsSendable(c, s);
    FetchingGoesOn(c, s);
    var s1 := RunOn(c, s, HeaderSteps(|s.reader.got|));
    InvIsShaped(c, s1);
    if s.reader.call.PutsBack(|NextMessage(s)|) {
      SizedStep(c, s1);
      RunOnStep(c, s1, [CheckLength], CheckLengthStep(c, s1));
      RunOnAppend(c, s, HeaderSteps(|s.reader.got|), [CheckLength]);
      assert RestSteps(s) == HeaderSteps(|s.reader.got|) + [CheckLength];
    } else {
      SizedFinishes(c, s1);
      var rest := [CheckLength] + PayloadSteps(|NextMessage(s)|, 0);
      RunOnAppend(c, s, HeaderSteps(|s.reader.got|), rest);
      assert RestSteps(s) == HeaderSteps(|s.reader.got|) + rest;
      ShapedTail(c, s);
      AdvanceAdvance(c.length, s.tail, HEADER_SIZE, |NextMessage(s)|);
    }
  }

  lemma ShapedTail(c: Config, s: State)
    requires Shaped(c, s)
    ensures s.tail < c.length <= SIZE_MODULUS / 2
  {
  }

  /** The steps of one whole receive of a message of n bytes. */
  function ReceiveSteps(capacity: size_t, n: size_t): seq<Step> {
    [CountBytes, StartReceive(capacity), ReadChunk(HEADER_SIZE), PublishTail, CheckLength, ReadChunk(n), PublishTail]
  }

  /** A message that was sent is wholly in the ring until it is delivered, so that a
      count of the bytes always finds it. */
  lemma SentIsThere(c: Config, s: State)
    requires Inv(c, s) && s.reader.ReaderIdle? && |s.delivered| < |s.sent|
    ensures BytesInBuffer(c.length, s.head, s.tail) >= HEADER_SIZE + |NextMessage(s)| > HEADER_SIZE
  {
    hide Store, WriterOk, Window;
    NextIsSendable(c, s);
    UsedPlusFree(c.length, s.head, s.tail);
    CountCovers(Unread(c, s), Undelivered(s), s.reader, s.writer);
    assert Encode(Undelivered(s)) == Record(NextMessage(s)) + Encode(Undelivered(s)[1..]);
  }

  lemma StartsToFetch(c: Config, s: State, capacity: size_t)
    requires Inv(c, s) && s.reader.ReaderIdle? && |s.delivered| < |s.sent| && capacity >= c.capacity
    ensures var s' := RunOn(c, s, [CountBytes, StartReceive(capacity)]);
      Inv(c, s') && s' == s.(reader := Fetching(Receive(capacity), BytesInBuffer(c.length, s.head, s.tail), []))
  {
    hide RunOn, Store, WriterOk, Window, Encode;
    SentIsThere(c, s);
    CountInv(c, s);
    var s1 := CountStep(c, s);
    NextInvOfReader(c, s1, StartReceive(capacity));
    TwoSteps(c, s, s1, StartReceiveStep(s1, capacity), CountBytes, StartReceive(capacity));
  }

  lemma NextInvOfReader(c: Config, s: State, step: Step)
    requires Inv(c, s) && !s.reader.Halted? && step.StartReceive?
    ensures Inv(c, Next(c, s, step))
  {
    ReaderInv(c, s, step);
  }

  /** A receive completes: with an idle reader and a message sent and not yet
      delivered, one call with room for it delivers it, wherever it lies in the
      ring and whatever the writer is about; with less room it changes nothing. */
  lemma ReceiveFrom(c: Config, s: State, capacity: size_t)
    requires Inv(c, s) && s.reader.ReaderIdle? && |s.delivered| < |s.sent| && capacity >= c.capacity
    ensures HEADER_SIZE + |NextMessage(s)| <= c.length
    ensures |NextMessage(s)| <= capacity ==> RunOn(c, s, ReceiveSteps(capacity, |NextMessage(s)|)) == Received(c, s)
    ensures |NextMessage(s)| > capacity ==> RunOn(c, s, ReceiveSteps(capacity, |NextMessage(s)|)[..5]) == s
  {
    hide RunOn, Next, Inv, Shaped;
    InvIsShaped(c, s);
    StartsToFetch(c, s, capacity);
    var start := [CountBytes, StartReceive(capacity)];
    var s' := RunOn(c, s, start);
    FetchingFinishes(c, s');
    RunOnAppend(c, s, start, RestSteps(s'));
    var steps := ReceiveSteps(capacity, |NextMessage(s)|);
    if |NextMessage(s)| <= capacity {
      assert steps == start + RestSteps(s');
    } else {
      assert steps[..5] == start + RestSteps(s');
    }
  }

  /** In every interleaving with a safe reader: whenever the reader is idle and
      something sent is not delivered, a receive with room for it delivers it. */
  lemma ReceiveDelivers(c: Config, steps: seq<Step>, capacity: size_t)
    requires c.Valid() && Safe(c) && capacity >= c.capacity
    requires var s := Run(c, steps); s.reader.ReaderIdle? && |s.delivered| < |s.sent| && |NextMessage(s)| <= capacity
    ensures var s := Run(c, steps);
      && HEADER_SIZE + |NextMessage(s)| <= c.length
      && Run(c, steps + ReceiveSteps(capacity, |NextMessage(s)|)) == Received(c, s)
  {
    hide RunOn, Next, Inv, Shaped, Safe;
    RunInv(c, steps);
    var s := Run(c, steps);
    ReceiveFrom(c, s, capacity);
    RunAppend(c, steps, ReceiveSteps(capacity, |NextMessage(s)|));
  }

  /** And a call that is under way, found anywhere in the copy of the header, runs
      to its end: it delivers the message, or puts everything back. */
  lemma CallFinishes(c: Config, steps: seq<Step>)
    requires c.Valid() && Safe(c) && Run(c, steps).reader.Fetching?
    ensures var s := Run(c, steps);
      && |s.delivered| < |s.sent| && |s.reader.got| <= HEADER_SIZE && HEADER_SIZE + |NextMessage(s)| <= c.length
      && Run(c, steps + RestSteps(s)) ==
         if s.reader.call.PutsBack(|NextMessage(s)|) then s.(reader := ReaderIdle) else Received(c, s)
  {
    hide RunOn, Next, Inv, Shaped, Safe;
    RunInv(c, steps);
    var s := Run(c, steps);
    FetchingFinishes(c, s);
    RunAppend(c, steps, RestSteps(s));
  }

  /** Likewise from anywhere in the copy of the payload. */
  lemma DeliveryFinishes(c: Config, steps: seq<Step>)
    requires c.Valid() && Safe(c) && Run(c, steps).reader.Delivering?
    ensures var s := Run(c, steps);
      && |s.delivered| < |s.sent| && |s.reader.got| <= s.reader.count == |NextMessage(s)| <= c.length
      && Run(c, steps + PayloadSteps(s.reader.count, |s.reader.got|)) ==
         s.(tail := Advance(c.length, s.tail, |NextMessage(s)|), reader := ReaderIdle,
            delivered := s.delivered + [NextMessage(s)])
  {
    hide RunOn, Next, Inv, Shaped, Safe;
    RunInv(c, steps);
    var s := Run(c, steps);
    DeliveringFinishes(c, s);
    RunAppend(c, steps, PayloadSteps(s.reader.count, |s.reader.got|));
  }

  // --------------------------------------------------------------------- sends

  /** The rest of a send that has begun to copy. */
  function CopySteps(w: Writer): seq<Step>
    requires w.Copying? && |w.message| < SIZE_MODULUS && w.done <= |w.Data()|
  {
    [WriteChunk(|w.Data()| - w.done), PublishHead] + if w.payload then [] else [WriteChunk(|w.message|), PublishHead]
  }

  lemma CopyOne(c: Config, s: State)
    requires Inv(c, s) && s.writer.Copying? && !s.reader.Halted?
    ensures s.writer.done <= |s.writer.Data()| <= c.length
    ensures var s' := RunOn(c, s, [WriteChunk(|s.writer.Data()| - s.writer.done), PublishHead]);
      && Inv(c, s')
      && s' == s.(buffer := s'.buffer, head := Advance(c.length, s.head, |s.writer.Data()|),
                  writer := if s.writer.payload then WriterIdle else Copying(s.writer.message, true, 0),
                  sent := if s.writer.payload then s.sent + [s.writer.message] else s.sent)
  {
    hide RunOn, Store, ReaderOk, Framed, Encode;
    var n := |s.writer.Data()| - s.writer.done;
    var s1 := WriteChunkStep(c, s, n);
    WriteChunkInv(c, s, n);
    if s.writer.payload { PublishPayloadInv(c, s1); } else { PublishHeaderInv(c, s1); }
    TwoSteps(c, s, s1, PublishHeadStep(c, s1), WriteChunk(n), PublishHead);
  }

  /** A send that has begun to copy, found anywhere in it, runs to its end and adds
      its message. */
  lemma SendFinishes(c: Config, steps: seq<Step>)
    requires c.Valid() && Safe(c)
    requires var s := Run(c, steps); s.writer.Copying? && !s.reader.Halted?
    ensures var s := Run(c, steps);
      && |s.writer.message| < SIZE_MODULUS && s.writer.done <= |s.writer.Data()|
      && var s' := Run(c, steps + CopySteps(s.writer));
      s'.writer.WriterIdle? && s'.sent == s.sent + [s.writer.message] && s'.delivered == s.delivered
      && s'.reader == s.reader && s'.tail == s.tail
  {
    hide RunOn, Next, Inv, Shaped, Safe;
    RunInv(c, steps);
    var s := Run(c, steps);
    InvIsShaped(c, s);
    CopyOne(c, s);
    var first := [WriteChunk(|s.writer.Data()| - s.writer.done), PublishHead];
    RunAppend(c, steps, CopySteps(s.writer));
    if s.writer.payload {
      assert CopySteps(s.writer) == first;
    } else {
      var s1 := RunOn(c, s, first);
      CopyOne(c, s1);
      RunOnAppend(c, s, first, [WriteChunk(|s.writer.message|), PublishHead]);
    }
  }
}
