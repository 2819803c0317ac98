/** Message buffers whose reader puts a header back: exactly when a run loses
    messages, and the run that does. */
module MessageLoss {
  import opened Wrappers
  import opened RingIndex
  import opened Messages
  import opened MessageSteps
  import opened MessageInterleaving

  // ------------------------------------------------------------------ running

  lemma RunSnoc(c: Config, steps: seq<Step>, step: Step)
    requires c.Valid()
    ensures Run(c, steps + [step]) == Next(c, Run(c, steps), step)
  {
    assert (steps + [step])[..|steps|] == steps;
  }

  lemma {:induction false} RunAppend(c: Config, steps: seq<Step>, more: seq<Step>)
    requires c.Valid()
    ensures Run(c, steps + more) == RunOn(c, Run(c, steps), more)
    decreases |more|
  {
    if more == [] {
      assert steps + more == steps;
    } else {
      RunSnoc(c, steps, more[0]);
      assert steps + more == (steps + [more[0]]) + more[1..];
      RunAppend(c, steps + [more[0]], more[1..]);
    }
  }

  /** The state after more steps, the first step first. */
  function RunOn(c: Config, s: State, steps: seq<Step>): (s': State)
    requires Shaped(c, s)
    ensures Shaped(c, s')
    decreases |steps|
  {
    if steps == [] then s else RunOn(c, Next(c, s, steps[0]), steps[1..])
  }

  lemma RunOnStep(c: Config, s: State, steps: seq<Step>, s': State)
    requires Shaped(c, s) && steps != [] && s' == Next(c, s, steps[0])
    ensures RunOn(c, s, steps) == RunOn(c, s', steps[1..])
    ensures |steps| == 1 ==> RunOn(c, s, steps) == s'
  {
  }

  lemma TwoSteps(c: Config, s: State, s1: State, s2: State, a: Step, b: Step)
    requires Shaped(c, s) && Shaped(c, s1)
    requires Next(c, s, a) == s1 && Next(c, s1, b) == s2
    ensures RunOn(c, s, [a, b]) == s2
  {
    hide Next, Shaped;
    RunOnStep(c, s, [a, b], s1);
    RunOnStep(c, s1, [a, b][1..], s2);
  }

  lemma FiveSteps(c: Config, s: State, s1: State, s2: State, s3: State, s4: State, s5: State, steps: seq<Step>)
    requires Shaped(c, s) && Shaped(c, s1) && Shaped(c, s2) && Shaped(c, s3) && Shaped(c, s4) && |steps| == 5
    requires Next(c, s, steps[0]) == s1 && Next(c, s1, steps[1]) == s2 && Next(c, s2, steps[2]) == s3
    requires Next(c, s3, steps[3]) == s4 && Next(c, s4, steps[4]) == s5
    ensures RunOn(c, s, steps) == s5
  {
    hide Next, Shaped, RunOn;
    RunOnStep(c, s, steps, s1);
    RunOnStep(c, s1, steps[1..], s2);
    RunOnStep(c, s2, steps[2..], s3);
    RunOnStep(c, s3, steps[3..], s4);
    RunOnStep(c, s4, steps[4..], s5);
    assert steps[1..][1..] == steps[2..] && steps[2..][1..] == steps[3..] && steps[3..][1..] == steps[4..];
  }

  lemma {:induction false} RunOnAppend(c: Config, s: State, steps: seq<Step>, more: seq<Step>)
    requires Shaped(c, s)
    ensures RunOn(c, s, steps + more) == RunOn(c, RunOn(c, s, steps), more)
    decreases |steps|
  {
    hide Next, Shaped;
    if steps == [] {
      assert steps + more == more;
    } else {
      assert (steps + more)[1..] == steps[1..] + more;
      RunOnAppend(c, Next(c, s, steps[0]), steps[1..], more);
    }
  }

  /** The steps of one undisturbed send, up to and from where its header is
      published. */
  function SendHeader(m: Bytes): seq<Step> {
    [SendCall(m), ReadSpace, Decide, WriteChunk(HEADER_SIZE), PublishHead]
  }

  function SendPayload(m: Bytes): seq<Step> {
    [WriteChunk(|m|), PublishHead]
  }

  function SendSteps(m: Bytes): seq<Step> {
    SendHeader(m) + SendPayload(m)
  }

  lemma SendHeaderRun(c: Config, s: State, m: Bytes)
    requires Shaped(c, s) && s.writer.WriterIdle? && !s.reader.Halted? && c.Sendable(m)
    requires HEADER_SIZE + |m| <= SpacesAvailable(c.length, s.head, s.tail)
    ensures var s' := RunOn(c, s, SendHeader(m));
      && s' == s.(buffer := s'.buffer, writer := Copying(m, true, 0), head := Advance(c.length, s.head, HEADER_SIZE))
  {
    hide RunOn;
    var s1 := s.(writer := Deciding(m, None));
    var s2 := ReadSpaceStep(c, s1);
    var s3 := DecideStep(s2);
    var s4 := WriteChunkStep(c, s3, HEADER_SIZE);
    FiveSteps(c, s, s1, s2, s3, s4, PublishHeadStep(c, s4), SendHeader(m));
  }

  lemma SendPayloadRun(c: Config, s: State, m: Bytes)
    requires Shaped(c, s) && s.writer == Copying(m, true, 0) && !s.reader.Halted? && c.Sendable(m)
    ensures var s' := RunOn(c, s, SendPayload(m));
      && s' == s.(buffer := s'.buffer, writer := WriterIdle, head := Advance(c.length, s.head, |m|),
                  sent := s.sent + [m])
  {
    hide RunOn;
    var s1 := WriteChunkStep(c, s, |m|);
    TwoSteps(c, s, s1, PublishHeadStep(c, s1), WriteChunk(|m|), PublishHead);
  }

  lemma SendRun(c: Config, s: State, m: Bytes)
    requires Shaped(c, s) && s.writer.WriterIdle? && !s.reader.Halted? && c.Sendable(m)
    requires HEADER_SIZE + |m| <= SpacesAvailable(c.length, s.head, s.tail)
    ensures var s' := RunOn(c, s, SendSteps(m));
      && s'.writer.WriterIdle? && s'.reader == s.reader && s'.tail == s.tail
      && s'.sent == s.sent + [m] && s'.delivered == s.delivered
      && s'.head == Advance(c.length, s.head, HEADER_SIZE + |m|)
  {
    hide RunOn, SendHeader, SendPayload;
    SendHeaderRun(c, s, m);
    SendPayloadRun(c, RunOn(c, s, SendHeader(m)), m);
    RunOnAppend(c, s, SendHeader(m), SendPayload(m));
    AdvanceAdvance(c.length, s.head, HEADER_SIZE, |m|);
  }

  /** The start of either call. */
  function StartStep(call: Call): Step {
    if call.Peek? then StartPeek else StartReceive(call.capacity)
  }

  /** A call up to the point where it knows the length. */
  function HeaderSteps(call: Call): seq<Step> {
    [CountBytes, StartStep(call)] + [ReadChunk(HEADER_SIZE), PublishTail]
  }

  predicate Makes(c: Config, call: Call) {
    if call.Peek? then c.peeks else call.capacity >= c.capacity
  }

  lemma StartRun(c: Config, s: State, call: Call)
    requires Shaped(c, s) && s.reader.ReaderIdle? && BytesInBuffer(c.length, s.head, s.tail) > HEADER_SIZE
    requires Makes(c, call)
    ensures RunOn(c, s, [CountBytes, StartStep(call)]) ==
            s.(reader := Fetching(call, BytesInBuffer(c.length, s.head, s.tail), []))
  {
    var s1 := CountStep(c, s);
    var s2 := Next(c, s1, StartStep(call));
    RunOnStep(c, s1, [StartStep(call)], s2);
    RunOnStep(c, s, [CountBytes, StartStep(call)], s1);
    assert [CountBytes, StartStep(call)][1..] == [StartStep(call)];
  }

  lemma TakeRun(c: Config, s: State)
    requires Shaped(c, s) && s.reader.Fetching? && s.reader.got == []
    ensures var s' := RunOn(c, s, [ReadChunk(HEADER_SIZE), PublishTail]);
      && s'.reader == Sized(s.reader.call, s.tail, SubSize(s.reader.available, HEADER_SIZE),
                            LengthOf(Window(s.buffer, s.tail, HEADER_SIZE)))
      && s' == s.(tail := Advance(c.length, s.tail, HEADER_SIZE), reader := s'.reader)
  {
    var s1 := ReadChunkStep(c, s, HEADER_SIZE);
    var s2 := PublishTailStep(c, s1);
    assert s1.reader.got == Window(s.buffer, s.tail, HEADER_SIZE);
    RunOnStep(c, s1, [PublishTail], s2);
    RunOnStep(c, s, [ReadChunk(HEADER_SIZE), PublishTail], s1);
    assert [ReadChunk(HEADER_SIZE), PublishTail][1..] == [PublishTail];
  }

  /** With the reader idle and bytes to read, a call gets to know the length in
      the header at the tail. */
  lemma HeaderRun(c: Config, s: State, call: Call)
    requires Shaped(c, s) && s.reader.ReaderIdle? && BytesInBuffer(c.length, s.head, s.tail) > HEADER_SIZE
    requires Makes(c, call)
    ensures var s' := RunOn(c, s, HeaderSteps(call));
      && s'.reader.Sized? && s'.reader.originalTail == s.tail && s'.reader.call == call
      && s'.reader.nextLength == LengthOf(Window(s.buffer, s.tail, HEADER_SIZE))
      && s' == s.(tail := Advance(c.length, s.tail, HEADER_SIZE), reader := s'.reader)
  {
    hide RunOn, Next;
    StartRun(c, s, call);
    TakeRun(c, RunOn(c, s, [CountBytes, StartStep(call)]));
    RunOnAppend(c, s, [CountBytes, StartStep(call)], [ReadChunk(HEADER_SIZE), PublishTail]);
  }

  // --------------------------------------------------- filling the empty ring

  function SendAll(ms: seq<Bytes>): (steps: seq<Step>)
  {
    if ms == [] then [] else SendAll(ms[..|ms| - 1]) + SendSteps(ms[|ms| - 1])
  }

  function Total(ms: seq<Bytes>): (n: nat) {
    if ms == [] then 0 else Total(ms[..|ms| - 1]) + HEADER_SIZE + |ms[|ms| - 1]|
  }

  ghost predicate Fits(c: Config, ms: seq<Bytes>)
    requires c.Valid()
  {
    Total(ms) <= c.Room() && forall m :: m in ms ==> c.Sendable(m)
  }

  /** Messages that fit are all sent, one behind the other. */
  lemma {:induction false} SendAllRun(c: Config, ms: seq<Bytes>)
    requires c.Valid() && Fits(c, ms)
    ensures var s := Run(c, SendAll(ms));
      && s.writer.WriterIdle? && s.reader.ReaderIdle? && s.sent == ms && s.delivered == []
      && s.head == Total(ms) && s.tail == 0
    decreases |ms|
  {
    if ms != [] {
      var front, m := ms[..|ms| - 1], ms[|ms| - 1];
      assert ms == front + [m];
      SendAllRun(c, front);
      var s := Run(c, SendAll(front));
      UsedPlusFree(c.length, s.head, s.tail);
      SendRun(c, s, m);
      RunAppend(c, SendAll(front), SendSteps(m));
    }
  }

  lemma StaysIdle(c: Config, s: State, step: Step)
    requires Shaped(c, s) && s.reader.ReaderIdle? && step != CountBytes
    ensures Next(c, s, step).reader.ReaderIdle?
  {
    hide Store, Window;
  }

  /** As long as the reader makes no call the invariant needs no condition. */
  lemma {:induction false} QuietInv(c: Config, steps: seq<Step>)
    requires c.Valid() && CountBytes !in steps
    ensures Inv(c, Run(c, steps)) && Run(c, steps).reader.ReaderIdle?
  {
    if steps == [] {
      InitialInv(c);
    } else {
      hide Inv, Next, Safe;
      QuietInv(c, steps[..|steps| - 1]);
      StaysIdle(c, Run(c, steps[..|steps| - 1]), steps[|steps| - 1]);
      NextInv(c, Run(c, steps[..|steps| - 1]), steps[|steps| - 1]);
    }
  }

  lemma {:induction false} SendAllIsQuiet(ms: seq<Bytes>)
    ensures CountBytes !in SendAll(ms)
    decreases |ms|
  {
    if ms != [] {
      SendAllIsQuiet(ms[..|ms| - 1]);
    }
  }

  /** After the sends the first header is at the tail. */
  lemma FirstLength(c: Config, ms: seq<Bytes>)
    requires c.Valid() && Fits(c, ms) && ms != []
    ensures var s := Run(c, SendAll(ms));
      && BytesInBuffer(c.length, s.head, s.tail) == Total(ms) > HEADER_SIZE
      && LengthOf(Window(s.buffer, s.tail, HEADER_SIZE)) == |ms[0]|
  {
    var s := Run(c, SendAll(ms));
    SendAllRun(c, ms);
    SendAllIsQuiet(ms);
    QuietInv(c, SendAll(ms));
    UsedPlusFree(c.length, s.head, s.tail);
    assert Undelivered(s) == ms && Unread(c, s) == Encode(ms);
    assert IsMessage(ms[0]) by { assert ms[0] in ms; }
    WindowSplits(s.buffer, s.tail, |Encode(ms)|, HEADER_SIZE);
    assert Encode(ms)[..HEADER_SIZE] == LengthBytes(|ms[0]|);
    LengthRoundTrip(|ms[0]|);
  }

  // ---------------------------------------------------------------- overrun

  /** The run: the sends, a call that takes the first header, one more send that
      only fits because of that header, and the header is put back. */
  function LosingRun(ms: seq<Bytes>, call: Call, m: Bytes): seq<Step> {
    SendAll(ms) + HeaderSteps(call) + SendSteps(m) + [CheckLength]
  }

  /** The send in between has overwritten what was put back: nothing was
      delivered, both sides are idle, and fewer bytes than one header are left, so
      that none of the messages can ever be read. */
  lemma Overruns(c: Config, ms: seq<Bytes>, call: Call, m: Bytes)
    requires c.Valid() && Fits(c, ms) && ms != [] && c.Sendable(ms[0])
    requires Makes(c, call) && call.PutsBack(|ms[0]|) && c.Sendable(m)
    requires |m| <= c.Room() - Total(ms) < HEADER_SIZE + |m|
    ensures var s := Run(c, LosingRun(ms, call, m));
      && s.writer.WriterIdle? && s.reader.ReaderIdle?
      && s.sent == ms + [m] && s.delivered == []
      && BytesInBuffer(c.length, s.head, s.tail) < HEADER_SIZE
  {
    hide Run, SendAll, SendSteps, HeaderSteps, RunOn, Fits, Total;
    var s0 := Run(c, SendAll(ms));
    SendAllRun(c, ms);
    FirstLength(c, ms);
    HeaderRun(c, s0, call);
    RunAppend(c, SendAll(ms), HeaderSteps(call));
    var s1 := Run(c, SendAll(ms) + HeaderSteps(call));
    TailMoves(c.length, s0.head, s0.tail, HEADER_SIZE);
    UsedPlusFree(c.length, s1.head, s1.tail);
    SendRun(c, s1, m);
    RunAppend(c, SendAll(ms) + HeaderSteps(call), SendSteps(m));
    RunSnoc(c, SendAll(ms) + HeaderSteps(call) + SendSteps(m), CheckLength);
    var s2 := Run(c, SendAll(ms) + HeaderSteps(call) + SendSteps(m));
    UsedPlusFree(c.length, s2.head, 0);
  }

  lemma ShortBytesAreNotMessages(bytes: Bytes, ms: seq<Bytes>)
    requires |bytes| < HEADER_SIZE && ms != []
    ensures Decode(bytes) != Some(ms)
  {
  }

  // ------------------------------------------------------ the lengths to choose

  /** Message lengths that leave between 1 and longest + 3 of `free` bytes. */
  function FillingLengths(free: nat, longest: nat): (lengths: seq<nat>)
    requires free > 0 && longest > 0 && (longest > 1 || free % (HEADER_SIZE + 1) != 0)
    ensures forall n :: n in lengths ==> 0 < n <= longest
  {
    if free < HEADER_SIZE + longest then []
    else if free == HEADER_SIZE + longest then [longest - 1]
    else [longest] + FillingLengths(free - HEADER_SIZE - longest, longest)
  }

  function Zeroes(n: nat): (m: Bytes)
    ensures |m| == n
  {
    seq(n, _ => 0)
  }

  /** Messages of those lengths, behind the ones already there. */
  function Filling(ms: seq<Bytes>, lengths: seq<nat>): (all: seq<Bytes>)
    ensures |all| == |ms| + |lengths| && ms <= all
    decreases |lengths|
  {
    if lengths == [] then ms else Filling(ms + [Zeroes(lengths[0])], lengths[1..])
  }

  lemma OneMoreFits(c: Config, ms: seq<Bytes>, n: nat)
    requires c.Valid() && Fits(c, ms) && 0 < n <= c.Longest() && Total(ms) + HEADER_SIZE + n <= c.Room()
    ensures Fits(c, ms + [Zeroes(n)]) && Total(ms + [Zeroes(n)]) == Total(ms) + HEADER_SIZE + n
  {
    var more := ms + [Zeroes(n)];
    assert more[..|more| - 1] == ms;
  }

  lemma {:induction false} FillingFits(c: Config, ms: seq<Bytes>, free: nat)
    requires c.Valid() && Fits(c, ms) && free == c.Room() - Total(ms) > 0 && c.Longest() > 0
    requires c.Longest() > 1 || free % (HEADER_SIZE + 1) != 0
    ensures var all := Filling(ms, FillingLengths(free, c.Longest()));
      Fits(c, all) && 0 < c.Room() - Total(all) < HEADER_SIZE + c.Longest()
    decreases free
  {
    hide Fits, Total;
    var longest := c.Longest();
    if free == HEADER_SIZE + longest {
      OneMoreFits(c, ms, longest - 1);
      assert FillingLengths(free, longest)[1..] == [];
    } else if free > HEADER_SIZE + longest {
      OneMoreFits(c, ms, longest);
      var rest := FillingLengths(free - HEADER_SIZE - longest, longest);
      assert FillingLengths(free, longest)[1..] == rest;
      FillingFits(c, ms + [Zeroes(longest)], free - HEADER_SIZE - longest);
    }
  }

  /** Unless the reader is safe, a run loses every message that was sent. */
  lemma UnsafeLosesMessages(c: Config) returns (ms: seq<Bytes>, call: Call, m: Bytes)
    requires c.Valid() && !Safe(c)
    ensures var s := Run(c, LosingRun(ms, call, m));
      && s.writer.WriterIdle? && s.reader.ReaderIdle?
      && s.sent == ms + [m] && ms != [] && s.delivered == []
      && BytesInBuffer(c.length, s.head, s.tail) < HEADER_SIZE
  {
    var n := if c.peeks then 1 else c.capacity + 1;
    call := if c.peeks then Peek else Receive(c.capacity);
    var first := [Zeroes(n)];
    assert [] + first == first;
    OneMoreFits(c, [], n);
    var free := c.Room() - HEADER_SIZE - n;
    assert c.Longest() == 1 ==> n == 1 && free == c.Room() - 5;
    ms := Filling(first, FillingLengths(free, c.Longest()));
    FillingFits(c, first, free);
    assert ms[0] == first[0];
    m := Zeroes(Min(c.Room() - Total(ms), c.Longest()));
    Overruns(c, ms, call, m);
  }

  ghost predicate InOrderAfter(c: Config, steps: seq<Step>)
    requires c.Valid()
  {
    InOrder(c, Run(c, steps))
  }

  /** Messages are delivered in order, and none is lost, in every interleaving if
      and only if the reader is safe. */
  lemma InOrderIffSafe(c: Config)
    requires c.Valid()
    ensures (forall steps :: InOrderAfter(c, steps)) <==> Safe(c)
  {
    if Safe(c) {
      forall steps ensures InOrderAfter(c, steps) {
        DeliversInOrder(c, steps);
      }
    } else {
      var ms, call, m := UnsafeLosesMessages(c);
      var steps := LosingRun(ms, call, m);
      var s := Run(c, steps);
      UsedPlusFree(c.length, s.head, s.tail);
      assert s.sent[0..] == ms + [m];
      ShortBytesAreNotMessages(Ahead(c, s), ms + [m]);
      assert !InOrderAfter(c, steps);
    }
  }

  // -------------------------------------------------------------------- halts

  ghost predicate HaltsAfter(c: Config, steps: seq<Step>)
    requires c.Valid()
  {
    Run(c, steps).reader.Halted?
  }

  /** A call for the next length that falls between the publications of a header
      and of its payload counts four bytes, where its assertion demands none. */
  lemma LoneHeaderHalts(c: Config, m: Bytes) returns (steps: seq<Step>)
    requires c.Valid() && c.peeks && c.Sendable(m)
    ensures HaltsAfter(c, steps)
  {
    hide RunOn, SendHeader, Run;
    steps := SendHeader(m) + [CountBytes] + [StartPeek];
    var s := Initial(c);
    UsedPlusFree(c.length, s.head, s.tail);
    SendHeaderRun(c, s, m);
    RunOfNothing(c);
    RunAppend(c, [], SendHeader(m));
    assert [] + SendHeader(m) == SendHeader(m);
    RunSnoc(c, SendHeader(m), CountBytes);
    RunSnoc(c, SendHeader(m) + [CountBytes], StartPeek);
    var s5 := Run(c, SendHeader(m));
    UsedPlusFree(c.length, s5.head, s5.tail);
  }

  lemma RunOfNothing(c: Config)
    requires c.Valid()
    ensures Run(c, []) == Initial(c)
  {
  }

  /** Without calls for the next length nothing halts. */
  lemma {:induction false} NoPeekNoHalt(c: Config, steps: seq<Step>)
    requires c.Valid() && !c.peeks
    ensures !HaltsAfter(c, steps)
  {
    if steps != [] {
      NoPeekNoHalt(c, steps[..|steps| - 1]);
    }
  }

  lemma FirstOf(ms: seq<Bytes>) returns (m: Bytes)
    requires ms != []
    ensures m in ms
  {
    m := ms[0];
  }

  lemma NothingToCount(c: Config, s: State)
    requires Inv(c, s) && c.Longest() == 0 && s.reader.Counted?
    ensures s.reader.available == 0
  {
    if s.sent != [] {
      var m := FirstOf(s.sent);
      assert false;
    }
    assert Undelivered(s) == [] && Unread(c, s) == Encode([]);
  }

  lemma OnlyACountHalts(c: Config, s: State, step: Step)
    requires Shaped(c, s) && !s.reader.Halted? && Next(c, s, step).reader.Halted?
    ensures s.reader.Counted? && s.reader.available != 0
  {
    hide Store, Window;
  }

  lemma {:induction false} NothingSentNoHalt(c: Config, steps: seq<Step>)
    requires c.Valid() && c.Longest() == 0
    ensures !HaltsAfter(c, steps)
  {
    hide Inv, Next;
    if steps != [] {
      var before := steps[..|steps| - 1];
      NothingSentNoHalt(c, before);
      RunInv(c, before);
      if Run(c, before).reader.Counted? {
        NothingToCount(c, Run(c, before));
      }
      if HaltsAfter(c, steps) {
        OnlyACountHalts(c, Run(c, before), steps[|steps| - 1]);
      }
    }
  }

  /** Some run halts if and only if the reader asks for lengths and anything can be
      sent at all. */
  lemma HaltsIffPeeks(c: Config)
    requires c.Valid()
    ensures (exists steps :: HaltsAfter(c, steps)) <==> c.peeks && c.Longest() > 0
  {
    if c.peeks && c.Longest() > 0 {
      var steps := LoneHeaderHalts(c, Zeroes(1));
    } else if !c.peeks {
      forall steps ensures !HaltsAfter(c, steps) { NoPeekNoHalt(c, steps); }
    } else {
      forall steps ensures !HaltsAfter(c, steps) { NothingSentNoHalt(c, steps); }
    }
  }

  // ----------------------------------------------------------------- refusals

  /** A receive has taken a header and finds the caller's buffer too small. */
  ghost predicate RefusedAfter(c: Config, steps: seq<Step>)
    requires c.Valid()
  {
    var r := Run(c, steps).reader;
    r.Sized? && r.call.Receive? && r.nextLength > r.call.capacity
  }

  lemma RefusedRun(c: Config) returns (steps: seq<Step>)
    requires c.Valid() && !c.Roomy()
    ensures RefusedAfter(c, steps)
  {
    hide Run, SendAll, HeaderSteps, RunOn, Total;
    var m := Zeroes(c.capacity + 1);
    assert [] + [m] == [m];
    TotalOfNothing();
    OneMoreFits(c, [], c.capacity + 1);
    SendAllRun(c, [m]);
    FirstLength(c, [m]);
    HeaderRun(c, Run(c, SendAll([m])), Receive(c.capacity));
    steps := SendAll([m]) + HeaderSteps(Receive(c.capacity));
    RunAppend(c, SendAll([m]), HeaderSteps(Receive(c.capacity)));
  }

  lemma TotalOfNothing()
    ensures Total([]) == 0
  {
  }

  /** Of readers that only receive, just those can be refused whose smallest
      buffer is smaller than a message that fits in the ring.  Not all of them can
      lose messages by it. */
  lemma RefusedIffNotRoomy(c: Config)
    requires c.Valid()
    ensures !c.Roomy() ==> exists steps :: RefusedAfter(c, steps)
    ensures !c.peeks && c.Roomy() ==> forall steps :: !RefusedAfter(c, steps)
  {
    if !c.Roomy() {
      var steps := RefusedRun(c);
    } else if !c.peeks {
      forall steps ensures !RefusedAfter(c, steps) {
        RunInv(c, steps);
        var s := Run(c, steps);
        if s.reader.Sized? && s.reader.call.Receive? {
          NotRefused(c, s);
        }
      }
    }
  }

  lemma NotRefused(c: Config, s: State)
    requires Inv(c, s) && c.Roomy() && s.reader.Sized? && s.reader.call.Receive?
    ensures s.reader.nextLength <= s.reader.call.capacity
  {
    assert Undelivered(s)[0] in s.sent;
  }
}
