/** stream_buffer.c as one task sees it: the byte ring, and the framing of
    whole messages on top of it. */
module StreamBuffers {
  import opened Wrappers
  import opened RingIndex
  import opened Messages

  class StreamBuffer {
    var tail: size_t              // next byte to read
    var head: size_t              // next byte to write
    const length: size_t
    const buffer: array<byte>
    const isMessageBuffer: bool

    ghost predicate Valid()
      reads this, buffer
    {
      InRange(length, head, tail) && buffer.Length == length
    }

    /** The unread bytes, oldest first. */
    ghost function Contents(): (bytes: Bytes)
      requires Valid()
      reads this, buffer
      ensures |bytes| == BytesInBuffer(length, head, tail)
    {
      UsedPlusFree(length, head, tail);
      Window(buffer[..], tail, BytesInBuffer(length, head, tail))
    }

    ghost function Free(): (space: size_t)
      requires Valid()
      reads this, buffer
      ensures |Contents()| + space == length - 1
    {
      UsedPlusFree(length, head, tail);
      SpacesAvailable(length, head, tail)
    }

    /** A message buffer always holds a whole number of records. */
    ghost predicate Framed()
      requires Valid()
      reads this, buffer
    {
      isMessageBuffer ==> Decode(Contents()).Some?
    }

    /** The messages waiting in the buffer, oldest first. */
    ghost function Waiting(): seq<Bytes>
      requires Valid() && isMessageBuffer && Framed()
      reads this, buffer
    {
      Decode(Contents()).value
    }

    constructor (size: size_t, isMessageBuffer: bool)
      requires (if isMessageBuffer then HEADER_SIZE else 0) < size < SIZE_MODULUS / 2
      ensures Valid() && fresh(buffer) && this.isMessageBuffer == isMessageBuffer
      ensures Contents() == [] && Framed() && Free() == size
    {
      tail, head := 0, 0;
      length := size + 1;
      buffer := new byte[size + 1];
      this.isMessageBuffer := isMessageBuffer;
    }

    /** The one or two memcpy calls into the ring. */
    method CopyIn(start: size_t, data: Bytes)
      requires Valid() && start < length && |data| <= length
      modifies buffer
      ensures forall j :: 0 <= j < |data| ==> buffer[Advance(length, start, j)] == data[j]
      ensures forall k :: 0 <= k < length && (forall j :: 0 <= j < |data| ==> k != Advance(length, start, j))
                ==> buffer[k] == old(buffer[k])
    {
      var firstLength := Min(length - start, |data|);
      forall i | 0 <= i < firstLength {
        buffer[start + i] := data[i];
      }
      if |data| > firstLength {
        forall i | 0 <= i < |data| - firstLength {
          buffer[i] := data[firstLength + i];
        }
      }
      forall k | 0 <= k < length && forall j :: 0 <= j < |data| ==> k != Advance(length, start, j)
        ensures buffer[k] == old(buffer[k])
      {
        var j := if k >= start then k - start else k + length - start;
        assert Advance(length, start, j) == k;
      }
    }

    /** The one or two memcpy calls out of the ring. */
    method CopyOut(start: size_t, count: size_t) returns (data: Bytes)
      requires Valid() && start < length && count <= length
      ensures data == Window(buffer[..], start, count)
    {
      WindowSlices(buffer[..], start, count);
      var firstLength := Min(length - start, count);
      data := buffer[start..start + firstLength];
      if count > firstLength {
        data := data + buffer[..count - firstLength];
      }
    }

    method WriteBytes(data: Bytes) returns (written: size_t)
      requires Valid() && 0 < |data| <= Free()
      modifies this`head, buffer
      ensures Valid()
      ensures written == |data|
      ensures Contents() == old(Contents()) + data
    {
      HeadMoves(length, head, tail, |data|);
      var nextHead := head;
      CopyIn(nextHead, data);
      WindowExtends(old(buffer[..]), buffer[..], head, tail, data);
      nextHead := AddSize(nextHead, |data|);
      if nextHead >= length {
        nextHead := SubSize(nextHead, length);
      }
      head := nextHead;
      written := |data|;
    }

    method ReadBytes(maxCount: size_t, available: size_t) returns (data: Bytes)
      requires Valid() && available <= |Contents()|
      modifies this`tail
      ensures Valid()
      ensures |data| == Min(available, maxCount)
      ensures old(Contents()) == data + Contents()
    {
      var count := Min(available, maxCount);
      data := [];
      if count > 0 {
        UsedPlusFree(length, head, tail);
        WindowShrinks(buffer[..], head, tail, count);
        var nextTail := tail;
        data := CopyOut(nextTail, count);
        nextTail := AddSize(nextTail, count);
        if nextTail >= length {
          nextTail := SubSize(nextTail, length);
        }
        tail := nextTail;
      }
    }

    /** `space` is what the sender saw earlier; a reader can only have freed
        more since.  A message is written whole or not at all. */
    method WriteMessage(data: Bytes, space: size_t, required: size_t) returns (written: size_t)
      requires Valid() && Framed() && IsMessage(data) && space <= Free()
      requires required == |data| + if isMessageBuffer then HEADER_SIZE else 0
      modifies this`head, buffer
      ensures Valid() && Framed()
      ensures isMessageBuffer && space >= required ==>
        written == |data| && Waiting() == old(Waiting()) + [data]
      ensures isMessageBuffer && space < required ==>
        written == 0 && Contents() == old(Contents())
      ensures !isMessageBuffer ==>
        written == Min(|data|, space) && Contents() == old(Contents()) + data[..written]
    {
      hide Decode, Window, LengthBytes;
      var toWrite := data;
      var shouldWrite;
      ghost var before := Contents();
      if space == 0 {
        shouldWrite := false;
      } else if !isMessageBuffer {
        shouldWrite := true;
        toWrite := data[..Min(|data|, space)];
      } else if space >= required {
        shouldWrite := true;
        var _ := WriteBytes(LengthBytes(|data|));
        AppendRecord(before, data);
        assert before + Record(data) == before + LengthBytes(|data|) + data;
      } else {
        shouldWrite := false;
      }
      if shouldWrite {
        written := WriteBytes(toWrite);
      } else {
        written := 0;
      }
    }

    /** xStreamBufferSend that does not wait: appends the message, or changes
        nothing because it does not fit. */
    method Send(data: Bytes) returns (written: size_t)
      requires Valid() && Framed() && IsMessage(data)
      modifies this`head, buffer
      ensures Valid() && Framed()
      ensures isMessageBuffer && |data| + HEADER_SIZE <= old(Free()) ==>
        written == |data| && Waiting() == old(Waiting()) + [data]
      ensures isMessageBuffer && |data| + HEADER_SIZE > old(Free()) ==>
        written == 0 && Contents() == old(Contents())
      ensures !isMessageBuffer ==>
        written == Min(|data|, old(Free())) && Contents() == old(Contents()) + data[..written]
    {
      var required := |data|;
      if isMessageBuffer {
        required := AddSize(required, HEADER_SIZE);
      }
      var space := SpacesAvailable(length, head, tail);
      written := WriteMessage(data, space, required);
    }

    /** A caller's buffer that is too small for the next message leaves the
        tail where it was. */
    method ReadMessage(capacity: size_t, available: size_t) returns (data: Bytes)
      requires Valid() && Framed()
      requires (if isMessageBuffer then HEADER_SIZE else 0) < available == |Contents()|
      modifies this`tail
      ensures Valid() && Framed()
      ensures isMessageBuffer ==> old(Waiting()) != []
      ensures isMessageBuffer && |old(Waiting())[0]| <= capacity ==>
        data == old(Waiting())[0] && Waiting() == old(Waiting())[1..]
      ensures isMessageBuffer && |old(Waiting())[0]| > capacity ==>
        data == [] && tail == old(tail) && Contents() == old(Contents())
      ensures !isMessageBuffer ==>
        |data| == Min(available, capacity) && old(Contents()) == data + Contents()
    {
      var nextLength, remaining := capacity, available;
      ghost var before, header := Contents(), [];
      if isMessageBuffer {
        FirstRecord(before);
        var originalTail := tail;
        var lengthBytes := ReadBytes(HEADER_SIZE, available);
        nextLength := LengthOf(lengthBytes);
        header := lengthBytes;
        assert header == before[..HEADER_SIZE];
        remaining := SubSize(remaining, HEADER_SIZE);
        if nextLength > capacity {
          tail := originalTail;
          nextLength := 0;
        }
      }
      ghost var left := Contents();
      data := ReadBytes(nextLength, remaining);
      if isMessageBuffer && nextLength != 0 {
        TakeRecord(before, header, data, Contents());
      } else if isMessageBuffer {
        assert data == [] && left == data + Contents() == Contents();
      }
    }

    /** xStreamBufferReceive that does not wait. */
    method Receive(capacity: size_t) returns (data: Bytes)
      requires Valid() && Framed()
      modifies this`tail
      ensures Valid() && Framed()
      ensures isMessageBuffer && old(Waiting()) != [] && |old(Waiting())[0]| <= capacity ==>
        data == old(Waiting())[0] && Waiting() == old(Waiting())[1..]
      ensures isMessageBuffer && (old(Waiting()) == [] || |old(Waiting())[0]| > capacity) ==>
        data == [] && tail == old(tail) && Contents() == old(Contents())
      ensures !isMessageBuffer ==>
        |data| == Min(|old(Contents())|, capacity) && old(Contents()) == data + Contents()
    {
      data := [];
      var headerSize := if isMessageBuffer then HEADER_SIZE else 0;
      var available := BytesInBuffer(length, head, tail);
      if isMessageBuffer && Contents() != [] {
        FirstRecord(Contents());
      }
      if available > headerSize {
        data := ReadMessage(capacity, available);
      }
    }

    /** Reads the length of the next message, moving the tail and putting it back. */
    method NextMessageLength() returns (n: size_t)
      requires Valid() && Framed()
      modifies this`tail
      ensures Valid() && tail == old(tail)
      ensures n == if isMessageBuffer && Waiting() != [] then |Waiting()[0]| else 0
    {
      n := 0;
      if isMessageBuffer {
        var available := BytesInBuffer(length, head, tail);
        ghost var before := Contents();
        if before != [] {
          FirstRecord(before);
        }
        if available > HEADER_SIZE {
          var originalTail := tail;
          var header := ReadBytes(HEADER_SIZE, available);
          assert header == before[..HEADER_SIZE];
          n := LengthOf(header);
          tail := originalTail;
        } else {
          assert available == 0;
        }
      }
    }

    method IsEmpty() returns (empty: bool)
      requires Valid()
      ensures empty <==> Contents() == []
    {
      UsedPlusFree(length, head, tail);
      empty := head == tail;
    }

    /** Full means that not even a one-byte message fits. */
    method IsFull() returns (full: bool)
      requires Valid()
      ensures full <==> |Contents()| + (if isMessageBuffer then HEADER_SIZE else 0) >= length - 1
    {
      UsedPlusFree(length, head, tail);
      full := SpacesAvailable(length, head, tail) <= if isMessageBuffer then HEADER_SIZE else 0;
    }
  }
}
