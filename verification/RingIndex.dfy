/** Index arithmetic of the byte ring in stream_buffer.c, with the 32-bit
    wrap-around of size_t written out.  The sequential buffer class and the
    writer/reader interleaving model both compute with these functions. */
module RingIndex {

  type byte = x: int | 0 <= x < 256

  const SIZE_MODULUS := 0x1_0000_0000
  type size_t = x: int | 0 <= x < 0x1_0000_0000

  function AddSize(a: size_t, b: size_t): size_t {
    if a + b >= SIZE_MODULUS then a + b - SIZE_MODULUS else a + b
  }

  function SubSize(a: size_t, b: size_t): size_t {
    if a < b then a - b + SIZE_MODULUS else a - b
  }

  function Min(a: nat, b: nat): nat {
    if a < b then a else b
  }

  /** Both indices lie inside the buffer, and the buffer is at most half the
      range of size_t, so that the sums below do not wrap. */
  predicate InRange(length: size_t, head: size_t, tail: size_t) {
    0 < length <= SIZE_MODULUS / 2 && head < length && tail < length
  }

  /** Moving an index forward, wrapping at the end of the buffer. */
  function Advance(length: size_t, index: size_t, count: nat): size_t
    requires index < length && count <= length <= SIZE_MODULUS / 2
  {
    if index + count >= length then index + count - length else index + count
  }

  function BytesInBuffer(length: size_t, head: size_t, tail: size_t): size_t {
    var count := SubSize(AddSize(length, head), tail);
    if count >= length then SubSize(count, length) else count
  }

  function SpacesAvailable(length: size_t, head: size_t, tail: size_t): size_t {
    var space := SubSize(SubSize(AddSize(length, tail), head), 1);
    if space >= length then SubSize(space, length) else space
  }

  /** One slot always stays free: used and free bytes add up to length - 1. */
  lemma UsedPlusFree(length: size_t, head: size_t, tail: size_t)
    requires InRange(length, head, tail)
    ensures BytesInBuffer(length, head, tail) + SpacesAvailable(length, head, tail) == length - 1
    ensures Advance(length, tail, BytesInBuffer(length, head, tail)) == head
    ensures BytesInBuffer(length, head, tail) == if head >= tail then head - tail else length + head - tail
  {
  }

  /** Publishing `count` more bytes at the head, within the free space. */
  lemma HeadMoves(length: size_t, head: size_t, tail: size_t, count: nat)
    requires InRange(length, head, tail) && count <= SpacesAvailable(length, head, tail)
    ensures var head' := Advance(length, head, count);
      BytesInBuffer(length, head', tail) == BytesInBuffer(length, head, tail) + count
  {
    UsedPlusFree(length, head, tail);
    UsedPlusFree(length, Advance(length, head, count), tail);
  }

  /** Releasing `count` bytes at the tail, within the bytes present. */
  lemma TailMoves(length: size_t, head: size_t, tail: size_t, count: nat)
    requires InRange(length, head, tail) && count <= BytesInBuffer(length, head, tail)
    ensures var tail' := Advance(length, tail, count);
      BytesInBuffer(length, head, tail') == BytesInBuffer(length, head, tail) - count
  {
    UsedPlusFree(length, head, tail);
    UsedPlusFree(length, head, Advance(length, tail, count));
  }

  lemma AdvanceAdvance(length: size_t, index: size_t, a: nat, b: nat)
    requires index < length <= SIZE_MODULUS / 2 && a + b <= length
    ensures Advance(length, Advance(length, index, a), b) == Advance(length, index, a + b)
  {
  }

  /** The `count` bytes that start at `start`, read round the end of the buffer. */
  function Window(buffer: seq<byte>, start: size_t, count: nat): (bytes: seq<byte>)
    requires start < |buffer| <= SIZE_MODULUS / 2 && count <= |buffer|
    ensures |bytes| == count
  {
    seq(count, j requires 0 <= j < count => buffer[Advance(|buffer|, start, j)])
  }

  /** Bytes stored in the free area leave the used area alone and extend it. */
  lemma WindowExtends(before: seq<byte>, after: seq<byte>, head: size_t, tail: size_t, data: seq<byte>)
    requires 0 < |before| == |after| <= SIZE_MODULUS / 2 && InRange(|before|, head, tail)
    requires |data| <= SpacesAvailable(|before|, head, tail)
    requires forall j :: 0 <= j < |data| ==> after[Advance(|before|, head, j)] == data[j]
    requires forall k :: 0 <= k < |before| && (forall j :: 0 <= j < |data| ==> k != Advance(|before|, head, j))
               ==> after[k] == before[k]
    ensures var used := BytesInBuffer(|before|, head, tail);
      used + |data| < |before|
      && Window(after, tail, used + |data|) == Window(before, tail, used) + data
  {
    var length := |before|;
    var used := BytesInBuffer(length, head, tail);
    UsedPlusFree(length, head, tail);
    forall i | 0 <= i < used + |data|
      ensures Window(after, tail, used + |data|)[i] == (Window(before, tail, used) + data)[i]
    {
      if i < used {
        var k := Advance(length, tail, i);
        assert forall j :: 0 <= j < |data| ==> k != Advance(length, head, j);
      } else {
        AdvanceAdvance(length, tail, used, i - used);
        assert after[Advance(length, head, i - used)] == data[i - used];
      }
    }
  }

  /** A window splits at any point into the front and the window after it. */
  lemma WindowSplits(buffer: seq<byte>, start: size_t, count: nat, front: nat)
    requires start < |buffer| <= SIZE_MODULUS / 2 && front <= count <= |buffer|
    ensures Window(buffer, start, count)[..front] == Window(buffer, start, front)
    ensures Window(buffer, start, count)[front..] == Window(buffer, Advance(|buffer|, start, front), count - front)
  {
    forall i | 0 <= i < count - front
      ensures Window(buffer, start, count)[front..][i] ==
              Window(buffer, Advance(|buffer|, start, front), count - front)[i]
    {
      AdvanceAdvance(|buffer|, start, front, i);
    }
  }

  /** A wrapped read is the end of the buffer followed by its start. */
  lemma WindowSlices(buffer: seq<byte>, start: size_t, count: nat)
    requires start < |buffer| <= SIZE_MODULUS / 2 && count <= |buffer|
    ensures var first := Min(|buffer| - start, count);
      Window(buffer, start, count) == buffer[start..start + first] + buffer[..count - first]
  {
  }

  /** Releasing the oldest bytes leaves the rest of the contents. */
  lemma WindowShrinks(buffer: seq<byte>, head: size_t, tail: size_t, count: nat)
    requires 0 < |buffer| <= SIZE_MODULUS / 2 && InRange(|buffer|, head, tail)
    requires count <= BytesInBuffer(|buffer|, head, tail)
    ensures var tail' := Advance(|buffer|, tail, count);
      var used, used' := BytesInBuffer(|buffer|, head, tail), BytesInBuffer(|buffer|, head, tail');
      used < |buffer| && used' == used - count
      && Window(buffer, tail, used) == Window(buffer, tail, count) + Window(buffer, tail', used')
  {
    UsedPlusFree(|buffer|, head, tail);
    TailMoves(|buffer|, head, tail, count);
    WindowSplits(buffer, tail, BytesInBuffer(|buffer|, head, tail), count);
  }
}
