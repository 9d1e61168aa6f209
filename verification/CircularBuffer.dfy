/**
 * The buffer between the transport queue and a reader: bytes arrive from one ring and are kept,
 * in order, on another until they are read.
 */
module CircularBuffer {
  import opened FilterMatch

  /** Indices are 32 bits wide, and the write index starts at -1. */
  const WORD: nat := 0x1_0000_0000
  const BEFORE_FIRST: nat := WORD - 1

  // ----- bytes laid onto a ring

  /** How far b lies behind `at` on a ring of n places. */
  function Behind(at: nat, b: nat, n: nat): nat
    requires at < n && b < n
  {
    if b >= at then b - at else b - at + n
  }

  /** The ring d with the bytes put down from `at` on. */
  function Placed(d: seq<bv8>, at: nat, bytes: seq<bv8>): (d': seq<bv8>)
    requires at < |d|
    ensures |d'| == |d|
  {
    seq(|d|, b requires 0 <= b < |d| =>
      if Behind(at, b, |d|) < |bytes| then bytes[Behind(at, b, |d|)] else d[b])
  }

  /** A copy that does not reach the end of the array. */
  function Copied(d: seq<bv8>, at: nat, bytes: seq<bv8>): (d': seq<bv8>)
    requires at + |bytes| <= |d|
    ensures |d'| == |d|
  {
    d[..at] + bytes + d[at + |bytes|..]
  }

  lemma CopiedIsPlaced(d: seq<bv8>, at: nat, bytes: seq<bv8>)
    requires at < |d| && at + |bytes| <= |d|
    ensures Copied(d, at, bytes) == Placed(d, at, bytes)
  {
  }

  /** Putting down a and then, where it stopped, b. */
  lemma PlacedTwice(d: seq<bv8>, at: nat, a: seq<bv8>, b: seq<bv8>)
    requires at < |d| && |a| + |b| <= |d|
    ensures Placed(Placed(d, at, a), Wrap(at + |a|, |d|), b) == Placed(d, at, a + b)
  {
    var n := |d|;
    var l, r := Placed(Placed(d, at, a), Wrap(at + |a|, n), b), Placed(d, at, a + b);
    forall k | 0 <= k < n ensures l[k] == r[k] {
      if |a| < n { BehindSplit(at, |a|, k, n); }
    }
  }

  lemma BehindSplit(at: nat, a: nat, k: nat, n: nat)
    requires at < n && k < n && a < n
    ensures Behind(Wrap(at + a, n), k, n) ==
      if Behind(at, k, n) >= a then Behind(at, k, n) - a else Behind(at, k, n) + n - a
  {
  }

  lemma RingSplit(q: seq<bv8>, s: nat, a: nat, n: nat)
    requires s < |q| && a <= n <= |q|
    ensures RingBytes(q, s, n) == RingBytes(q, s, a) + RingBytes(q, Wrap(s + a, |q|), n - a)
  {
    var l, x, y := RingBytes(q, s, n), RingBytes(q, s, a), RingBytes(q, Wrap(s + a, |q|), n - a);
    forall k: nat | k < n ensures l[k] == (x + y)[k] {
      if k >= a {
        assert Wrap(Wrap(s + a, |q|) + (k - a), |q|) == Wrap(s + k, |q|);
      }
    }
    assert l == x + y;
  }

  lemma RingSlice(q: seq<bv8>, s: nat, n: nat)
    requires s < |q| && s + n <= |q|
    ensures RingBytes(q, s, n) == q[s..s + n]
  {
    var l, r := RingBytes(q, s, n), q[s..s + n];
    forall k: nat | k < n ensures l[k] == r[k] {
      assert Wrap(s + k, |q|) == s + k;
    }
    assert l == r;
  }

  /** What was there is still there, and what came is behind it. */
  lemma PlacedAppends(d: seq<bv8>, read: nat, count: nat, bytes: seq<bv8>)
    requires read < |d| && count + |bytes| <= |d|
    ensures RingBytes(Placed(d, Wrap(read + count, |d|), bytes), read, count + |bytes|)
      == RingBytes(d, read, count) + bytes
  {
    var n := |d|;
    var d' := Placed(d, Wrap(read + count, n), bytes);
    var l, r := RingBytes(d', read, count + |bytes|), RingBytes(d, read, count) + bytes;
    forall k: nat | k < count + |bytes| ensures l[k] == r[k] {
      BehindOf(read, count, k, n, |bytes|);
    }
    assert l == r;
  }

  lemma BehindOf(read: nat, count: nat, k: nat, n: nat, more: nat)
    requires read < n && k < count + more <= n
    ensures k >= count ==> Behind(Wrap(read + count, n), Wrap(read + k, n), n) == k - count
    ensures k < count ==> Behind(Wrap(read + count, n), Wrap(read + k, n), n) >= more
  {
  }

  // ----- the write index

  /** Where the next byte goes. */
  function NextWrite(write: nat, size: nat): (p: nat)
    requires size > 0
    ensures p < size
  {
    (write + 1) % WORD % size
  }

  function Advanced(write: nat, length: nat, size: nat): nat
    requires size > 0
  {
    (write + length) % WORD % size
  }

  /** The write index is in step: the next byte goes right behind the last unread one. */
  predicate InStep(write: nat, read: nat, count: nat, size: nat) {
    && 0 < size < WORD && read < size && count <= size
    && (write < size || write == BEFORE_FIRST)
    && NextWrite(write, size) == Wrap(read + count, size)
  }

  lemma ModSmall(x: nat, m: nat)
    requires x < m
    ensures x % m == x
  {
  }

  lemma ModOnce(x: nat, m: nat)
    requires m <= x < 2 * m
    ensures x % m == x - m
  {
    ModIs(x, m, 1, x - m);
  }

  lemma ModIs(x: nat, m: nat, q: nat, r: nat)
    requires r < m && x == q * m + r
    ensures x % m == r
  {
    var q0, r0 := x / m, x % m;
    assert x == q0 * m + r0;
    if q0 < q {
      TimesMore(q0, q, m);
    } else if q < q0 {
      TimesMore(q, q0, m);
    }
  }

  lemma {:induction false} TimesMore(a: nat, b: nat, m: nat)
    requires a < b
    ensures a * m + m <= b * m
    decreases b
  {
    assert b * m == (b - 1) * m + m;
    if a + 1 < b {
      TimesMore(a, b - 1, m);
    }
  }

  lemma NextWriteIs(write: nat, size: nat)
    requires 0 < size < WORD && (write < size || write == BEFORE_FIRST)
    ensures NextWrite(write, size) == if write == BEFORE_FIRST || write + 1 == size then 0 else write + 1
  {
    if write == BEFORE_FIRST {
      ModOnce(write + 1, WORD);
      ModSmall(0, size);
    } else {
      ModSmall(write + 1, WORD);
      if write + 1 == size { ModOnce(write + 1, size); } else { ModSmall(write + 1, size); }
    }
  }

  lemma AdvancedIs(write: nat, length: nat, size: nat)
    requires 0 < size < WORD && length <= size && size + length <= WORD
    requires write < size || (write == BEFORE_FIRST && length > 0)
    ensures Advanced(write, length, size) ==
      if write == BEFORE_FIRST then length - 1 else if write + length >= size then write + length - size else write + length
  {
    if write == BEFORE_FIRST {
      ModOnce(write + length, WORD);
      ModSmall(length - 1, size);
    } else {
      ModSmall(write + length, WORD);
      if write + length >= size { ModOnce(write + length, size); } else { ModSmall(write + length, size); }
    }
  }

  /**
   * Appending keeps the index in step, with one exception: nothing at all appended before the
   * first byte, when the size of the buffer does not divide 2^32.
   */
  lemma AdvanceInStep(write: nat, read: nat, count: nat, length: nat, size: nat)
    requires InStep(write, read, count, size) && count + length <= size && 2 * size <= WORD
    ensures InStep(Advanced(write, length, size), read, count + length, size) <==>
      length > 0 || write != BEFORE_FIRST || WORD % size == 0
  {
    NextWriteIs(write, size);
    if length > 0 || write < size {
      AdvancedIs(write, length, size);
      NextWriteIs(Advanced(write, length, size), size);
    } else {
      EmptyFirstCopy(size);
    }
  }

  lemma EmptyFirstCopy(size: nat)
    requires 0 < size && 2 * size <= WORD
    ensures Advanced(BEFORE_FIRST, 0, size) == BEFORE_FIRST % size
    ensures NextWrite(BEFORE_FIRST % size, size) == 0 <==> WORD % size == 0
  {
    ModSmall(BEFORE_FIRST, WORD);
    var q, r := BEFORE_FIRST / size, BEFORE_FIRST % size;
    NextWriteIs(r, size);
    if r + 1 == size {
      assert (q + 1) * size == q * size + size;
      ModIs(WORD, size, q + 1, 0);
    } else {
      ModIs(WORD, size, q, r + 1);
    }
  }

  /** A buffer of three bytes, still empty: after copying nothing, the next byte would go to place 1. */
  lemma EmptyCopyBreaks()
    ensures InStep(BEFORE_FIRST, 0, 0, 3) && !InStep(Advanced(BEFORE_FIRST, 0, 3), 0, 0, 3)
  {
    NextWriteIs(BEFORE_FIRST, 3);
    AdvanceInStep(BEFORE_FIRST, 0, 0, 0, 3);
  }

  // ----- the five ways of copying ring to ring

  lemma TwoPieces(d: seq<bv8>, at: nat, a: seq<bv8>, b: seq<bv8>, bytes: seq<bv8>, d': seq<bv8>)
    requires at < |d| && |a| + |b| <= |d| && bytes == a + b
    requires d' == Placed(Placed(d, at, a), Wrap(at + |a|, |d|), b)
    ensures d' == Placed(d, at, bytes)
  {
    PlacedTwice(d, at, a, b);
  }

  lemma ThreePieces(d: seq<bv8>, at: nat, a: seq<bv8>, b: seq<bv8>, c: seq<bv8>, bytes: seq<bv8>, d': seq<bv8>)
    requires at < |d| && |a| + |b| + |c| <= |d| && bytes == a + b + c
    requires d' == Placed(Placed(Placed(d, at, a), Wrap(at + |a|, |d|), b), Wrap(at + (|a| + |b|), |d|), c)
    ensures d' == Placed(d, at, bytes)
  {
    PlacedTwice(d, at, a, b);
    PlacedTwice(d, at, a + b, c);
  }

  lemma CutEarly(q: seq<bv8>, start: nat, cut: nat)
    requires start + cut <= |q|
    ensures q[start..] == q[start..start + cut] + q[start + cut..]
  {
  }

  lemma CutLate(q: seq<bv8>, start: nat, cut: nat, end: nat)
    requires start <= |q| && cut <= end <= |q|
    ensures q[start..] + q[..end] == q[start..] + q[..cut] + q[cut..end]
  {
    assert q[..end] == q[..cut] + q[cut..end];
  }

  class Buffer {
    const data: array<bv8>
    var count: nat
    var read: nat
    var write: nat

    /** The buffer as DemuxFilterReset leaves it. */
    constructor (size: nat)
      requires 0 < size && 2 * size <= WORD
      ensures Valid() && Contents() == [] && fresh(data) && data.Length == size
    {
      data := new bv8[size](_ => 0);
      count, read, write := 0, 0, BEFORE_FIRST;
      new;
      NextWriteIs(BEFORE_FIRST, size);
    }

    ghost predicate Bounded()
      reads this
    {
      0 < data.Length && 2 * data.Length <= WORD && read < data.Length && count <= data.Length
    }

    ghost predicate Valid()
      reads this
    {
      Bounded() && InStep(write, read, count, data.Length)
    }

    /** The unread bytes, oldest first. */
    ghost function Contents(): (bytes: seq<bv8>)
      requires Bounded()
      reads this, data
    {
      RingBytes(data[..], read, count)
    }

    /** memcpy into the buffer. */
    method Copy(at: nat, bytes: seq<bv8>)
      requires at < data.Length && at + |bytes| <= data.Length
      modifies data
      ensures data[..] == Placed(old(data[..]), at, bytes)
    {
      ghost var d := data[..];
      var k := 0;
      while k < |bytes|
        invariant k <= |bytes| && data[..] == d[..at] + bytes[..k] + d[at + k..]
      {
        data[at + k] := bytes[k];
        k := k + 1;
      }
      CopiedIsPlaced(d, at, bytes);
    }

    /** DemuxCopyToCBuf. */
    method CopyFromQueue(queue: seq<bv8>, start: nat, length: nat)
      requires Valid() && start < |queue| && length <= |queue| && count + length <= data.Length
      modifies this`count, this`write, data
      ensures Bounded() && count == old(count) + length
      ensures Contents() == old(Contents()) + RingBytes(queue, start, length)
      ensures Valid() <==> length > 0 || old(write) != BEFORE_FIRST || WORD % data.Length == 0
    {
      ghost var d, bytes := data[..], RingBytes(queue, start, length);
      var at := NextWrite(write, data.Length);
      CopyPieces(queue, start, length, at);
      PlacedAppends(d, read, count, bytes);
      AdvanceInStep(write, read, count, length, data.Length);
      count := count + length;
      write := Advanced(write, length, data.Length);
    }

    /** Both rings wrap within the stretch: which one first decides where the pieces are cut. */
    method CopyBothWrap(queue: seq<bv8>, start: nat, length: nat, at: nat)
      requires start < |queue| && length <= |queue| && at < data.Length && length <= data.Length
      requires data.Length - at < length && |queue| - start < length
      modifies data
      ensures data[..] == Placed(old(data[..]), at, RingBytes(queue, start, length))
    {
      ghost var d, bytes := data[..], RingBytes(queue, start, length);
      hide Placed, RingBytes;
      var bufferRest, queueRest := data.Length - at, |queue| - start;
      RingSplit(queue, start, queueRest, length);
      RingSlice(queue, start, queueRest);
      RingSlice(queue, 0, length - queueRest);
      if queueRest > bufferRest {
        CutEarly(queue, start, bufferRest);
        CopyThree(at, queue[start..start + bufferRest], queue[start + bufferRest..], queue[..length - queueRest], bytes);
      } else if bufferRest > queueRest {
        CutLate(queue, start, bufferRest - queueRest, length - queueRest);
        CopyThree(at, queue[start..], queue[..bufferRest - queueRest], queue[bufferRest - queueRest..length - queueRest], bytes);
      } else {
        CopyTwo(at, queue[start..], queue[..length - queueRest], bytes);
      }
    }

    /** Two copies in a row, the end of the buffer being reached after the first. */
    method CopyTwo(at: nat, x: seq<bv8>, y: seq<bv8>, ghost bytes: seq<bv8>)
      requires at < data.Length && |x| + |y| <= data.Length && bytes == x + y && at + |x| == data.Length
      modifies data
      ensures data[..] == Placed(old(data[..]), at, bytes)
    {
      ghost var d := data[..];
      hide Placed;
      Copy(at, x);
      Copy(0, y);
      TwoPieces(d, at, x, y, bytes, data[..]);
    }

    /** Three copies in a row, the end of the buffer being reached after the first or the second. */
    method CopyThree(at: nat, x: seq<bv8>, y: seq<bv8>, z: seq<bv8>, ghost bytes: seq<bv8>)
      requires at < data.Length && |x| + |y| + |z| <= data.Length && bytes == x + y + z
      requires at + |x| == data.Length || (at + |x| < data.Length && at + |x| + |y| == data.Length)
      modifies data
      ensures data[..] == Placed(old(data[..]), at, bytes)
    {
      ghost var d := data[..];
      hide Placed;
      Copy(at, x);
      var second := if at + |x| == data.Length then 0 else at + |x|;
      Copy(second, y);
      Copy(if at + |x| == data.Length then |y| else 0, z);
      ThreePieces(d, at, x, y, z, bytes, data[..]);
    }

    /** The copies of DemuxCopyToCBuf, one case for each way the two rings can wrap. */
    method CopyPieces(queue: seq<bv8>, start: nat, length: nat, at: nat)
      requires start < |queue| && length <= |queue| && at < data.Length && length <= data.Length
      modifies data
      ensures data[..] == Placed(old(data[..]), at, RingBytes(queue, start, length))
    {
      ghost var d, bytes := data[..], RingBytes(queue, start, length);
      hide Placed, RingBytes;
      var bufferRest, queueRest := data.Length - at, |queue| - start;
      if bufferRest < length && queueRest < length {
        CopyBothWrap(queue, start, length, at);
      } else if bufferRest < length {
        RingSlice(queue, start, length);
        assert queue[start..start + length] == queue[start..start + bufferRest] + queue[start + bufferRest..start + length];
        CopyTwo(at, queue[start..start + bufferRest], queue[start + bufferRest..start + length], bytes);
      } else if queueRest < length {
        Copy(at, queue[start..]);
        Copy(at + queueRest, queue[..length - queueRest]);
        RingSplit(queue, start, queueRest, length);
        RingSlice(queue, start, queueRest);
        RingSlice(queue, 0, length - queueRest);
        TwoPieces(d, at, queue[start..], queue[..length - queueRest], bytes, data[..]);
      } else {
        Copy(at, queue[start..start + length]);
        RingSlice(queue, start, length);
      }
    }

    /** The loop of DemuxSectionCallback: one byte at a time. */
    method AppendFromQueue(queue: seq<bv8>, start: nat, length: nat)
      requires Valid() && start < |queue| && length <= |queue| && count + length <= data.Length
      modifies this`count, this`write, data
      ensures Valid() && count == old(count) + length
      ensures Contents() == old(Contents()) + RingBytes(queue, start, length)
    {
      ghost var bytes, before := RingBytes(queue, start, length), Contents();
      var i, s := 0, start;
      assert before + bytes[..0] == before;
      while i < length
        invariant i <= length && s <= |queue| && Valid() && count + (length - i) <= data.Length
        invariant count == old(count) + i && Contents() == before + bytes[..i]
        invariant i < length ==> (if s == |queue| then 0 else s) == Wrap(start + i, |queue|)
      {
        if s == |queue| {
          s := 0;
        }
        assert queue[s] == bytes[i];
        AppendByte(queue[s]);
        assert bytes[..i + 1] == bytes[..i] + [bytes[i]];
        assert before + bytes[..i] + [bytes[i]] == before + bytes[..i + 1];
        i, s := i + 1, s + 1;
      }
      assert bytes[..length] == bytes;
    }

    method AppendByte(b: bv8)
      requires Valid() && count < data.Length
      modifies this`count, this`write, data
      ensures Valid() && count == old(count) + 1 && Contents() == old(Contents()) + [b]
    {
      ghost var d := data[..];
      AdvanceInStep(write, read, count, 1, data.Length);
      PlacedAppends(d, read, count, [b]);
      count := count + 1;
      write := Advanced(write, 1, data.Length);
      assert write == Wrap(read + old(count), data.Length) == NextWrite(old(write), data.Length);
      data[write] := b;
      assert data[..] == Placed(d, write, [b]);
    }

    /** The read of a stream filter: as much as there is, up to n bytes. */
    method ReadBytes(n: nat) returns (bytes: seq<bv8>)
      requires Valid()
      modifies this`count, this`read
      ensures Valid()
      ensures bytes == old(Contents())[..if n < old(count) then n else old(count)]
      ensures Contents() == old(Contents())[|bytes|..]
    {
      ghost var all := Contents();
      var k := if n >= count then count else n;
      var rest := data.Length - read;
      if rest < k {
        bytes := data[read..] + data[..k - rest];
      } else {
        bytes := data[read..read + k];
      }
      RingSplit(data[..], read, k, count);
      ReadPieces(data[..], read, k, bytes);
      ReadInStep(write, read, count, k, data.Length);
      read := (read + k) % data.Length;
      count := count - k;
    }

    /** Byte k of what is unread, by the index the driver computes. */
    method Peek(k: nat) returns (b: bv8)
      requires Valid() && k < data.Length
      ensures k < count ==> b == Contents()[k]
    {
      IndexIs(read, k, data.Length);
      b := data[(read + k) % data.Length];
    }
  }

  lemma IndexIs(read: nat, k: nat, size: nat)
    requires read < size && k <= size
    ensures (read + k) % size == Wrap(read + k, size)
  {
    if read + k >= size { ModOnce(read + k, size); } else { ModSmall(read + k, size); }
  }

  lemma ReadPieces(d: seq<bv8>, read: nat, k: nat, bytes: seq<bv8>)
    requires read < |d| && k <= |d|
    requires bytes == if |d| - read < k then d[read..] + d[..k - (|d| - read)] else d[read..read + k]
    ensures bytes == RingBytes(d, read, k)
  {
    var rest := |d| - read;
    if rest < k {
      RingSplit(d, read, rest, k);
      RingSlice(d, read, rest);
      RingSlice(d, 0, k - rest);
    } else {
      RingSlice(d, read, k);
    }
  }

  lemma ReadInStep(write: nat, read: nat, count: nat, k: nat, size: nat)
    requires InStep(write, read, count, size) && k <= count
    ensures (read + k) % size == Wrap(read + k, size)
    ensures InStep(write, (read + k) % size, count - k, size)
  {
    IndexIs(read, k, size);
  }
}
