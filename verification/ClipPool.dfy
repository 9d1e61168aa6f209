/**
 * The buffer pool behind the audio and video decoders. A writer takes an empty segment, fills
 * it and submits it as a clip; the device is given the clips in order and reports each one done,
 * which makes its segment empty again.
 */
module ClipPool {

  /** CLIPINFO. */
  datatype Clip = Clip(bufAt: nat, bufLen: nat, clipAt: nat, clipLen: nat, last: bool)

  datatype Status = Stopped | Playing | Paused

  // ----- segments

  function Offsets(q: seq<Clip>): multiset<nat> {
    multiset(seq(|q|, i requires 0 <= i < |q| => q[i].bufAt))
  }

  /** The segment offsets 0, length, .., (n - 1) * length. */
  function Segments(n: nat, length: nat): multiset<nat> {
    if n == 0 then multiset{} else Segments(n - 1, length) + multiset{(n - 1) * length}
  }

  lemma OffsetsAppend(q: seq<Clip>, c: Clip)
    ensures Offsets(q + [c]) == Offsets(q) + multiset{c.bufAt}
  {
    var a, b := seq(|q|, i requires 0 <= i < |q| => q[i].bufAt), q + [c];
    assert seq(|b|, i requires 0 <= i < |b| => b[i].bufAt) == a + [c.bufAt];
  }

  lemma OffsetsTail(q: seq<Clip>)
    requires q != []
    ensures Offsets(q) == Offsets(q[1..]) + multiset{q[0].bufAt}
  {
    var t := q[1..];
    var a := seq(|t|, i requires 0 <= i < |t| => t[i].bufAt);
    assert seq(|q|, i requires 0 <= i < |q| => q[i].bufAt) == [q[0].bufAt] + a;
  }

  lemma OffsetsHas(q: seq<Clip>, i: nat)
    requires i < |q|
    ensures q[i].bufAt in Offsets(q)
  {
    var s := seq(|q|, k requires 0 <= k < |q| => q[k].bufAt);
    assert s[i] in s;
  }

  lemma {:induction false} SegmentsBelow(n: nat, length: nat, x: nat)
    requires length > 0 && x in Segments(n, length)
    ensures x + length <= n * length && Segments(n, length)[x] == 1
    ensures exists i: nat :: i < n && x == i * length
  {
    var m := n - 1;
    assert n * length == m * length + length;
    if x in Segments(m, length) {
      SegmentsBelow(m, length, x);
    }
  }

  /** Different segments do not overlap. */
  lemma SegmentsApart(n: nat, length: nat, x: nat, y: nat)
    requires length > 0 && x in Segments(n, length) && y in Segments(n, length) && x != y
    ensures x + length <= y || y + length <= x
  {
    SegmentsBelow(n, length, x);
    SegmentsBelow(n, length, y);
    var i: nat :| i < n && x == i * length;
    var j: nat :| j < n && y == j * length;
    if i < j { ProductGap(i, j, length); } else if j < i { ProductGap(j, i, length); }
  }

  lemma {:induction false} ProductGap(i: nat, j: nat, length: nat)
    requires i < j
    ensures i * length + length <= j * length
    decreases j
  {
    assert j * length == (j - 1) * length + length;
    if i + 1 < j {
      ProductGap(i, j - 1, length);
    }
  }

  lemma {:induction false} SegmentsCount(n: nat, length: nat)
    ensures |Segments(n, length)| == n
  {
    if n > 0 { SegmentsCount(n - 1, length); }
  }

  // ----- what reaches the device

  function Concat(parts: seq<seq<bv8>>): seq<bv8> {
    if parts == [] then [] else Concat(parts[..|parts| - 1]) + parts[|parts| - 1]
  }

  lemma ConcatNext(parts: seq<seq<bv8>>, k: nat)
    requires k < |parts|
    ensures Concat(parts[..k + 1]) == Concat(parts[..k]) + parts[k]
  {
    assert parts[..k + 1][..k] == parts[..k];
  }

  predicate InSegment(c: Clip) {
    c.bufAt <= c.clipAt && c.clipAt + c.clipLen <= c.bufAt + c.bufLen
  }

  function ClipBytes(memory: seq<bv8>, c: Clip): seq<bv8>
    requires c.clipAt + c.clipLen <= |memory|
  {
    memory[c.clipAt..c.clipAt + c.clipLen]
  }

  /** The size of the memory that is cut into segments. */
  function Space(n: nat, length: nat): nat {
    n * length
  }

  /** Every segment is in exactly one place: empty, with a writer, or with the device. */
  predicate Conserved(n: nat, length: nat, free: seq<Clip>, clips: seq<Clip>, held: multiset<nat>) {
    Offsets(free) + Offsets(clips) + held == Segments(n, length)
  }

  predicate Sized(q: seq<Clip>, length: nat) {
    forall i | 0 <= i < |q| :: q[i].bufLen == length
  }

  /** The clips still queued are the last ones submitted, and their bytes are as they were then. */
  predicate Queued(memory: seq<bv8>, clips: seq<Clip>, contents: seq<seq<bv8>>, done: nat) {
    && |contents| == done + |clips|
    && forall k | 0 <= k < |clips| ::
      InSegment(clips[k]) && clips[k].bufAt + clips[k].bufLen <= |memory| && ClipBytes(memory, clips[k]) == contents[done + k]
  }

  lemma CountLeft(n: nat, length: nat, free: seq<Clip>, clips: seq<Clip>, held: multiset<nat>)
    requires Conserved(n, length, free, clips, held)
    ensures |free| + |clips| + |held| == n
  {
    SegmentsCount(n, length);
    assert |Offsets(free)| == |free| && |Offsets(clips)| == |clips|;
  }

  lemma QueuedApart(n: nat, length: nat, free: seq<Clip>, clips: seq<Clip>, held: multiset<nat>, at: nat, k: nat)
    requires length > 0 && Conserved(n, length, free, clips, held) && at in held && k < |clips|
    ensures at + length <= Space(n, length)
    ensures at + length <= clips[k].bufAt || clips[k].bufAt + length <= at
  {
    OffsetsHas(clips, k);
    var x := clips[k].bufAt;
    assert (Offsets(free) + Offsets(clips) + held)[x] >= Offsets(clips)[x] + held[x];
    assert at in Segments(n, length) && x in Segments(n, length);
    SegmentsBelow(n, length, at);
    SegmentsBelow(n, length, x);
    if x != at {
      SegmentsApart(n, length, x, at);
    }
  }
}
