/** The clip device, in place, and the writer that splits a user's buffer over it. */
module ClipDevice {
  import opened ClipPool

  /** Every segment is accounted for, and the counters say how many are empty. */
  predicate Balanced(n: nat, length: nat, free: seq<Clip>, clips: seq<Clip>, held: multiset<nat>,
                     offset: nat, left: int, semaphore: nat) {
    && Conserved(n, length, free, clips, held)
    && Sized(free, length) && Sized(clips, length)
    && left == |free| == semaphore && offset <= |clips|
  }

  /** The device has been given the clips in the order in which they were submitted, each once. */
  predicate InOrder(memory: seq<bv8>, clips: seq<Clip>, contents: seq<seq<bv8>>, done: nat, offset: nat,
                    lost: bool, played: seq<bv8>) {
    && Queued(memory, clips, contents, done) && offset <= |clips|
    && (!lost ==> played == Concat(contents[..done + offset]))
  }

  lemma CountersAgree(n: nat, length: nat, free: seq<Clip>, clips: seq<Clip>, held: multiset<nat>,
                      offset: nat, left: int, semaphore: nat)
    requires Balanced(n, length, free, clips, held, offset, left, semaphore)
    ensures left == semaphore == |free| && offset <= |clips|
  {
  }

  // ----- taking an empty segment

  lemma TakeBalanced(n: nat, length: nat, free: seq<Clip>, clips: seq<Clip>, held: multiset<nat>,
                     offset: nat, left: int, semaphore: nat)
    requires Balanced(n, length, free, clips, held, offset, left, semaphore) && semaphore > 0
    ensures free != [] && free[0].bufLen == length
    ensures Balanced(n, length, free[1..], clips, held + multiset{free[0].bufAt}, offset, left - 1, semaphore - 1)
  {
    OffsetsTail(free);
    hide Offsets, Segments;
  }

  // ----- filling it

  lemma HeldInMemory(n: nat, length: nat, free: seq<Clip>, clips: seq<Clip>, held: multiset<nat>, at: nat)
    requires length > 0 && Conserved(n, length, free, clips, held) && at in held
    ensures at + length <= Space(n, length)
  {
    hide Offsets;
    assert (Offsets(free) + Offsets(clips) + held)[at] > 0;
    SegmentsBelow(n, length, at);
  }

  lemma FillInOrder(n: nat, length: nat, free: seq<Clip>, clips: seq<Clip>, held: multiset<nat>, offset: nat,
                    left: int, semaphore: nat, memory: seq<bv8>, memory': seq<bv8>, contents: seq<seq<bv8>>,
                    done: nat, lost: bool, played: seq<bv8>, at: nat)
    requires Balanced(n, length, free, clips, held, offset, left, semaphore) && at in held && length > 0
    requires InOrder(memory, clips, contents, done, offset, lost, played)
    requires |memory| == |memory'| == Space(n, length)
    requires forall b | 0 <= b < |memory| && !(at <= b < at + length) :: memory'[b] == memory[b]
    ensures InOrder(memory', clips, contents, done, offset, lost, played)
  {
    forall k | 0 <= k < |clips|
      ensures InSegment(clips[k]) && clips[k].bufAt + clips[k].bufLen <= |memory'|
      ensures clips[k].clipAt + clips[k].clipLen <= |memory'| && ClipBytes(memory', clips[k]) == contents[done + k]
    {
      QueuedApart(n, length, free, clips, held, at, k);
      assert InSegment(clips[k]) && clips[k].bufLen == length;
      assert ClipBytes(memory', clips[k]) == ClipBytes(memory, clips[k]);
    }
  }

  // ----- submitting it

  lemma WriteBalanced(n: nat, length: nat, free: seq<Clip>, clips: seq<Clip>, held: multiset<nat>,
                      offset: nat, left: int, semaphore: nat, clip: Clip)
    requires Balanced(n, length, free, clips, held, offset, left, semaphore)
    requires clip.bufAt in held && clip.bufLen == length
    ensures |clips| < n
    ensures Balanced(n, length, free, clips + [clip], held - multiset{clip.bufAt}, offset, left, semaphore)
  {
    CountLeft(n, length, free, clips, held);
    OffsetsAppend(clips, clip);
    assert held == held - multiset{clip.bufAt} + multiset{clip.bufAt};
    hide Offsets, Segments;
  }

  lemma WriteInOrder(memory: seq<bv8>, clips: seq<Clip>, contents: seq<seq<bv8>>, done: nat, offset: nat,
                     lost: bool, played: seq<bv8>, clip: Clip)
    requires InOrder(memory, clips, contents, done, offset, lost, played)
    requires InSegment(clip) && clip.bufAt + clip.bufLen <= |memory|
    ensures InOrder(memory, clips + [clip], contents + [ClipBytes(memory, clip)], done, offset, lost, played)
  {
    var contents' := contents + [ClipBytes(memory, clip)];
    assert contents'[..done + offset] == contents[..done + offset];
  }

  // ----- giving it to the device

  lemma GiveInOrder(memory: seq<bv8>, clips: seq<Clip>, contents: seq<seq<bv8>>, done: nat, offset: nat,
                    lost: bool, played: seq<bv8>)
    requires InOrder(memory, clips, contents, done, offset, lost, played) && offset < |clips|
    ensures clips[offset].clipAt + clips[offset].clipLen <= |memory|
    ensures InOrder(memory, clips, contents, done, offset + 1, lost, played + ClipBytes(memory, clips[offset]))
  {
    ConcatNext(contents, done + offset);
    hide Concat;
    assert InSegment(clips[offset]);
  }

  lemma GiveBalanced(n: nat, length: nat, free: seq<Clip>, clips: seq<Clip>, held: multiset<nat>,
                     offset: nat, left: int, semaphore: nat)
    requires Balanced(n, length, free, clips, held, offset, left, semaphore) && offset < |clips|
    ensures Balanced(n, length, free, clips, held, offset + 1, left, semaphore)
  {
  }

  // ----- getting it back

  lemma DoneBalanced(n: nat, length: nat, free: seq<Clip>, clips: seq<Clip>, held: multiset<nat>,
                     offset: nat, left: int, semaphore: nat, free': seq<Clip>, clips': seq<Clip>, offset': nat)
    requires Balanced(n, length, free, clips, held, offset, left, semaphore) && clips != []
    requires free' == free + [clips[0]] && clips' == clips[1..] && offset' == if offset > 0 then offset - 1 else 0
    ensures |free| < n && left + 1 <= n
    ensures Balanced(n, length, free', clips', held, offset', left + 1, semaphore + 1)
  {
    CountLeft(n, length, free, clips, held);
    OffsetsTail(clips);
    OffsetsAppend(free, clips[0]);
    hide Offsets, Segments;
  }

  lemma DoneInOrder(memory: seq<bv8>, clips: seq<Clip>, contents: seq<seq<bv8>>, done: nat, offset: nat,
                    lost: bool, played: seq<bv8>, clips': seq<Clip>, offset': nat, lost': bool)
    requires InOrder(memory, clips, contents, done, offset, lost, played) && clips != []
    requires clips' == clips[1..] && offset' == (if offset > 0 then offset - 1 else 0) && lost' == (lost || offset == 0)
    ensures InOrder(memory, clips', contents, done + 1, offset', lost', played)
  {
    hide Concat, ClipBytes;
    var rest := clips[1..];
    forall k | 0 <= k < |rest|
      ensures InSegment(rest[k]) && rest[k].bufAt + rest[k].bufLen <= |memory|
      ensures ClipBytes(memory, rest[k]) == contents[done + 1 + k]
    {
      assert rest[k] == clips[k + 1] && InSegment(clips[k + 1]);
    }
  }

  // ----- the pool at first

  function Pool(n: nat, length: nat): (q: seq<Clip>)
    ensures |q| == n
  {
    if n == 0 then [] else Pool(n - 1, length) + [Clip((n - 1) * length, length, 0, 0, false)]
  }

  lemma {:induction false} PoolIsWhole(n: nat, length: nat)
    ensures Offsets(Pool(n, length)) == Segments(n, length)
    ensures forall k | 0 <= k < n :: Pool(n, length)[k].bufLen == length && !Pool(n, length)[k].last
  {
    hide Offsets;
    if n == 0 {
      NoOffsets();
    } else {
      PoolIsWhole(n - 1, length);
      OffsetsAppend(Pool(n - 1, length), Clip((n - 1) * length, length, 0, 0, false));
    }
  }

  lemma NoOffsets()
    ensures Offsets([]) == multiset{}
  {
  }

  lemma PoolBalanced(n: nat, length: nat, memory: seq<bv8>)
    ensures Balanced(n, length, Pool(n, length), [], multiset{}, 0, n, n)
    ensures InOrder(memory, [], [], 0, 0, false, [])
    ensures forall k | 0 <= k < n :: !Pool(n, length)[k].last
  {
    hide Offsets, Segments, Pool;
    PoolIsWhole(n, length);
    NoOffsets();
  }

  method FillPool(segments: nat, segmentLength: nat) returns (queue: seq<Clip>)
    ensures queue == Pool(segments, segmentLength)
  {
    queue := [];
    var i := 0;
    while i < segments
      invariant i <= segments && queue == Pool(i, segmentLength)
    {
      queue := queue + [Clip(i * segmentLength, segmentLength, 0, 0, false)];
      i := i + 1;
    }
  }

  /** How many of the queued clips give their segment back when the device reports `dones` of them done. */
  function Back(clips: seq<Clip>, dones: nat): (n: nat)
    ensures n <= |clips|
  {
    if dones > |clips| then |clips| else dones
  }

  class ClipDevice {
    const segments: nat
    const segmentLength: nat
    const memory: array<bv8>
    var free: seq<Clip>         // bufq
    var clips: seq<Clip>        // clipq
    var offset: nat             // nOff: clips at the head of clipq that the device has been given
    var left: int               // nLeft
    var semaphore: nat
    var status: Status
    ghost var held: multiset<nat>         // segments with writers
    ghost var contents: seq<seq<bv8>>     // the bytes of every clip ever submitted
    ghost var done: nat                   // clips that have left clipq
    ghost var lost: bool                  // some clip left clipq before the device was given it
    ghost var played: seq<bv8>            // the bytes given to the device

    ghost predicate Valid()
      reads this, memory
    {
      && segmentLength > 0 && memory.Length == Space(segments, segmentLength)
      && Balanced(segments, segmentLength, free, clips, held, offset, left, semaphore)
      && InOrder(memory[..], clips, contents, done, offset, lost, played)
    }

    /** clipdev_create. */
    constructor (segmentLength: nat, segments: nat)
      requires segmentLength > 0
      ensures Valid() && fresh(memory) && this.segments == segments && this.segmentLength == segmentLength
      ensures left == segments && clips == [] && contents == [] && status.Stopped? && held == multiset{} && !lost
      ensures played == [] && forall k | 0 <= k < |free| :: !free[k].last
    {
      hide Space, Balanced, InOrder, Pool;
      this.segments, this.segmentLength := segments, segmentLength;
      memory := new bv8[Space(segments, segmentLength)](_ => 0);
      clips, offset, status := [], 0, Stopped;
      held, contents, done, lost, played := multiset{}, [], 0, false, [];
      left, semaphore := segments, segments;
      var queue := FillPool(segments, segmentLength);
      free := queue;
      new;
      PoolBalanced(segments, segmentLength, memory[..]);
    }

    /** A queue made for segments + 1 elements holds at most `segments` of them. */
    predicate Full(q: seq<Clip>) {
      |q| >= segments
    }

    /**
     * clipdev_get_buf_wait, when the device reports `dones` clips done before the wait ends. The
     * wait fails only if there is still nothing by then.
     */
    method GetBufferWait(dones: nat) returns (clip: Clip, ok: bool)
      requires Valid()
      modifies this
      ensures Valid() && contents == old(contents) && status == old(status)
      ensures old(left) > 0 ==> ok
      ensures ok ==> old(left) > 0 || dones > 0
      ensures !ok ==> held == old(held) && left == 0
      ensures ok ==> held == old(held) + multiset{clip.bufAt} && clip.bufLen == segmentLength
      ensures ok ==> clip.clipAt == clip.bufAt && clip.clipLen == 0
      ensures var n := Back(old(clips), dones); var all := old(free) + old(clips)[..n];
        && clips == old(clips)[n..] && (ok <==> all != [])
        && (ok ==> free == all[1..] && clip.last == all[0].last)
      ensures dones == 0 ==> clips == old(clips) && offset == old(offset) && lost == old(lost) && played == old(played)
    {
      hide Space, Balanced, InOrder;
      CountersAgree(segments, segmentLength, free, clips, held, offset, left, semaphore);
      var i := 0;
      while i < dones
        invariant i <= dones && Valid() && contents == old(contents) && status == old(status) && held == old(held)
        invariant left >= old(left)
        invariant i == 0 ==> unchanged(this)
        invariant var n := Back(old(clips), i); clips == old(clips)[n..] && free == old(free) + old(clips)[..n]
        decreases dones - i
      {
        ClipDone();
        i := i + 1;
      }
      clip, ok := Clip(0, 0, 0, 0, false), false;
      CountersAgree(segments, segmentLength, free, clips, held, offset, left, semaphore);
      if semaphore == 0 {
        return;
      }
      TakeBalanced(segments, segmentLength, free, clips, held, offset, left, semaphore);
      semaphore := semaphore - 1;
      clip := free[0];
      free := free[1..];
      clip := clip.(clipAt := clip.bufAt, clipLen := 0);
      left := left - 1;
      held := held + multiset{clip.bufAt};
      ok := true;
    }

    /** clipdev_get_buf_nowait: never has to wait. */
    method GetBufferNoWait() returns (clip: Clip, ok: bool)
      requires Valid()
      modifies this
      ensures Valid() && contents == old(contents) && status == old(status)
      ensures ok <==> old(left) > 0
      ensures !ok ==> unchanged(this)
      ensures ok ==> held == old(held) + multiset{clip.bufAt} && clip.bufLen == segmentLength
      ensures ok ==> clip.clipAt == clip.bufAt && clip.clipLen == 0
      ensures ok ==> old(free) != [] && free == old(free)[1..] && clip.last == old(free)[0].last
      ensures clips == old(clips) && offset == old(offset) && lost == old(lost) && played == old(played)
    {
      clip, ok := Clip(0, 0, 0, 0, false), false;
      if left <= 0 {
        return;
      }
      clip, ok := GetBufferWait(0);
    }

    /** What a writer puts into a segment it has taken. */
    method Fill(clip: Clip, bytes: seq<bv8>)
      requires Valid() && clip.bufAt in held && |bytes| <= segmentLength
      modifies memory
      ensures Valid() && clip.bufAt + |bytes| <= memory.Length
      ensures memory[clip.bufAt..clip.bufAt + |bytes|] == bytes
    {
      hide Space, InOrder;
      ghost var m := memory[..];
      HeldInMemory(segments, segmentLength, free, clips, held, clip.bufAt);
      var k := 0;
      while k < |bytes|
        invariant k <= |bytes| && memory[clip.bufAt..clip.bufAt + k] == bytes[..k]
        invariant forall b | 0 <= b < memory.Length && !(clip.bufAt <= b < clip.bufAt + segmentLength) :: memory[b] == m[b]
      {
        memory[clip.bufAt + k] := bytes[k];
        k := k + 1;
      }
      FillInOrder(segments, segmentLength, free, clips, held, offset, left, semaphore, m, memory[..], contents, done,
                  lost, played, clip.bufAt);
    }

    /** clipdev_write. A writer submits a segment it holds. */
    method Write(clip: Clip) returns (ok: bool)
      requires Valid() && clip.bufAt in held && clip.bufLen == segmentLength
      requires clip.clipLen <= clip.bufLen ==> InSegment(clip)
      modifies this
      ensures Valid() && status == old(status) && free == old(free) && lost == old(lost) && offset == old(offset)
      ensures left == old(left)
      ensures ok <==> clip.clipLen <= clip.bufLen
      ensures !ok ==> unchanged(this)
      ensures ok ==> clip.clipAt + clip.clipLen <= memory.Length
      ensures ok ==> held == old(held) - multiset{clip.bufAt} && clips == old(clips) + [clip]
      ensures ok ==> contents == old(contents) + [memory[clip.clipAt..clip.clipAt + clip.clipLen]]
    {
      if clip.clipLen > clip.bufLen {
        return false;
      }
      HeldInMemory(segments, segmentLength, free, clips, held, clip.bufAt);
      WriteBalanced(segments, segmentLength, free, clips, held, offset, left, semaphore, clip);
      if Full(clips) {
        return false;
      }
      Submit(clip);
      return true;
    }

    method Submit(clip: Clip)
      requires Valid() && clip.bufAt in held && clip.bufLen == segmentLength && InSegment(clip)
      requires clip.clipAt + clip.clipLen <= memory.Length && clip.bufAt + clip.bufLen <= memory.Length
      modifies this`held, this`clips, this`contents
      ensures Valid() && held == old(held) - multiset{clip.bufAt} && clips == old(clips) + [clip]
      ensures contents == old(contents) + [memory[clip.clipAt..clip.clipAt + clip.clipLen]]
    {
      hide Space, Balanced, InOrder;
      WriteBalanced(segments, segmentLength, free, clips, held, offset, left, semaphore, clip);
      WriteInOrder(memory[..], clips, contents, done, offset, lost, played, clip);
      contents := contents + [memory[clip.clipAt..clip.clipAt + clip.clipLen]];
      held := held - multiset{clip.bufAt};
      clips := clips + [clip];
    }

    /** The device is given the next clip. */
    method GiveNext()
      requires Valid() && offset < |clips|
      modifies this`offset, this`played
      ensures Valid() && offset == old(offset) + 1
    {
      hide Space, Balanced, InOrder;
      GiveInOrder(memory[..], clips, contents, done, offset, lost, played);
      GiveBalanced(segments, segmentLength, free, clips, held, offset, left, semaphore);
      played := played + ClipBytes(memory[..], clips[offset]);
      offset := offset + 1;
    }

    /** clipdev_hw_write, when the device has room for `room` more clips. */
    method HardwareWrite(room: nat) returns (ok: bool)
      requires Valid()
      modifies this`offset, this`played
      ensures Valid()
      ensures ok <==> status.Playing? && clips != []
      ensures offset == if !ok || room > |clips| - old(offset) then (if ok then |clips| else old(offset)) else old(offset) + room
    {
      if !status.Playing? {
        return false;
      }
      if clips == [] {
        return false;
      }
      hide Space, Balanced, InOrder;
      CountersAgree(segments, segmentLength, free, clips, held, offset, left, semaphore);
      var asked := 0;
      while clips != []
        invariant asked <= room && Valid() && offset == old(offset) + asked <= |clips|
        decreases |clips| - offset, room - asked
      {
        if asked < room {
          if offset >= |clips| {
            return true;
          }
          GiveNext();
          asked := asked + 1;
        } else {
          break;
        }
      }
      return true;
    }

    /** clipdev_start. */
    method Start(room: nat) returns (ok: bool)
      requires Valid()
      modifies this`offset, this`played, this`status
      ensures Valid()
      ensures ok <==> clips != []
      ensures status == if ok then Playing else Stopped
      ensures ok ==> offset == if room > |clips| - old(offset) then |clips| else old(offset) + room
      ensures !ok ==> offset == old(offset)
    {
      status := Playing;
      ok := HardwareWrite(room);
      if !ok {
        status := Stopped;
      }
    }

    method Pause()
      requires Valid()
      modifies this`status
      ensures Valid() && status.Paused?
    {
      status := Paused;
    }

    /** clipdev_clipinfo_done. */
    method ClipDone()
      requires Valid()
      modifies this`free, this`clips, this`offset, this`left, this`semaphore, this`done, this`lost
      ensures Valid()
      ensures old(clips) == [] ==> unchanged(this)
      ensures old(clips) != [] ==> clips == old(clips)[1..] && free == old(free) + [old(clips)[0]] && done == old(done) + 1
      ensures old(clips) != [] ==> offset == if old(offset) > 0 then old(offset) - 1 else 0
      ensures old(clips) != [] ==> left == old(left) + 1 && semaphore == old(semaphore) + 1
      ensures lost <==> old(lost) || (old(clips) != [] && old(offset) == 0)
    {
      if clips == [] {
        return;
      }
      Reclaim();
    }

    /** The first clip of the queue gives its segment back. */
    method Reclaim()
      requires Valid() && clips != []
      modifies this`free, this`clips, this`offset, this`left, this`semaphore, this`done, this`lost
      ensures Valid()
      ensures clips == old(clips)[1..] && free == old(free) + [old(clips)[0]] && done == old(done) + 1
      ensures offset == if old(offset) > 0 then old(offset) - 1 else 0
      ensures left == old(left) + 1 && semaphore == old(semaphore) + 1
      ensures lost <==> old(lost) || old(offset) == 0
    {
      hide Space, Balanced, InOrder;
      ghost var free0, clips0, offset0, lost0 := free, clips, offset, lost;
      var clip := clips[0];
      clips := clips[1..];
      if offset > 0 {
        offset := offset - 1;
      } else {
        lost := true;
      }
      DoneBalanced(segments, segmentLength, free0, clips0, held, offset0, left, semaphore, free0 + [clip], clips, offset);
      DoneInOrder(memory[..], clips0, contents, done, offset0, lost0, played, clips, offset, lost);
      done := done + 1;
      if !Full(free) {
        free := free + [clip];
      }
      left := if left + 1 > segments then segments else left + 1;
      semaphore := semaphore + 1;
    }

    /** clipdev_write_ex. A clip that is accepted finds the queue non-empty, so starting cannot fail. */
    method WriteAndStart(clip: Clip, room: nat) returns (ok: bool)
      requires Valid() && clip.bufAt in held && clip.bufLen == segmentLength
      requires clip.clipLen <= clip.bufLen ==> InSegment(clip)
      modifies this
      ensures Valid() && free == old(free) && lost == old(lost) && left == old(left)
      ensures ok <==> clip.clipLen <= clip.bufLen
      ensures !ok ==> unchanged(this)
      ensures ok ==> clip.clipAt + clip.clipLen <= memory.Length && status.Playing?
      ensures ok ==> held == old(held) - multiset{clip.bufAt} && clips == old(clips) + [clip]
      ensures ok ==> contents == old(contents) + [memory[clip.clipAt..clip.clipAt + clip.clipLen]]
    {
      ok := Write(clip);
      if !ok {
        return;
      }
      ok := Start(room);
    }

    /** clipdev_stop: everything still queued is dropped. */
    method Stop()
      requires Valid()
      modifies this
      ensures Valid() && status.Stopped? && clips == [] && offset == 0 && held == old(held)
      ensures contents == old(contents) && done == |contents| && played == old(played)
      ensures lost <==> old(lost) || old(offset) < |old(clips)|
    {
      hide Space, Balanced;
      CountersAgree(segments, segmentLength, free, clips, held, offset, left, semaphore);
      status := Stopped;
      while |clips| > 0
        invariant Valid() && status.Stopped? && held == old(held) && contents == old(contents) && played == old(played)
        invariant offset <= |clips|
        invariant lost || |clips| - offset == |old(clips)| - old(offset)
        invariant lost ==> old(lost) || old(offset) < |old(clips)|
        invariant old(lost) ==> lost
        decreases |clips|
      {
        ClipDone();
      }
    }
  }
}
