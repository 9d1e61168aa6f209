/**
 * Whole runs of a queue: the hardware fills the ring, the demux thread locks or skips what was
 * delivered, the application unlocks in any order, and the driver recovers from read pointer
 * errors. No run ever lets the hardware overwrite a byte of a held region.
 */
module QueueRuns {
  import opened Ring
  import opened QueueModel
  import opened QueueSafety

  /** A queue and the memory behind it; memory[k] is the byte at address base + k. */
  datatype System = System(q: Queue, memory: seq<bv8>)

  datatype Event =
    | HardwareWrite(data: seq<bv8>)     // bytes written at the hardware's write pointer
    | HardwareDeliver                   // the bytes written so far become the next delivery
    | HardwareStop                      // a packet in progress is dropped
    | LockRecord(r: Region)
    | SkipRecord(r: Region)
    | Unlock(k: nat)                    // the application gives back the region of record k
    | UnlockSpan(first: nat, last: nat)
    | ReadPointerFault
    | ReadOn(a: nat)                    // the next delivery is read from here
    | ResetQueue

  function Advance(q: Queue, a: nat, count: nat): nat {
    if a + count >= q.End() then q.base + (a + count - q.End()) else a + count
  }

  function Written(q: Queue, memory: seq<bv8>, data: seq<bv8>): (m: seq<bv8>)
    requires |memory| == q.size && q.base <= q.writeNow
    ensures |m| == |memory|
  {
    seq(|memory|, (o: int) requires 0 <= o < |memory| =>
      var d := Dist(q.size, q.writeNow, q.base + o);
      if 0 <= d < |data| then data[d] else memory[o])
  }

  /**
   * What each party may do. The hardware stops before its write pointer meets the read
   * pointer; a step that recovers finds a queue that can be recovered.
   */
  predicate Allowed(s: System, e: Event)
    requires Laid(s.q.base, s.q.size, s.q.held)
  {
    match e
    case HardwareWrite(data) => |data| < Room(s.q)
    case HardwareDeliver => true
    case HardwareStop => true
    case LockRecord(r) => Lockable(s.q, r)
    case SkipRecord(r) => Skippable(s.q, r.end)
    case Unlock(k) => k < |s.q.held| && UnlockRecovers(s.q, k)
    case UnlockSpan(first, last) => first <= last < |s.q.held| && SpanRecovers(s.q, first, last)
    case ReadPointerFault => Recoverable(s.q)
    case ReadOn(a) => true
    case ResetQueue => true
  }

  // ----- unlock

  function UnlockRecord(q: Queue, k: nat): (Queue, Status)
    requires k < |q.held| && RegionInside(q.base, q.size, q.held[k])
  {
    UnlockLength(q, q.held[k].start, Len(q.size, q.held[k]))
  }

  /** If releasing record k makes the driver recover the queue, then it can be recovered. */
  predicate UnlockRecovers(q: Queue, k: nat)
    requires k < |q.held|
  {
    q.stalled && q.held[k].start != q.lockAddr ==> Recoverable(q.(held := Without(q.held, k)))
  }

  /** Releasing a record by start and length releases that record, then recovers if the queue is stalled. */
  lemma UnlockRecordIs(q: Queue, k: nat)
    requires Laid(q.base, q.size, q.held) && k < |q.held|
    ensures q.held[k] in q.held
    ensures UnlockRecord(q, k) == UnlockData(q, q.held[k])
    ensures var (q', status) := UnlockRecord(q, k);
      status == Done && q'.held == Without(q.held, k) && SameRing(q, q') && Laid(q'.base, q'.size, q'.held)
    ensures q.held[k].start != q.lockAddr ==>
      var rest := q.(held := Without(q.held, k));
      UnlockRecord(q, k).0 == if q.stalled then ProcessReadPointer(rest) else rest
  {
    assert q.held[k] in q.held;
    FindHeld(q.base, q.size, q.held, k);
    EndFromLength(q, q.held[k]);
    WithoutLaid(q.base, q.size, q.held, k);
  }

  /** Releasing a record, in any order, is safe exactly when a queue it recovers can be recovered. */
  lemma UnlockSafeIff(q: Queue, k: nat)
    requires Safe(q) && k < |q.held|
    ensures q.held[k] in q.held
    ensures Safe(UnlockRecord(q, k).0) <==> UnlockRecovers(q, k)
  {
    UnlockRecordIs(q, k);
    hide Safe, UnlockData, UnlockLength, UnlockRecord, Without, ProcessReadPointer, Recoverable;
    if q.held[k].start == q.lockAddr {
      UnlockFirstKeepsSafe(q, k);
    } else {
      ReleaseOtherKeepsSafe(q, k);
      RecoverySafeIff(q.(held := Without(q.held, k)));
    }
  }

  lemma RecordBytes(q: Queue, k: nat)
    requires Laid(q.base, q.size, q.held) && k < |q.held|
    ensures Len(q.size, q.held[k]) > 0
    ensures var r := q.held[k];
      Len(q.size, r) == if r.start <= r.end then r.end - r.start else q.size - (r.start - r.end)
  {
    assert q.held[k] in q.held;
  }

  /** xp_osi_queue_unlock: records last, last - 1, .., first, each by its start and length. */
  function UnlockRange(q: Queue, first: nat, last: int): (Queue, Status)
    requires Laid(q.base, q.size, q.held) && first as int - 1 <= last < |q.held|
    decreases last - first + 1
  {
    if last < first then (q, Done)
    else
      UnlockRecordIs(q, last);
      var (q', status) := UnlockRecord(q, last);
      if status != Done then (q', status) else UnlockRange(q', first, last - 1)
  }

  /** Every release of the range that recovers the queue finds one that can be recovered. */
  predicate SpanRecovers(q: Queue, first: nat, last: int)
    requires Laid(q.base, q.size, q.held) && first as int - 1 <= last < |q.held|
    decreases last - first + 1
  {
    last < first ||
    (UnlockRecovers(q, last) && (UnlockRecordIs(q, last); SpanRecovers(UnlockRecord(q, last).0, first, last - 1)))
  }

  /** Unlocking an index range from the top removes exactly that range, whatever recovery does. */
  lemma {:induction false} UnlockRangeRemovesRange(q: Queue, first: nat, last: int)
    requires Laid(q.base, q.size, q.held) && first as int - 1 <= last < |q.held|
    ensures var (q', status) := UnlockRange(q, first, last);
      && status == Done && q'.held == q.held[..first] + q.held[last + 1..]
      && SameRing(q, q') && Laid(q'.base, q'.size, q'.held)
    decreases last - first + 1
  {
    hide Laid, UnlockRange, SameRing;
    if last < first {
      UnlockNone(q, first, last);
    } else {
      var q' := UnlockLast(q, first, last);
      UnlockRangeRemovesRange(q', first, last - 1);
      assert SameRing(q, UnlockRange(q', first, last - 1).0) by {
        RingStays(q, q', UnlockRange(q', first, last - 1).0);
      }
    }
  }

  lemma RingStays(q: Queue, q': Queue, q'': Queue)
    requires SameRing(q, q') && SameRing(q', q'')
    ensures SameRing(q, q'')
  {
  }

  lemma UnlockNone(q: Queue, first: nat, last: int)
    requires Laid(q.base, q.size, q.held) && first as int - 1 == last < |q.held|
    ensures UnlockRange(q, first, last) == (q, Done) && SameRing(q, q)
    ensures q.held == q.held[..first] + q.held[last + 1..]
  {
    hide Laid;
  }

  /** The first pass of the loop. */
  lemma UnlockLast(q: Queue, first: nat, last: int) returns (q': Queue)
    requires Laid(q.base, q.size, q.held) && first <= last < |q.held|
    ensures q.held[last] in q.held && q' == UnlockRecord(q, last).0
    ensures SameRing(q, q') && |q'.held| == |q.held| - 1 && Laid(q'.base, q'.size, q'.held)
    ensures q'.held[..first] == q.held[..first] && q'.held[last..] == q.held[last + 1..]
    ensures UnlockRange(q, first, last) == UnlockRange(q', first, last - 1)
    ensures SpanRecovers(q, first, last) <==> UnlockRecovers(q, last) && SpanRecovers(q', first, last - 1)
  {
    UnlockRecordIs(q, last);
    hide Laid, UnlockRecord, UnlockRecovers;
    WithoutSplits(q.held, first, last);
    q' := UnlockRecord(q, last).0;
  }

  lemma WithoutSplits(held: seq<Region>, first: nat, k: nat)
    requires first <= k < |held|
    ensures Without(held, k)[..first] == held[..first] && Without(held, k)[k..] == held[k + 1..]
  {
  }

  lemma {:induction false} UnlockRangeKeepsSafe(q: Queue, first: nat, last: int)
    requires Safe(q) && first as int - 1 <= last < |q.held| && SpanRecovers(q, first, last)
    ensures Safe(UnlockRange(q, first, last).0)
    decreases last - first + 1
  {
    hide Safe, Laid, SpanRecovers;
    if last >= first {
      var q' := UnlockLastSafe(q, first, last);
      hide UnlockRange;
      UnlockRangeKeepsSafe(q', first, last - 1);
    }
  }

  lemma UnlockLastSafe(q: Queue, first: nat, last: int) returns (q': Queue)
    requires Safe(q) && first <= last < |q.held| && SpanRecovers(q, first, last)
    ensures q.held[last] in q.held && q' == UnlockRecord(q, last).0 && UnlockRecovers(q, last)
    ensures Safe(q') && |q'.held| == |q.held| - 1 && SpanRecovers(q', first, last - 1)
    ensures UnlockRange(q, first, last) == UnlockRange(q', first, last - 1)
  {
    SafeLaid(q);
    hide Safe, Laid, UnlockRange, UnlockRecord, UnlockRecovers, SpanRecovers;
    q' := UnlockLast(q, first, last);
    UnlockSafeIff(q, last);
  }

  function Next(s: System, e: Event): System
    requires Safe(s.q) && |s.memory| == s.q.size && Allowed(s, e)
  {
    match e
    case HardwareWrite(data) =>
      System(s.q.(writeNow := Advance(s.q, s.q.writeNow, |data|)), Written(s.q, s.memory, data))
    case HardwareDeliver => s.(q := s.q.(writeStart := s.q.writeNow))
    case HardwareStop => s.(q := s.q.(writeNow := s.q.writeStart))
    case LockRecord(r) => s.(q := LockData(s.q, Lock, r).0)
    case SkipRecord(r) => s.(q := LockData(s.q, Skip, r).0)
    case Unlock(k) =>
      assert s.q.held[k] in s.q.held;
      s.(q := UnlockRecord(s.q, k).0)
    case UnlockSpan(first, last) => s.(q := UnlockRange(s.q, first, last).0)
    case ReadPointerFault => s.(q := ReadPointerError(s.q))
    case ReadOn(a) => s.(q := s.q.(read := a))
    case ResetQueue => s.(q := Reset(s.q))
  }

  // ----- every step

  lemma AdvanceMoves(q: Queue, count: nat)
    requires Geometry(q) && WindowOpen(q) && count < Room(q)
    requires q.held != [] ==> Inside(q.base, q.size, q.lockAddr)
    ensures var q' := q.(writeNow := Advance(q, q.writeNow, count));
      Geometry(q') && WindowOpen(q') && Room(q') == Room(q) - count
  {
    var q' := q.(writeNow := Advance(q, q.writeNow, count));
    assert Dist(q.size, q.process, q'.writeNow) == Dist(q.size, q.process, q.writeNow) + count;
  }

  predicate Sound(s: System) {
    Safe(s.q) && |s.memory| == s.q.size
  }

  lemma WriteKeepsSafe(q: Queue, count: nat)
    requires Safe(q) && count < Room(q)
    ensures Safe(q.(writeNow := Advance(q, q.writeNow, count)))
  {
    if q.held != [] { RoomEndsBeforeLock(q); }
    AdvanceMoves(q, count);
  }

  lemma DeliverKeepsSafe(q: Queue)
    requires Safe(q)
    ensures Safe(q.(writeStart := q.writeNow))
  {
    assert Room(q.(writeStart := q.writeNow)) == Room(q);
  }

  lemma ResetIsSafe(q: Queue)
    requires q.base % 4096 == 0 && q.size % 4096 == 0 && q.size > 0
    ensures Safe(Reset(q)) && Reset(q).held == []
  {
    assert q.base % 256 == 0;
  }

  lemma StepKeepsSafe(s: System, e: Event)
    requires Sound(s) && Allowed(s, e)
    ensures Sound(Next(s, e))
    ensures Next(s, e).q.base == s.q.base && Next(s, e).q.size == s.q.size
  {
    hide UnlockRange, UnlockRecord, ReadPointerError, SpanRecovers, UnlockRecovers, Recoverable, Laid;
    match e
    case HardwareWrite(data) => WriteKeepsSafe(s.q, |data|);
    case HardwareDeliver => DeliverKeepsSafe(s.q);
    case HardwareStop => StopKeepsSafe(s.q);
    case LockRecord(r) => LockKeepsSafe(s.q, r);
    case SkipRecord(r) => SkipSafeIff(s.q, r);
    case Unlock(k) =>
      UnlockSafeIff(s.q, k);
      UnlockRecordIs(s.q, k);
    case UnlockSpan(first, last) =>
      UnlockRangeKeepsSafe(s.q, first, last);
      UnlockRangeRemovesRange(s.q, first, last);
    case ReadPointerFault => FaultSafeIff(s.q);
    case ReadOn(a) => ReadOnKeepsSafe(s.q, a);
    case ResetQueue => ResetIsSafe(s.q);
  }

  lemma ReadOnKeepsSafe(q: Queue, a: nat)
    requires Safe(q)
    ensures Safe(q.(read := a))
  {
    assert Room(q.(read := a)) == Room(q);
  }

  /** A read pointer error is survived exactly when the queue can be recovered. */
  lemma FaultSafeIff(q: Queue)
    requires Safe(q)
    ensures var q' := ReadPointerError(q);
      (Safe(q') <==> Recoverable(q)) && q'.held == q.held && SameRing(q, q')
  {
    hide Safe, Recoverable, ProcessReadPointer, SameRing;
    var m := q.(stalled := true);
    StalledAlike(q);
    RecoverySafeIff(m);
    RecoveryKeepsLocks(m);
    RingStays(q, m, ProcessReadPointer(m));
  }

  lemma StalledAlike(q: Queue)
    requires Safe(q)
    ensures var m := q.(stalled := true);
      Safe(m) && SameRing(q, m) && (Recoverable(m) <==> Recoverable(q))
  {
    hide LargestGap, Touching, Beyond, Laid;
    var m := q.(stalled := true);
    assert Room(m) == Room(q);
    assert forall g :: Restart(m, g) == Restart(q, g);
  }

  /** Dropping a packet in progress only gives room back that the frontier does not need. */
  lemma StopKeepsSafe(q: Queue)
    requires Safe(q)
    ensures Safe(q.(writeNow := q.writeStart))
  {
    if q.held != [] { RoomEndsBeforeLock(q); }
  }

  // ----- whole runs

  predicate AllowedRun(s: System, es: seq<Event>)
    requires Sound(s)
    decreases |es|
  {
    es == [] || (Allowed(s, es[0]) && (StepKeepsSafe(s, es[0]); AllowedRun(Next(s, es[0]), es[1..])))
  }

  function Run(s: System, es: seq<Event>): System
    requires Sound(s) && AllowedRun(s, es)
    decreases |es|
  {
    if es == [] then s
    else
      StepKeepsSafe(s, es[0]);
      Run(Next(s, es[0]), es[1..])
  }

  /** The event by which the application, or a queue reset, gives region r back. */
  predicate Releases(s: System, e: Event, r: Region) {
    match e
    case Unlock(k) => k < |s.q.held| && s.q.held[k] == r
    case UnlockSpan(first, last) => first <= last < |s.q.held| && r in s.q.held[first..last + 1]
    case ResetQueue => true
    case _ => false
  }

  predicate NeverReleased(s: System, es: seq<Event>, r: Region)
    requires Sound(s) && AllowedRun(s, es)
    decreases |es|
  {
    es == [] || (!Releases(s, es[0], r) && (StepKeepsSafe(s, es[0]); NeverReleased(Next(s, es[0]), es[1..], r)))
  }

  /** In every reachable state the driver knows the first locked byte and stops the hardware before it. */
  lemma {:induction false} RunKeepsSafe(s: System, es: seq<Event>)
    requires Sound(s) && AllowedRun(s, es)
    ensures var s' := Run(s, es);
      && Sound(s') && s'.q.base == s.q.base && s'.q.size == s.q.size
      && (forall r, a | r in s'.q.held && Inside(s'.q.base, s'.q.size, a) && Covers(s'.q.size, r, a) ::
            Dist(s'.q.size, s'.q.writeNow, a) >= Room(s'.q))
    decreases |es|
  {
    if es == [] {
      forall r, a | r in s.q.held && Inside(s.q.base, s.q.size, a) && Covers(s.q.size, r, a)
        ensures Dist(s.q.size, s.q.writeNow, a) >= Room(s.q)
      {
        HeldBytesBeyondRoom(s.q, r, a);
      }
    } else {
      StepKeepsSafe(s, es[0]);
      RunKeepsSafe(Next(s, es[0]), es[1..]);
    }
  }

  lemma HeldBytesBeyondRoom(q: Queue, r: Region, a: int)
    requires Safe(q) && r in q.held && Inside(q.base, q.size, a) && Covers(q.size, r, a)
    ensures Dist(q.size, q.writeNow, a) >= Room(q)
  {
    RoomEndsBeforeLock(q);
    if Dist(q.size, q.process, a) < Dist(q.size, q.process, q.lockAddr) {
      BeyondMissesWindow(q.base, q.size, q.process, q.lockAddr, r, a);
    }
  }

  lemma LockKeepsMember(q: Queue, added: Region, r: Region)
    requires r in q.held
    ensures r in LockData(q, Lock, added).0.held
  {
    InsertMembers(q.held, InsertAt(q.held, added.start), added);
  }

  lemma UnlockKeepsMember(q: Queue, k: nat, r: Region)
    requires Laid(q.base, q.size, q.held) && k < |q.held| && r in q.held && q.held[k] != r
    ensures q.held[k] in q.held && r in UnlockRecord(q, k).0.held
  {
    UnlockRecordIs(q, k);
    WithoutMembers(q.base, q.size, q.held, k);
  }

  lemma UnlockSpanKeepsMember(q: Queue, first: nat, last: nat, r: Region)
    requires Laid(q.base, q.size, q.held) && first <= last < |q.held| && r in q.held && r !in q.held[first..last + 1]
    ensures r in UnlockRange(q, first, last).0.held
  {
    hide UnlockRange, Laid;
    UnlockRangeRemovesRange(q, first, last);
    assert q.held == q.held[..first] + q.held[first..last + 1] + q.held[last + 1..];
  }

  lemma StepKeepsHeld(s: System, e: Event, r: Region)
    requires Sound(s) && Allowed(s, e) && r in s.q.held && !Releases(s, e, r)
    ensures r in Next(s, e).q.held
  {
    hide UnlockRange, UnlockRecord, ReadPointerError, Delivered, Lockable, Skippable, Recoverable, SpanRecovers, UnlockRecovers, Laid;
    match e
    case LockRecord(added) => LockKeepsMember(s.q, added, r);
    case Unlock(k) => UnlockKeepsMember(s.q, k, r);
    case UnlockSpan(first, last) => UnlockSpanKeepsMember(s.q, first, last, r);
    case ReadPointerFault => FaultSafeIff(s.q);
    case _ =>
  }

  lemma StepKeepsByte(s: System, e: Event, r: Region, a: int)
    requires Sound(s) && Allowed(s, e) && r in s.q.held
    requires Inside(s.q.base, s.q.size, a) && Covers(s.q.size, r, a)
    ensures |Next(s, e).memory| == s.q.size && Next(s, e).memory[a - s.q.base] == s.memory[a - s.q.base]
  {
    HeldBytesBeyondRoom(s.q, r, a);
  }

  /** A delivered byte that was not looked at yet keeps its value, too. */
  lemma StepKeepsUnread(s: System, e: Event, a: int)
    requires Sound(s) && Allowed(s, e) && Inside(s.q.base, s.q.size, a)
    requires Dist(s.q.size, s.q.process, a) < Dist(s.q.size, s.q.process, s.q.writeStart)
    ensures |Next(s, e).memory| == s.q.size && Next(s, e).memory[a - s.q.base] == s.memory[a - s.q.base]
  {
    hide UnlockRange, UnlockRecord, ReadPointerError, Delivered, Lockable, Skippable, Recoverable, SpanRecovers, UnlockRecovers, Laid;
    if e.HardwareWrite? {
      UnreadBeyondRoom(s.q, a);
    }
  }

  lemma UnreadBeyondRoom(q: Queue, a: int)
    requires Safe(q) && Inside(q.base, q.size, a)
    requires Dist(q.size, q.process, a) < Dist(q.size, q.process, q.writeStart)
    ensures Dist(q.size, q.writeNow, a) >= Room(q)
  {
    if q.held != [] { RoomEndsBeforeLock(q); }
  }

  /** From its lock until the application releases it, no byte of a delivered region changes. */
  lemma {:induction false} LockedBytesSurvive(s: System, es: seq<Event>, r: Region, a: int)
    requires Sound(s) && AllowedRun(s, es) && r in s.q.held && NeverReleased(s, es, r)
    requires Inside(s.q.base, s.q.size, a) && Covers(s.q.size, r, a)
    ensures r in Run(s, es).q.held
    ensures |Run(s, es).memory| == s.q.size && Run(s, es).memory[a - s.q.base] == s.memory[a - s.q.base]
    decreases |es|
  {
    hide Allowed, Next, Releases, Safe;
    if es != [] {
      StepKeepsSafe(s, es[0]);
      StepKeepsHeld(s, es[0], r);
      StepKeepsByte(s, es[0], r, a);
      LockedBytesSurvive(Next(s, es[0]), es[1..], r, a);
    }
  }
}
