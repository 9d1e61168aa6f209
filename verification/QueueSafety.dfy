/**
 * What every operation on a DRAM queue keeps, and safety over whole runs of the hardware,
 * the demux thread and the application.
 */
module QueueSafety {
  import opened Ring
  import opened QueueModel

  // ----- the lock list

  predicate Geometry(q: Queue) {
    && Inside(q.base, q.size, q.process)
    && Inside(q.base, q.size, q.writeStart)
    && Inside(q.base, q.size, q.writeNow)
    && Inside(q.base, q.size, Limit(q))
  }

  /** Queues come in blocks of 4096 bytes, and the read pointer on 256-byte boundaries. */
  predicate Aligned(q: Queue) {
    q.base % 4096 == 0 && q.size % 4096 == 0 && Limit(q) % 256 == 0
  }

  /** Sorted by start, pairwise disjoint, and only the last region may cross the wrap. */
  predicate Laid(base: nat, n: nat, held: seq<Region>) {
    && (forall r | r in held :: RegionInside(base, n, r))
    && (forall i, j | 0 <= i < j < |held| :: held[i].start < held[i].end <= held[j].start)
    && (forall i | 0 <= i < |held| - 1 :: held[|held| - 1].end < held[|held| - 1].start ==> held[|held| - 1].end <= held[i].start)
  }

  predicate IsStart(held: seq<Region>, a: nat) {
    exists r :: r in held && r.start == a
  }

  /** The lock pointer is the first locked byte met going forward from the frontier. */
  predicate LockFirst(q: Queue) {
    q.held != [] ==>
      && IsStart(q.held, q.lockAddr)
      && (forall r | r in q.held :: Beyond(q.size, q.process, q.lockAddr, r))
  }

  // ----- the hardware window

  /** The read pointer as a ring position: the driver writes the end of the queue for its base. */
  function Limit(q: Queue): nat {
    if q.readPtr == q.End() then q.base else q.readPtr
  }

  /** Bytes the hardware may pass before its write pointer meets the read pointer. */
  function Room(q: Queue): int {
    if q.writeNow == Limit(q) then q.size else Dist(q.size, q.writeNow, Limit(q))
  }

  predicate WindowOpen(q: Queue) {
    && Dist(q.size, q.process, q.writeStart) <= Dist(q.size, q.process, q.writeNow)
    && Dist(q.size, q.process, q.writeNow) + Room(q)
       <= if q.held == [] then q.size else Dist(q.size, q.process, q.lockAddr)
  }

  predicate Safe(q: Queue) {
    Geometry(q) && Aligned(q) && Laid(q.base, q.size, q.held) && LockFirst(q) && WindowOpen(q)
  }

  // ----- lock

  /** The region was delivered between the frontier and the start of the next delivery. */
  predicate Delivered(q: Queue, r: Region) {
    && RegionInside(q.base, q.size, r)
    && Dist(q.size, q.process, r.start) + Len(q.size, r) <= Dist(q.size, q.process, q.writeStart)
  }

  /** A region in the window is disjoint from a held one, so the two are ordered by their starts. */
  lemma WindowAgainstHeld(base: nat, n: nat, p: int, limit: int, r: Region, s: Region)
    requires Inside(base, n, p) && Inside(base, n, limit) && RegionInside(base, n, r) && RegionInside(base, n, s)
    requires Dist(n, p, r.start) + Len(n, r) <= Dist(n, p, limit)
    requires Beyond(n, p, limit, s)
    ensures s.start <= r.start ==> s.start < s.end <= r.start
    ensures r.start < s.start ==> r.start < r.end <= s.start
    ensures r.end < r.start ==> r.end <= s.start
    ensures s.end < s.start ==> s.end <= r.start
  {
  }

  /** Where an element of the list with r inserted at i came from. */
  lemma InsertedAt(held: seq<Region>, r: Region, i: nat, j: nat)
    requires i <= |held| && j <= |held|
    ensures var l := held[..i] + [r] + held[i..];
      l[j] == if j < i then held[j] else if j == i then r else held[j - 1]
  {
  }

  lemma InsertLaid(base: nat, n: nat, held: seq<Region>, r: Region, i: nat)
    requires Laid(base, n, held) && RegionInside(base, n, r) && i <= |held|
    requires forall j | 0 <= j < i :: held[j].start < held[j].end <= r.start
    requires forall j | i <= j < |held| :: r.start < r.end <= held[j].start
    requires forall j | 0 <= j < |held| :: r.end < r.start ==> r.end <= held[j].start
    requires forall j | 0 <= j < |held| :: held[j].end < held[j].start ==> held[j].end <= r.start
    ensures Laid(base, n, held[..i] + [r] + held[i..])
  {
    var l := held[..i] + [r] + held[i..];
    InsertMembers(held, i, r);
    forall j, k | 0 <= j < k < |l| ensures l[j].start < l[j].end <= l[k].start {
      InsertedAt(held, r, i, j);
      InsertedAt(held, r, i, k);
    }
    forall j | 0 <= j < |l| - 1
      ensures l[|l| - 1].end < l[|l| - 1].start ==> l[|l| - 1].end <= l[j].start
    {
      InsertedAt(held, r, i, j);
      InsertedAt(held, r, i, |held|);
    }
  }

  lemma InsertKeepsLaid(base: nat, n: nat, p: int, limit: int, held: seq<Region>, r: Region)
    requires Laid(base, n, held) && Inside(base, n, p) && Inside(base, n, limit) && RegionInside(base, n, r)
    requires forall s | s in held :: Beyond(n, p, limit, s)
    requires Dist(n, p, r.start) + Len(n, r) <= Dist(n, p, limit)
    ensures var i := InsertAt(held, r.start); Laid(base, n, held[..i] + [r] + held[i..])
  {
    var i := InsertAt(held, r.start);
    forall s | s in held
      ensures s.start <= r.start ==> s.start < s.end <= r.start
      ensures r.start < s.start ==> r.start < r.end <= s.start
      ensures r.end < r.start ==> r.end <= s.start
      ensures s.end < s.start ==> s.end <= r.start
    {
      WindowAgainstHeld(base, n, p, limit, r, s);
    }
    forall j | 0 <= j < |held|
      ensures j < i ==> held[j].start < held[j].end <= r.start
      ensures i <= j ==> r.start < r.end <= held[j].start
      ensures r.end < r.start ==> r.end <= held[j].start
      ensures held[j].end < held[j].start ==> held[j].end <= r.start
    {
      assert held[j] in held;
      if i < j { assert held[i].start < held[j].start; }
    }
    InsertLaid(base, n, held, r, i);
  }

  /** Moving the frontier forward inside the window leaves every lock beyond the limit. */
  lemma FrontierAdvances(base: nat, n: nat, p: int, p': int, limit: int, s: Region)
    requires Inside(base, n, p) && Inside(base, n, p') && Inside(base, n, limit) && RegionInside(base, n, s)
    requires Beyond(n, p, limit, s) && Dist(n, p, p') <= Dist(n, p, limit)
    ensures Beyond(n, p', limit, s)
    ensures Dist(n, p', limit) == Dist(n, p, limit) - Dist(n, p, p')
  {
  }

  /** A region ending at the frontier is the farthest one ahead of it. */
  lemma NewRegionIsLast(base: nat, n: nat, p: int, limit: int, r: Region)
    requires Inside(base, n, p) && Inside(base, n, limit) && RegionInside(base, n, r)
    requires Dist(n, p, r.start) + Len(n, r) <= Dist(n, p, limit)
    ensures Beyond(n, r.end, limit, r)
    ensures Dist(n, p, r.end) == Dist(n, p, r.start) + Len(n, r)
  {
  }

  lemma LockFirstLock(q: Queue, r: Region)
    requires Inside(q.base, q.size, q.process) && LockFirst(q) && RegionInside(q.base, q.size, r)
    requires forall s | s in q.held :: RegionInside(q.base, q.size, s)
    requires q.held != [] ==>
      Dist(q.size, q.process, r.start) + Len(q.size, r) <= Dist(q.size, q.process, q.lockAddr)
    ensures LockFirst(LockData(q, Lock, r).0)
  {
    var q' := LockData(q, Lock, r).0;
    if q.held == [] {
      assert q'.held == [r];
      assert r in q'.held;
    } else {
      var f :| f in q.held && f.start == q.lockAddr;
      NewRegionIsLast(q.base, q.size, q.process, q.lockAddr, r);
      forall s | s in q.held ensures Beyond(q.size, r.end, q.lockAddr, s) {
        FrontierAdvances(q.base, q.size, q.process, r.end, q.lockAddr, s);
      }
      var i := InsertAt(q.held, r.start);
      InsertMembers(q.held, i, r);
      assert f in q'.held;
    }
  }

  lemma LockWindow(q: Queue, r: Region)
    requires Geometry(q) && WindowOpen(q) && Delivered(q, r)
    requires q.held != [] ==> Inside(q.base, q.size, q.lockAddr)
    ensures WindowOpen(LockData(q, Lock, r).0)
  {
    hide Beyond, InsertAt;
    var q' := LockData(q, Lock, r).0;
    assert Room(q') == Room(q);
    NewRegionIsLast(q.base, q.size, q.process, q.writeStart, r);
    WindowShrinks(q.base, q.size, q.process, r, q.writeStart, q.writeNow);
    assert q'.held != [];
  }

  /** Consuming delivered data gives the window nothing: it shrinks with the frontier. */
  lemma WindowShrinks(base: nat, n: nat, p: int, r: Region, start: int, now: int)
    requires Inside(base, n, p) && RegionInside(base, n, r) && Inside(base, n, start) && Inside(base, n, now)
    requires Dist(n, p, r.start) + Len(n, r) <= Dist(n, p, start) <= Dist(n, p, now)
    ensures Dist(n, r.end, start) <= Dist(n, r.end, now)
    ensures Dist(n, r.end, now) == Dist(n, p, now) - Dist(n, p, r.end)
  {
  }

  lemma LockLaid(q: Queue, r: Region)
    requires Geometry(q) && Laid(q.base, q.size, q.held) && LockFirst(q) && RegionInside(q.base, q.size, r)
    requires q.held != [] ==> Inside(q.base, q.size, q.lockAddr)
    requires q.held != [] ==>
      Dist(q.size, q.process, r.start) + Len(q.size, r) <= Dist(q.size, q.process, q.lockAddr)
    ensures var q' := LockData(q, Lock, r).0; Laid(q.base, q.size, q'.held)
  {
    if q.held == [] {
      assert LockData(q, Lock, r).0.held == [r];
    } else {
      InsertKeepsLaid(q.base, q.size, q.process, q.lockAddr, q.held, r);
    }
  }

  /** With a region held, the hardware stops strictly before the lock pointer. */
  lemma RoomEndsBeforeLock(q: Queue)
    requires Geometry(q) && LockFirst(q) && WindowOpen(q) && q.held != []
    requires forall r | r in q.held :: RegionInside(q.base, q.size, r)
    ensures Inside(q.base, q.size, q.lockAddr)
    ensures q.writeNow != Limit(q)
    ensures Dist(q.size, q.process, q.writeNow) < Dist(q.size, q.process, q.lockAddr)
  {
    var f :| f in q.held && f.start == q.lockAddr;
  }

  lemma LockDelivered(q: Queue, r: Region)
    requires Safe(q) && Delivered(q, r)
    ensures Safe(LockData(q, Lock, r).0)
  {
    if q.held != [] {
      RoomEndsBeforeLock(q);
    }
    LockFirstLock(q, r);
    LockWindow(q, r);
    LockLaid(q, r);
    assert Aligned(LockData(q, Lock, r).0);
  }

  /** Where the lock list begins when one goes forward from the frontier: the first lock, or the read pointer. */
  function Anchor(q: Queue): nat {
    if q.held == [] then Limit(q) else q.lockAddr
  }

  /**
   * The region lies behind every lock and before the start of the next delivery: it was
   * delivered, or it is in the free stretch directly behind the frontier.
   */
  predicate Lockable(q: Queue, r: Region) {
    && RegionInside(q.base, q.size, r)
    && Dist(q.size, Anchor(q), r.start) + Len(q.size, r) <= Dist(q.size, Anchor(q), q.writeStart)
    && forall s | s in q.held :: Dist(q.size, Anchor(q), s.start) + Len(q.size, s) <= Dist(q.size, Anchor(q), r.start)
  }

  lemma DeliveredIsLockable(q: Queue, r: Region)
    requires Safe(q) && Delivered(q, r)
    ensures Lockable(q, r)
  {
    if q.held != [] {
      RoomEndsBeforeLock(q);
      forall s | s in q.held
        ensures Dist(q.size, q.lockAddr, s.start) + Len(q.size, s) <= Dist(q.size, q.lockAddr, r.start)
      {
        FromTheLock(q.base, q.size, q.process, q.lockAddr, q.writeStart, r, s);
      }
    }
  }

  lemma FromTheLock(base: nat, n: nat, p: int, lock: int, start: int, r: Region, s: Region)
    requires Inside(base, n, p) && Inside(base, n, lock) && Inside(base, n, start)
    requires RegionInside(base, n, r) && RegionInside(base, n, s)
    requires Dist(n, p, r.start) + Len(n, r) <= Dist(n, p, start) < Dist(n, p, lock) && Beyond(n, p, lock, s)
    ensures Dist(n, lock, s.start) + Len(n, s) <= Dist(n, lock, r.start)
  {
  }

  /** Seen from the start of a lockable region, the queue is safe and the region was delivered. */
  lemma FrontierMayMove(q: Queue, r: Region)
    requires Safe(q) && Lockable(q, r)
    ensures var q' := q.(process := r.start); Safe(q') && Delivered(q', r)
  {
    var q' := q.(process := r.start);
    assert Room(q') == Room(q);
    if q.held != [] {
      RoomEndsBeforeLock(q);
      forall s | s in q.held ensures Beyond(q.size, r.start, q.lockAddr, s) {
        BehindTheLocks(q.base, q.size, q.lockAddr, r.start, s);
      }
    }
    WindowFrom(q.base, q.size, q.process, Anchor(q), q.writeStart, q.writeNow, Room(q), r);
  }

  lemma WindowFrom(base: nat, n: nat, p: int, anchor: int, start: int, now: int, room: int, r: Region)
    requires Inside(base, n, p) && Inside(base, n, anchor) && Inside(base, n, start) && Inside(base, n, now)
    requires RegionInside(base, n, r) && 0 < room
    requires Dist(n, p, start) <= Dist(n, p, now)
    requires (Dist(n, p, now) + room <= n && room == if now == anchor then n else Dist(n, now, anchor))
      || Dist(n, p, now) + room <= Dist(n, p, anchor)
    requires Dist(n, anchor, r.start) + Len(n, r) <= Dist(n, anchor, start)
    ensures Dist(n, r.start, start) <= Dist(n, r.start, now)
    ensures Len(n, r) <= Dist(n, r.start, start)
    ensures r.start != anchor && Dist(n, p, now) + room <= Dist(n, p, anchor) ==>
      Dist(n, r.start, now) + room <= Dist(n, r.start, anchor)
    ensures Dist(n, r.start, now) + room <= n
  {
  }

  lemma BehindTheLocks(base: nat, n: nat, lock: int, a: int, s: Region)
    requires Inside(base, n, lock) && Inside(base, n, a) && RegionInside(base, n, s)
    requires Dist(n, lock, s.start) + Len(n, s) <= Dist(n, lock, a)
    ensures Beyond(n, a, lock, s)
  {
  }

  lemma LockKeepsSafe(q: Queue, r: Region)
    requires Safe(q) && Lockable(q, r)
    ensures Safe(LockData(q, Lock, r).0)
  {
    FrontierMayMove(q, r);
    LockDelivered(q.(process := r.start), r);
    assert LockData(q.(process := r.start), Lock, r) == LockData(q, Lock, r);
  }

  /** While there is room in the list, a region may be locked exactly when it is lockable. */
  lemma LockSafeIff(q: Queue, r: Region)
    requires Safe(q) && RegionInside(q.base, q.size, r) && |q.held| < LOCK_CAPACITY
    ensures Safe(LockData(q, Lock, r).0) <==> Lockable(q, r)
  {
    if Lockable(q, r) {
      LockKeepsSafe(q, r);
    } else if Safe(LockData(q, Lock, r).0) {
      LockedWasLockable(q, r);
    }
  }

  lemma LockedWasLockable(q: Queue, r: Region)
    requires Safe(q) && RegionInside(q.base, q.size, r) && |q.held| < LOCK_CAPACITY
    requires Safe(LockData(q, Lock, r).0)
    ensures Lockable(q, r)
  {
    var q' := LockData(q, Lock, r).0;
    var i := InsertAt(q.held, r.start);
    InsertMembers(q.held, i, r);
    assert Room(q') == Room(q) && r in q'.held;
    if q.held == [] {
      WindowBehindNew(q.base, q.size, q.process, q.writeStart, q.writeNow, Limit(q), Room(q), r);
    } else {
      RoomEndsBeforeLock(q);
      LocksBefore(q, r, i);
      NewBehindLocks(q.base, q.size, q.lockAddr, q.writeStart, q.writeNow, r);
    }
  }

  lemma WindowBehindNew(base: nat, n: nat, p: int, start: int, now: int, limit: int, room: int, r: Region)
    requires Inside(base, n, p) && Inside(base, n, start) && Inside(base, n, now) && Inside(base, n, limit)
    requires RegionInside(base, n, r) && room == if now == limit then n else Dist(n, now, limit)
    requires Dist(n, r.end, start) <= Dist(n, r.end, now) && Dist(n, r.end, now) + room <= Dist(n, r.end, r.start)
    ensures Dist(n, limit, r.start) + Len(n, r) <= Dist(n, limit, start)
  {
  }

  lemma NewBehindLocks(base: nat, n: nat, lock: int, start: int, now: int, r: Region)
    requires Inside(base, n, lock) && Inside(base, n, start) && Inside(base, n, now) && RegionInside(base, n, r)
    requires Dist(n, r.end, start) <= Dist(n, r.end, now) < Dist(n, r.end, lock) && Beyond(n, r.end, lock, r)
    ensures Dist(n, lock, r.start) + Len(n, r) <= Dist(n, lock, start)
  {
  }

  lemma LocksBefore(q: Queue, r: Region, i: nat)
    requires i <= |q.held| && RegionInside(q.base, q.size, r) && Inside(q.base, q.size, q.lockAddr)
    requires var l := q.held[..i] + [r] + q.held[i..];
      && Laid(q.base, q.size, l) && (forall s | s in l :: Beyond(q.size, r.end, q.lockAddr, s))
      && forall s :: s in l <==> s in q.held || s == r
    ensures forall s | s in q.held ::
      Dist(q.size, q.lockAddr, s.start) + Len(q.size, s) <= Dist(q.size, q.lockAddr, r.start)
  {
    var l := q.held[..i] + [r] + q.held[i..];
    assert r in l && forall s | s in q.held :: s in l;
    hide Beyond, RegionInside, Dist, Len;
    forall s | s in q.held
      ensures Dist(q.size, q.lockAddr, s.start) + Len(q.size, s) <= Dist(q.size, q.lockAddr, r.start)
    {
      InsertedDisjoint(q.base, q.size, q.held, i, r, s);
      AheadOfNew(q.base, q.size, q.lockAddr, r, s);
    }
  }

  lemma InsertedDisjoint(base: nat, n: nat, held: seq<Region>, i: nat, r: Region, s: Region)
    requires i <= |held| && Laid(base, n, held[..i] + [r] + held[i..]) && s in held
    ensures (s.start < s.end <= r.start && (r.end < r.start ==> r.end <= s.start))
      || (r.start < r.end <= s.start && (s.end < s.start ==> s.end <= r.start))
  {
    var l := held[..i] + [r] + held[i..];
    var j :| 0 <= j < |held| && held[j] == s;
    InsertedAt(held, r, i, i);
    InsertedAt(held, r, i, if j < i then j else j + 1);
    var k := if j < i then j else j + 1;
    assert l[i] == r && l[k] == s;
    var m := if k < i then k else i;
    if l[|l| - 1].end < l[|l| - 1].start {
      assert l[|l| - 1].end <= l[m].start;
    }
    if i < |l| - 1 {
      assert l[i].start < l[i].end;
    }
    if k < |l| - 1 {
      assert l[k].start < l[k].end;
    }
  }

  lemma AheadOfNew(base: nat, n: nat, lock: int, r: Region, s: Region)
    requires Inside(base, n, lock) && RegionInside(base, n, r) && RegionInside(base, n, s)
    requires (s.start < s.end <= r.start && (r.end < r.start ==> r.end <= s.start))
      || (r.start < r.end <= s.start && (s.end < s.start ==> s.end <= r.start))
    requires Beyond(n, r.end, lock, s) && Beyond(n, r.end, lock, r)
    ensures Dist(n, lock, s.start) + Len(n, s) <= Dist(n, lock, r.start)
  {
  }

  lemma InsertMembers(held: seq<Region>, i: nat, r: Region)
    requires i <= |held|
    ensures forall s :: s in held[..i] + [r] + held[i..] <==> s in held || s == r
  {
    assert held == held[..i] + held[i..];
  }

  // ----- moving the read pointer

  /** The read pointer may follow any address that is not behind the old one, seen from the writer. */
  lemma ReadPointerFollows(q: Queue, a: nat)
    requires Geometry(q) && Aligned(q) && Inside(q.base, q.size, a)
    requires q.writeNow != Limit(q) && Room(q) <= Dist(q.size, q.writeNow, a)
    ensures var q' := UpdateReadPointer(q, a);
      Geometry(q') && Aligned(q') && q'.writeNow != Limit(q') && Room(q') <= Dist(q.size, q.writeNow, a)
  {
    RoundDownStaysAhead(q.base, q.size, q.writeNow, Limit(q), a);
  }

  lemma ReadPointerRounds(q: Queue, a: nat)
    requires Geometry(q) && Aligned(q) && Inside(q.base, q.size, a)
    ensures var q' := UpdateReadPointer(q, a);
      Geometry(q') && Aligned(q') && Limit(q') == RoundDown256(a) && q'.readPtr != q.base
  {
    RoundDownInside(q.base, q.size, a);
  }

  /** With nothing held, the read pointer may follow the frontier anywhere up to the write pointer. */
  lemma EmptyQueueFollows(q: Queue, a: nat)
    requires Geometry(q) && Aligned(q) && Inside(q.base, q.size, a)
    requires Dist(q.size, q.process, q.writeNow) + Room(q) <= q.size
    requires Dist(q.size, q.process, a) <= Dist(q.size, q.process, q.writeStart) <= Dist(q.size, q.process, q.writeNow)
    ensures var q' := UpdateReadPointer(q, a).(process := a);
      Geometry(q') && Aligned(q')
      && Dist(q.size, a, q.writeStart) <= Dist(q.size, a, q.writeNow)
      && Dist(q.size, a, q.writeNow) + Room(q') <= q.size
  {
    ReadPointerRounds(q, a);
    if a != q.writeNow {
      ReadPointerFollows(q, a);
    }
  }

  lemma SkipKeepsSafe(q: Queue, r: Region)
    requires Safe(q) && Delivered(q, r)
    ensures Safe(LockData(q, Skip, r).0)
  {
    NewRegionIsLast(q.base, q.size, q.process, q.writeStart, r);
    if q.held == [] {
      EmptyQueueFollows(q, r.end);
    } else {
      RoomEndsBeforeLock(q);
      forall s | s in q.held ensures Beyond(q.size, r.end, q.lockAddr, s) {
        FrontierAdvances(q.base, q.size, q.process, r.end, q.lockAddr, s);
      }
      SkipWindow(q, r);
    }
  }

  lemma SkipWindow(q: Queue, r: Region)
    requires Geometry(q) && WindowOpen(q) && Delivered(q, r) && q.held != []
    requires Inside(q.base, q.size, q.lockAddr)
    ensures WindowOpen(LockData(q, Skip, r).0)
  {
    NewRegionIsLast(q.base, q.size, q.process, q.writeStart, r);
    assert Room(LockData(q, Skip, r).0) == Room(q);
  }

  /** Where a skip may put the frontier. */
  predicate Skippable(q: Queue, a: nat) {
    && Inside(q.base, q.size, a)
    && if q.held == [] then
         !(0 < Dist(q.size, q.writeStart, a) <= Dist(q.size, q.writeStart, q.writeNow))
         && !(RoundDown256(a) <= q.writeNow < a)
       else
         Dist(q.size, q.lockAddr, a) <= Dist(q.size, q.lockAddr, q.writeStart)
         && forall s | s in q.held :: Dist(q.size, q.lockAddr, s.start) + Len(q.size, s) <= Dist(q.size, q.lockAddr, a)
  }

  /**
   * Skipping is safe exactly when, with locks held, the region ends behind all of them and before
   * the next delivery, and with none held, it does not end in the packet that is being written, nor
   * so close in front of it that the read pointer is rounded down behind it.
   */
  lemma SkipSafeIff(q: Queue, r: Region)
    requires Safe(q) && Inside(q.base, q.size, r.end)
    ensures Safe(LockData(q, Skip, r).0) <==> Skippable(q, r.end)
  {
    if q.held == [] {
      EmptySkipIff(q, r);
    } else {
      LockedSkipIff(q, r);
    }
  }

  lemma EmptySkipIff(q: Queue, r: Region)
    requires Safe(q) && Inside(q.base, q.size, r.end) && q.held == []
    ensures Safe(LockData(q, Skip, r).0) <==> Skippable(q, r.end)
  {
    ReadPointerRounds(q, r.end);
  }

  lemma LockedSkipIff(q: Queue, r: Region)
    requires Safe(q) && Inside(q.base, q.size, r.end) && q.held != []
    ensures Safe(LockData(q, Skip, r).0) <==> Skippable(q, r.end)
  {
    RoomEndsBeforeLock(q);
    var q', a := LockData(q, Skip, r).0, r.end;
    assert Room(q') == Room(q) && q' == q.(process := a);
    FrontierWindowIff(q.base, q.size, q.process, q.lockAddr, q.writeStart, q.writeNow, Room(q), a);
    var f :| f in q.held && f.start == q.lockAddr;
    if a != q.lockAddr {
      forall s | s in q.held
        ensures Beyond(q.size, a, q.lockAddr, s)
           <==> Dist(q.size, q.lockAddr, s.start) + Len(q.size, s) <= Dist(q.size, q.lockAddr, a)
      {
        BehindIffBeyond(q.base, q.size, q.lockAddr, a, s);
      }
    }
    SkipParts(q, a, f);
  }

  lemma BehindIffBeyond(base: nat, n: nat, lock: int, a: int, s: Region)
    requires Inside(base, n, lock) && Inside(base, n, a) && RegionInside(base, n, s) && a != lock
    ensures Beyond(n, a, lock, s) <==> Dist(n, lock, s.start) + Len(n, s) <= Dist(n, lock, a)
  {
  }

  lemma FrontierWindowIff(base: nat, n: nat, p: int, lock: int, start: int, now: int, room: int, a: int)
    requires Inside(base, n, p) && Inside(base, n, lock) && Inside(base, n, start) && Inside(base, n, now)
    requires Inside(base, n, a) && 0 < room
    requires Dist(n, p, start) <= Dist(n, p, now) && Dist(n, p, now) + room <= Dist(n, p, lock)
    ensures Dist(n, a, start) <= Dist(n, a, now) && Dist(n, a, now) + room <= Dist(n, a, lock)
       <==> a != lock && Dist(n, lock, a) <= Dist(n, lock, start)
  {
  }

  /** What safety and the condition for a skip come to, once their parts agree. */
  lemma SkipParts(q: Queue, a: nat, f: Region)
    requires Safe(q) && Inside(q.base, q.size, a) && q.held != [] && f in q.held && f.start == q.lockAddr
    requires Room(q.(process := a)) == Room(q)
    requires Dist(q.size, a, q.writeStart) <= Dist(q.size, a, q.writeNow)
          && Dist(q.size, a, q.writeNow) + Room(q) <= Dist(q.size, a, q.lockAddr)
        <==> a != q.lockAddr && Dist(q.size, q.lockAddr, a) <= Dist(q.size, q.lockAddr, q.writeStart)
    requires a != q.lockAddr ==> forall s | s in q.held ::
      Beyond(q.size, a, q.lockAddr, s) <==> Dist(q.size, q.lockAddr, s.start) + Len(q.size, s) <= Dist(q.size, q.lockAddr, a)
    ensures Safe(q.(process := a)) <==> Skippable(q, a)
  {
    hide Beyond, Laid;
    if a == q.lockAddr {
      assert RegionInside(q.base, q.size, f) by { InLaid(q, f); }
    }
  }

  lemma InLaid(q: Queue, f: Region)
    requires Laid(q.base, q.size, q.held) && f in q.held
    ensures RegionInside(q.base, q.size, f)
  {
  }

  lemma DeliveredIsSkippable(q: Queue, r: Region)
    requires Safe(q) && Delivered(q, r)
    ensures Skippable(q, r.end)
  {
    hide Safe, Skippable, LockData;
    SkipKeepsSafe(q, r);
    SkipSafeIff(q, r);
  }

  // ----- unlock

  /** A held region is found by its start and end, even though either address alone would match. */
  lemma FindHeld(base: nat, n: nat, held: seq<Region>, k: nat)
    requires Laid(base, n, held) && k < |held|
    ensures FindRecord(held, held[k]) == k
  {
    assert held[k] in held;
    forall j | 0 <= j < k ensures held[j].start != held[k].start && held[j].end != held[k].end {
      assert held[j].start < held[j].end <= held[k].start;
      if k < |held| - 1 {
        assert held[k].start < held[k].end <= held[k + 1].start;
      } else {
        assert held[k].end < held[k].start ==> held[k].end <= held[j].start;
      }
    }
  }

  /** Start and length name the same end address the region was locked with. */
  lemma EndFromLength(q: Queue, r: Region)
    requires RegionInside(q.base, q.size, r)
    ensures 0 < Len(q.size, r) < q.size
    ensures EndOf(q, r.start, Len(q.size, r)) == r.end
  {
  }

  function Without(held: seq<Region>, k: nat): seq<Region>
    requires k < |held|
  {
    held[..k] + held[k + 1..]
  }

  lemma WithoutAt(held: seq<Region>, k: nat, j: nat)
    requires k < |held| && j < |held| - 1
    ensures Without(held, k)[j] == held[if j < k then j else j + 1]
  {
  }

  lemma WithoutLaid(base: nat, n: nat, held: seq<Region>, k: nat)
    requires Laid(base, n, held) && k < |held|
    ensures Laid(base, n, Without(held, k))
  {
    var l := Without(held, k);
    forall r | r in l ensures RegionInside(base, n, r) {
      assert r in held;
    }
    forall i, j | 0 <= i < j < |l| ensures l[i].start < l[i].end <= l[j].start {
      WithoutAt(held, k, i);
      WithoutAt(held, k, j);
    }
    forall i | 0 <= i < |l| - 1 ensures l[|l| - 1].end < l[|l| - 1].start ==> l[|l| - 1].end <= l[i].start {
      WithoutAt(held, k, i);
      WithoutAt(held, k, |l| - 1);
      if k == |held| - 1 {
        assert held[|l| - 1].start < held[|l| - 1].end;
      }
    }
  }

  lemma WithoutMembers(base: nat, n: nat, held: seq<Region>, k: nat)
    requires Laid(base, n, held) && k < |held|
    ensures Laid(base, n, Without(held, k))
    ensures forall s :: s in Without(held, k) <==> s in held && s != held[k]
  {
    WithoutLaid(base, n, held, k);
    var l := Without(held, k);
    forall s | s in held && s != held[k] ensures s in l {
      var j :| 0 <= j < |held| && held[j] == s;
      WithoutAt(held, k, if j < k then j else j - 1);
    }
    forall s | s in l ensures s in held && s != held[k] {
      var j :| 0 <= j < |l| && l[j] == s;
      WithoutAt(held, k, j);
      if j < k {
        assert held[j].start < held[k].start;
      } else {
        assert held[k].start < held[j + 1].start;
      }
    }
  }

  lemma {:induction false} UnlockRemovesExactly(q: Queue, k: nat)
    requires Laid(q.base, q.size, q.held) && k < |q.held|
    ensures Len(q.size, q.held[k]) > 0
    ensures var (q', status) := UnlockLength(q, q.held[k].start, Len(q.size, q.held[k]));
      && status == Done
      && q'.held == Without(q.held, k)
      && (q.lockAddr != q.held[k].start && !q.stalled ==> q' == q.(held := Without(q.held, k)))
  {
    assert q.held[k] in q.held;
    FindHeld(q.base, q.size, q.held, k);
    EndFromLength(q, q.held[k]);
  }

  /** After the first lock is released, the next one in list order, wrapping round, is first. */
  lemma NextBecomesFirst(base: nat, n: nat, p: int, held: seq<Region>, k: nat, s: Region)
    requires Laid(base, n, held) && Inside(base, n, p) && k < |held| && |held| > 1
    requires forall r | r in held :: Beyond(n, p, held[k].start, r)
    requires s in held && s != held[k]
    ensures var next := if k + 1 < |held| then held[k + 1] else held[0];
      Beyond(n, p, next.start, s) && Dist(n, p, held[k].start) < Dist(n, p, next.start)
  {
    var next := if k + 1 < |held| then held[k + 1] else held[0];
    var j :| 0 <= j < |held| && held[j] == s;
    var nk := if k + 1 < |held| then k + 1 else 0;
    assert forall a, b | 0 <= a < b < |held| :: held[a].start < held[b].start;
    assert held[k] in held && next in held;
    FirstOrder(base, n, p, held[k].start, next.start, s.start, k, nk, j);
  }

  lemma FirstOrder(base: nat, n: nat, p: int, first: nat, next: nat, s: nat, k: nat, nk: nat, j: nat)
    requires Inside(base, n, p) && Inside(base, n, first) && Inside(base, n, next) && Inside(base, n, s)
    requires nk == k + 1 || (nk == 0 && j <= k && k > 0)
    requires j != k
    requires j < k ==> s < first
    requires k < j ==> first < s
    requires k < nk ==> first < next
    requires nk < k ==> next < first
    requires nk <= j ==> next <= s
    requires j < nk && j != k ==> s < next
    requires Dist(n, p, first) <= Dist(n, p, s) && Dist(n, p, first) <= Dist(n, p, next)
    ensures Dist(n, p, next) <= Dist(n, p, s)
    ensures Dist(n, p, first) < Dist(n, p, next)
  {
  }

  lemma UnlockLastKeepsSafe(q: Queue, r: Region)
    requires Geometry(q) && Aligned(q) && WindowOpen(q) && q.held != [] && q.writeNow != Limit(q)
    requires Inside(q.base, q.size, q.lockAddr)
    ensures Safe(UpdateReadPointer(q.(held := []), q.process))
  {
    if q.process != q.writeNow {
      ReadPointerFollows(q, q.process);
    } else {
      ReadPointerRounds(q, q.process);
    }
  }

  /** Handing the hardware the space up to a later lock. */
  lemma WindowGrows(q: Queue, next: nat)
    requires Geometry(q) && Aligned(q) && WindowOpen(q) && q.held != [] && q.writeNow != Limit(q)
    requires Inside(q.base, q.size, q.lockAddr) && Inside(q.base, q.size, next)
    requires Dist(q.size, q.process, q.lockAddr) < Dist(q.size, q.process, next)
    ensures var q' := UpdateReadPointer(q, next).(lockAddr := next);
      Geometry(q') && Aligned(q') && WindowOpen(q')
  {
    ReadPointerFollows(q, next);
  }

  lemma UnlockFirstKeepsSafe(q: Queue, k: nat)
    requires Safe(q) && k < |q.held| && q.held[k].start == q.lockAddr
    ensures Safe(UnlockData(q, q.held[k]).0) && SameRing(q, UnlockData(q, q.held[k]).0)
  {
    FindHeld(q.base, q.size, q.held, k);
    WithoutMembers(q.base, q.size, q.held, k);
    RoomEndsBeforeLock(q);
    if |q.held| == 1 {
      UnlockLastKeepsSafe(q, q.held[k]);
      assert Without(q.held, k) == [];
    } else {
      UnlockFirstOfMany(q, k);
    }
  }

  function NextOf(held: seq<Region>, k: nat): Region
    requires k < |held|
  {
    if k + 1 < |held| then held[k + 1] else held[0]
  }

  lemma NextFirstOfRest(base: nat, n: nat, p: int, held: seq<Region>, k: nat)
    requires Laid(base, n, held) && Inside(base, n, p) && k < |held| && |held| > 1
    requires forall r | r in held :: Beyond(n, p, held[k].start, r)
    ensures var l, next := Without(held, k), NextOf(held, k);
      && next in l
      && RegionInside(base, n, next)
      && Dist(n, p, held[k].start) < Dist(n, p, next.start)
      && (forall s | s in l :: Beyond(n, p, next.start, s))
  {
    var l, next := Without(held, k), NextOf(held, k);
    WithoutMembers(base, n, held, k);
    assert next in held && next != held[k] by {
      assert forall a, b | 0 <= a < b < |held| :: held[a].start < held[b].start;
    }
    forall s | s in l ensures Beyond(n, p, next.start, s) {
      NextBecomesFirst(base, n, p, held, k, s);
    }
    NextBecomesFirst(base, n, p, held, k, next);
  }

  /** The hardware window does not depend on which regions are held, only on whether any is. */
  lemma ReplaceHeld(q: Queue, l: seq<Region>)
    requires Geometry(q) && Aligned(q) && WindowOpen(q) && q.held != [] && l != []
    ensures var q' := q.(held := l); Geometry(q') && Aligned(q') && WindowOpen(q')
  {
    assert Room(q.(held := l)) == Room(q);
  }

  /** What one has to check after the first lock moved to `next` and `l` is left. */
  lemma SafeAfterMove(q: Queue, next: nat, l: seq<Region>)
    requires Geometry(q) && Aligned(q) && WindowOpen(q) && q.held != [] && q.lockAddr == next
    requires Laid(q.base, q.size, l) && IsStart(l, next)
    requires forall s | s in l :: Beyond(q.size, q.process, next, s)
    ensures Safe(q.(held := l))
  {
    ReplaceHeld(q, l);
  }

  lemma UnlockFirstOfMany(q: Queue, k: nat)
    requires Safe(q) && |q.held| > 1 && k < |q.held| && q.held[k].start == q.lockAddr
    requires FindRecord(q.held, q.held[k]) == k
    requires q.writeNow != Limit(q) && Inside(q.base, q.size, q.lockAddr)
    requires Laid(q.base, q.size, Without(q.held, k))
    requires forall s :: s in Without(q.held, k) <==> s in q.held && s != q.held[k]
    ensures Safe(UnlockData(q, q.held[k]).0)
  {
    var l, next := Without(q.held, k), NextOf(q.held, k);
    NextFirstOfRest(q.base, q.size, q.process, q.held, k);
    WindowGrows(q, next.start);
    var moved := UpdateReadPointer(q, next.start).(lockAddr := next.start);
    SafeAfterMove(moved, next.start, l);
    UnlockFirstMoves(q, k);
  }

  lemma UnlockFirstMoves(q: Queue, k: nat)
    requires |q.held| > 1 && k < |q.held| && q.held[k].start == q.lockAddr
    requires FindRecord(q.held, q.held[k]) == k
    ensures var next := NextOf(q.held, k).start;
      UnlockData(q, q.held[k]) == (UpdateReadPointer(q, next).(lockAddr := next, held := Without(q.held, k)), Done)
  {
    var l := Without(q.held, k);
    assert l[if k < |l| then k else 0] == NextOf(q.held, k);
  }

  lemma ReleaseOtherKeepsSafe(q: Queue, k: nat)
    requires Safe(q) && k < |q.held| && q.held[k].start != q.lockAddr
    ensures Safe(q.(held := Without(q.held, k)))
  {
    WithoutMembers(q.base, q.size, q.held, k);
    var f :| f in q.held && f.start == q.lockAddr;
    assert f in Without(q.held, k);
    assert Room(q.(held := Without(q.held, k))) == Room(q);
  }

  // ----- read pointer recovery

  /** The gap after lock k; after the last lock it runs across the wrap to the first one. */
  function GapAfter(held: seq<Region>, n: nat, k: nat): Gap
    requires k < |held|
  {
    if k + 1 < |held| then InnerGap(held, k) else WrapGap(held, n)
  }

  /** The driver's scan finds one of the gaps, and none has a larger size. */
  lemma {:induction false} LargestGapIsLargest(held: seq<Region>, n: nat, k: nat)
    requires k < |held|
    ensures exists j :: (0 <= j < k || j == |held| - 1) && LargestGap(held, n, k) == GapAfter(held, n, j)
    ensures forall j :: 0 <= j < k || j == |held| - 1 ==> GapAfter(held, n, j).size <= LargestGap(held, n, k).size
  {
    assert GapAfter(held, n, |held| - 1) == WrapGap(held, n);
    if k > 0 {
      LargestGapIsLargest(held, n, k - 1);
      assert GapAfter(held, n, k - 1) == InnerGap(held, k - 1);
    }
  }

  /** The gaps in the order of the scan: the one behind the last lock, and then those behind the first, second and so on. */
  function Scanned(held: seq<Region>, n: nat, j: nat): Gap
    requires j < |held|
  {
    GapAfter(held, n, if j == 0 then |held| - 1 else j - 1)
  }

  /** Of gaps of the same size the one met first is taken. */
  lemma {:induction false} FirstOfLargest(held: seq<Region>, n: nat, k: nat) returns (j: nat)
    requires k < |held|
    ensures j <= k && LargestGap(held, n, k) == Scanned(held, n, j)
    ensures forall i | 0 <= i < j :: Scanned(held, n, i).size < Scanned(held, n, j).size
    ensures forall i | j <= i <= k :: Scanned(held, n, i).size <= Scanned(held, n, j).size
  {
    if k == 0 {
      j := 0;
    } else {
      j := FirstOfLargest(held, n, k - 1);
      if Scanned(held, n, k).size > Scanned(held, n, j).size {
        j := k;
      }
    }
  }

  /**
   * The computed size is the true size of the gap, except when the last lock ends where the
   * first one starts: that empty gap is taken for the whole ring.
   */
  lemma GapSizeExact(base: nat, n: nat, held: seq<Region>, k: nat)
    requires Laid(base, n, held) && k < |held|
    ensures var g := GapAfter(held, n, k);
      g.size == Dist(n, g.start, g.end) <==> !(k == |held| - 1 && held[k].end == held[0].start)
    ensures var g := GapAfter(held, n, k);
      k == |held| - 1 && held[k].end == held[0].start ==> g.size == n && Dist(n, g.start, g.end) == 0
  {
    assert held[k] in held && held[0] in held;
    if k + 1 < |held| {
      assert held[k].start < held[k].end <= held[k + 1].start;
    }
  }

  lemma InnerGapIsFree(base: nat, n: nat, a: Region, c: Region, s: Region)
    requires RegionInside(base, n, a) && RegionInside(base, n, c) && RegionInside(base, n, s)
    requires a.start < a.end <= c.start
    requires c.start <= s.start || (s.start <= a.start && s.start < s.end <= a.end)
    requires s.end < s.start ==> s.end <= a.start
    ensures Beyond(n, a.end, c.start, s)
  {
  }

  lemma WrapGapIsFree(base: nat, n: nat, first: Region, last: Region, s: Region)
    requires RegionInside(base, n, first) && RegionInside(base, n, last) && RegionInside(base, n, s)
    requires first.start <= s.start <= last.start && last.end != first.start
    requires s == last || (s.start < s.end <= last.start)
    requires last.end < last.start ==> last.end <= first.start
    ensures Beyond(n, last.end, first.start, s)
  {
  }

  /** Going forward from the end of lock k, the next lock met is the one that closes its gap. */
  lemma GapIsFree(base: nat, n: nat, held: seq<Region>, k: nat, s: Region)
    requires Laid(base, n, held) && k < |held| && s in held
    requires held[|held| - 1].end != held[0].start
    ensures var g := GapAfter(held, n, k); Beyond(n, g.start, g.end, s)
  {
    var j :| 0 <= j < |held| && held[j] == s;
    assert held[k] in held && held[0] in held && held[|held| - 1] in held;
    assert forall a, b | 0 <= a < b < |held| :: held[a].start < held[a].end <= held[b].start;
    if k + 1 < |held| {
      assert held[k + 1] in held;
      InnerGapIsFree(base, n, held[k], held[k + 1], s);
    } else {
      WrapGapIsFree(base, n, held[0], held[k], s);
    }
  }

  /** Where the driver restarts the write pointer in a gap. */
  function Restart(q: Queue, g: Gap): nat {
    if RoundUp4(g.start) == q.End() then q.base else RoundUp4(g.start)
  }

  lemma RestartAligned(q: Queue, g: Gap)
    requires q.base % 4096 == 0 && q.size % 4096 == 0
    requires Inside(q.base, q.size, g.start)
    ensures var i := Restart(q, g);
      Inside(q.base, q.size, i) && i % 4 == 0 && Dist(q.size, g.start, i) < 4
  {
    RoundUpInside(q.base, q.size, g.start);
    BlockMultiples(q.base);
  }

  /** Rounding up lands on a 256-byte boundary with fewer than 256 bytes of the gap left. */
  predicate Meets(q: Queue, g: Gap) {
    Restart(q, g) % 256 == 0 && Dist(q.size, Restart(q, g), g.end) < 256
  }

  /**
   * In a gap of at least 256 bytes, whatever the alignment of its ends, the new pointers delimit
   * a part of it, unless they meet. The hardware would then take the whole ring for free space.
   */
  lemma RestartInsideGap(q: Queue, g: Gap)
    requires q.base % 4096 == 0 && q.size % 4096 == 0
    requires Inside(q.base, q.size, g.start) && Inside(q.base, q.size, g.end)
    requires Dist(q.size, g.start, g.end) >= 256
    ensures var i, limit := Restart(q, g), RoundDown256(g.end);
      && Inside(q.base, q.size, i) && i % 4 == 0 && Inside(q.base, q.size, limit) && limit % 256 == 0
      && Dist(q.size, g.start, i) < 4
      && Dist(q.size, i, limit) <= Dist(q.size, i, g.end)
      && (limit == i <==> Meets(q, g))
  {
    hide Restart;
    var i := Restart(q, g);
    RestartAligned(q, g);
    RoundDownInside(q.base, q.size, g.end);
    RestDistance(q.base, q.size, g.start, i, g.end);
    StepBack(q.base, q.size, i, g.end, RoundDown256(g.end));
    if Meets(q, g) {
      SameBlock(q.base, q.size, i, g.end);
    }
  }

  lemma RestDistance(base: nat, n: nat, start: int, i: int, end: int)
    requires Inside(base, n, start) && Inside(base, n, i) && Inside(base, n, end)
    requires Dist(n, start, i) < 4 && Dist(n, start, end) >= 256
    ensures Dist(n, i, end) >= 253
  {
  }

  /** Stepping back by less than 256 bytes to a block boundary does not pass a word 253 bytes behind. */
  lemma StepBack(base: nat, n: nat, i: nat, a: nat, b: nat)
    requires Inside(base, n, i) && Inside(base, n, a) && Inside(base, n, b)
    requires b <= a && a - b < 256 && Dist(n, i, a) >= 253 && i % 4 == 0 && b % 256 == 0
    ensures Dist(n, i, b) <= Dist(n, i, a)
    ensures b == i ==> Dist(n, i, a) < 256
  {
    var k := b / 256;
    TimesFour(64 * k);
    if b < i <= a {
      MultiplesApart(4, b, i);
    }
  }

  lemma TimesFour(x: int)
    ensures (4 * x) % 4 == 0
  {
  }

  /** The 256-byte boundary at most 255 bytes behind an address is what it rounds down to. */
  lemma SameBlock(base: nat, n: nat, i: nat, a: nat)
    requires n % 4096 == 0 && base % 4096 == 0 && i % 256 == 0
    requires Inside(base, n, i) && Inside(base, n, a) && Dist(n, i, a) < 256
    ensures RoundDown256(a) == i
  {
    BlockMultiples(base);
    BlockMultiples(n);
    SumOfMultiples(256, base, n);
    MultiplesApart(256, i, base + n);
    RoundDownBounds(a);
    if RoundDown256(a) < i {
      MultiplesApart(256, RoundDown256(a), i);
    } else if i < RoundDown256(a) {
      MultiplesApart(256, i, RoundDown256(a));
    }
  }

  lemma DistMod4(n: nat, a: nat, b: nat)
    requires n % 4 == 0 && a % 4 == 0 && b % 4 == 0
    ensures Dist(n, a, b) % 4 == 0
  {
    SumOfMultiples(4, b, a);
    if b < a { SumOfMultiples(4, b - a, n); }
  }

  /** Locks that start on words never let the two pointers meet. */
  lemma WordsNeverMeet(q: Queue, g: Gap)
    requires q.base % 4096 == 0 && q.size % 4096 == 0
    requires Inside(q.base, q.size, g.start) && Inside(q.base, q.size, g.end)
    requires Dist(q.size, g.start, g.end) >= 256 && g.end % 4 == 0
    ensures !Meets(q, g)
  {
    hide Restart;
    var i := Restart(q, g);
    RestartAligned(q, g);
    BlockMultiples(q.size);
    DistMod4(q.size, i, g.end);
    RestDistance(q.base, q.size, g.start, i, g.end);
    MultiplesApart(4, 252, Dist(q.size, i, g.end));
  }

  lemma GapEndsInside(base: nat, n: nat, held: seq<Region>, k: nat)
    requires Laid(base, n, held) && k < |held|
    ensures var g := GapAfter(held, n, k);
      Inside(base, n, g.start) && Inside(base, n, g.end) && IsStart(held, g.end)
  {
    assert held[k] in held;
    assert held[if k + 1 < |held| then k + 1 else 0] in held;
  }

  /**
   * The gap recovery chooses: a real gap, of the size computed, and no other is larger. This
   * needs the last lock not to end where the first one starts.
   */
  lemma RecoveryPicksLargestGap(base: nat, n: nat, held: seq<Region>) returns (k: nat)
    requires Laid(base, n, held) && held != [] && held[|held| - 1].end != held[0].start
    ensures k < |held|
    ensures var g := LargestGap(held, n, |held| - 1);
      && g == GapAfter(held, n, k) && g.size == Dist(n, g.start, g.end)
      && Inside(base, n, g.start) && Inside(base, n, g.end) && IsStart(held, g.end)
      && forall j :: 0 <= j < |held| ==>
        var h := GapAfter(held, n, j); Dist(n, h.start, h.end) <= Dist(n, g.start, g.end)
  {
    LargestGapIsLargest(held, n, |held| - 1);
    hide Laid, LargestGap, GapAfter, IsStart, Inside;
    k :| 0 <= k < |held| && LargestGap(held, n, |held| - 1) == GapAfter(held, n, k);
    GapEndsInside(base, n, held, k);
    forall j | 0 <= j < |held|
      ensures var h := GapAfter(held, n, j); h.size == Dist(n, h.start, h.end)
    {
      GapSizeExact(base, n, held, j);
    }
  }

  /** Restarting in a gap that is really free is safe exactly when the new pointers do not meet. */
  lemma PlacedSafeIff(q: Queue, g: Gap)
    requires Safe(q) && q.held != [] && g.size == Dist(q.size, g.start, g.end)
    requires Inside(q.base, q.size, g.start) && Inside(q.base, q.size, g.end) && IsStart(q.held, g.end)
    requires forall s | s in q.held :: Beyond(q.size, g.start, g.end, s)
    ensures Safe(PlaceInGap(q, g)) <==> (g.size >= 256 ==> !Meets(q, g))
  {
    if g.size >= 256 {
      var i := Restart(q, g);
      RestartInsideGap(q, g);
      ReadPointerRounds(q.(writeStart := i, writeNow := i, process := i), g.end);
      forall s | s in q.held ensures Beyond(q.size, i, g.end, s) {
        FrontierAdvances(q.base, q.size, g.start, i, g.end, s);
      }
      PlacedWindow(q, g);
    }
  }

  lemma PlacedWindow(q: Queue, g: Gap)
    requires q.held != [] && g.size >= 256
    requires Inside(q.base, q.size, g.start) && Inside(q.base, q.size, g.end)
    requires var i, limit := Restart(q, g), RoundDown256(g.end);
      && Inside(q.base, q.size, i) && Inside(q.base, q.size, limit)
      && Dist(q.size, i, limit) <= Dist(q.size, i, g.end)
    ensures WindowOpen(PlaceInGap(q, g)) <==> RoundDown256(g.end) != Restart(q, g)
  {
    var q' := PlaceInGap(q, g);
    assert q'.writeNow == Restart(q, g) == q'.process && q'.lockAddr == g.end;
    assert Limit(q') == RoundDown256(g.end);
  }

  lemma EmptyRecovery(q: Queue)
    requires Safe(q) && q.held == []
    ensures Safe(ProcessReadPointer(q))
  {
    EmptyQueueFollows(q, q.process);
  }

  lemma ChosenGapIsFree(base: nat, n: nat, held: seq<Region>)
    requires Laid(base, n, held) && held != [] && held[|held| - 1].end != held[0].start
    ensures var g := LargestGap(held, n, |held| - 1);
      && g.size == Dist(n, g.start, g.end) && Inside(base, n, g.start) && Inside(base, n, g.end)
      && IsStart(held, g.end) && forall s | s in held :: Beyond(n, g.start, g.end, s)
  {
    hide Laid, GapAfter, LargestGap, IsStart, Inside;
    var k := RecoveryPicksLargestGap(base, n, held);
    var g := LargestGap(held, n, |held| - 1);
    forall s | s in held ensures Beyond(n, g.start, g.end, s) {
      GapIsFree(base, n, held, k, s);
    }
  }

  /** The last lock ends where the first one starts, across the wrap or not. */
  predicate Touching(held: seq<Region>) {
    held != [] && held[|held| - 1].end == held[0].start
  }

  /** What the driver would have to check before it recovers a queue. */
  predicate Recoverable(q: Queue) {
    q.held != [] ==>
      && !Touching(q.held)
      && var g := LargestGap(q.held, q.size, |q.held| - 1); g.size >= 256 ==> !Meets(q, g)
  }

  /**
   * Recovery is right exactly when the last lock does not end where the first one starts, and
   * the pointers it sets do not meet. In the first case it restarts the hardware on a lock.
   */
  lemma RecoverySafeIff(q: Queue)
    requires Safe(q)
    ensures Safe(ProcessReadPointer(q)) <==> Recoverable(q)
  {
    hide Safe, PlaceInGap, LargestGap, IsStart, Beyond, Inside, Dist, UpdateReadPointer, Meets;
    if q.held == [] {
      EmptyRecovery(q);
    } else if Touching(q.held) {
      TouchingIsUnsafe(q);
    } else {
      SafeLaid(q);
      ChosenGapIsFree(q.base, q.size, q.held);
      PlacedSafeIff(q, LargestGap(q.held, q.size, |q.held| - 1));
    }
  }

  lemma SafeLaid(q: Queue)
    requires Safe(q)
    ensures Laid(q.base, q.size, q.held)
  {
  }

  predicate SameRing(q: Queue, q': Queue) {
    q'.base == q.base && q'.size == q.size
  }

  /** Recovery moves pointers only. */
  lemma RecoveryKeepsLocks(q: Queue)
    ensures ProcessReadPointer(q).held == q.held && SameRing(q, ProcessReadPointer(q))
  {
  }

  /** Locks that start on words and do not touch can always be recovered. */
  lemma WordsRecoverable(q: Queue)
    requires Safe(q) && !Touching(q.held) && forall s | s in q.held :: s.start % 4 == 0
    ensures Recoverable(q)
  {
    if q.held != [] {
      ChosenGapIsFree(q.base, q.size, q.held);
      var g := LargestGap(q.held, q.size, |q.held| - 1);
      if g.size >= 256 {
        WordsNeverMeet(q, g);
      }
    }
  }

  lemma TouchingIsUnsafe(q: Queue)
    requires Safe(q) && Touching(q.held)
    ensures !Safe(ProcessReadPointer(q))
  {
    hide Safe, PlaceInGap, LargestGap, Laid, RegionInside;
    SafeEnds(q);
    TouchingGap(q.base, q.size, q.held);
    WholeRingUnsafe(q, q.held[0].start, q.held[|q.held| - 1]);
  }

  lemma SafeEnds(q: Queue)
    requires Safe(q) && q.held != []
    ensures Laid(q.base, q.size, q.held)
    ensures q.base % 4096 == 0 && q.size % 4096 == 0 && q.size >= 4096
    ensures var last := q.held[|q.held| - 1]; last in q.held && RegionInside(q.base, q.size, last)
  {
    assert q.held[|q.held| - 1] in q.held;
  }

  lemma WholeRingUnsafe(q: Queue, a: nat, last: Region)
    requires q.base % 4096 == 0 && q.size % 4096 == 0 && q.size >= 4096
    requires RegionInside(q.base, q.size, last) && last in q.held && last.end == a
    ensures !Safe(PlaceInGap(q, Gap(a, a, q.size)))
  {
    var g := Gap(a, a, q.size);
    RestartAligned(q, g);
    RoundDownInside(q.base, q.size, a);
    var q' := PlaceInGap(q, g);
    assert q'.process == Restart(q, g) == q'.writeNow && q'.lockAddr == a && q'.held == q.held;
    hide PlaceInGap, Restart, UpdateReadPointer;
    if LockFirst(q') {
      assert Beyond(q.size, q'.process, a, last);
      LastBlocks(q.base, q.size, q'.process, a, last);
      assert Inside(q.base, q.size, Limit(q')) ==> Room(q') > 0;
    }
  }

  lemma LastBlocks(base: nat, n: nat, i: int, a: int, last: Region)
    requires Inside(base, n, i) && RegionInside(base, n, last) && last.end == a && Beyond(n, i, a, last)
    ensures i == a
  {
  }

  /** The hardware then restarts on the first locked byte, with the whole ring as room. */
  lemma TouchingLocksAreOverrun(q: Queue)
    requires Safe(q) && Touching(q.held) && q.held[0].start % 4 == 0
    ensures var q' := ProcessReadPointer(q);
      && q'.writeNow == q.held[0].start && Covers(q.size, q.held[0], q'.writeNow)
      && !WindowOpen(q')
  {
    assert q.held[0] in q.held;
    assert q.size >= 4096;
    TouchingGap(q.base, q.size, q.held);
    WholeRingPlacement(q, q.held[0].start);
  }

  lemma TouchingGap(base: nat, n: nat, held: seq<Region>)
    requires Laid(base, n, held) && held != [] && held[|held| - 1].end == held[0].start
    ensures LargestGap(held, n, |held| - 1) == Gap(held[0].start, held[0].start, n)
  {
    assert held[0] in held && held[|held| - 1] in held;
    forall k | 0 <= k < |held| - 1 ensures InnerGap(held, k).size < n {
      assert held[k] in held && held[k + 1] in held;
    }
    WrapGapWins(held, n, |held| - 1);
  }

  lemma WholeRingPlacement(q: Queue, a: nat)
    requires q.base % 4096 == 0 && q.size >= 4096 && Inside(q.base, q.size, a) && a % 4 == 0 && q.held != []
    ensures var q' := PlaceInGap(q, Gap(a, a, q.size)); q'.writeNow == a && !WindowOpen(q')
  {
    RoundDownInside(q.base, q.size, a);
    assert Room(PlaceInGap(q, Gap(a, a, q.size))) > 0;
  }

  lemma {:induction false} WrapGapWins(held: seq<Region>, n: nat, k: nat)
    requires k < |held| && WrapGap(held, n).size == n
    requires forall j | 0 <= j < |held| - 1 :: InnerGap(held, j).size < n
    ensures LargestGap(held, n, k) == WrapGap(held, n)
  {
    if k > 0 { WrapGapWins(held, n, k - 1); }
  }
}
