/**
 * What the hardware gets back: how far it may go on after a release, a recovery or a skip, and
 * what the operations on a queue leave alone.
 */
module QueueProgress {
  import opened Ring
  import opened QueueModel
  import opened QueueSafety

  /** The hardware is running and stops less than a block of 256 bytes before a. */
  predicate ReachesUpTo(q: Queue, a: nat) {
    !q.stalled && Dist(q.size, Limit(q), a) < 256
  }

  lemma PointerReaches(q: Queue, a: nat)
    requires Geometry(q) && Aligned(q) && Inside(q.base, q.size, a)
    ensures ReachesUpTo(UpdateReadPointer(q, a), a)
  {
    RoundDownInside(q.base, q.size, a);
    ReadPointerRounds(q, a);
  }

  /** Where the first locked region of a queue was, the hardware may go on afterwards. */
  predicate HandedOver(q: Queue, q': Queue, a: nat) {
    && ReachesUpTo(q', a) && Room(q) <= Room(q')
    && q'.process == q.process && q'.read == q.read && q'.writeStart == q.writeStart && q'.writeNow == q.writeNow
  }

  /**
   * Releasing the first region, of a stalled queue or another: the hardware may then write up to
   * the next region in ring order, or, when nothing is left, up to the frontier, and has no less
   * room than before.
   */
  lemma ReleaseHandsOver(q: Queue, k: nat)
    requires Safe(q) && k < |q.held| && q.held[k].start == q.lockAddr
    ensures var (q', status) := UnlockData(q, q.held[k]);
      && status == Done && q'.held == Without(q.held, k)
      && (|q.held| == 1 ==> HandedOver(q, q', q.process))
      && (|q.held| > 1 ==>
            HandedOver(q, q', NextOf(q.held, k).start) && q'.lockAddr == NextOf(q.held, k).start && LockFirst(q'))
  {
    SafeEnds(q);
    FindHeld(q.base, q.size, q.held, k);
    hide *;
    if |q.held| == 1 {
      OnlyReleaseHandsOver(q);
    } else {
      FirstReleaseHandsOver(q, k);
    }
  }

  lemma OnlyReleaseHandsOver(q: Queue)
    requires Safe(q) && |q.held| == 1 && q.held[0].start == q.lockAddr && FindRecord(q.held, q.held[0]) == 0
    ensures var (q', status) := UnlockData(q, q.held[0]);
      status == Done && q'.held == Without(q.held, 0) && HandedOver(q, q', q.process)
  {
    RoomEndsBeforeLock(q);
    assert Without(q.held, 0) == [] && Release(q.held, 0, q.held[0]) == [];
    LastHandsOver(q, q.process);
  }

  lemma FirstReleaseHandsOver(q: Queue, k: nat)
    requires Safe(q) && |q.held| > 1 && k < |q.held| && q.held[k].start == q.lockAddr
    requires FindRecord(q.held, q.held[k]) == k
    ensures var (q', status) := UnlockData(q, q.held[k]);
      && status == Done && q'.held == Without(q.held, k) && q'.lockAddr == NextOf(q.held, k).start
      && HandedOver(q, q', NextOf(q.held, k).start) && LockFirst(q')
  {
    UnlockFirstMoves(q, k);
    UnlockFirstKeepsSafe(q, k);
    FirstLockOf(UnlockData(q, q.held[k]).0);
    hide UnlockData, LockFirst;
    RoomEndsBeforeLock(q);
    FirstLockOf(q);
    SafeEnds(q);
    NextIsFarther(q, k);
    var next := NextOf(q.held, k).start;
    hide Safe, Laid;
    PointerReaches(q, next);
    NextHandsOver(q, next);
    assert Room(UpdateReadPointer(q, next).(lockAddr := next, held := Without(q.held, k))) == Room(UpdateReadPointer(q, next));
  }

  lemma FirstLockOf(q: Queue)
    requires Safe(q)
    ensures LockFirst(q) && Geometry(q) && Aligned(q) && WindowOpen(q)
  {
  }

  lemma NextIsFarther(q: Queue, k: nat)
    requires Safe(q) && |q.held| > 1 && k < |q.held| && q.held[k].start == q.lockAddr
    ensures var next := NextOf(q.held, k).start;
      Inside(q.base, q.size, next) && Dist(q.size, q.process, q.lockAddr) < Dist(q.size, q.process, next)
  {
    NextFirstOfRest(q.base, q.size, q.process, q.held, k);
  }

  lemma LastHandsOver(q: Queue, a: nat)
    requires Geometry(q) && Aligned(q) && WindowOpen(q) && q.held != [] && q.writeNow != Limit(q)
    requires Inside(q.base, q.size, q.lockAddr) && a == q.process
    ensures HandedOver(q, UpdateReadPointer(q.(held := []), a), a)
  {
    PointerReaches(q.(held := []), a);
    ReadPointerRounds(q.(held := []), a);
    if a != q.writeNow {
      ReadPointerFollows(q, a);
      RoundDownStaysAhead(q.base, q.size, q.writeNow, Limit(q), a);
    } else {
      RoomBehindBlock(q.base, q.size, q.writeNow, Limit(q));
    }
  }

  /** From the write pointer, no block boundary is farther away than the last one behind it. */
  lemma RoomBehindBlock(base: nat, n: nat, w: nat, limit: nat)
    requires base % 4096 == 0 && n % 4096 == 0 && limit % 256 == 0
    requires Inside(base, n, w) && Inside(base, n, limit) && w != limit
    ensures Inside(base, n, RoundDown256(w))
    ensures RoundDown256(w) != w ==> Dist(n, w, limit) <= Dist(n, w, RoundDown256(w))
  {
    RoundDownInside(base, n, w);
    if RoundDown256(w) < limit < w {
      MultiplesApart(256, RoundDown256(w), limit);
    }
  }

  lemma NextHandsOver(q: Queue, next: nat)
    requires Geometry(q) && Aligned(q) && WindowOpen(q) && q.held != [] && q.writeNow != Limit(q)
    requires Inside(q.base, q.size, q.lockAddr) && Inside(q.base, q.size, next)
    requires Dist(q.size, q.process, q.lockAddr) < Dist(q.size, q.process, next)
    ensures Room(q) <= Room(UpdateReadPointer(q, next))
  {
    ReadPointerRounds(q, next);
    RoundDownStaysAhead(q.base, q.size, q.writeNow, Limit(q), next);
  }

  /**
   * Recovery ends a stall exactly when nothing is held or some gap has 256 bytes. With nothing
   * held the hardware goes on up to the frontier; otherwise it is put at the start of the gap,
   * which it may fill up to the lock that ends it; and without such a gap nothing changes.
   */
  lemma RecoveryHandsOver(q: Queue)
    requires Safe(q)
    ensures var q' := ProcessReadPointer(q);
      && (q.held == [] ==> HandedOver(q, q', q.process))
      && (q.held != [] ==> var g := LargestGap(q.held, q.size, |q.held| - 1);
            if g.size < 256 then q' == q else GapHandedOver(q, q', g))
      && (q.stalled ==> (q'.stalled <==> q.held != [] && LargestGap(q.held, q.size, |q.held| - 1).size < 256))
  {
    if q.held == [] {
      PointerReaches(q, q.process);
      EmptyHandsOver(q);
    } else {
      var g := LargestGap(q.held, q.size, |q.held| - 1);
      LargestGapInside(q);
      hide LargestGap, Safe;
      if g.size >= 256 {
        GapHandsOver(q, g);
      }
    }
  }

  predicate GapHandedOver(q: Queue, q': Queue, g: Gap) {
    && ReachesUpTo(q', g.end) && q'.lockAddr == g.end && q'.held == q.held
    && q'.process == q'.read == q'.writeStart == q'.writeNow && Dist(q.size, g.start, q'.writeNow) < 4
  }

  lemma EmptyHandsOver(q: Queue)
    requires Safe(q) && q.held == []
    ensures Room(q) <= Room(UpdateReadPointer(q, q.process))
  {
    ReadPointerRounds(q, q.process);
    if q.writeNow == Limit(q) {
      assert q.process == q.writeNow;
    } else if q.process != q.writeNow {
      RoundDownStaysAhead(q.base, q.size, q.writeNow, Limit(q), q.process);
    } else {
      RoomBehindBlock(q.base, q.size, q.writeNow, Limit(q));
    }
  }

  lemma LargestGapInside(q: Queue)
    requires Safe(q) && q.held != []
    ensures var g := LargestGap(q.held, q.size, |q.held| - 1);
      Geometry(q) && Aligned(q) && Inside(q.base, q.size, g.start) && Inside(q.base, q.size, g.end)
  {
    LargestGapIsLargest(q.held, q.size, |q.held| - 1);
    var k :| 0 <= k < |q.held| && LargestGap(q.held, q.size, |q.held| - 1) == GapAfter(q.held, q.size, k);
    GapEndsInside(q.base, q.size, q.held, k);
  }

  lemma GapHandsOver(q: Queue, g: Gap)
    requires Geometry(q) && Aligned(q) && g.size >= 256
    requires Inside(q.base, q.size, g.start) && Inside(q.base, q.size, g.end)
    ensures GapHandedOver(q, PlaceInGap(q, g), g)
  {
    RestartAligned(q, g);
    var i := Restart(q, g);
    var p := q.(writeStart := i, writeNow := i);
    PointerReaches(p, g.end);
    assert PlaceInGap(q, g) == UpdateReadPointer(p, g.end).(process := i, read := i, lockAddr := g.end);
  }

  /** A skip moves the read pointer up to its end when nothing is held, and leaves it alone otherwise. */
  lemma SkipHandsOver(q: Queue, r: Region)
    requires Safe(q) && Inside(q.base, q.size, r.end)
    ensures var (q', status) := LockData(q, Skip, r);
      && status == Done && q'.process == r.end && q'.held == q.held
      && q'.read == q.read && q'.writeStart == q.writeStart && q'.writeNow == q.writeNow && q'.lockAddr == q.lockAddr
      && (if q.held == [] then ReachesUpTo(q', r.end) else q'.readPtr == q.readPtr && q'.stalled == q.stalled)
  {
    if q.held == [] {
      PointerReaches(q.(process := r.end), r.end);
    }
  }

  /** A lock moves the frontier, enters the region, and leaves hardware and read pointer alone. */
  lemma LockLeavesHardware(q: Queue, r: Region)
    ensures var (q', _) := LockData(q, Lock, r);
      && q'.process == r.end && q'.readPtr == q.readPtr && q'.stalled == q.stalled && q'.read == q.read
      && q'.writeStart == q.writeStart && q'.writeNow == q.writeNow && SameRing(q, q')
      && (|q.held| < LOCK_CAPACITY ==> forall s :: s in q'.held <==> s in q.held || s == r)
      && q'.lockAddr == if q.held == [] then r.start else q.lockAddr
  {
    if |q.held| < LOCK_CAPACITY {
      InsertMembers(q.held, InsertAt(q.held, r.start), r);
    }
  }

  /**
   * Releasing a part at either end of a held region takes exactly the bytes of that part out of
   * it; every other record stays as it is.
   */
  lemma PartialRelease(q: Queue, k: nat, r: Region, a: int)
    requires Laid(q.base, q.size, q.held) && k < |q.held| && RegionInside(q.base, q.size, r)
    requires r != q.held[k] && (r.start == q.held[k].start || r.end == q.held[k].end)
    requires Len(q.size, r) < Len(q.size, q.held[k]) && Inside(q.base, q.size, a)
    ensures var l := Release(q.held, k, r);
      && |l| == |q.held| && (forall j | 0 <= j < |l| && j != k :: l[j] == q.held[j])
      && (Covers(q.size, l[k], a) <==> Covers(q.size, q.held[k], a) && !Covers(q.size, r, a))
      && (Covers(q.size, r, a) ==> Covers(q.size, q.held[k], a))
  {
    assert q.held[k] in q.held;
  }

  /** Region r is a part, and not all, of record k, at its start or at its end. */
  predicate PartOf(q: Queue, k: nat, r: Region) {
    && k < |q.held| && RegionInside(q.base, q.size, r)
    && r != q.held[k] && (r.start == q.held[k].start || r.end == q.held[k].end)
    && Len(q.size, r) < Len(q.size, q.held[k])
  }

  lemma PartFound(q: Queue, k: nat, r: Region)
    requires Laid(q.base, q.size, q.held) && PartOf(q, k, r)
    ensures FindRecord(q.held, r) == k
  {
    assert q.held[k] in q.held;
    FirstMatch(q.held, r, k);
  }

  /** The start of a part is the start of a record only if it is that of its own. */
  lemma PartStart(q: Queue, k: nat, r: Region)
    requires Laid(q.base, q.size, q.held) && PartOf(q, k, r) && IsStart(q.held, r.start)
    ensures r.start == q.held[k].start && r.end != q.held[k].end
  {
    assert q.held[k] in q.held;
    var j :| 0 <= j < |q.held| && q.held[j].start == r.start;
    assert q.held[j] in q.held;
  }

  /**
   * A part of a region given back: when it began with the first locked byte, the lock pointer moves
   * to its end and the hardware may go on up to there, and otherwise a stalled queue is recovered.
   */
  lemma PartHandsOver(q: Queue, k: nat, r: Region)
    requires Safe(q) && PartOf(q, k, r)
    ensures var (q', status) := UnlockData(q, r);
      var rest := q.(held := Release(q.held, k, r));
      && status == Done
      && (if q.lockAddr == r.start then
            && q'.held == rest.held && q'.lockAddr == r.end && ReachesUpTo(q', r.end)
            && q'.process == q.process && q'.read == q.read && q'.writeStart == q.writeStart && q'.writeNow == q.writeNow
          else q' == if q.stalled then ProcessReadPointer(rest) else rest)
  {
    PartFound(q, k, r);
    if q.lockAddr == r.start {
      PartStart(q, k, r);
      assert Release(q.held, k, r)[k].start == r.end;
      PointerReaches(q.(held := Release(q.held, k, r), lockAddr := r.end), r.end);
    }
  }

  /** A release by start and length fails exactly in these cases, in this order, and then changes nothing. */
  lemma ReleaseFails(q: Queue, start: nat, length: nat)
    ensures var (q', status) := UnlockLength(q, start, length);
      && (status == RegionSizeError <==> q.held != [] && length == 0)
      && (status == QueueAddressError <==>
            q.held == [] || (length > 0 && (start < q.base || length > q.size
              || forall i | 0 <= i < |q.held| :: q.held[i].start != start && q.held[i].end != EndOf(q, start, length))))
      && (status != Done ==> q' == q) && status != InternalError
  {
  }

  /** A reset queue holds nothing, and everything begins at its bottom with the whole ring as room. */
  lemma ResetEmpties(q: Queue)
    requires q.size > 0
    ensures var q' := Reset(q);
      && q'.held == [] && q'.process == q'.read == q'.writeStart == q'.writeNow == q.base && SameRing(q, q')
      && Room(q') == q.size
  {
  }
}
