/**
 * Where recovery and locking do not meet their promise: for each a run of the driver that leads
 * there, and the exact condition under which they do.
 */
module QueueLimits {
  import opened Ring
  import opened QueueModel
  import opened QueueSafety
  import opened QueueRuns
  import opened QueueDelivery

  // ----- steps of the runs below

  function Bytes(n: nat): (data: seq<bv8>)
    ensures |data| == n
  {
    seq(n, _ => 0)
  }

  /** The hardware writes n bytes, and what it has written so far becomes the next delivery. */
  lemma Arrive(d: Driver, n: nat) returns (d': Driver)
    requires Reachable(d) && n < Room(d.s.q)
    ensures Reachable(d') && d'.delivery == d.delivery
    ensures d'.s.q == d.s.q.(writeNow := Advance(d.s.q, d.s.q.writeNow, n), writeStart := d'.s.q.writeNow)
  {
    d' := Write(d, n);
    d' := Go(d', Outside(HardwareDeliver));
  }

  lemma Write(d: Driver, n: nat) returns (d': Driver)
    requires Reachable(d) && n < Room(d.s.q)
    ensures Reachable(d') && d'.delivery == d.delivery
    ensures d'.s.q == d.s.q.(writeNow := Advance(d.s.q, d.s.q.writeNow, n))
  {
    ReachableReady(d);
    d' := Go(d, Outside(HardwareWrite(Bytes(n))));
  }

  lemma Open(d: Driver) returns (d': Driver)
    requires Reachable(d) && d.delivery.Idle? && d.s.q.read != d.s.q.writeStart
    ensures Reachable(d') && d'.s.q == d.s.q && d'.delivery == Busy(d.s.q.read, d.s.q.writeStart)
  {
    ReachableReady(d);
    d' := Go(d, Begin);
  }

  lemma Handle(d: Driver, mode: Mode, r: Region) returns (d': Driver)
    requires Reachable(d) && d.delivery.Busy? && Part(d.s.q, d.delivery, r)
    ensures Reachable(d') && d'.s.q == LockData(d.s.q, mode, r).0 && d'.delivery == Busy(r.end, d.delivery.end)
  {
    ReachableReady(d);
    d' := Go(d, Take(mode, r));
  }

  lemma Close(d: Driver) returns (d': Driver)
    requires Reachable(d) && d.delivery.Busy?
    ensures Reachable(d') && d'.s.q == d.s.q.(read := d.delivery.end) && d'.delivery == Idle
  {
    ReachableReady(d);
    d' := Go(d, End);
  }

  lemma GiveBack(d: Driver, k: nat) returns (d': Driver)
    requires Reachable(d) && k < |d.s.q.held| && !d.s.q.stalled
    ensures Reachable(d') && d'.delivery == d.delivery
    ensures d'.s.q == UnlockData(d.s.q, d.s.q.held[k]).0
  {
    hide Safe, Reachable, UnlockData, UnlockRecord, Laid, Without, LargestGap, Recoverable;
    ReachableReady(d);
    SafeLaid(d.s.q);
    UnlockRecordIs(d.s.q, k);
    d' := Go(d, Outside(Unlock(k)));
  }

  /** The whole of what has arrived is locked, as on a stream channel. */
  lemma LockAll(d: Driver, n: nat) returns (d': Driver)
    requires Reachable(d) && d.delivery.Idle? && 0 < n < Room(d.s.q) && d.s.q.read == d.s.q.writeStart == d.s.q.writeNow
    ensures var q := d.s.q; var end := Advance(q, q.writeNow, n);
      && Reachable(d') && d'.delivery == Idle
      && d'.s.q == LockData(q.(writeNow := end, writeStart := end), Lock, Region(q.read, end)).0.(read := end)
  {
    ReachableReady(d);
    SafeInside(d.s.q);
    d' := Arrive(d, n);
    d' := Open(d');
    d' := Handle(d', Lock, Region(d.s.q.read, d'.s.q.writeStart));
    d' := Close(d');
  }

  // ----- locks that touch

  const MEMORY: seq<bv8> := Bytes(4096)
  const FRESH := Driver(System(Queue(0, 4096, 0, 0, 0, false, [], 0, 0, 0), MEMORY), Idle)

  lemma FirstDelivery() returns (d: Driver)
    ensures Reachable(d) && d.delivery == Idle
    ensures d.s.q == Queue(0, 4096, 0xF00, 0, 0xF00, false, [], 0xF00, 0xF00, 0xF00)
  {
    StartReachable(FRESH);
    d := LockAll(FRESH, 0xF00);
    assert d.s.q.held == [Region(0, 0xF00)];
    d := GiveBack(d, 0);
  }

  /** Three back-to-back deliveries, the second across the wrap, with the first one given back. */
  lemma StreamRun() returns (d: Driver)
    ensures Reachable(d) && d.delivery == Idle
    ensures d.s.q == Queue(0, 4096, 0x200, 0xF00, 0x200, false, [Region(0x100, 0x200), Region(0xF00, 0x100)], 0x200, 0x200, 0xF00)
  {
    d := FirstDelivery();
    d := LockAll(d, 0x200);
    assert d.s.q.held == [Region(0xF00, 0x100)];
    d := LockAll(d, 0x100);
    assert d.s.q.held == [Region(0x100, 0x200), Region(0xF00, 0x100)];
  }

  /**
   * Stream channels lock their deliveries back to back. In the state such a run reaches,
   * recovery ignores 3328 free bytes and restarts the hardware on a held region.
   */
  lemma StreamRecoveryOverrunsLock(q: Queue)
    requires q == Queue(0, 4096, 0x200, 0xF00, 0x200, false, [Region(0x100, 0x200), Region(0xF00, 0x100)], 0x200, 0x200, 0xF00)
    ensures InnerGap(q.held, 0).size == 3328 && !Recoverable(q)
    ensures var q' := ReadPointerError(q); q'.writeNow == 0x100 && Covers(4096, q'.held[0], 0x100) && Room(q') == 4096
  {
    assert LargestGap(q.held, 4096, 0) == Gap(0x100, 0x100, 4096);
    assert LargestGap(q.held, 4096, 1) == Gap(0x100, 0x100, 4096);
  }

  // ----- pointers that meet

  /** Exactly when the restarted write pointer lies on the new read pointer, in any gap of 256 bytes. */
  lemma RestartMeetsReadPointerIff(q: Queue, g: Gap)
    requires q.base % 4096 == 0 && q.size % 4096 == 0 && q.held != []
    requires Inside(q.base, q.size, g.start) && Inside(q.base, q.size, g.end)
    requires g.size == Dist(q.size, g.start, g.end) >= 256
    ensures var q' := PlaceInGap(q, g); q'.writeNow == Limit(q') <==> Meets(q, g)
  {
    RestartInsideGap(q, g);
    assert PlaceInGap(q, g).writeNow == Restart(q, g) && Limit(PlaceInGap(q, g)) == RoundDown256(g.end);
  }

  lemma OddDelivery() returns (d: Driver)
    ensures Reachable(d) && d.delivery == Idle
    ensures d.s.q == Queue(0, 4096, 0x2FD, 0, 0x2FD, false, [], 0x2FD, 0x2FD, 0x200)
  {
    StartReachable(FRESH);
    d := LockAll(FRESH, 0x2FD);
    assert d.s.q.held == [Region(0, 0x2FD)];
    d := GiveBack(d, 0);
  }

  /** A delivery of 765 bytes is locked and given back, and one of 3840 bytes across the wrap is locked. */
  lemma UnalignedRun() returns (d: Driver)
    ensures Reachable(d) && d.delivery == Idle
    ensures d.s.q == Queue(0, 4096, 0x1FD, 0x2FD, 0x1FD, false, [Region(0x2FD, 0x1FD)], 0x1FD, 0x1FD, 0x200)
  {
    d := OddDelivery();
    d := LockAll(d, 0xF00);
    assert d.s.q.held == [Region(0x2FD, 0x1FD)];
  }

  /** Locks that start off a word let them meet: the hardware may then write over the lock. */
  lemma UnalignedLockLosesWindow(q: Queue)
    requires q == Queue(0, 4096, 0x1FD, 0x2FD, 0x1FD, false, [Region(0x2FD, 0x1FD)], 0x1FD, 0x1FD, 0x200)
    ensures var q' := ReadPointerError(q); !Recoverable(q) && q'.writeNow == 0x200 == Limit(q') && Room(q') == 4096
  {
    assert LargestGap(q.held, 4096, 0) == Gap(0x1FD, 0x2FD, 256);
    assert RoundUp4(0x1FD) == 0x200 && RoundDown256(0x2FD) == 0x200;
    var q1 := q.(stalled := true);
    assert Restart(q, Gap(0x1FD, 0x2FD, 256)) == 0x200;
    assert ProcessReadPointer(q1) == PlaceInGap(q1, Gap(0x1FD, 0x2FD, 256));
  }

  // ----- recovery in the middle of a delivery

  const HELD := [Region(4, 0x700), Region(0x704, 0xF10), Region(0xF14, 0xF40)]
  const REST := [Region(4, 0x700), Region(0xF14, 0xF40)]

  lemma FirstSections() returns (d: Driver)
    ensures Reachable(d) && d.delivery == Idle
    ensures d.s.q == Queue(0, 4096, 0xF10, 4, 0xF10, false, [Region(4, 0x700), Region(0x704, 0xF10)], 0xF10, 0xF10, 0)
  {
    StartReachable(FRESH);
    d := Arrive(FRESH, 0xF10);
    d := Open(d);
    d := Handle(d, Lock, Region(4, 0x700));
    d := Handle(d, Lock, Region(0x704, 0xF10));
    assert d.s.q.held == [Region(4, 0x700), Region(0x704, 0xF10)];
    d := Close(d);
  }

  /** Between deliveries the hardware runs into the first lock. No gap is large enough, so the queue stays stalled. */
  lemma StalledRun() returns (d: Driver)
    ensures Reachable(d) && d.delivery == Idle
    ensures d.s.q == Queue(0, 4096, 0xF10, 4, 0xF10, true, [Region(4, 0x700), Region(0x704, 0xF10)], 0xF10, 0xF10, 0)
  {
    hide Reachable, ReadPointerError, Recoverable, LargestGap;
    d := FirstSections();
    d := Write(d, 0xEF);
    NoGap(d.s.q);
    d := Stall(d);
    d := Drop(d);
  }

  lemma Stall(d: Driver) returns (d': Driver)
    requires Reachable(d) && d.delivery.Idle? && Recoverable(d.s.q)
    ensures Reachable(d') && d'.delivery == Idle && d'.s.q == ReadPointerError(d.s.q)
  {
    ReachableReady(d);
    SafeLaid(d.s.q);
    d' := Go(d, Outside(ReadPointerFault));
  }

  lemma Drop(d: Driver) returns (d': Driver)
    requires Reachable(d)
    ensures Reachable(d') && d'.delivery == d.delivery && d'.s.q == d.s.q.(writeNow := d.s.q.writeStart)
  {
    ReachableReady(d);
    SafeLaid(d.s.q);
    d' := Go(d, Outside(HardwareStop));
  }

  lemma NoGap(q: Queue)
    requires q.size == 4096 && q.held == [Region(4, 0x700), Region(0x704, 0xF10)]
    ensures Recoverable(q) && ReadPointerError(q) == q.(stalled := true)
  {
    assert LargestGap(q.held, 4096, 0) == Gap(0xF10, 4, 0xF4);
    assert LargestGap(q.held, 4096, 1) == Gap(0xF10, 4, 0xF4);
  }

  /**
   * Then 200 bytes are delivered that the hardware still had room for. The first section of them
   * is locked, and the next has not been looked at.
   */
  lemma MidDeliveryRun() returns (d: Driver)
    ensures Reachable(d) && d.delivery == Busy(0xF40, 0xFD8)
    ensures d.s.q == Queue(0, 4096, 0xF40, 4, 0xF10, true, HELD, 0xFD8, 0xFD8, 0)
  {
    d := StalledRun();
    d := Arrive(d, 200);
    d := Open(d);
    d := Handle(d, Lock, Region(0xF14, 0xF40));
    assert d.s.q.held == HELD;
  }

  /**
   * If now, from the callback for that section, the second region is released, then that release
   * recovers the stalled queue: hardware and frontier go into the gap it leaves.
   */
  lemma RecoveryMidDelivery(q: Queue)
    requires q == Queue(0, 4096, 0xF40, 4, 0xF10, true, HELD, 0xFD8, 0xFD8, 0)
    ensures UnlockRestarts(q, 1) && UnlockRecovers(q, 1)
    ensures UnlockRecord(q, 1) == (Queue(0, 4096, 0x700, 0xF14, 0x700, false, REST, 0x700, 0x700, 0xF00), Done)
  {
    var r := Region(0x704, 0xF10);
    assert HELD[1] == r && FindRecord(HELD, r) == 1;
    assert Without(HELD, 1) == REST && Release(HELD, 1, r) == REST;
    var rest := q.(held := REST);
    GapOfTwo(rest);
    assert UnlockData(q, r).0 == ProcessReadPointer(rest);
  }

  lemma GapOfTwo(q: Queue)
    requires q == Queue(0, 4096, 0xF40, 4, 0xF10, true, REST, 0xFD8, 0xFD8, 0)
    ensures Restarts(q) && Recoverable(q)
    ensures ProcessReadPointer(q) == Queue(0, 4096, 0x700, 0xF14, 0x700, false, REST, 0x700, 0x700, 0xF00)
  {
    assert LargestGap(REST, 4096, 0) == Gap(0xF40, 4, 0xC4);
    assert LargestGap(REST, 4096, 1) == Gap(0x700, 0xF14, 0x814);
    assert RoundUp4(0x700) == 0x700 && RoundDown256(0xF14) == 0xF00;
    assert Restart(q, Gap(0x700, 0xF14, 0x814)) == 0x700;
  }

  /**
   * Locking the next section then leaves the lock pointer on the wrong region, and the next
   * delivery, read from where this one ended, contains a held region.
   */
  lemma StaleRecordMisplacesLockPointer(q: Queue)
    requires q == Queue(0, 4096, 0x700, 0xF14, 0x700, false, REST, 0x700, 0x700, 0xF00)
    ensures !Lockable(q, Region(0xF44, 0xFD8)) && !LockFirst(LockData(q, Lock, Region(0xF44, 0xFD8)).0)
    ensures !Ordered(q.(read := 0xFD8), Idle)
    ensures var q' := q.(writeNow := 0x800, writeStart := 0x800, read := 0xFD8);
      0x100 < Room(q) && Covers(4096, Region(q'.read, q'.writeStart), 4)
  {
    assert REST[0] in REST && REST[1] in REST;
    var q' := LockData(q, Lock, Region(0xF44, 0xFD8)).0;
    assert q'.held == REST + [Region(0xF44, 0xFD8)];
    assert q'.held[0] == Region(4, 0x700);
    assert !Beyond(4096, 0xFD8, 0xF14, q'.held[0]);
  }

  /**
   * After a recovery that moves the hardware nothing of the old delivery counts as delivered, and
   * its end is a place to go on from exactly when the hardware was put there.
   */
  lemma StaleDeliveryIff(q: Queue, end: nat)
    requires Safe(q) && Recoverable(q) && Restarts(q) && Inside(q.base, q.size, end)
    ensures var q' := ProcessReadPointer(q);
      && (Ordered(q'.(read := end), Idle) <==> end == q'.process)
      && (forall r :: !Delivered(q', r))
  {
    RecoverySafeIff(q);
    MovedTogether(q);
    hide ProcessReadPointer, Restarts, LargestGap, Recoverable, Laid, LockFirst, WindowOpen;
    var q' := ProcessReadPointer(q);
    SafeInside(q');
  }

  lemma MovedTogether(q: Queue)
    requires Safe(q) && Recoverable(q) && Restarts(q)
    ensures var q' := ProcessReadPointer(q); q'.process == q'.writeStart == q'.read && SameRing(q, q')
  {
    SafeLaid(q);
    ChosenGapIsFree(q.base, q.size, q.held);
    hide LargestGap, Laid, Safe;
  }

  /**
   * The list of locks never grows: a region is locked exactly when fewer than 16 are. Otherwise
   * the frontier passes it all the same, and the caller tells the application of it.
   */
  lemma LockTakenIff(q: Queue, r: Region)
    requires r !in q.held
    ensures var (q', status) := LockData(q, Lock, r);
      && (r in q'.held <==> |q.held| < LOCK_CAPACITY) && (status == Done <==> |q.held| < LOCK_CAPACITY)
      && q'.process == r.end && (|q.held| >= LOCK_CAPACITY ==> q' == q.(process := r.end))
  {
    if |q.held| < LOCK_CAPACITY {
      InsertMembers(q.held, InsertAt(q.held, r.start), r);
    }
  }
}
