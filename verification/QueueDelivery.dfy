/**
 * The driver's own bookkeeping of deliveries. It takes what lies between the address it reads
 * from and the hardware's start of the next packet, locks or skips parts of it in order, and only
 * at the end notes where to go on. Between any two of its steps the hardware writes and delivers,
 * and the application unlocks; read pointer errors are handled between deliveries.
 */
module QueueDelivery {
  import opened Ring
  import opened QueueModel
  import opened QueueSafety
  import opened QueueRuns

  /** Busy: what lies from `at` to `end` has been taken over but not been looked at. */
  datatype Delivery = Idle | Busy(at: nat, end: nat)

  datatype Driver = Driver(s: System, delivery: Delivery)

  datatype Step =
    | Outside(e: Event)             // hardware, application and interrupts
    | Begin                         // reads where the packets start that are still being written
    | Take(mode: Mode, r: Region)   // locks or skips the next part of the delivery
    | End                           // the next delivery begins where this one ended

  /** Recovery would move the hardware, and the frontier with it. */
  predicate Restarts(q: Queue) {
    q.held != [] && LargestGap(q.held, q.size, |q.held| - 1).size >= 256
  }

  predicate UnlockRestarts(q: Queue, k: nat)
    requires k < |q.held|
  {
    q.stalled && q.held[k].start != q.lockAddr && Restarts(q.(held := Without(q.held, k)))
  }

  predicate SpanRestarts(q: Queue, first: nat, last: int)
    requires Laid(q.base, q.size, q.held) && first as int - 1 <= last < |q.held|
    decreases last - first + 1
  {
    last >= first &&
    (UnlockRestarts(q, last) || (UnlockRecordIs(q, last); SpanRestarts(UnlockRecord(q, last).0, first, last - 1)))
  }

  predicate Moves(q: Queue, e: Event)
    requires Laid(q.base, q.size, q.held)
  {
    match e
    case Unlock(k) => k < |q.held| && UnlockRestarts(q, k)
    case UnlockSpan(first, last) => first <= last < |q.held| && SpanRestarts(q, first, last)
    case ReadPointerFault => Restarts(q)
    case ResetQueue => true
    case _ => false
  }

  predicate External(e: Event) {
    !e.LockRecord? && !e.SkipRecord? && !e.ReadOn?
  }

  /**
   * What may happen: anything at all between deliveries. During one, the thread that would handle a
   * read pointer error or a reset is busy with it, and a release from its callback may not be one
   * that recovers the queue and moves the hardware.
   */
  predicate Possible(d: Driver, step: Step)
    requires Sound(d.s)
  {
    match step
    case Outside(e) => External(e) && Allowed(d.s, e) && (d.delivery.Busy? ==> !e.ReadPointerFault? && !Moves(d.s.q, e))
    case Begin => d.delivery.Idle?
    case Take(mode, r) => d.delivery.Busy? && Part(d.s.q, d.delivery, r)
    case End => d.delivery.Busy?
  }

  predicate Part(q: Queue, delivery: Delivery, r: Region)
    requires delivery.Busy?
  {
    && RegionInside(q.base, q.size, r)
    && Dist(q.size, delivery.at, r.start) + Len(q.size, r) <= Dist(q.size, delivery.at, delivery.end)
  }

  /** What a step does to the queue. */
  function EventOf(d: Driver, step: Step): Event {
    match step
    case Outside(e) => e
    case Begin => ReadOn(d.s.q.read)
    case Take(mode, r) => if mode == Lock then LockRecord(r) else SkipRecord(r)
    case End => ReadOn(if d.delivery.Busy? then d.delivery.end else d.s.q.read)
  }

  function DeliveryAfter(d: Driver, step: Step): Delivery {
    match step
    case Outside(e) => d.delivery
    case Begin => if d.s.q.read == d.s.q.writeStart then Idle else Busy(d.s.q.read, d.s.q.writeStart)
    case Take(mode, r) => if d.delivery.Busy? then Busy(r.end, d.delivery.end) else Idle
    case End => Idle
  }

  /** The frontier, the address read from, and the start of the next packet follow one another on the ring. */
  predicate Ordered(q: Queue, delivery: Delivery) {
    match delivery
    case Idle =>
      Inside(q.base, q.size, q.read) && Dist(q.size, q.process, q.read) <= Dist(q.size, q.process, q.writeStart)
    case Busy(at, end) =>
      && Inside(q.base, q.size, at) && Inside(q.base, q.size, end)
      && Dist(q.size, q.process, at) + Dist(q.size, at, end) <= Dist(q.size, q.process, q.writeStart)
  }

  predicate Ready(d: Driver) {
    Sound(d.s) && Ordered(d.s.q, d.delivery)
  }

  /** Every part of a delivery was delivered. */
  lemma PartIsDelivered(q: Queue, delivery: Delivery, r: Region)
    requires delivery.Busy? && Ordered(q, delivery) && Part(q, delivery, r)
    requires Inside(q.base, q.size, q.process) && Inside(q.base, q.size, q.writeStart)
    ensures Delivered(q, r)
    ensures Dist(q.size, r.end, delivery.end) <= Dist(q.size, r.end, q.writeStart)
  {
  }

  lemma StepAllowed(d: Driver, step: Step)
    requires Ready(d) && Possible(d, step)
    ensures Allowed(d.s, EventOf(d, step))
  {
    if step.Take? {
      PartIsDelivered(d.s.q, d.delivery, step.r);
      DeliveredIsLockable(d.s.q, step.r);
      DeliveredIsSkippable(d.s.q, step.r);
    }
  }

  function After(d: Driver, step: Step): Driver
    requires Ready(d) && Possible(d, step)
  {
    StepAllowed(d, step);
    Driver(Next(d.s, EventOf(d, step)), DeliveryAfter(d, step))
  }

  // ----- what stays where it is

  predicate SamePlace(q: Queue, q': Queue) {
    q'.process == q.process && q'.read == q.read && q'.writeStart == q.writeStart && SameRing(q, q')
  }

  lemma StaysPut(q: Queue)
    requires Laid(q.base, q.size, q.held) && !Restarts(q)
    ensures SamePlace(q, ProcessReadPointer(q))
  {
  }

  lemma UnlockStaysPut(q: Queue, k: nat)
    requires Laid(q.base, q.size, q.held) && k < |q.held| && !UnlockRestarts(q, k)
    ensures q.held[k] in q.held && SamePlace(q, UnlockRecord(q, k).0)
  {
    UnlockRecordIs(q, k);
    WithoutLaid(q.base, q.size, q.held, k);
    hide LargestGap, Laid, UnlockRecord;
    var rest := q.(held := Without(q.held, k));
    if q.held[k].start != q.lockAddr && q.stalled {
      StaysPut(rest);
    }
  }

  lemma {:induction false} SpanStaysPut(q: Queue, first: nat, last: int)
    requires Laid(q.base, q.size, q.held) && first as int - 1 <= last < |q.held| && !SpanRestarts(q, first, last)
    ensures SamePlace(q, UnlockRange(q, first, last).0)
    decreases last - first + 1
  {
    hide Laid, UnlockRecord, UnlockRestarts;
    if last >= first {
      UnlockStaysPut(q, last);
      var q' := UnlockLast(q, first, last);
      SpanStaysPut(q', first, last - 1);
    }
  }

  /** Whatever happens outside without moving the hardware leaves a delivery as it was, and may add to the next. */
  lemma OutsideKeepsOrder(d: Driver, e: Event)
    requires Ready(d) && External(e) && Allowed(d.s, e) && !Moves(d.s.q, e)
    ensures Ordered(Next(d.s, e).q, d.delivery)
  {
    SafeLaid(d.s.q);
    hide Laid, UnlockRange, UnlockRecord, SpanRestarts, SpanRecovers, Recoverable, Restarts;
    match e
    case HardwareWrite(data) =>
    case HardwareDeliver => DeliverKeepsOrder(d);
    case HardwareStop =>
    case Unlock(k) => UnlockStaysPut(d.s.q, k);
    case UnlockSpan(first, last) => SpanStaysPut(d.s.q, first, last);
    case ReadPointerFault => StaysPut(d.s.q.(stalled := true));
  }

  lemma DeliverKeepsOrder(d: Driver)
    requires Ready(d)
    ensures Ordered(Next(d.s, HardwareDeliver).q, d.delivery)
  {
  }

  /** Between deliveries the hardware may be moved: the next delivery then begins where it goes on. */
  lemma MovedKeepsOrder(d: Driver, e: Event)
    requires Ready(d) && d.delivery.Idle? && External(e) && Allowed(d.s, e)
    ensures Ordered(Next(d.s, e).q, Idle)
  {
    var q := d.s.q;
    SafeLaid(q);
    hide Laid, Safe, Ordered, UnlockRange, UnlockRecord, SpanRestarts, UnlockRestarts, SpanRecovers, UnlockRecovers, Recoverable, Restarts;
    match e
    case ReadPointerFault => FaultKeepsOrder(q);
    case Unlock(k) => UnlockKeepsOrder(q, k);
    case UnlockSpan(first, last) => SpanKeepsOrder(q, first, last);
    case ResetQueue => ResetInOrder(q);
    case _ => OutsideKeepsOrder(d, e);
  }

  lemma ResetInOrder(q: Queue)
    requires Safe(q)
    ensures Ordered(Reset(q), Idle)
  {
  }

  lemma FaultKeepsOrder(q: Queue)
    requires Safe(q) && Recoverable(q) && Ordered(q, Idle)
    ensures Ordered(ReadPointerError(q), Idle)
  {
    hide Safe, Recoverable, ProcessReadPointer;
    StalledAlike(q);
    RecoveryKeepsOrder(q.(stalled := true));
  }

  lemma RecoveryKeepsOrder(q: Queue)
    requires Safe(q) && Recoverable(q) && Ordered(q, Idle)
    ensures Ordered(ProcessReadPointer(q), Idle)
  {
    RecoverySafeIff(q);
    hide LargestGap, Recoverable, Laid, WindowOpen, LockFirst;
    assert Geometry(ProcessReadPointer(q));
  }

  lemma UnlockKeepsOrder(q: Queue, k: nat)
    requires Safe(q) && k < |q.held| && UnlockRecovers(q, k) && Ordered(q, Idle)
    ensures q.held[k] in q.held && Ordered(UnlockRecord(q, k).0, Idle)
  {
    UnlockRecordIs(q, k);
    var rest := q.(held := Without(q.held, k));
    if q.held[k].start != q.lockAddr && q.stalled {
      ReleaseOtherKeepsSafe(q, k);
      RecoveryKeepsOrder(rest);
    }
  }

  lemma {:induction false} SpanKeepsOrder(q: Queue, first: nat, last: int)
    requires Safe(q) && first as int - 1 <= last < |q.held| && SpanRecovers(q, first, last) && Ordered(q, Idle)
    ensures Laid(q.base, q.size, q.held) && Ordered(UnlockRange(q, first, last).0, Idle)
    decreases last - first + 1
  {
    hide *;
    SafeLaid(q);
    if last < first {
      UnlockNone(q, first, last);
    } else {
      var q' := UnlockLastSafe(q, first, last);
      UnlockKeepsOrder(q, last);
      SpanKeepsOrder(q', first, last - 1);
    }
  }

  // ----- every step, and runs

  lemma StepKeepsReady(d: Driver, step: Step)
    requires Ready(d) && Possible(d, step)
    ensures Ready(After(d, step)) && SameRing(d.s.q, After(d, step).s.q)
  {
    StepAllowed(d, step);
    hide Safe, Allowed;
    StepKeepsSafe(d.s, EventOf(d, step));
    match step
    case Outside(e) =>
      if d.delivery.Idle? { MovedKeepsOrder(d, e); } else { OutsideKeepsOrder(d, e); }
    case Begin => BeginKeepsOrder(d);
    case Take(mode, r) => TakeKeepsOrder(d, mode, r);
    case End => EndKeepsOrder(d);
  }

  lemma BeginKeepsOrder(d: Driver)
    requires Ready(d) && d.delivery.Idle?
    ensures Ordered(After(d, Begin).s.q, After(d, Begin).delivery)
  {
  }

  lemma TakeKeepsOrder(d: Driver, mode: Mode, r: Region)
    requires Ready(d) && Possible(d, Take(mode, r))
    ensures Ordered(After(d, Take(mode, r)).s.q, After(d, Take(mode, r)).delivery)
  {
    PartIsDelivered(d.s.q, d.delivery, r);
  }

  lemma EndKeepsOrder(d: Driver)
    requires Ready(d) && d.delivery.Busy?
    ensures Ordered(After(d, End).s.q, Idle)
  {
  }

  predicate PossibleRun(d: Driver, steps: seq<Step>)
    requires Ready(d)
    decreases |steps|
  {
    steps == [] ||
    (Possible(d, steps[0]) && (StepKeepsReady(d, steps[0]); PossibleRun(After(d, steps[0]), steps[1..])))
  }

  function DriverRun(d: Driver, steps: seq<Step>): Driver
    requires Ready(d) && PossibleRun(d, steps)
    decreases |steps|
  {
    if steps == [] then d
    else
      StepKeepsReady(d, steps[0]);
      DriverRun(After(d, steps[0]), steps[1..])
  }

  function EventsOf(d: Driver, steps: seq<Step>): seq<Event>
    requires Ready(d) && PossibleRun(d, steps)
    decreases |steps|
  {
    if steps == [] then []
    else
      StepKeepsReady(d, steps[0]);
      [EventOf(d, steps[0])] + EventsOf(After(d, steps[0]), steps[1..])
  }

  /** Whatever the driver, the hardware and the application do, it is a run that QueueRuns proves safe. */
  lemma {:induction false} DriverRunIsAllowed(d: Driver, steps: seq<Step>)
    requires Ready(d) && PossibleRun(d, steps)
    ensures AllowedRun(d.s, EventsOf(d, steps))
    ensures DriverRun(d, steps).s == Run(d.s, EventsOf(d, steps)) && Ready(DriverRun(d, steps))
    decreases |steps|
  {
    hide Possible, Sound, Ordered, Next, EventOf, DeliveryAfter, Allowed;
    if steps != [] {
      StepKeepsReady(d, steps[0]);
      StepAllowed(d, steps[0]);
      var d' := After(d, steps[0]);
      DriverRunIsAllowed(d', steps[1..]);
      var es := EventsOf(d, steps);
      assert es[0] == EventOf(d, steps[0]) && es[1..] == EventsOf(d', steps[1..]);
    }
  }

  /** Over any run of the driver, a byte of a held region keeps its value until the region is released. */
  lemma DriverKeepsLockedBytes(d: Driver, steps: seq<Step>, r: Region, a: int)
    requires Ready(d) && PossibleRun(d, steps) && r in d.s.q.held
    requires AllowedRun(d.s, EventsOf(d, steps)) && NeverReleased(d.s, EventsOf(d, steps), r)
    requires Inside(d.s.q.base, d.s.q.size, a) && Covers(d.s.q.size, r, a)
    ensures var s' := DriverRun(d, steps).s;
      && r in s'.q.held && |s'.memory| == d.s.q.size
      && s'.memory[a - d.s.q.base] == d.s.memory[a - d.s.q.base]
  {
    hide Safe, Possible, AllowedRun, NeverReleased, Run, EventsOf, DriverRun, PossibleRun, Covers, Ordered;
    DriverRunIsAllowed(d, steps);
    LockedBytesSurvive(d.s, EventsOf(d, steps), r, a);
  }

  /** A stream's delivery is locked as a whole, wherever the one before it ended; the next begins at its end. */
  lemma StreamDelivery(d: Driver)
    requires Ready(d) && d.delivery.Idle? && d.s.q.read != d.s.q.writeStart
    ensures var all := Region(d.s.q.read, d.s.q.writeStart);
      && Ready(After(d, Begin)) && Possible(After(d, Begin), Take(Lock, all))
      && Ready(After(After(d, Begin), Take(Lock, all)))
      && var d' := After(After(d, Begin), Take(Lock, all));
        && d'.s.q == LockData(d.s.q, Lock, all).0 && Possible(d', End)
        && After(d', End) == Driver(d'.s.(q := StreamData(d.s.q)), Idle)
    ensures 0 < Len(d.s.q.size, Region(d.s.q.read, d.s.q.writeStart)) < d.s.q.size
  {
    hide Safe, Allowed, LockData, Delivered;
    StepKeepsReady(d, Begin);
    var b := After(d, Begin);
    assert b.s.q == d.s.q && b.delivery == Busy(d.s.q.read, d.s.q.writeStart);
    SafeInside(d.s.q);
    StepKeepsReady(b, Take(Lock, Region(d.s.q.read, d.s.q.writeStart)));
  }

  /** A stream's interrupt takes something exactly when the hardware's next packet starts elsewhere than was read to. */
  lemma StreamTakesIff(d: Driver)
    requires Ready(d) && d.delivery.Idle?
    ensures StreamData(d.s.q) == d.s.q <==> d.s.q.read == d.s.q.writeStart
    ensures StreamData(d.s.q).read == d.s.q.writeStart && StreamData(d.s.q).writeStart == d.s.q.writeStart
  {
    SafeInside(d.s.q);
    hide Safe, UpdateReadPointer;
  }

  lemma SafeInside(q: Queue)
    requires Safe(q)
    ensures Inside(q.base, q.size, q.process) && Inside(q.base, q.size, q.writeStart)
  {
  }

  // ----- reachable states

  predicate Start(d: Driver) {
    && d.delivery.Idle? && d.s.q == Reset(d.s.q) && |d.s.memory| == d.s.q.size > 0
    && d.s.q.base % 4096 == 0 && d.s.q.size % 4096 == 0
  }

  lemma StartIsReady(d: Driver)
    requires Start(d)
    ensures Ready(d)
  {
    ResetIsSafe(d.s.q);
  }

  /** Some run from a reset queue leads here. */
  ghost predicate Reachable(d: Driver) {
    exists d0: Driver, steps: seq<Step> :: Leads(d0, steps, d)
  }

  predicate Leads(d0: Driver, steps: seq<Step>, d: Driver) {
    Start(d0) && (StartIsReady(d0); PossibleRun(d0, steps)) && (StartIsReady(d0); DriverRun(d0, steps) == d)
  }

  lemma StartReachable(d: Driver)
    requires Start(d)
    ensures Reachable(d) && Ready(d)
  {
    StartIsReady(d);
    assert Leads(d, [], d);
  }

  lemma ReachableReady(d: Driver)
    requires Reachable(d)
    ensures Ready(d)
  {
    var d0, steps :| Leads(d0, steps, d);
    StartIsReady(d0);
    DriverRunIsAllowed(d0, steps);
  }

  lemma {:induction false} RunMore(d: Driver, steps: seq<Step>, step: Step)
    requires Ready(d) && PossibleRun(d, steps) && Ready(DriverRun(d, steps)) && Possible(DriverRun(d, steps), step)
    ensures PossibleRun(d, steps + [step])
    ensures DriverRun(d, steps + [step]) == After(DriverRun(d, steps), step)
    decreases |steps|
  {
    hide Possible, Sound, Ordered, After;
    if steps == [] {
      StepKeepsReady(d, step);
      var all := steps + [step];
      assert all[0] == step && all[1..] == [];
      assert PossibleRun(After(d, step), all[1..]) && DriverRun(After(d, step), all[1..]) == After(d, step);
    } else {
      StepKeepsReady(d, steps[0]);
      RunMore(After(d, steps[0]), steps[1..], step);
      assert (steps + [step])[1..] == steps[1..] + [step];
    }
  }

  lemma Go(d: Driver, step: Step) returns (d': Driver)
    requires Reachable(d) && (ReachableReady(d); Possible(d, step))
    ensures Ready(d) && Reachable(d') && Ready(d') && d' == After(d, step)
  {
    var d0, steps :| Leads(d0, steps, d);
    ReachableReady(d);
    StartIsReady(d0);
    hide Possible, Ordered, After, Sound;
    RunMore(d0, steps, step);
    d' := After(d, step);
    StepKeepsReady(d, step);
    assert Leads(d0, steps + [step], d');
  }
}
