/**
 * A section channel over many deliveries: the table loop reads record after record from memory
 * that the hardware goes on writing to, locks or skips each, and the application may give
 * sections back between any two of them. Every such run is one that the queue's safety covers.
 */
module SectionLocks {
  import opened FilterMatch
  import opened TableWalk
  import opened QueueModel
  import R = Ring
  import S = QueueSafety
  import Q = QueueRuns
  import D = QueueDelivery

  /**
   * Where the loop stands: at word p of the memory, up to word ea, having passed the ring's end
   * so often. The records it was given, where they began, and how many it has seen, the loop
   * itself does not know.
   */
  datatype Walk = NoWalk | Walk(rs: seq<Record>, ba: nat, ea: nat, i: nat, p: nat, wraps: nat)

  datatype Sections = Sections(d: D.Driver, walk: Walk)

  datatype Step =
    | Outside(e: Q.Event)       // hardware, application and interrupts
    | Open(rs: seq<Record>)     // a delivery is taken over; it consists of these records
    | Look(locked: bool)        // one pass of the loop, with what the filters decide
    | Close                     // the loop has ended

  // ----- sections are always recoverable

  /** No region starts where another one ends: a match word lies between any two sections. */
  predicate Apart(held: seq<R.Region>) {
    forall r, s | r in held && s in held :: r.end != s.start
  }

  predicate OnWords(held: seq<R.Region>) {
    forall r | r in held :: r.start % 4 == 0
  }

  predicate Separate(held: seq<R.Region>) {
    Apart(held) && OnWords(held)
  }

  lemma SeparateRecoverable(q: Queue)
    requires S.Safe(q) && Separate(q.held)
    ensures S.Recoverable(q)
  {
    if q.held != [] {
      assert q.held[0] in q.held && q.held[|q.held| - 1] in q.held;
    }
    hide S.Safe, S.Recoverable;
    S.WordsRecoverable(q);
  }

  lemma SubsetSeparate(held: seq<R.Region>, l: seq<R.Region>)
    requires Separate(held) && forall r | r in l :: r in held
    ensures Separate(l)
  {
  }

  lemma UnlockSeparate(q: Queue, k: nat)
    requires S.Safe(q) && Separate(q.held) && k < |q.held|
    ensures Q.UnlockRecovers(q, k) && q.held[k] in q.held
    ensures S.Safe(Q.UnlockRecord(q, k).0) && Separate(Q.UnlockRecord(q, k).0.held)
  {
    S.SafeLaid(q);
    hide S.Safe, S.Recoverable, Separate, S.Without, Q.UnlockRecord, S.Laid;
    Q.UnlockRecordIs(q, k);
    S.WithoutMembers(q.base, q.size, q.held, k);
    SubsetSeparate(q.held, S.Without(q.held, k));
    if q.held[k].start != q.lockAddr {
      S.ReleaseOtherKeepsSafe(q, k);
      SeparateRecoverable(q.(held := S.Without(q.held, k)));
    }
    Q.UnlockSafeIff(q, k);
  }

  lemma {:induction false} SpanSeparate(q: Queue, first: nat, last: int)
    requires S.Safe(q) && S.Laid(q.base, q.size, q.held) && Separate(q.held) && first as int - 1 <= last < |q.held|
    ensures Q.SpanRecovers(q, first, last) && Separate(Q.UnlockRange(q, first, last).0.held)
    decreases last - first + 1
  {
    hide *;
    if last < first {
      Q.UnlockNone(q, first, last);
      SpanNone(q, first, last);
    } else {
      var q' := Q.UnlockLast(q, first, last);
      UnlockSeparate(q, last);
      SpanSeparate(q', first, last - 1);
    }
  }

  lemma SpanNone(q: Queue, first: nat, last: int)
    requires S.Laid(q.base, q.size, q.held) && first as int - 1 == last < |q.held|
    ensures Q.SpanRecovers(q, first, last)
  {
  }

  /** What the hardware and the application may do, apart from moving the hardware during a delivery. */
  predicate Harmless(q: Queue, e: Q.Event) {
    match e
    case HardwareWrite(data) => |data| < S.Room(q)
    case Unlock(k) => k < |q.held|
    case UnlockSpan(first, last) => first <= last < |q.held|
    case _ => D.External(e)
  }

  /** On a section channel recovery is always right, so the driver need not check anything before it. */
  lemma HarmlessAllowed(s: Q.System, e: Q.Event)
    requires Q.Sound(s) && Separate(s.q.held) && Harmless(s.q, e)
    ensures S.Laid(s.q.base, s.q.size, s.q.held) && Q.Allowed(s, e) && D.External(e)
    ensures Separate(Q.Next(s, e).q.held)
  {
    S.SafeLaid(s.q);
    hide S.Safe, S.Laid, S.Recoverable, Separate, Q.SpanRecovers, Q.UnlockRecovers, Q.UnlockRange, Q.UnlockRecord;
    match e
    case Unlock(k) => UnlockSeparate(s.q, k);
    case UnlockSpan(first, last) => SpanSeparate(s.q, first, last);
    case ReadPointerFault =>
      SeparateRecoverable(s.q);
      Q.FaultSafeIff(s.q);
    case ResetQueue => SubsetSeparate(s.q.held, []);
    case _ =>
  }

  lemma EndsApart(base: nat, n: nat, p: int, limit: int, r: R.Region, s: R.Region)
    requires R.Inside(base, n, p) && R.Inside(base, n, limit) && R.RegionInside(base, n, r) && R.RegionInside(base, n, s)
    requires r.start != p && R.Dist(n, p, r.start) + R.Len(n, r) < R.Dist(n, p, limit)
    requires R.Beyond(n, p, limit, s)
    ensures s.end != r.start && r.end != s.start
  {
  }

  /** A delivered region with something in front of it keeps the locks apart. */
  lemma LockSeparate(q: Queue, mode: Mode, r: R.Region)
    requires S.Safe(q) && Separate(q.held) && S.Delivered(q, r) && r.start % 4 == 0 && r.start != q.process
    ensures Separate(LockData(q, mode, r).0.held)
  {
    if mode == Lock && |q.held| < LOCK_CAPACITY {
      if q.held != [] {
        S.RoomEndsBeforeLock(q);
      }
      var i := InsertAt(q.held, r.start);
      NewSeparate(q.base, q.size, q.process, q.lockAddr, q.held, r, i);
    }
  }

  lemma NewSeparate(base: nat, n: nat, p: int, limit: int, held: seq<R.Region>, r: R.Region, i: nat)
    requires i <= |held| && Separate(held) && r.start % 4 == 0 && R.RegionInside(base, n, r)
    requires held != [] ==>
      && R.Inside(base, n, p) && R.Inside(base, n, limit) && r.start != p
      && R.Dist(n, p, r.start) + R.Len(n, r) < R.Dist(n, p, limit)
    requires forall s | s in held :: R.RegionInside(base, n, s) && R.Beyond(n, p, limit, s)
    ensures Separate(held[..i] + [r] + held[i..])
  {
    S.InsertMembers(held, i, r);
    hide R.Beyond, R.Dist, R.Inside;
    forall s | s in held ensures s.end != r.start && r.end != s.start {
      EndsApart(base, n, p, limit, r, s);
    }
  }

  // ----- the loop on memory that changes

  /** Where the loop finds the section of the record at word p, and how long it is. */
  function SectionStart(p: nat, n: nat): (start: nat)
    requires p < n
    ensures start + 4 <= 4 * n && start % 4 == 0
  {
    4 * HeaderAt(p, n)
  }

  function LengthAt(memory: seq<bv8>, p: nat): nat
    requires |memory| % 4 == 0 && p < |memory| / 4
  {
    var start := SectionStart(p, |memory| / 4);
    3 + SectionLength(memory[start + 1], memory[start + 2])
  }

  function RegionAt(memory: seq<bv8>, base: nat, p: nat): R.Region
    requires |memory| % 4 == 0 && p < |memory| / 4
  {
    var start := SectionStart(p, |memory| / 4);
    R.Region(base + start, base + EndAt(start, LengthAt(memory, p), |memory|))
  }

  /** The queue as the loop needs it, and what is left of the delivery. */
  predicate Good(c: Sections) {
    && D.Ready(c.d) && Separate(c.d.s.q.held)
    && match c.walk
      case NoWalk => c.d.delivery.Idle?
      case Walk(rs, ba, ea, i, p, wraps) =>
        && c.d.delivery.Busy? && c.d.delivery.end == c.d.s.q.base + 4 * ea
        && WalkState(c.d.s.memory, |c.d.s.memory| / 4, ba, ea, rs, i, p, wraps)
        && LeftFrom(c.d.s.q, c.d.delivery, p, |Laid(rs[i..])|)
  }

  /** Behind the part looked at come some bytes of padding, and then the rest of the records. */
  predicate LeftFrom(q: Queue, delivery: D.Delivery, p: nat, rest: nat)
    requires delivery.Busy?
  {
    R.Dist(q.size, delivery.at, q.base + 4 * p) + rest == R.Dist(q.size, delivery.at, delivery.end)
  }

  /** What was delivered is a whole number of records. */
  predicate HasRecords(s: Q.System, rs: seq<Record>) {
    var q := s.q;
    && q.base <= q.read && q.base <= q.writeStart && q.read != q.writeStart
    && (q.read - q.base) % 4 == 0 && AllProper(rs) && Holds(s.memory, q.read - q.base, Laid(rs))
    && q.writeStart - q.base == Wrap(q.read - q.base + |Laid(rs)|, |s.memory|)
  }

  predicate Enabled(c: Sections, step: Step)
    requires Good(c)
  {
    match step
    case Outside(e) =>
      && Harmless(c.d.s.q, e)
      && (c.walk.Walk? ==> S.Laid(c.d.s.q.base, c.d.s.q.size, c.d.s.q.held) && !e.ReadPointerFault? && !D.Moves(c.d.s.q, e))
    case Open(rs) => c.walk.NoWalk? && HasRecords(c.d.s, rs)
    case Look(locked) => c.walk.Walk? && c.walk.p != c.walk.ea && c.walk.wraps < 2
    case Close => c.walk.Walk? && !(c.walk.p != c.walk.ea && c.walk.wraps < 2)
  }

  function DriverStep(c: Sections, step: Step): D.Step
    requires c.walk.Walk? ==> |c.d.s.memory| % 4 == 0 && c.walk.p < |c.d.s.memory| / 4
    requires step.Look? ==> c.walk.Walk?
  {
    match step
    case Outside(e) => D.Outside(e)
    case Open(rs) => D.Begin
    case Look(locked) => D.Take(if locked then Lock else Skip, RegionAt(c.d.s.memory, c.d.s.q.base, c.walk.p))
    case Close => D.End
  }

  function WalkAfter(c: Sections, step: Step): Walk
    requires c.walk.Walk? ==> |c.d.s.memory| % 4 == 0 && c.walk.p < |c.d.s.memory| / 4
    requires step.Look? ==> c.walk.Walk?
    requires step.Open? ==> c.d.s.q.base <= c.d.s.q.read && c.d.s.q.base <= c.d.s.q.writeStart
  {
    match step
    case Outside(e) => c.walk
    case Open(rs) =>
      var ba, ea := (c.d.s.q.read - c.d.s.q.base) / 4, (c.d.s.q.writeStart - c.d.s.q.base) / 4;
      Walk(rs, ba, ea, 0, ba, 0)
    case Look(locked) =>
      var n, length := |c.d.s.memory| / 4, LengthAt(c.d.s.memory, c.walk.p);
      var q := HeaderAt(c.walk.p, n);
      c.walk.(i := c.walk.i + 1, p := NextAt(q, length, n), wraps := c.walk.wraps + if Passes(q, length, n) then 1 else 0)
    case Close => NoWalk
  }

  lemma MemoryInWords(c: Sections)
    requires Good(c)
    ensures |c.d.s.memory| % 4 == 0 && c.d.s.q.base % 4 == 0 && |c.d.s.memory| == c.d.s.q.size
    ensures c.walk.Walk? ==> c.walk.p < |c.d.s.memory| / 4
  {
    hide S.Laid, S.LockFirst, S.WindowOpen;
    R.BlockMultiples(c.d.s.q.size);
    R.BlockMultiples(c.d.s.q.base);
  }

  // ----- looking at one record

  /** Positions round a record of `bytes` bytes, of which the section is `length`, behind its match word. */
  lemma AroundRecord(base: nat, n: nat, at: nat, end: nat, p: nat, length: nat, bytes: nat, rest: nat)
    requires R.Inside(base, n, at) && R.Inside(base, n, end) && p < n && 0 < length && 4 + length <= bytes
    requires R.Dist(n, at, base + p) + (bytes + rest) == R.Dist(n, at, end)
    ensures p + bytes < 2 * n
    ensures var s, e, p' := base + Wrap(p + 4, n), base + Wrap(p + 4 + length, n), base + Wrap(p + bytes, n);
      && R.RegionInside(base, n, R.Region(s, e)) && R.Dist(n, at, s) >= 4
      && R.Dist(n, at, s) + R.Len(n, R.Region(s, e)) <= R.Dist(n, at, end)
      && R.Dist(n, e, p') + rest == R.Dist(n, e, end)
  {
  }

  /** The record the loop looks at is the next one, whatever was written to the memory meanwhile. */
  lemma LookFindsRecord(c: Sections)
    requires Good(c) && c.walk.Walk? && c.walk.i < |c.walk.rs|
    ensures |c.d.s.memory| % 4 == 0 && c.walk.p < |c.d.s.memory| / 4
    ensures var r, memory, p := c.walk.rs[c.walk.i], c.d.s.memory, c.walk.p;
      && LengthAt(memory, p) == |r.section| < |memory|
      && RingBytes(memory, SectionStart(p, |memory| / 4), |r.section|) == r.section
      && memory[4 * p..4 * p + 4] == r.word
  {
    hide S.Safe, S.Laid, Separate, WalkState, LengthAt, RingBytes, D.Ready;
    MemoryInWords(c);
    LengthIs(c.d.s.memory, c.walk.p);
    WalkReadsRecord(c.d.s.memory, |c.d.s.memory| / 4, c.walk.ba, c.walk.ea, c.walk.rs, c.walk.i, c.walk.p, c.walk.wraps);
  }

  lemma LengthIs(memory: seq<bv8>, p: nat)
    requires |memory| % 4 == 0 && p < |memory| / 4
    ensures HeaderAt(p, |memory| / 4) < |memory| / 4
    ensures var q := HeaderAt(p, |memory| / 4); LengthAt(memory, p) == 3 + SectionLength(memory[4 * q + 1], memory[4 * q + 2])
  {
  }

  lemma MoreToSee(c: Sections)
    requires Good(c) && c.walk.Walk?
    ensures c.walk.p != c.walk.ea && c.walk.wraps < 2 <==> c.walk.i < |c.walk.rs|
    ensures c.walk.i <= |c.walk.rs|
  {
    WalkContinues(c.d.s.memory, |c.d.s.memory| / 4, c.walk.ba, c.walk.ea, c.walk.rs, c.walk.i, c.walk.p, c.walk.wraps);
  }

  /**
   * The region the loop locks or skips is a part of the delivery, begins on a word, and is not
   * the first of it; behind it come the other records.
   */
  lemma LookTakesPart(c: Sections)
    requires Good(c) && c.walk.Walk? && c.walk.i < |c.walk.rs|
    ensures |c.d.s.memory| % 4 == 0 && c.walk.p < |c.d.s.memory| / 4
    ensures var r, w := RegionAt(c.d.s.memory, c.d.s.q.base, c.walk.p), WalkAfter(c, Look(true));
      && D.Part(c.d.s.q, c.d.delivery, r) && r.start % 4 == 0 && r.start != c.d.s.q.process
      && w.i <= |w.rs| && LeftFrom(c.d.s.q, D.Busy(r.end, c.d.delivery.end), w.p, |Laid(w.rs[w.i..])|)
  {
    MemoryInWords(c);
    LookFindsRecord(c);
    ReadyInside(c.d);
    var q, w := c.d.s.q, c.walk;
    LookAround(q, c.d.s.memory, c.d.delivery, w, |w.rs[w.i].section|);
    SeeRegion(c);
    hide *;
    var r := RegionAt(c.d.s.memory, q.base, c.walk.p);
    BehindFrontier(q.base, q.size, q.process, c.d.delivery.at, c.d.delivery.end, q.writeStart, r);
  }

  lemma SeeRegion(c: Sections)
    requires c.walk.Walk? && |c.d.s.memory| % 4 == 0 && c.walk.p < |c.d.s.memory| / 4
    ensures var n, length := |c.d.s.memory| / 4, LengthAt(c.d.s.memory, c.walk.p);
      && RegionAt(c.d.s.memory, c.d.s.q.base, c.walk.p) == SectionRegion(c.d.s.q.base, c.walk.p, n, length)
      && WalkAfter(c, Look(true)).p == NextAt(HeaderAt(c.walk.p, n), length, n)
      && WalkAfter(c, Look(true)).i == c.walk.i + 1 && WalkAfter(c, Look(true)).rs == c.walk.rs
  {
    hide LengthAt, HeaderAt, NextAt, EndAt;
  }

  function SectionRegion(base: nat, p: nat, n: nat, length: nat): R.Region
    requires p < n
  {
    R.Region(base + SectionStart(p, n), base + EndAt(SectionStart(p, n), length, 4 * n))
  }

  lemma LookAround(q: Queue, memory: seq<bv8>, delivery: D.Delivery, w: Walk, length: nat)
    requires delivery.Busy? && w.Walk? && |memory| % 4 == 0 && q.base % 4 == 0 && |memory| == q.size
    requires w.i < |w.rs| && length == |w.rs[w.i].section|
    requires WalkState(memory, |memory| / 4, w.ba, w.ea, w.rs, w.i, w.p, w.wraps)
    requires LeftFrom(q, delivery, w.p, |Laid(w.rs[w.i..])|)
    requires R.Inside(q.base, q.size, delivery.at) && R.Inside(q.base, q.size, delivery.end)
    ensures w.p < |memory| / 4
    ensures var n := |memory| / 4; var r := SectionRegion(q.base, w.p, n, length);
      && R.RegionInside(q.base, q.size, r) && r.start % 4 == 0 && 4 <= R.Dist(q.size, delivery.at, r.start)
      && R.Dist(q.size, delivery.at, r.start) + R.Len(q.size, r) <= R.Dist(q.size, delivery.at, delivery.end)
      && HeaderAt(w.p, n) <= n
      && LeftFrom(q, D.Busy(r.end, delivery.end), NextAt(HeaderAt(w.p, n), length, n), |Laid(w.rs[w.i + 1..])|)
  {
    hide WalkState, Laid, Bytes, HeaderAt, EndAt, NextAt, Wrap, R.Dist, R.Len, R.Inside, R.RegionInside;
    LookBounds(memory, w);
    var n, bytes, rest := |memory| / 4, |Bytes(w.rs[w.i])|, |Laid(w.rs[w.i + 1..])|;
    RecordLeft(memory, n, w);
    AroundSection(q.base, q.size, delivery.at, delivery.end, 4 * w.p, length, bytes, rest, SectionStart(w.p, n),
                  EndAt(SectionStart(w.p, n), length, 4 * n), 4 * NextAt(HeaderAt(w.p, n), length, n));
  }

  lemma LookBounds(memory: seq<bv8>, w: Walk)
    requires w.Walk? && |memory| % 4 == 0
    requires WalkState(memory, |memory| / 4, w.ba, w.ea, w.rs, w.i, w.p, w.wraps)
    ensures w.p < |memory| / 4 && 4 * (|memory| / 4) == |memory|
  {
  }

  lemma AroundSection(base: nat, n: nat, at: nat, end: nat, p: nat, length: nat, bytes: nat, rest: nat,
                      start: nat, stop: nat, next: nat)
    requires R.Inside(base, n, at) && R.Inside(base, n, end) && p < n && 0 < length && 4 + length <= bytes
    requires R.Dist(n, at, base + p) + (bytes + rest) == R.Dist(n, at, end)
    requires start == Wrap(p + 4, n) && stop == Wrap(p + 4 + length, n) && next == Wrap(p + bytes, n)
    requires start % 4 == 0 && base % 4 == 0
    ensures var r := R.Region(base + start, base + stop);
      && R.RegionInside(base, n, r) && r.start % 4 == 0 && 4 <= R.Dist(n, at, r.start)
      && R.Dist(n, at, r.start) + R.Len(n, r) <= R.Dist(n, at, end)
      && R.Dist(n, r.end, base + next) + rest == R.Dist(n, r.end, end)
  {
    AroundRecord(base, n, at, end, p, length, bytes, rest);
    R.SumOfMultiples(4, base, start);
  }

  lemma ReadyInside(d: D.Driver)
    requires D.Ready(d) && d.delivery.Busy?
    ensures var q := d.s.q;
      && R.Inside(q.base, q.size, q.process) && R.Inside(q.base, q.size, q.writeStart)
      && R.Inside(q.base, q.size, d.delivery.at) && R.Inside(q.base, q.size, d.delivery.end)
      && R.Dist(q.size, q.process, d.delivery.at) + R.Dist(q.size, d.delivery.at, d.delivery.end)
         <= R.Dist(q.size, q.process, q.writeStart)
  {
  }

  lemma BehindFrontier(base: nat, n: nat, p: int, at: int, end: int, start: int, r: R.Region)
    requires R.Inside(base, n, p) && R.Inside(base, n, at) && R.Inside(base, n, end) && R.Inside(base, n, start)
    requires R.RegionInside(base, n, r)
    requires R.Dist(n, p, at) + R.Dist(n, at, end) <= R.Dist(n, p, start)
    requires 4 <= R.Dist(n, at, r.start) && R.Dist(n, at, r.start) + R.Len(n, r) <= R.Dist(n, at, end)
    ensures r.start != p
  {
  }

  /** One record's share of what is left, and where its section and the next record are. */
  lemma RecordLeft(memory: seq<bv8>, n: nat, w: Walk)
    requires w.Walk? && n == |memory| / 4 && w.i < |w.rs|
    requires WalkState(memory, n, w.ba, w.ea, w.rs, w.i, w.p, w.wraps)
    ensures var r, rest, q := w.rs[w.i], |Laid(w.rs[w.i + 1..])|, HeaderAt(w.p, n);
      && |Laid(w.rs[w.i..])| == |Bytes(r)| + rest && |Bytes(r)| + rest < 4 * n && 0 < |r.section| && 4 + |r.section| <= |Bytes(r)|
      && q < n && 4 * q == Wrap(4 * w.p + 4, 4 * n)
      && EndAt(4 * q, |r.section|, 4 * n) == Wrap(4 * w.p + 4 + |r.section|, 4 * n)
      && NextAt(q, |r.section|, n) < n && 4 * NextAt(q, |r.section|, n) == Wrap(4 * w.p + |Bytes(r)|, 4 * n)
  {
    OffsetNext(w.rs, w.i);
    ProperAt(w.rs, w.i);
    PaddedLength(w.rs[w.i]);
    hide Laid, Bytes, Offset, Holds, HeaderAt, NextAt, EndAt, Wrap;
    StepPositions(n, w.p, w.rs[w.i], |Laid(w.rs[w.i + 1..])|);
  }

  // ----- every step

  lemma StepPossible(c: Sections, step: Step)
    requires Good(c) && Enabled(c, step)
    ensures c.walk.Walk? ==> |c.d.s.memory| % 4 == 0 && c.walk.p < |c.d.s.memory| / 4
    ensures step.Look? ==> c.walk.Walk?
    ensures D.Possible(c.d, DriverStep(c, step))
  {
    hide S.Safe, S.Laid, Separate, WalkState, D.Part, Laid, LengthAt;
    MemoryInWords(c);
    match step
    case Outside(e) => HarmlessAllowed(c.d.s, e);
    case Look(locked) =>
      MoreToSee(c);
      LookTakesPart(c);
    case _ =>
  }

  function Next(c: Sections, step: Step): Sections
    requires Good(c) && Enabled(c, step)
  {
    StepPossible(c, step);
    Sections(D.After(c.d, DriverStep(c, step)), WalkAfter(c, step))
  }

  lemma LookKeepsGood(c: Sections, locked: bool)
    requires Good(c) && Enabled(c, Look(locked))
    ensures Good(Next(c, Look(locked)))
  {
    hide S.Safe, S.Laid, Separate, WalkState, D.Part, Laid, LengthAt, RegionAt, LeftFrom, LockData, D.Ordered;
    var step := Look(locked);
    StepPossible(c, step);
    MoreToSee(c);
    LookTakesPart(c);
    D.StepKeepsReady(c.d, DriverStep(c, step));
    ReadyInside(c.d);
    var r := RegionAt(c.d.s.memory, c.d.s.q.base, c.walk.p);
    D.PartIsDelivered(c.d.s.q, c.d.delivery, r);
    LockSeparate(c.d.s.q, if locked then Lock else Skip, r);
    LookMoves(c);
    LockKeepsRing(c.d.s.q, if locked then Lock else Skip, r);
    var c', w := Next(c, step), WalkAfter(c, step);
    assert w == WalkAfter(c, Look(true));
    assert c'.d.s.memory == c.d.s.memory && c'.d.delivery == D.Busy(r.end, c.d.delivery.end);
    LeftSame(c.d.s.q, c'.d.s.q, c'.d.delivery, w.p, |Laid(w.rs[w.i..])|);
  }

  lemma LockKeepsRing(q: Queue, mode: Mode, r: R.Region)
    ensures var q' := LockData(q, mode, r).0; q'.base == q.base && q'.size == q.size && q'.writeStart == q.writeStart
  {
  }

  lemma LookMoves(c: Sections)
    requires Good(c) && c.walk.Walk? && c.walk.i < |c.walk.rs|
    requires |c.d.s.memory| % 4 == 0 && c.walk.p < |c.d.s.memory| / 4
    ensures var w := WalkAfter(c, Look(true)); WalkState(c.d.s.memory, |c.d.s.memory| / 4, w.ba, w.ea, w.rs, w.i, w.p, w.wraps)
  {
    hide S.Safe, S.Laid, Separate, WalkState, D.Part, Laid, LengthAt, LeftFrom, D.Ready;
    LookFindsRecord(c);
    var n, w, w' := |c.d.s.memory| / 4, c.walk, WalkAfter(c, Look(true));
    LengthIs(c.d.s.memory, w.p);
    WalkMoves(c.d.s.memory, n, w.ba, w.ea, w.rs, w.i, w.p, w.wraps, HeaderAt(w.p, n), w'.p, w'.wraps);
  }

  /** The records the loop has not come to are where they were, and so is the loop. */
  lemma WalkStays(memory: seq<bv8>, memory': seq<bv8>, w: Walk)
    requires w.Walk? && |memory'| == |memory|
    requires WalkState(memory, |memory| / 4, w.ba, w.ea, w.rs, w.i, w.p, w.wraps)
    requires forall k | 0 <= k < |Laid(w.rs[w.i..])| :: SameByte(memory, memory', 4 * w.p, k)
    ensures WalkState(memory', |memory'| / 4, w.ba, w.ea, w.rs, w.i, w.p, w.wraps)
  {
    hide Laid, AllProper, Offset;
    HoldsStays(memory, memory', 4 * w.p, Laid(w.rs[w.i..]));
  }

  lemma HoldsStays(memory: seq<bv8>, memory': seq<bv8>, at: nat, bytes: seq<bv8>)
    requires Holds(memory, at, bytes) && |memory'| == |memory|
    requires forall k | 0 <= k < |bytes| :: SameByte(memory, memory', at, k)
    ensures Holds(memory', at, bytes)
  {
    forall k | 0 <= k < |bytes| ensures memory'[Wrap(at + k, |memory'|)] == bytes[k] {
      assert SameByte(memory, memory', at, k);
    }
  }

  predicate SameByte(memory: seq<bv8>, memory': seq<bv8>, at: nat, k: nat) {
    at + k < 2 * |memory| && |memory'| == |memory| && memory'[Wrap(at + k, |memory|)] == memory[Wrap(at + k, |memory|)]
  }

  lemma UnreadAhead(base: nat, n: nat, p: int, at: int, end: int, start: int, a: nat, rest: nat, k: nat)
    requires R.Inside(base, n, p) && R.Inside(base, n, at) && R.Inside(base, n, end) && R.Inside(base, n, start)
    requires a < n && k < rest && R.Dist(n, at, base + a) + rest == R.Dist(n, at, end)
    requires R.Dist(n, p, at) + R.Dist(n, at, end) <= R.Dist(n, p, start)
    ensures a + k < 2 * n
    ensures R.Inside(base, n, base + Wrap(a + k, n))
    ensures R.Dist(n, p, base + Wrap(a + k, n)) < R.Dist(n, p, start)
  {
  }

  lemma OutsideKeepsGood(c: Sections, e: Q.Event)
    requires Good(c) && Enabled(c, Outside(e))
    ensures Good(Next(c, Outside(e)))
  {
    hide S.Safe, S.Laid, Separate, WalkState, Laid, LeftFrom, Q.Allowed, Q.Next, D.Ordered, D.Moves, Harmless;
    StepPossible(c, Outside(e));
    HarmlessAllowed(c.d.s, e);
    D.StepKeepsReady(c.d, D.Outside(e));
    if c.walk.Walk? {
      MoreToSee(c);
      RecordsStay(c, e);
      LeftSame(c.d.s.q, Q.Next(c.d.s, e).q, c.d.delivery, c.walk.p, |Laid(c.walk.rs[c.walk.i..])|);
    }
  }

  lemma LeftSame(q: Queue, q': Queue, delivery: D.Delivery, p: nat, rest: nat)
    requires delivery.Busy? && S.SameRing(q, q') && LeftFrom(q, delivery, p, rest)
    ensures LeftFrom(q', delivery, p, rest)
  {
  }

  /** Whatever the hardware writes meanwhile, it does not write over records still to be looked at. */
  lemma RecordsStay(c: Sections, e: Q.Event)
    requires Good(c) && c.walk.Walk? && Q.Allowed(c.d.s, e)
    ensures S.Safe(c.d.s.q) && |c.d.s.memory| == c.d.s.q.size
    ensures var memory' := Q.Next(c.d.s, e).memory;
      && |memory'| == |c.d.s.memory|
      && WalkState(memory', |memory'| / 4, c.walk.ba, c.walk.ea, c.walk.rs, c.walk.i, c.walk.p, c.walk.wraps)
  {
    hide S.Safe, S.Laid, Separate, Laid, Q.Allowed, Q.Next, D.Ordered, R.Dist, R.Inside, Holds, Offset;
    MemoryInWords(c);
    ReadyInside(c.d);
    var s, w, d := c.d.s, c.walk, c.d.delivery;
    var rest, memory' := |Laid(w.rs[w.i..])|, Q.Next(s, e).memory;
    Q.StepKeepsSafe(s, e);
    MemoryKeepsSize(s, e);
    forall k | 0 <= k < rest ensures SameByte(s.memory, memory', 4 * w.p, k) {
      UnreadAhead(s.q.base, s.q.size, s.q.process, d.at, d.end, s.q.writeStart, 4 * w.p, rest, k);
      Q.StepKeepsUnread(s, e, s.q.base + Wrap(4 * w.p + k, s.q.size));
    }
    WalkStays(s.memory, memory', w);
  }

  lemma MemoryKeepsSize(s: Q.System, e: Q.Event)
    requires Q.Sound(s) && Q.Allowed(s, e)
    ensures |Q.Next(s, e).memory| == |s.memory|
  {
  }

  lemma OpenKeepsGood(c: Sections, rs: seq<Record>)
    requires Good(c) && Enabled(c, Open(rs))
    ensures Good(Next(c, Open(rs)))
  {
    hide S.Safe, S.Laid, Separate, Laid, Q.Allowed, Holds, AllProper;
    StepPossible(c, Open(rs));
    D.StepKeepsReady(c.d, D.Begin);
    var q, memory := c.d.s.q, c.d.s.memory;
    MemoryInWords(c);
    var at, end := q.read - q.base, q.writeStart - q.base;
    HoldsFits(memory, at, Laid(rs));
    EndOnWord(at, |Laid(rs)|, |memory|, end, rs);
    WalkStarts(memory, at / 4, end / 4, rs);
    WholeDelivery(q.base, q.size, q.read, q.writeStart, |Laid(rs)|);
    assert rs[0..] == rs;
  }

  lemma HoldsFits(memory: seq<bv8>, at: nat, bytes: seq<bv8>)
    requires Holds(memory, at, bytes)
    ensures at < |memory| && |bytes| < |memory|
  {
  }

  lemma WholeDelivery(base: nat, n: nat, read: nat, start: nat, bytes: nat)
    requires R.Inside(base, n, read) && bytes < n && start - base == Wrap(read - base + bytes, n)
    ensures R.Dist(n, read, read) + bytes == R.Dist(n, read, start)
  {
  }

  lemma EndOnWord(at: nat, bytes: nat, n: nat, end: nat, rs: seq<Record>)
    requires at % 4 == 0 && n % 4 == 0 && at < n && bytes < n && end == Wrap(at + bytes, n)
    requires bytes == |Laid(rs)| && AllProper(rs)
    ensures end % 4 == 0 && end < n
  {
    LaidOnWords(rs);
    R.SumOfMultiples(4, at, bytes);
    R.SumOfMultiples(4, at + bytes, n);
  }

  lemma {:induction false} LaidOnWords(rs: seq<Record>)
    requires AllProper(rs)
    ensures |Laid(rs)| % 4 == 0
  {
    if rs != [] {
      PaddedLength(rs[0]);
      LaidOnWords(rs[1..]);
      R.SumOfMultiples(4, |Bytes(rs[0])|, |Laid(rs[1..])|);
    }
  }

  /** Every step of a section channel is one the driver may make, and leaves the channel as the next one needs it. */
  lemma StepKeepsGood(c: Sections, step: Step)
    requires Good(c) && Enabled(c, step)
    ensures Good(Next(c, step))
  {
    hide S.Safe, Separate, WalkState, Enabled, D.Ordered, LeftFrom, Q.Allowed;
    match step
    case Outside(e) => OutsideKeepsGood(c, e);
    case Open(rs) => OpenKeepsGood(c, rs);
    case Look(locked) => LookKeepsGood(c, locked);
    case Close => CloseKeepsGood(c);
  }

  lemma CloseKeepsGood(c: Sections)
    requires Good(c) && Enabled(c, Close)
    ensures Good(Next(c, Close))
  {
    hide S.Safe, Separate, WalkState, LeftFrom, Q.Allowed;
    StepPossible(c, Close);
    D.StepKeepsReady(c.d, D.End);
  }

  // ----- runs over many deliveries

  predicate EnabledRun(c: Sections, steps: seq<Step>)
    requires Good(c)
    decreases |steps|
  {
    steps == [] ||
    (Enabled(c, steps[0]) && (StepKeepsGood(c, steps[0]); EnabledRun(Next(c, steps[0]), steps[1..])))
  }

  function Run(c: Sections, steps: seq<Step>): Sections
    requires Good(c) && EnabledRun(c, steps)
    decreases |steps|
  {
    if steps == [] then c
    else
      StepKeepsGood(c, steps[0]);
      Run(Next(c, steps[0]), steps[1..])
  }

  function DriverSteps(c: Sections, steps: seq<Step>): seq<D.Step>
    requires Good(c) && EnabledRun(c, steps)
    decreases |steps|
  {
    if steps == [] then []
    else
      StepKeepsGood(c, steps[0]);
      StepPossible(c, steps[0]);
      [DriverStep(c, steps[0])] + DriverSteps(Next(c, steps[0]), steps[1..])
  }

  /** Any number of deliveries, with anything in between, is a run of the driver and so one of the queue. */
  lemma {:induction false} SectionRunIsDriverRun(c: Sections, steps: seq<Step>)
    requires Good(c) && EnabledRun(c, steps)
    ensures D.PossibleRun(c.d, DriverSteps(c, steps)) && Good(Run(c, steps))
    ensures Run(c, steps).d == D.DriverRun(c.d, DriverSteps(c, steps))
    decreases |steps|
  {
    hide Enabled, S.Safe, Separate, WalkState, D.Ordered, LeftFrom, D.Possible, DriverStep, WalkAfter, D.After;
    if steps != [] {
      StepKeepsGood(c, steps[0]);
      StepPossible(c, steps[0]);
      D.StepKeepsReady(c.d, DriverStep(c, steps[0]));
      SectionRunIsDriverRun(Next(c, steps[0]), steps[1..]);
      var ds := DriverSteps(c, steps);
      assert ds[0] == DriverStep(c, steps[0]) && ds[1..] == DriverSteps(Next(c, steps[0]), steps[1..]);
    }
  }

  /** A queue that was just reset may carry sections. */
  lemma StartIsGood(d: D.Driver)
    requires D.Start(d)
    ensures Good(Sections(d, NoWalk))
  {
    D.StartIsReady(d);
  }

  /** The loop ends when it has seen every record, and not before. */
  lemma LoopSeesAll(c: Sections)
    requires Good(c)
    ensures Enabled(c, Close) <==> c.walk.Walk? && c.walk.i == |c.walk.rs|
    ensures forall locked :: Enabled(c, Look(locked)) <==> c.walk.Walk? && c.walk.i < |c.walk.rs|
  {
    hide S.Safe, Separate, WalkState, LeftFrom, D.Ready;
    if c.walk.Walk? {
      MoreToSee(c);
    }
  }

  lemma DeliveredIsNew(q: Queue, r: R.Region)
    requires S.Safe(q) && S.Delivered(q, r)
    ensures r !in q.held
  {
    if r in q.held {
      S.RoomEndsBeforeLock(q);
    }
  }

  /** A section the filters want is locked if and only if the list has room; a refused or unwanted one is not. */
  lemma LookLocksIff(c: Sections, locked: bool)
    requires Good(c) && Enabled(c, Look(locked))
    ensures |c.d.s.memory| % 4 == 0 && c.walk.p < |c.d.s.memory| / 4
    ensures var r := RegionAt(c.d.s.memory, c.d.s.q.base, c.walk.p);
      r in Next(c, Look(locked)).d.s.q.held <==> locked && |c.d.s.q.held| < LOCK_CAPACITY
    ensures forall s | s in c.d.s.q.held :: s in Next(c, Look(locked)).d.s.q.held
  {
    hide S.Laid, S.LockFirst, S.WindowOpen, Separate, WalkState, Laid, LengthAt, RegionAt, LeftFrom;
    MoreToSee(c);
    LookTakesPart(c);
    ReadyInside(c.d);
    var q, r := c.d.s.q, RegionAt(c.d.s.memory, c.d.s.q.base, c.walk.p);
    D.PartIsDelivered(q, c.d.delivery, r);
    DeliveredIsNew(q, r);
    if |q.held| < LOCK_CAPACITY {
      S.InsertMembers(q.held, InsertAt(q.held, r.start), r);
    }
  }

  lemma SectionByte(base: nat, n: nat, start: nat, length: nat, stop: nat, k: nat)
    requires start < n && 0 < length < n && k < length && stop == EndAt(start, length, n)
    ensures R.Inside(base, n, base + Wrap(start + k, n))
    ensures R.Covers(n, R.Region(base + start, base + stop), base + Wrap(start + k, n))
  {
  }

  /**
   * From the moment the loop looks at a section that is wanted, and while the application does
   * not give it back, the memory holds that section: over any number of further deliveries,
   * recoveries between them, and releases of other sections in any order.
   */
  lemma SectionSurvives(c: Sections, c': Sections, steps: seq<Step>, r: R.Region)
    requires Good(c) && Enabled(c, Look(true)) && |c.d.s.q.held| < LOCK_CAPACITY && c' == Next(c, Look(true)) && Good(c')
    requires c.walk.Walk? && c.walk.i < |c.walk.rs| && |c.d.s.memory| % 4 == 0 && c.walk.p < |c.d.s.memory| / 4
    requires r == RegionAt(c.d.s.memory, c.d.s.q.base, c.walk.p)
    requires EnabledRun(c', steps) && D.PossibleRun(c'.d, DriverSteps(c', steps))
    requires Q.AllowedRun(c'.d.s, D.EventsOf(c'.d, DriverSteps(c', steps)))
    requires Q.NeverReleased(c'.d.s, D.EventsOf(c'.d, DriverSteps(c', steps)), r)
    ensures var memory, section := Run(c', steps).d.s.memory, c.walk.rs[c.walk.i].section;
      && |memory| == |c.d.s.memory| && |section| <= |memory|
      && RingBytes(memory, SectionStart(c.walk.p, |memory| / 4), |section|) == section
      && r in Run(c', steps).d.s.q.held
  {
    hide *;
    var start, section := SectionStart(c.walk.p, |c.d.s.memory| / 4), c.walk.rs[c.walk.i].section;
    LookFindsRecord(c);
    LookLocksIff(c, true);
    SectionRunIsDriverRun(c', steps);
    LookKeepsMemory(c);
    LookRegion(c, r);
    GoodReady(c');
    var memory := Run(c', steps).d.s.memory;
    SectionByteStays(c, c', steps, r, start, |section|, 0);
    forall k | 0 <= k < |section| ensures memory[Wrap(start + k, |memory|)] == section[k] {
      SectionByteStays(c, c', steps, r, start, |section|, k);
      RingByte(c.d.s.memory, start, |section|, k);
    }
    SameRingBytes(memory, start, section);
  }

  lemma SectionByteStays(c: Sections, c': Sections, steps: seq<Step>, r: R.Region, start: nat, length: nat, k: nat)
    requires Good(c') && EnabledRun(c', steps) && r in c'.d.s.q.held && D.Ready(c'.d)
    requires c'.d.s.memory == c.d.s.memory && |c.d.s.memory| == c'.d.s.q.size && c'.d.s.q.base == c.d.s.q.base
    requires D.PossibleRun(c'.d, DriverSteps(c', steps)) && Run(c', steps).d == D.DriverRun(c'.d, DriverSteps(c', steps))
    requires Q.Sound(c'.d.s) && Q.AllowedRun(c'.d.s, D.EventsOf(c'.d, DriverSteps(c', steps)))
    requires Q.NeverReleased(c'.d.s, D.EventsOf(c'.d, DriverSteps(c', steps)), r)
    requires start < |c.d.s.memory| && k < length < |c.d.s.memory|
    requires r == R.Region(c.d.s.q.base + start, c.d.s.q.base + EndAt(start, length, |c.d.s.memory|))
    ensures var end := Run(c', steps).d.s;
      && r in end.q.held && |end.memory| == |c.d.s.memory|
      && end.memory[Wrap(start + k, |end.memory|)] == c.d.s.memory[Wrap(start + k, |c.d.s.memory|)]
  {
    hide *;
    SectionByte(c.d.s.q.base, |c.d.s.memory|, start, length, r.end - c.d.s.q.base, k);
    D.DriverKeepsLockedBytes(c'.d, DriverSteps(c', steps), r, c.d.s.q.base + Wrap(start + k, |c.d.s.memory|));
  }

  lemma GoodReady(c: Sections)
    requires Good(c)
    ensures D.Ready(c.d) && Q.Sound(c.d.s)
  {
  }

  lemma RingByte(memory: seq<bv8>, start: nat, length: nat, k: nat)
    requires start < |memory| && k < length <= |memory|
    ensures RingBytes(memory, start, length)[k] == memory[Wrap(start + k, |memory|)]
  {
  }

  lemma SameRingBytes(memory: seq<bv8>, start: nat, section: seq<bv8>)
    requires start < |memory| && 0 < |section| <= |memory|
    requires forall k | 0 <= k < |section| :: memory[Wrap(start + k, |memory|)] == section[k]
    ensures RingBytes(memory, start, |section|) == section
  {
  }

  lemma LookKeepsMemory(c: Sections)
    requires Good(c) && Enabled(c, Look(true))
    ensures Next(c, Look(true)).d.s.memory == c.d.s.memory && S.SameRing(c.d.s.q, Next(c, Look(true)).d.s.q)
    ensures |c.d.s.memory| == c.d.s.q.size == Next(c, Look(true)).d.s.q.size
    ensures c.d.s.q.base == Next(c, Look(true)).d.s.q.base
  {
    hide S.Laid, S.LockFirst, S.WindowOpen, Separate, WalkState, Laid, LengthAt, RegionAt, LeftFrom;
  }

  lemma LookRegion(c: Sections, r: R.Region)
    requires Good(c) && c.walk.Walk? && c.walk.i < |c.walk.rs| && |c.d.s.memory| % 4 == 0 && c.walk.p < |c.d.s.memory| / 4
    requires r == RegionAt(c.d.s.memory, c.d.s.q.base, c.walk.p)
    ensures var start, length := SectionStart(c.walk.p, |c.d.s.memory| / 4), |c.walk.rs[c.walk.i].section|;
      && start < |c.d.s.memory| && 0 < length < |c.d.s.memory|
      && r == R.Region(c.d.s.q.base + start, c.d.s.q.base + EndAt(start, length, |c.d.s.memory|))
  {
    hide Good, LengthAt, EndAt, Proper;
    LookFindsRecord(c);
    SectionNotEmpty(c);
  }

  /** What the loop locks or skips is what TableWalk reports of the same record. */
  lemma LookIsVisit(c: Sections)
    requires Good(c) && c.walk.Walk? && c.walk.i < |c.walk.rs|
    ensures |c.d.s.memory| % 4 == 0 && c.walk.p < |c.d.s.memory| / 4
    ensures var size, w := |c.d.s.memory|, c.walk;
      && AllProper(w.rs) && 4 * w.ba < size && Offset(w.rs, w.i) + |Bytes(w.rs[w.i])| < size
      && var v := VisitOf(w.rs, w.i, 4 * w.ba, size);
        RegionAt(c.d.s.memory, c.d.s.q.base, w.p) == R.Region(c.d.s.q.base + v.start, c.d.s.q.base + v.end)
  {
    hide S.Safe, S.Laid, Separate, WalkState, LengthAt, VisitOf, D.Ready, Offset, Bytes, AllProper, EndAt, HeaderAt;
    MemoryInWords(c);
    LookFindsRecord(c);
    var n, w := |c.d.s.memory| / 4, c.walk;
    WalkVisits(c.d.s.memory, n, w.ba, w.ea, w.rs, w.i, w.p, w.wraps);
    WalkBounds(c.d.s.memory, n, w.ba, w.ea, w.rs, w.i, w.p, w.wraps);
  }

  lemma SectionNotEmpty(c: Sections)
    requires Good(c) && c.walk.Walk? && c.walk.i < |c.walk.rs|
    ensures |c.walk.rs[c.walk.i].section| >= 3
  {
    hide S.Safe, Separate, LeftFrom, Holds, Laid, Offset;
    ProperAt(c.walk.rs, c.walk.i);
  }

  // ----- deliveries do arrive

  /** When the hardware has written whole records and delivers them, the loop can be given them. */
  lemma RecordsArrive(c: Sections, rs: seq<Record>) returns (c1: Sections, c2: Sections)
    requires Good(c) && c.walk.NoWalk? && AllProper(rs) && rs != [] && |Laid(rs)| < S.Room(c.d.s.q)
    requires c.d.s.q.read == c.d.s.q.writeStart == c.d.s.q.writeNow && (c.d.s.q.read - c.d.s.q.base) % 4 == 0
    ensures Enabled(c, Outside(Q.HardwareWrite(Laid(rs)))) && c1 == Next(c, Outside(Q.HardwareWrite(Laid(rs))))
    ensures Good(c1) && Enabled(c1, Outside(Q.HardwareDeliver)) && c2 == Next(c1, Outside(Q.HardwareDeliver))
    ensures Good(c2) && Enabled(c2, Open(rs))
  {
    hide S.Safe, Separate, Laid, Holds, S.Room, Q.Written, Q.Advance, D.Ready, Bytes, Proper, AllProper, WalkState;
    var data := Laid(rs);
    SomeBytes(rs);
    GoodReady(c);
    ReadyStart(c.d);
    WrittenHolds(c.d.s.q, c.d.s.memory, data);
    StepKeepsGood(c, Outside(Q.HardwareWrite(data)));
    c1 := Next(c, Outside(Q.HardwareWrite(data)));
    StepKeepsGood(c1, Outside(Q.HardwareDeliver));
    c2 := Next(c1, Outside(Q.HardwareDeliver));
  }

  lemma SomeBytes(rs: seq<Record>)
    requires AllProper(rs) && rs != []
    ensures |Laid(rs)| > 0
  {
    PaddedLength(rs[0]);
  }

  lemma ReadyStart(d: D.Driver)
    requires D.Ready(d)
    ensures R.Inside(d.s.q.base, d.s.q.size, d.s.q.writeNow) && |d.s.memory| == d.s.q.size && S.Room(d.s.q) <= d.s.q.size
  {
  }

  lemma WrittenHolds(q: Queue, memory: seq<bv8>, data: seq<bv8>)
    requires R.Inside(q.base, q.size, q.writeNow) && |memory| == q.size && 0 < |data| < q.size
    ensures Holds(Q.Written(q, memory, data), q.writeNow - q.base, data)
    ensures var a := Q.Advance(q, q.writeNow, |data|);
      a >= q.base && a - q.base == Wrap(q.writeNow - q.base + |data|, q.size) && a != q.writeNow
  {
    var at, written := q.writeNow - q.base, Q.Written(q, memory, data);
    forall k | 0 <= k < |data| ensures written[Wrap(at + k, |written|)] == data[k] {
      assert R.Dist(q.size, q.writeNow, q.base + Wrap(at + k, q.size)) == k;
    }
  }
}
