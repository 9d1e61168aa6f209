/**
 * From the memory of a section channel into the buffers of its filters: one pass of the table loop
 * with the decision of the hardware and software filters and the callback, and a callback's work at
 * any later time before the section is given back.
 */
module SectionDelivery {
  import opened FilterTables
  import opened FilterMatch
  import opened FilterCheck
  import opened TableWalk
  import opened SectionBuffer
  import opened DemuxCallbacks
  import Model = QueueModel
  import S = QueueSafety
  import R = Ring
  import Q = QueueRuns
  import D = QueueDelivery
  import L = SectionLocks

  /** What the callback is told of the record at word p. */
  function InfoAt(memory: seq<bv8>, channel: nat, wanted: seq<bool>, p: nat): (info: Info)
    requires |memory| % 4 == 0 && p < |memory| / 4
  {
    Info(channel, wanted, L.SectionStart(p, |memory| / 4), L.LengthAt(memory, p))
  }

  /** What a filter's buffer is left with: the section behind the others, if it is for the filter and fits. */
  function Taken(size: nat, sections: seq<seq<bv8>>, matched: bool, section: seq<bv8>): seq<seq<bv8>> {
    if matched && |section| > 3 then Next(size, sections, Arrive(section)) else sections
  }

  /** The callback passes on the section that is in memory, byte by byte. */
  lemma ReceivedIsSection(memory: seq<bv8>, info: Info, section: seq<bv8>, size: nat, sections: seq<seq<bv8>>, matched: bool)
    requires OnQueue(info, memory) && info.length == |section| >= 3
    requires RingBytes(memory, info.start, |section|) == section
    requires |section| == 3 + SectionLength(section[1], section[2])
    ensures Received(size, sections, matched, info, memory) == Taken(size, sections, matched, section)
  {
    HeaderOnQueue(info, memory);
    L.RingByte(memory, info.start, |section|, 1);
    L.RingByte(memory, info.start, |section|, 2);
    assert Wrap(info.start + 1, |memory|) == info.start + 1 && Wrap(info.start + 2, |memory|) == info.start + 2;
    hide RingBytes, Next, SectionLength;
    assert Stated(info, memory) == |section|;
  }

  /** The record a section channel looks at next. */
  lemma NextRecord(c: L.Sections) returns (r: Record)
    requires L.Good(c) && c.walk.Walk? && c.walk.i < |c.walk.rs|
    ensures r == c.walk.rs[c.walk.i] && Proper(r) && |c.d.s.memory| % 4 == 0 && c.walk.p < |c.d.s.memory| / 4
    ensures var memory, p := c.d.s.memory, c.walk.p;
      && L.LengthAt(memory, p) == |r.section| < |memory| && L.SectionStart(p, |memory| / 4) < |memory|
      && RingBytes(memory, L.SectionStart(p, |memory| / 4), |r.section|) == r.section
      && memory[4 * p..4 * p + 4] == r.word
  {
    hide L.LengthAt, RingBytes, Proper;
    L.LookFindsRecord(c);
    r := c.walk.rs[c.walk.i];
    RecordIsProper(c);
  }

  lemma RecordIsProper(c: L.Sections)
    requires L.Good(c) && c.walk.Walk? && c.walk.i < |c.walk.rs|
    ensures Proper(c.walk.rs[c.walk.i])
  {
    hide L.Separate, L.LeftFrom, D.Ready, Holds, Laid, Offset;
    ProperAt(c.walk.rs, c.walk.i);
  }

  class Receiver {
    const walker: Walker
    const filters: seq<SectionFilter>
    const channel: nat

    constructor (walker: Walker, filters: seq<SectionFilter>, channel: nat)
      ensures this.walker == walker && this.filters == filters && this.channel == channel
    {
      this.walker, this.filters, this.channel := walker, filters, channel;
    }

    /**
     * One pass of the loop over a delivery: the record is looked at where it is in memory, the
     * filters decide on it, it is locked or skipped accordingly, and if it is locked, or would have
     * been but for lack of room, every filter whose bits are among those left gets exactly its section.
     */
    method Pass(c: L.Sections, ch: Channel, filtering: bool, short: Short)
        returns (c': L.Sections, wanted: seq<bool>, locked: bool, unlocks: nat)
      requires L.Good(c) && c.walk.Walk? && c.walk.i < |c.walk.rs|
      requires Usable(walker.checker.slots[..], ch) && NamedOnce(ch)
      requires Separate(filters) && AllValid(filters)
      requires forall a | a in Arrays(filters) :: a as object != walker.checker.slots
      modifies walker.checker.slots, filters, Buffers(filters), Arrays(filters)
      ensures AllValid(filters) && Usable(walker.checker.slots[..], ch)
      ensures Proper(c.walk.rs[c.walk.i])
      ensures Answered(old(walker.checker.slots[..]), walker.checker.slots[..], ch, c.walk.rs[c.walk.i], filtering, short,
                       wanted, locked)
      ensures L.Enabled(c, L.Look(locked)) && c' == L.Next(c, L.Look(locked)) && L.Good(c')
      ensures forall k | 0 <= k < |filters| ::
        filters[k].sections == Taken(filters[k].buffer.data.Length, old(filters[k].sections),
                                     locked && ForFilter(channel, wanted, filters[k]), c.walk.rs[c.walk.i].section)
      ensures unlocks == if locked && exists k :: 0 <= k < |filters| && ForFilter(channel, wanted, filters[k]) then 1 else 0
    {
      hide Usable, NamedOnce, Answered, AllValid, Separate, L.Good, L.Enabled, Proper, MatchBits, L.LengthAt, RingBytes;
      hide Received, Taken, L.Next, Matched;
      ghost var r := NextRecord(c);
      var memory, p := c.d.s.memory, c.walk.p;
      var start, length := L.SectionStart(p, |memory| / 4), L.LengthAt(memory, p);
      var bits := MatchBits(memory[4 * p..4 * p + 4]);
      wanted, locked := walker.Answer(ch, bits, memory, start, length, filtering, short, r);
      CanLook(c, locked);
      c' := L.Next(c, L.Look(locked));
      unlocks := 0;
      var info := InfoAt(memory, channel, wanted, p);
      NothingTaken();
      if locked {
        unlocks := SectionCallback(filters, info, memory);
        AllReceived(memory, info, r);
      }
      Matching(info, wanted);
    }

    lemma Matching(info: Info, wanted: seq<bool>)
      requires info.channel == channel && info.bits == wanted
      ensures forall k | 0 <= k < |filters| :: IsMatch(filters, info, k) <==> ForFilter(channel, wanted, filters[k])
      ensures (exists k :: IsMatch(filters, info, k)) <==> exists k :: 0 <= k < |filters| && ForFilter(channel, wanted, filters[k])
    {
    }
  }

  /** A filter is for those sections of its channel that all of its bits are left for. */
  predicate ForFilter(channel: nat, wanted: seq<bool>, f: SectionFilter) {
    Matched(f.channel, f.matchBits, Info(channel, wanted, 0, 0))
  }

  /** The match word of the filter in slot i of its channel: one bit. */
  function OfSlot(i: nat): (bits: seq<bool>)
    requires i < BITS
  {
    seq(BITS, k => k == i)
  }

  /** What the software's second look asks of the filter in slot i, when it is made at all. */
  predicate Passes(fl: seq<Slot>, ch: Channel, i: nat, r: Record, short: Short)
    requires Usable(fl, ch) && i < BITS && |r.word| == 4
  {
    && i < ch.inUse && Wants(fl, ch, i, r.section, short)
    && (fl[ch.table[i]].f.length > |r.section| ==> Inherited(fl, ch, i, MatchBits(r.word), r.section, short))
  }

  /**
   * The filter in slot i gets the section exactly when it is on the channel, the digit of 2^(31 - i)
   * is in the match word in front of the section, and the software has nothing against it.
   */
  lemma SlotGets(fl: seq<Slot>, fl': seq<Slot>, ch: Channel, r: Record, filtering: bool, short: Short,
                 wanted: seq<bool>, locked: bool, channel: nat, f: SectionFilter, i: nat)
    requires |r.word| == 4 && Usable(fl, ch) && Answered(fl, fl', ch, r, filtering, short, wanted, locked)
    requires i < BITS && f.matchBits == OfSlot(i)
    ensures (locked && ForFilter(channel, wanted, f)) <==>
      && f.channel == channel && Number(r.word) / Doubled(1, 31 - i) % 2 == 1
      && (filtering ==> Passes(fl, ch, i, r, short))
  {
    hide Usable, Number, Doubled, Passes, After, MatchBits;
    MatchBitsIs(r.word, i);
    OneBit(channel, wanted, f, i);
    if filtering {
      SlotSurvives(fl, ch, r, short, i);
      assert wanted[i] ==> true in wanted;
    }
  }

  lemma OneBit(channel: nat, wanted: seq<bool>, f: SectionFilter, i: nat)
    requires i < BITS == |wanted| && f.matchBits == OfSlot(i)
    ensures ForFilter(channel, wanted, f) <==> f.channel == channel && wanted[i]
  {
    assert f.matchBits[i];
  }

  lemma SlotSurvives(fl: seq<Slot>, ch: Channel, r: Record, short: Short, i: nat)
    requires Usable(fl, ch) && i < BITS && |r.word| == 4
    ensures Survives(fl, ch, i, MatchBits(r.word), r.section, short) <==>
      MatchBits(r.word)[i] && Passes(fl, ch, i, r, short)
  {
    hide MatchBits, Usable, Wants, Survives, Inherited;
    if Survives(fl, ch, i, MatchBits(r.word), r.section, short) {
      SurvivorsWanted(fl, ch, i, MatchBits(r.word), r.section, short);
    }
    if MatchBits(r.word)[i] && Wants(fl, ch, i, r.section, short) {
      WantedSurvivesIff(fl, ch, i, MatchBits(r.word), r.section, short);
    }
  }

  lemma CanLook(c: L.Sections, locked: bool)
    requires L.Good(c) && c.walk.Walk? && c.walk.i < |c.walk.rs|
    ensures L.Enabled(c, L.Look(locked)) && L.Good(L.Next(c, L.Look(locked)))
  {
    hide L.Good, L.Next, L.Enabled;
    L.LoopSeesAll(c);
    L.StepKeepsGood(c, L.Look(locked));
  }

  lemma NothingTaken()
    ensures forall size, sections, section {:trigger Taken(size, sections, false, section)} ::
      Taken(size, sections, false, section) == sections
  {
  }

  lemma AllReceived(memory: seq<bv8>, info: Info, r: Record)
    requires OnQueue(info, memory) && Proper(r) && info.length == |r.section|
    requires RingBytes(memory, info.start, |r.section|) == r.section
    ensures forall size, sections, matched {:trigger Received(size, sections, matched, info, memory)} ::
      Received(size, sections, matched, info, memory) == Taken(size, sections, matched, r.section)
  {
    forall size, sections, matched
      ensures Received(size, sections, matched, info, memory) == Taken(size, sections, matched, r.section)
    {
      ReceivedIsSection(memory, info, r.section, size, sections, matched);
    }
  }

  /** The region that a section of this length at this place is locked as. */
  lemma RegionLength(base: nat, n: nat, start: nat, length: nat)
    requires start < n && 0 < length < n
    ensures R.Len(n, R.Region(base + start, base + EndAt(start, length, n))) == length
  {
  }

  /**
   * Start and length that the callback is told of are those of the region locked for the section:
   * the release made with them, whatever has been locked and released meanwhile, takes exactly
   * that region off the queue.
   */
  lemma CallbackGivesBack(c: L.Sections, r: R.Region, info: Info, q: Model.Queue) returns (k: nat)
    requires L.Good(c) && c.walk.Walk? && c.walk.i < |c.walk.rs| && |c.d.s.memory| % 4 == 0 && c.walk.p < |c.d.s.memory| / 4
    requires r == L.RegionAt(c.d.s.memory, c.d.s.q.base, c.walk.p)
    requires info.start == L.SectionStart(c.walk.p, |c.d.s.memory| / 4) && info.length == L.LengthAt(c.d.s.memory, c.walk.p)
    requires q.base == c.d.s.q.base && q.size == |c.d.s.memory| && S.Laid(q.base, q.size, q.held) && r in q.held
    ensures var (q', status) := Model.UnlockLength(q, q.base + info.start, info.length);
      status == Model.Done && k < |q.held| && q.held[k] == r && q'.held == S.Without(q.held, k) && r !in q'.held
  {
    hide L.Good, L.LengthAt, L.RegionAt, RingBytes, Proper, EndAt, Model.UnlockLength, S.Laid;
    var record := NextRecord(c);
    L.LookRegion(c, r);
    RegionLength(q.base, q.size, info.start, info.length);
    k :| 0 <= k < |q.held| && q.held[k] == r;
    S.UnlockRemovesExactly(q, k);
    OnlyOnce(q, k);
  }

  lemma OnlyOnce(q: Model.Queue, k: nat)
    requires S.Laid(q.base, q.size, q.held) && k < |q.held|
    ensures q.held[k] !in S.Without(q.held, k)
  {
  }

  /**
   * A callback, or a reader of the queue, that comes back to a locked section any time before it is
   * given back, after any number of further deliveries, still puts exactly that section into the buffers.
   */
  lemma LaterReceived(c: L.Sections, c': L.Sections, steps: seq<L.Step>, r: R.Region, info: Info)
    requires L.Good(c) && L.Enabled(c, L.Look(true)) && |c.d.s.q.held| < Model.LOCK_CAPACITY
    requires c' == L.Next(c, L.Look(true)) && L.Good(c')
    requires c.walk.Walk? && c.walk.i < |c.walk.rs| && |c.d.s.memory| % 4 == 0 && c.walk.p < |c.d.s.memory| / 4
    requires r == L.RegionAt(c.d.s.memory, c.d.s.q.base, c.walk.p)
    requires L.EnabledRun(c', steps) && D.PossibleRun(c'.d, L.DriverSteps(c', steps))
    requires Q.AllowedRun(c'.d.s, D.EventsOf(c'.d, L.DriverSteps(c', steps)))
    requires Q.NeverReleased(c'.d.s, D.EventsOf(c'.d, L.DriverSteps(c', steps)), r)
    requires info.start == L.SectionStart(c.walk.p, |c.d.s.memory| / 4) && info.length == L.LengthAt(c.d.s.memory, c.walk.p)
    ensures var memory := L.Run(c', steps).d.s.memory;
      && OnQueue(info, memory)
      && forall size, sections, matched {:trigger Received(size, sections, matched, info, memory)} ::
        Received(size, sections, matched, info, memory) == Taken(size, sections, matched, c.walk.rs[c.walk.i].section)
  {
    hide L.Good, L.Enabled, L.LengthAt, L.RegionAt, L.Run, L.Next, L.EnabledRun, RingBytes, Proper, Received, Taken;
    var record := NextRecord(c);
    L.SectionSurvives(c, c', steps, r);
    AllReceived(L.Run(c', steps).d.s.memory, info, record);
  }
}
