/**
 * The channels of one transport: allocation, control, and giving back everything a channel
 * holds - its queue, its filters and its registrations.
 */
module Channels {
  import FG = FilterGrid
  import opened FilterTables
  import opened FilterSteps
  import opened FilterMoves
  import opened FilterRules
  import P = FilterPool
  import Q = QueueModel
  import I = InterruptMasks

  datatype Status = ChannelUnused | ChannelDisabled | ChannelEnabled

  datatype Kind = Audio | Video | Subtitle | Teletext | Bucket | Other

  const SUBTITLE: nat := 0
  const TELETEXT: nat := 1
  const PES_MIN: nat := 2
  const PES_MAX: nat := 29
  const AUDIO: nat := 30
  const VIDEO: nat := 31
  const NO_BUCKET: nat := CHANNELS

  // ----- allocation

  predicate Dedicated(kind: Kind) {
    kind.Audio? || kind.Video? || kind.Subtitle? || kind.Teletext?
  }

  function OwnChannel(kind: Kind): (c: nat)
    requires Dedicated(kind)
    ensures c < CHANNELS && !(PES_MIN <= c <= PES_MAX)
  {
    match kind
    case Audio => AUDIO
    case Video => VIDEO
    case Subtitle => SUBTITLE
    case Teletext => TELETEXT
  }

  predicate Suits(kind: Kind, c: nat) {
    if Dedicated(kind) then c == OwnChannel(kind) else PES_MIN <= c <= PES_MAX
  }

  /** The unused channels of this kind. */
  function Available(status: seq<Status>, kind: Kind): set<nat>
    requires |status| == CHANNELS
  {
    set c | 0 <= c < CHANNELS && Suits(kind, c) && status[c].ChannelUnused?
  }

  // ----- what becomes of a channel's filters

  /**
   * A filter of channel c is gone; one whose removal had only been put off is its owner's again.
   * Any other filter stays as it is, unless it is hit by the misdirected disable.
   */
  predicate Gone(x: Slot, y: Slot, c: nat, hit: bool) {
    if OnList(x, c) then
      if x.f.pending.PendingDelete? then y == Live(Detached(x.f)) else y.Empty?
    else Dimmed(x, y, hit)
  }

  predicate AllGone(fl: seq<Slot>, fl': seq<Slot>, c: nat, stray: int) {
    |fl'| == |fl| && forall k | 0 <= k < |fl| :: Gone(fl[k], fl'[k], c, k == stray)
  }

  /** No filter of the channel is dealt with after id: those that wait go first, each group in slot order. */
  predicate LastGone(fl: seq<Slot>, c: nat, id: nat) {
    && IsLive(fl, id) && OnList(fl[id], c)
    && forall k | 0 <= k < |fl| && OnList(fl[k], c) ::
         if fl[k].f.pending == fl[id].f.pending == NoPending || (fl[k].f.pending != NoPending && fl[id].f.pending != NoPending)
         then fl[k].f.matchId <= fl[id].f.matchId
         else fl[id].f.pending == NoPending
  }

  /** Freeing a channel that has filters disables the filter named by the first block of the last to go. */
  ghost predicate GoneHits(fl: seq<Slot>, c: nat, stray: int) {
    if stray == NOBODY then forall id: nat :: !LastGone(fl, c, id)
    else exists id: nat :: LastGone(fl, c, id) && fl[id].f.blocks != [] && stray == fl[id].f.blocks[0]
  }

  predicate NonePending(fl: seq<Slot>, c: nat) {
    forall k | 0 <= k < |fl| && OnList(fl[k], c) :: fl[k].f.pending == NoPending
  }

  predicate SlotsBounded(fl: seq<Slot>, c: nat) {
    forall k | 0 <= k < |fl| && OnList(fl[k], c) :: fl[k].f.matchId < CHANNELS
  }

  /** Every removal put off on the channel has been carried out, and no other filter changed but the one hit. */
  ghost predicate CarriedOut(fl: seq<Slot>, fl': seq<Slot>, c: nat, stray: int) {
    Drained(fl, fl', c, CHANNELS, stray) && DrainHits(fl, c, stray) && NonePending(fl', c)
  }

  lemma DrainedNonePending(fl: seq<Slot>, fl': seq<Slot>, c: nat, stray: int)
    requires Drained(fl, fl', c, CHANNELS, stray) && SlotsBounded(fl', c) && AllShaped(fl')
    ensures NonePending(fl', c)
  {
    forall k | 0 <= k < |fl'| && OnList(fl'[k], c) ensures fl'[k].f.pending == NoPending {
      assert Settled(fl[k], fl'[k], c, CHANNELS, k == stray);
    }
  }

  /** Nothing is waiting any more, so a second look changes nothing. */
  lemma DrainedAgain(fl: seq<Slot>, fl': seq<Slot>, c: nat, stray: int)
    requires NonePending(fl, c) && CarriedOut(fl, fl', c, stray)
    ensures stray == NOBODY && fl' == fl
  {
    forall k | 0 <= k < |fl| && stray == NOBODY ensures fl'[k] == fl[k] {
      assert Settled(fl[k], fl'[k], c, CHANNELS, false);
    }
  }

  lemma CarriedNone(fl: seq<Slot>, fl': seq<Slot>, c: nat, stray: int)
    requires CarriedOut(fl, fl', c, stray)
    ensures NonePending(fl', c)
  {
  }

  lemma GoneAfter(x: Slot, y: Slot, z: Slot, c: nat, busy: seq<bool>, hit1: bool, hit2: bool)
    requires Settled(x, y, c, CHANNELS, hit1) && LetGo(y, z, c, busy, CHANNELS, hit2) && !(hit1 && hit2)
    requires |busy| == CHANNELS && forall s | 0 <= s < CHANNELS :: !busy[s]
    requires OnList(y, c) ==> y.f.pending == NoPending && y.f.matchId < CHANNELS
    requires OnList(x, c) ==> x.f.matchId < CHANNELS
    requires x.Live? ==> Shaped(x.f)
    ensures Gone(x, z, c, hit1 || hit2)
  {
  }

  lemma AllGoneAfter(fl: seq<Slot>, fl1: seq<Slot>, fl2: seq<Slot>, c: nat, busy: seq<bool>, stray1: int, stray2: int)
      returns (stray: int)
    requires CarriedOut(fl, fl1, c, stray1)
    requires AllLetGo(fl1, fl2, c, busy, CHANNELS, stray2) && FreeHits(fl1, c, busy, stray2)
    requires |busy| == CHANNELS && forall s | 0 <= s < CHANNELS :: !busy[s]
    requires SlotsBounded(fl1, c) && SlotsBounded(fl, c) && AllShaped(fl)
    ensures AllGone(fl, fl2, c, stray) && GoneHits(fl, c, stray) && AllFreed(fl1, c, busy)
  {
    stray := if stray1 != NOBODY then stray1 else stray2;
    GoneHit(fl, fl1, c, busy, stray1, stray2);
    forall k | 0 <= k < |fl| ensures Gone(fl[k], fl2[k], c, k == stray) {
      GoneAfter(fl[k], fl1[k], fl2[k], c, busy, k == stray1, k == stray2);
    }
  }

  /** What is on the channel after those that waited have left it. */
  predicate StaysAs(x: Slot, y: Slot, c: nat) {
    && (OnList(y, c) <==> OnList(x, c) && x.f.pending == NoPending)
    && (OnList(y, c) ==> y.f.matchId == x.f.matchId && y.f.blocks == x.f.blocks && y.f.pending == NoPending)
  }

  lemma StaysOn(x: Slot, y: Slot, c: nat, hit: bool)
    requires Settled(x, y, c, CHANNELS, hit) && (x.Live? ==> Shaped(x.f)) && (OnList(x, c) ==> x.f.matchId < CHANNELS)
    ensures StaysAs(x, y, c)
  {
  }

  /** The last to go is the last of those that waited, or else the last of the others. */
  lemma LastIs(fl: seq<Slot>, fl1: seq<Slot>, c: nat, busy: seq<bool>, id: nat)
    requires |fl1| == |fl| && forall k | 0 <= k < |fl| :: StaysAs(fl[k], fl1[k], c)
    requires |busy| == CHANNELS && SlotsBounded(fl, c) && forall s | 0 <= s < CHANNELS :: !busy[s]
    ensures LastGone(fl, c, id) <==> LastOut(fl, c, id) || LastFreed(fl1, c, busy, id)
    ensures LastFreed(fl1, c, busy, id) ==> id < |fl| && fl[id].Live? && fl1[id].f.blocks == fl[id].f.blocks
    ensures LastOut(fl, c, id) ==> forall m: nat :: !LastFreed(fl1, c, busy, m)
  {
    assert id < |fl| ==> StaysAs(fl[id], fl1[id], c);
  }

  lemma GoneHit(fl: seq<Slot>, fl1: seq<Slot>, c: nat, busy: seq<bool>, stray1: int, stray2: int)
    requires Drained(fl, fl1, c, CHANNELS, stray1) && DrainHits(fl, c, stray1) && FreeHits(fl1, c, busy, stray2)
    requires |busy| == CHANNELS && forall s | 0 <= s < CHANNELS :: !busy[s]
    requires SlotsBounded(fl, c) && AllShaped(fl)
    ensures stray1 == NOBODY || stray2 == NOBODY
    ensures GoneHits(fl, c, if stray1 != NOBODY then stray1 else stray2)
  {
    forall k | 0 <= k < |fl| ensures StaysAs(fl[k], fl1[k], c) {
      StaysOn(fl[k], fl1[k], c, k == stray1);
    }
    hide *;
    forall id: nat
      ensures LastGone(fl, c, id) <==> LastOut(fl, c, id) || LastFreed(fl1, c, busy, id)
      ensures LastFreed(fl1, c, busy, id) ==> id < |fl| && fl[id].Live? && fl1[id].f.blocks == fl[id].f.blocks
      ensures LastOut(fl, c, id) ==> forall m: nat :: !LastFreed(fl1, c, busy, m)
    {
      LastIs(fl, fl1, c, busy, id);
    }
    HitsCombine(fl, fl1, c, busy, stray1, stray2);
  }

  lemma HitsCombine(fl: seq<Slot>, fl1: seq<Slot>, c: nat, busy: seq<bool>, stray1: int, stray2: int)
    requires DrainHits(fl, c, stray1) && FreeHits(fl1, c, busy, stray2)
    requires forall id: nat :: LastGone(fl, c, id) <==> LastOut(fl, c, id) || LastFreed(fl1, c, busy, id)
    requires forall id: nat :: LastFreed(fl1, c, busy, id) ==> id < |fl| && fl[id].Live? && fl1[id].f.blocks == fl[id].f.blocks
    requires forall id: nat :: LastOut(fl, c, id) ==> forall m: nat :: !LastFreed(fl1, c, busy, m)
    ensures stray1 == NOBODY || stray2 == NOBODY
    ensures GoneHits(fl, c, if stray1 != NOBODY then stray1 else stray2)
  {
  }

  // ----- queues

  datatype QueueState = QueueUndefined | QueueDisabled | QueueEnabled

  /** QUEUE_TYPE: the ring, and the handle of its memory. */
  datatype QueueInfo = QueueInfo(state: QueueState, memory: nat, ring: Q.Queue)

  const BLOCK_SIZE: nat := 4096

  datatype UnlockStatus = BadChannel | NoQueue | OfRing(status: Q.Status)

  function RoundUp(size: nat): nat {
    if size % BLOCK_SIZE == 0 then size else size + (BLOCK_SIZE - size % BLOCK_SIZE)
  }

  /** The least number of whole blocks that the queue fits in. */
  lemma RoundUpIs(size: nat)
    ensures RoundUp(size) % BLOCK_SIZE == 0 && size <= RoundUp(size) < size + BLOCK_SIZE
  {
    var k, rest := size / BLOCK_SIZE, size % BLOCK_SIZE;
    assert size == k * BLOCK_SIZE + rest;
    if rest > 0 {
      assert RoundUp(size) == (k + 1) * BLOCK_SIZE;
    }
  }

  /** Nothing is held, and the driver and the hardware begin at the bottom of the ring. */
  predicate AtBottom(q: Q.Queue, base: nat, size: nat) {
    && q.base == base && q.size == size && q.held == []
    && q.process == q.read == q.writeStart == q.writeNow == base
  }

  lemma ResetAtBottom(q: Q.Queue)
    ensures AtBottom(Q.Reset(q), q.base, q.size)
  {
  }

  function Released(q: Q.Queue): Q.Queue {
    q.(base := 0, size := 0, held := [], lockAddr := 0)
  }

  /** The memory handles in use are those of the defined queues, each of one queue only. */
  predicate OwnMemory(queues: seq<QueueInfo>, live: set<nat>) {
    && (forall c | 0 <= c < |queues| && !queues[c].state.QueueUndefined? :: queues[c].memory in live)
    && (forall m | m in live :: exists c :: 0 <= c < |queues| && !queues[c].state.QueueUndefined? && queues[c].memory == m)
    && (forall c, d | 0 <= c < d < |queues| && !queues[c].state.QueueUndefined? && !queues[d].state.QueueUndefined? ::
          queues[c].memory != queues[d].memory)
  }

  /** A channel that is not in use holds neither a queue nor filters. */
  predicate UnusedHoldNothing(status: seq<Status>, queues: seq<QueueInfo>, order: seq<seq<nat>>) {
    |status| == |queues| == |order| &&
    forall c | 0 <= c < |status| && status[c].ChannelUnused? :: queues[c].state.QueueUndefined? && order[c] == []
  }

  lemma MemoryFreed(queues: seq<QueueInfo>, live: set<nat>, c: nat, q': QueueInfo)
    requires OwnMemory(queues, live) && c < |queues| && q'.state.QueueUndefined?
    ensures OwnMemory(queues[c := q'], if queues[c].state.QueueUndefined? then live else live - {queues[c].memory})
  {
    var queues' := queues[c := q'];
    var live' := if queues[c].state.QueueUndefined? then live else live - {queues[c].memory};
    forall m | m in live' ensures exists d :: 0 <= d < |queues'| && !queues'[d].state.QueueUndefined? && queues'[d].memory == m {
      var d :| 0 <= d < |queues| && !queues[d].state.QueueUndefined? && queues[d].memory == m;
      assert queues'[d] == queues[d];
    }
  }

  lemma MemoryTaken(queues: seq<QueueInfo>, live: set<nat>, c: nat, q': QueueInfo)
    requires OwnMemory(queues, live) && c < |queues| && queues[c].state.QueueUndefined? && q'.memory !in live
    requires !q'.state.QueueUndefined?
    ensures OwnMemory(queues[c := q'], live + {q'.memory})
  {
    var queues', live' := queues[c := q'], live + {q'.memory};
    forall m | m in live' ensures exists d :: 0 <= d < |queues'| && !queues'[d].state.QueueUndefined? && queues'[d].memory == m {
      if m in live {
        var d :| 0 <= d < |queues| && !queues[d].state.QueueUndefined? && queues[d].memory == m;
        assert queues'[d] == queues[d];
      } else {
        assert queues'[c].memory == m;
      }
    }
  }

  lemma MemoryKept(queues: seq<QueueInfo>, live: set<nat>, c: nat, q': QueueInfo)
    requires OwnMemory(queues, live) && c < |queues| && q'.memory == queues[c].memory
    requires q'.state.QueueUndefined? == queues[c].state.QueueUndefined?
    ensures OwnMemory(queues[c := q'], live)
  {
    var queues' := queues[c := q'];
    forall m | m in live ensures exists d :: 0 <= d < |queues'| && !queues'[d].state.QueueUndefined? && queues'[d].memory == m {
      var d :| 0 <= d < |queues| && !queues[d].state.QueueUndefined? && queues[d].memory == m;
      assert queues'[d].memory == m && !queues'[d].state.QueueUndefined?;
    }
  }

  lemma OnListBounded(h: seq<FG.Block>, fl: seq<Slot>, chs: seq<Channel>, order: seq<seq<nat>>, owner: seq<int>, c: nat)
    requires Consistent(h, fl, chs, order, owner) && c < CHANNELS
    ensures SlotsBounded(fl, c) && AllShaped(fl) && |chs| == |order| == CHANNELS
    ensures (forall k | 0 <= k < |fl| :: !OnList(fl[k], c)) <==> order[c] == []
  {
    ConsistentParts(h, fl, chs, order, owner);
    AreShaped(h, fl, chs, order, owner);
    hide Consistent;
    forall k | 0 <= k < |fl| && OnList(fl[k], c) ensures fl[k].f.matchId < CHANNELS && order[c] != [] {
      OnIsListed(h, fl, chs, order, owner, c, k);
    }
    if order[c] != [] {
      ListedIsOn(h, fl, chs, order, owner, c, order[c][0]);
    }
  }

  lemma DrainedKeepsNone(fl: seq<Slot>, fl': seq<Slot>, c: nat, stray: int)
    requires Drained(fl, fl', c, CHANNELS, stray) && forall k | 0 <= k < |fl| :: !OnList(fl[k], c)
    ensures forall k | 0 <= k < |fl'| :: !OnList(fl'[k], c)
  {
    forall k | 0 <= k < |fl'| ensures !OnList(fl'[k], c) {
      assert Settled(fl[k], fl'[k], c, CHANNELS, k == stray);
    }
  }

  lemma ReleasedHasNothing(r: Q.Queue, q: Q.Queue)
    requires r == Released(q)
    ensures r.held == [] && r.size == 0
  {
  }

  /** Whether a removal has to wait: channel and queue run, and the hardware is inside a section. */
  function Busy(sectionChange: seq<bool>, status: Status, queue: QueueState): (busy: seq<bool>)
    requires |sectionChange| == CHANNELS
    ensures |busy| == CHANNELS
  {
    seq(CHANNELS, s requires 0 <= s < CHANNELS => status.ChannelEnabled? && queue.QueueEnabled? && sectionChange[s])
  }

  lemma BusyNever(sectionChange: seq<bool>, queue: QueueState)
    requires |sectionChange| == CHANNELS
    ensures forall s | 0 <= s < CHANNELS :: !Busy(sectionChange, ChannelDisabled, queue)[s]
  {
  }

  lemma NotBusy(fl: seq<Slot>, c: nat, busy: seq<bool>)
    requires |busy| == CHANNELS && (forall s | 0 <= s < CHANNELS :: !busy[s])
    requires NonePending(fl, c) && SlotsBounded(fl, c)
    ensures AllFreed(fl, c, busy)
  {
  }

  class Demux {
    const pool: P.FilterPool
    const interrupts: I.Interrupts
    const status: array<Status>
    const queues: array<QueueInfo>
    var bucket: nat               // wXpChannelBucketId
    ghost var live: set<nat>      // memory handles of queues
    ghost var freed: seq<nat>     // handles given back, in order

    ghost predicate Lengths()
    {
      status.Length == queues.Length == CHANNELS
    }

    ghost predicate Valid()
      reads this, status, queues, pool, pool.grid.hw, pool.slots, pool.channels
      reads interrupts, interrupts.primary, interrupts.channels
    {
      && Lengths() && pool.Valid() && interrupts.Valid()
      && OwnMemory(queues[..], live) && UnusedHoldNothing(status[..], queues[..], pool.order)
    }

    constructor (pool: P.FilterPool, interrupts: I.Interrupts)
      requires pool.Valid() && interrupts.Valid() && forall c | 0 <= c < |pool.order| :: pool.order[c] == []
      ensures Valid() && bucket == NO_BUCKET && fresh(status) && fresh(queues)
      ensures this.pool == pool && this.interrupts == interrupts && live == {} && freed == []
    {
      this.pool, this.interrupts := pool, interrupts;
      status := new Status[CHANNELS](_ => ChannelUnused);
      queues := new QueueInfo[CHANNELS](_ => QueueInfo(QueueUndefined, 0, Q.Queue(0, 0, 0, 0, 0, false, [], 0, 0, 0)));
      bucket, live, freed := NO_BUCKET, {}, [];
    }

    /**
     * xp_osi_channel_allocate. It fails exactly when no channel of the kind is unused, or a bucket
     * is asked for while there is one.
     */
    method Allocate(kind: Kind) returns (ok: bool, c: nat)
      requires Valid()
      modifies this`bucket, status
      ensures Valid()
      ensures ok <==> Available(old(status[..]), kind) != {} && (kind.Bucket? ==> old(bucket) == NO_BUCKET)
      ensures ok ==> c in Available(old(status[..]), kind) && status[..] == old(status[..])[c := ChannelDisabled]
      ensures ok ==> forall d | d in Available(old(status[..]), kind) :: d <= c
      ensures ok ==> match kind
                     case Subtitle => c == 0 case Teletext => c == 1
                     case Audio => c == 30 case Video => c == 31
                     case _ => 2 <= c <= 29
      ensures bucket == if ok && kind.Bucket? then c else old(bucket)
      ensures !ok ==> status[..] == old(status[..])
    {
      hide Consistent, Promised, OwnMemory;
      ok, c := false, 0;
      if Dedicated(kind) {
        c := OwnChannel(kind);
        if !status[c].ChannelUnused? {
          return;
        }
        assert c in Available(status[..], kind);
      } else {
        if kind.Bucket? && bucket != NO_BUCKET {
          return;
        }
        var i: int := PES_MAX;
        while i >= PES_MIN && !status[i].ChannelUnused?
          invariant PES_MIN as int - 1 <= i <= PES_MAX
          invariant forall d | i < d <= PES_MAX :: !status[d].ChannelUnused?
          decreases i
        {
          i := i - 1;
        }
        if i < PES_MIN {
          assert Available(status[..], kind) == {};
          return;
        }
        c := i;
        assert c in Available(status[..], kind);
        if kind.Bucket? {
          bucket := c;
        }
      }
      ghost var before := status[..];
      status[c] := ChannelDisabled;
      assert status[..] == before[c := ChannelDisabled];
      ok := true;
    }

    /** Removals put off on the channel are carried out. */
    method Drain(c: nat) returns (ghost stray: int)
      requires Valid() && c < CHANNELS
      modifies pool`order, pool`owner, pool.grid.hw, pool.slots, pool.channels
      ensures Valid() && CarriedOut(old(pool.slots[..]), pool.slots[..], c, stray)
      ensures forall d | 0 <= d < CHANNELS && d != c ::
        pool.order[d] == old(pool.order)[d] && pool.channels[d] == old(pool.channels[d])
    {
      hide Consistent, Promised, Drained, OwnMemory, DrainHits;
      ghost var order := pool.order;
      OnListBounded(pool.grid.hw[..], pool.slots[..], pool.channels[..], pool.order, pool.owner, c);
      stray := pool.ProcessPending(c);
      OnListBounded(pool.grid.hw[..], pool.slots[..], pool.channels[..], pool.order, pool.owner, c);
      DrainedNonePending(old(pool.slots[..]), pool.slots[..], c, stray);
      if order[c] == [] {
        DrainedKeepsNone(old(pool.slots[..]), pool.slots[..], c, stray);
      }
    }

    /** xp_osi_queue_control, with its part of the state. */
    method DisableQueue(c: nat) returns (ok: bool, ghost stray: int)
      requires Valid() && c < CHANNELS
      modifies queues, pool`order, pool`owner, pool.grid.hw, pool.slots, pool.channels
      ensures Valid()
      ensures ok <==> !status[c].ChannelUnused? && !old(queues[c]).state.QueueUndefined?
      ensures !ok ==> queues[..] == old(queues[..]) && pool.slots[..] == old(pool.slots[..]) && pool.order == old(pool.order)
      ensures ok ==> queues[..] == old(queues[..])[c := old(queues[c]).(state := QueueDisabled)]
      ensures ok ==> CarriedOut(old(pool.slots[..]), pool.slots[..], c, stray)
      ensures forall d | 0 <= d < CHANNELS && d != c :: pool.order[d] == old(pool.order)[d] && pool.channels[d] == old(pool.channels[d])
    {
      hide Consistent, Promised, CarriedOut, OwnMemory;
      ok, stray := false, NOBODY;
      if status[c].ChannelUnused? {
        return;
      }
      if queues[c].state.QueueUndefined? {
        return;
      }
      stray := Drain(c);
      SetQueue(c, queues[c].(state := QueueDisabled));
      ok := true;
    }

    /** A defined queue changes, but neither its memory nor that it is defined. */
    method SetQueue(c: nat, q: QueueInfo)
      requires Valid() && c < CHANNELS && q.memory == queues[c].memory
      requires !queues[c].state.QueueUndefined? && !q.state.QueueUndefined? && !status[c].ChannelUnused?
      modifies queues
      ensures Valid() && queues[..] == old(queues[..])[c := q]
    {
      hide Consistent, Promised, OwnMemory;
      ghost var before := queues[..];
      MemoryKept(before, live, c, q);
      queues[c] := q;
      assert queues[..] == before[c := q];
    }

    /** xp_osi_queue_unlock_data, with the checks of channel and queue in front. */
    method UnlockData(c: nat, start: nat, length: nat) returns (result: UnlockStatus)
      requires Valid()
      modifies queues
      ensures Valid()
      ensures result == if c >= CHANNELS || status[c].ChannelUnused? then BadChannel
                        else if old(queues[c]).state.QueueUndefined? then NoQueue
                        else OfRing(Q.UnlockLength(old(queues[c]).ring, start, length).1)
      ensures !result.OfRing? ==> queues[..] == old(queues[..])
      ensures result.OfRing? ==>
        queues[..] == old(queues[..])[c := old(queues[c]).(ring := Q.UnlockLength(old(queues[c]).ring, start, length).0)]
    {
      hide Consistent, Promised, OwnMemory, Q.UnlockLength;
      if c >= CHANNELS || status[c].ChannelUnused? {
        return BadChannel;
      }
      if queues[c].state.QueueUndefined? {
        return NoQueue;
      }
      var (ring, s) := Q.UnlockLength(queues[c].ring, start, length);
      SetQueue(c, queues[c].(ring := ring));
      result := OfRing(s);
    }

    /** XP_QUEUE_CONTROL_RESET: nothing is locked any more, and reading starts at the bottom again. */
    method ResetQueue(c: nat) returns (ok: bool, ghost stray: int)
      requires Valid() && c < CHANNELS
      modifies queues, pool`order, pool`owner, pool.grid.hw, pool.slots, pool.channels
      ensures Valid()
      ensures ok <==> !status[c].ChannelUnused? && !old(queues[c]).state.QueueUndefined?
      ensures ok ==> queues[..] == old(queues[..])[c := QueueInfo(QueueDisabled, old(queues[c]).memory, Q.Reset(old(queues[c]).ring))]
      ensures ok ==> AtBottom(queues[c].ring, old(queues[c]).ring.base, old(queues[c]).ring.size)
      ensures !ok ==> queues[..] == old(queues[..])
      ensures ok && !old(queues[c]).state.QueueDisabled? ==> CarriedOut(old(pool.slots[..]), pool.slots[..], c, stray)
      ensures !ok || old(queues[c]).state.QueueDisabled? ==> pool.slots[..] == old(pool.slots[..])
    {
      hide Consistent, Promised, CarriedOut, OwnMemory, AtBottom, Q.Reset;
      ok, stray := false, NOBODY;
      if status[c].ChannelUnused? {
        return;
      }
      if queues[c].state.QueueUndefined? {
        return;
      }
      if queues[c].state != QueueDisabled {
        ok, stray := DisableQueue(c);
      }
      ResetAtBottom(queues[c].ring);
      SetQueue(c, queues[c].(ring := Q.Reset(queues[c].ring)));
      ok := true;
    }

    /** xp_osi_queue_allocate; the allocator hands out `memory` at `base`. */
    method AllocateQueue(c: nat, size: nat, memory: nat, base: nat) returns (ok: bool)
      requires Valid() && c < CHANNELS && memory !in live
      modifies this`live, queues, pool`order, pool`owner, pool.grid.hw, pool.slots, pool.channels
      ensures Valid()
      ensures ok <==> !status[c].ChannelUnused? && old(queues[c]).state.QueueUndefined?
      ensures !ok ==> queues[..] == old(queues[..]) && live == old(live)
      ensures ok ==> live == old(live) + {memory} && queues[c].state.QueueDisabled? && queues[c].memory == memory
      ensures ok ==> AtBottom(queues[c].ring, base, RoundUp(size))
      ensures RoundUp(size) % BLOCK_SIZE == 0 && size <= RoundUp(size) < size + BLOCK_SIZE
      ensures forall d | 0 <= d < CHANNELS && d != c :: queues[d] == old(queues[d])
    {
      hide Consistent, Promised, OwnMemory, RoundUp;
      RoundUpIs(size);
      ok := false;
      if status[c].ChannelUnused? || !queues[c].state.QueueUndefined? {
        return;
      }
      ghost var before := queues[..];
      var ring := queues[c].ring.(base := base, size := RoundUp(size), held := [], lockAddr := 0, process := base);
      MemoryTaken(before, live, c, QueueInfo(QueueDisabled, memory, ring));
      queues[c] := QueueInfo(QueueDisabled, memory, ring);
      live := live + {memory};
      assert queues[..] == before[c := queues[c]];
      ghost var stray;
      ok, stray := ResetQueue(c);
    }

    /** xp_osi_queue_free: the memory of a defined queue goes back to the allocator, once. */
    method FreeQueue(c: nat) returns (ghost stray: int)
      requires Valid() && c < CHANNELS
      modifies this`live, this`freed, queues, pool`order, pool`owner, pool.grid.hw, pool.slots, pool.channels
      ensures Valid() && queues[c].state.QueueUndefined? && queues[c].ring.held == [] && queues[c].ring.size == 0
      ensures var had := !status[c].ChannelUnused? && !old(queues[c]).state.QueueUndefined?;
        && freed == old(freed) + (if had then [old(queues[c]).memory] else [])
        && live == old(live) - (if had then {old(queues[c]).memory} else {})
        && if had then CarriedOut(old(pool.slots[..]), pool.slots[..], c, stray) else pool.slots[..] == old(pool.slots[..])
      ensures forall d | 0 <= d < CHANNELS && d != c :: queues[d] == old(queues[d])
      ensures forall d | 0 <= d < CHANNELS && d != c :: pool.order[d] == old(pool.order)[d] && pool.channels[d] == old(pool.channels[d])
    {
      hide Consistent, Promised, CarriedOut, OwnMemory, Released;
      UndefinedWhenUnused(c);
      var ok;
      ok, stray := DisableQueue(c);
      ghost var before := queues[..];
      if ok {
        freed := freed + [queues[c].memory];
      }
      MemoryFreed(before, live, c, QueueInfo(QueueUndefined, queues[c].memory, Released(queues[c].ring)));
      live := if queues[c].state.QueueUndefined? then live else live - {queues[c].memory};
      queues[c] := QueueInfo(QueueUndefined, queues[c].memory, Released(queues[c].ring));
      assert queues[..] == before[c := queues[c]];
      ReleasedHasNothing(queues[c].ring, before[c].ring);
    }

    lemma UndefinedWhenUnused(c: nat)
      requires Valid() && c < CHANNELS
      ensures status[c].ChannelUnused? ==> queues[c].state.QueueUndefined?
    {
      hide Consistent, Promised, OwnMemory;
      assert status[..][c] == status[c] && queues[..][c] == queues[c];
    }

    /** XP_CHANNEL_CONTROL_DISABLE. */
    method Disable(c: nat) returns (ok: bool, ghost stray: int)
      requires Valid() && c < CHANNELS
      modifies status, pool`order, pool`owner, pool.grid.hw, pool.slots, pool.channels
      ensures Valid() && (ok <==> !old(status[c]).ChannelUnused?)
      ensures !ok ==> status[..] == old(status[..]) && pool.slots[..] == old(pool.slots[..]) && pool.order == old(pool.order)
      ensures ok ==> status[..] == old(status[..])[c := ChannelDisabled]
      ensures ok ==> CarriedOut(old(pool.slots[..]), pool.slots[..], c, stray)
      ensures forall d | 0 <= d < CHANNELS && d != c :: pool.order[d] == old(pool.order)[d] && pool.channels[d] == old(pool.channels[d])
    {
      hide Consistent, Promised, CarriedOut, OwnMemory;
      if status[c].ChannelUnused? {
        return false, NOBODY;
      }
      stray := Drain(c);
      ghost var before := status[..];
      status[c] := ChannelDisabled;
      assert status[..] == before[c := ChannelDisabled];
      ok := true;
    }

    /** xp_osi_channel_get_available. It counts unused channels, so for a bucket it may promise one in vain. */
    method GetAvailable(kind: Kind) returns (n: nat)
      requires Valid()
      ensures n == |Available(status[..], kind)|
    {
      hide Consistent, Promised, OwnMemory;
      if Dedicated(kind) {
        var c := OwnChannel(kind);
        n := if status[c].ChannelUnused? then 1 else 0;
        assert Available(status[..], kind) == if status[c].ChannelUnused? then {c} else {};
        return;
      }
      n := 0;
      ghost var seen: set<nat> := {};
      var i := PES_MIN;
      while i <= PES_MAX
        invariant PES_MIN <= i <= PES_MAX + 1 && n == |seen|
        invariant forall c :: c in seen <==> c in Available(status[..], kind) && c < i
      {
        if status[i].ChannelUnused? {
          n := n + 1;
          seen := seen + {i};
        }
        i := i + 1;
      }
      assert seen == Available(status[..], kind);
    }

    /** Every filter leaves the channel at once: the channel is disabled, so none can be in use. */
    method FreeFilters(c: nat, sectionChange: seq<bool>) returns (ghost stray: int)
      requires Valid() && c < CHANNELS && |sectionChange| == CHANNELS
      requires status[c].ChannelDisabled? && NonePending(pool.slots[..], c)
      modifies pool`order, pool`owner, pool.grid.hw, pool.slots, pool.channels
      ensures Valid() && pool.order[c] == [] && pool.channels[c].count == 0
      ensures var busy := Busy(sectionChange, status[c], queues[c].state);
        AllLetGo(old(pool.slots[..]), pool.slots[..], c, busy, CHANNELS, stray) && FreeHits(old(pool.slots[..]), c, busy, stray)
      ensures forall d | 0 <= d < CHANNELS && d != c :: pool.order[d] == old(pool.order)[d] && pool.channels[d] == old(pool.channels[d])
    {
      hide Consistent, Promised, OwnMemory, AllLetGo, AllFreed, FreeHits, NonePending, OnList;
      OnListBounded(pool.grid.hw[..], pool.slots[..], pool.channels[..], pool.order, pool.owner, c);
      ghost var before := pool.order;
      var busy := Busy(sectionChange, status[c], queues[c].state);
      NotBusy(pool.slots[..], c, busy);
      stray := pool.FreeChannel(c, busy);
      OnListBounded(pool.grid.hw[..], pool.slots[..], pool.channels[..], pool.order, pool.owner, c);
      ChannelShape(pool.grid.hw[..], pool.slots[..], pool.channels[..], pool.order, pool.owner, c);
      NoTableNoList(pool.grid.hw[..], pool.slots[..], pool.channels[..], pool.order, pool.owner, c);
    }

    /**
     * xp_osi_channel_free: whatever was going on, everything the channel held is free again, and no
     * other channel's queue, list or table changes. If the channel had filters, the filter `stray` is
     * disabled, wherever it is.
     */
    method Free(c: nat, sectionChange: seq<bool>) returns (ok: bool, ghost stray: int)
      requires Valid() && c < CHANNELS && |sectionChange| == CHANNELS
      modifies this`bucket, this`live, this`freed, status, queues, interrupts.channels[c]
      modifies pool`order, pool`owner, pool.grid.hw, pool.slots, pool.channels
      ensures Valid() && (ok <==> !old(status[c]).ChannelUnused?)
      ensures !ok ==> status[..] == old(status[..]) && queues[..] == old(queues[..]) && pool.slots[..] == old(pool.slots[..])
      ensures !ok ==> pool.order == old(pool.order) && freed == old(freed) && bucket == old(bucket)
      ensures ok ==> status[..] == old(status[..])[c := ChannelUnused]
      ensures ok ==> pool.order[c] == [] && AllGone(old(pool.slots[..]), pool.slots[..], c, stray)
      ensures ok ==> GoneHits(old(pool.slots[..]), c, stray)
      ensures ok ==> interrupts.channels[c].slots == []
      ensures ok ==> queues[c].state.QueueUndefined? && queues[c].ring.held == []
      ensures ok ==> freed == old(freed) + if old(queues[c]).state.QueueUndefined? then [] else [old(queues[c]).memory]
      ensures ok ==> live == old(live) - if old(queues[c]).state.QueueUndefined? then {} else {old(queues[c]).memory}
      ensures ok ==> bucket == if old(bucket) == c then NO_BUCKET else old(bucket)
      ensures forall d | 0 <= d < CHANNELS && d != c :: queues[d] == old(queues[d]) && pool.order[d] == old(pool.order)[d]
      ensures forall d | 0 <= d < CHANNELS && d != c :: pool.channels[d] == old(pool.channels[d])
    {
      hide Consistent, Promised, OwnMemory, CarriedOut, AllLetGo, FreeHits, AllGone, GoneHits, Busy, AllShaped, SlotsBounded;
      ghost var fl := pool.slots[..];
      OnListBounded(pool.grid.hw[..], fl, pool.channels[..], pool.order, pool.owner, c);
      ok, stray := Disable(c);
      if !ok {
        return;
      }
      ghost var fl1 := pool.slots[..];
      CarriedNone(fl, fl1, c, stray);
      OnListBounded(pool.grid.hw[..], fl1, pool.channels[..], pool.order, pool.owner, c);
      ghost var stray2 := Dismantle(c, sectionChange);
      BusyNever(sectionChange, queues[c].state);
      stray := AllGoneAfter(fl, fl1, pool.slots[..], c, Busy(sectionChange, ChannelDisabled, queues[c].state), stray, stray2);
    }

    /** The steps of xp_osi_channel_free once the channel is disabled. */
    method Dismantle(c: nat, sectionChange: seq<bool>) returns (ghost stray: int)
      requires Valid() && c < CHANNELS && |sectionChange| == CHANNELS
      requires status[c].ChannelDisabled? && NonePending(pool.slots[..], c)
      modifies this`bucket, this`live, this`freed, status, queues, interrupts.channels[c]
      modifies pool`order, pool`owner, pool.grid.hw, pool.slots, pool.channels
      ensures Valid() && status[..] == old(status[..])[c := ChannelUnused] && pool.order[c] == []
      ensures var busy := Busy(sectionChange, ChannelDisabled, queues[c].state);
        AllLetGo(old(pool.slots[..]), pool.slots[..], c, busy, CHANNELS, stray) && FreeHits(old(pool.slots[..]), c, busy, stray)
      ensures interrupts.channels[c].slots == []
      ensures queues[c].state.QueueUndefined? && queues[c].ring.held == []
      ensures freed == old(freed) + if old(queues[c]).state.QueueUndefined? then [] else [old(queues[c]).memory]
      ensures live == old(live) - if old(queues[c]).state.QueueUndefined? then {} else {old(queues[c]).memory}
      ensures bucket == if old(bucket) == c then NO_BUCKET else old(bucket)
      ensures forall d | 0 <= d < CHANNELS && d != c :: queues[d] == old(queues[d]) && pool.order[d] == old(pool.order)[d]
      ensures forall d | 0 <= d < CHANNELS && d != c :: pool.channels[d] == old(pool.channels[d])
    {
      hide Consistent, Promised, OwnMemory, CarriedOut, AllLetGo, FreeHits, NonePending, Busy;
      ghost var fl, had := pool.slots[..], !queues[c].state.QueueUndefined?;
      interrupts.ChannelFree(c);
      stray := FreeQueue(c);
      if had {
        DrainedAgain(fl, pool.slots[..], c, stray);
      }
      stray := FreeFilters(c, sectionChange);
      Close(c);
    }

    method Close(c: nat)
      requires Valid() && c < CHANNELS && queues[c].state.QueueUndefined? && pool.order[c] == []
      modifies this`bucket, status
      ensures Valid() && status[..] == old(status[..])[c := ChannelUnused]
      ensures bucket == if old(bucket) == c then NO_BUCKET else old(bucket)
    {
      hide Consistent, Promised, OwnMemory;
      ghost var before := status[..];
      status[c] := ChannelUnused;
      assert status[..] == before[c := ChannelUnused];
      if c == bucket {
        bucket := NO_BUCKET;
      }
    }

    /** XP_CHANNEL_CONTROL_ENABLE and XP_QUEUE_CONTROL_ENABLE. */
    method Enable(c: nat) returns (ok: bool)
      requires Valid() && c < CHANNELS
      modifies status, queues
      ensures Valid() && (ok <==> !old(status[c]).ChannelUnused?)
      ensures status[..] == if ok then old(status[..])[c := ChannelEnabled] else old(status[..])
      ensures queues[..] == if ok && !old(queues[c]).state.QueueUndefined?
                            then old(queues[..])[c := old(queues[c]).(state := QueueEnabled)] else old(queues[..])
    {
      hide Consistent, Promised, OwnMemory;
      if status[c].ChannelUnused? {
        return false;
      }
      ghost var before := status[..];
      status[c] := ChannelEnabled;
      assert status[..] == before[c := ChannelEnabled];
      if !queues[c].state.QueueUndefined? {
        SetQueue(c, queues[c].(state := QueueEnabled));
      }
      return true;
    }

    method AddFilter(c: nat, id: nat) returns (error: Error, matchId: nat)
      requires Valid() && c < CHANNELS && !status[c].ChannelUnused?
      modifies pool`order, pool.grid.hw, pool.slots, pool.channels
      ensures Valid()
      ensures error == NoError ==> pool.order == old(pool.order)[c := old(pool.order)[c] + [id]]
      ensures error != NoError ==> pool.order == old(pool.order) && pool.slots[..] == old(pool.slots[..])
    {
      hide Consistent, Promised, OwnMemory;
      error, matchId := pool.AddToChannel(c, id);
    }

    /** The removal waits exactly when channel and queue run and the hardware is inside a section. */
    method RemoveFilter(c: nat, id: nat, sectionChange: bool) returns (error: Error)
      requires Valid() && c < CHANNELS && !status[c].ChannelUnused?
      modifies pool`order, pool.grid.hw, pool.slots, pool.channels
      ensures Valid() && error == DeleteError(old(pool.slots[..]), c, id)
      ensures var wait := status[c].ChannelEnabled? && queues[c].state.QueueEnabled? && sectionChange;
        && (error == NoError && id < |old(pool.slots[..])| && wait ==>
              pool.slots[..] == old(pool.slots[..])[id := Live(Deferred(old(pool.slots[id]).f))])
        && (error == NoError && id < |old(pool.slots[..])| && !wait ==>
              pool.slots[id] == Live(Detached(old(pool.slots[id]).f))
              && OthersDimmed(old(pool.slots[..]), pool.slots[..], id, Stray(old(pool.channels[c]))))
    {
      hide Consistent, Promised, OwnMemory, Without, OthersDimmed;
      ghost var j;
      error, j := pool.DeleteFromChannel(c, id, status[c].ChannelEnabled? && queues[c].state.QueueEnabled? && sectionChange);
    }
  }
}
