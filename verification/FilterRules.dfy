/**
 * What each call on the filter pool answers and changes, and why each change keeps the pool
 * sound. The calls themselves are in FilterPool.
 */
module FilterRules {
  import opened FilterGrid
  import opened FilterSplice
  import opened FilterErase
  import opened FilterHardware
  import opened FilterTables
  import opened FilterSteps
  import opened FilterMoves

  datatype Error =
    | NoError
    | BadLength
    | MissingData
    | Unavailable
    | NotAllocated
    | Undefined
    | NotAssigned
    | InUse
    | IsPendingError
    | ChannelFull

  // ----- reserving blocks

  /** The first n free blocks from b on, or all of them when there are fewer. */
  function FirstFree(h: seq<Block>, b: nat, n: nat): (free: seq<nat>)
    requires b <= |h|
    ensures |free| <= n
    decreases |h| - b
  {
    if n == 0 || b == |h| then []
    else if h[b].inUse then FirstFree(h, b + 1, n)
    else [b] + FirstFree(h, b + 1, n - 1)
  }

  function FreeBlocks(h: seq<Block>, from: nat): set<nat> {
    set b | from <= b < |h| && !h[b].inUse
  }

  predicate Ascending(free: seq<nat>, low: nat) {
    && (forall i | 0 <= i < |free| :: low <= free[i])
    && (forall i, j | 0 <= i < j < |free| :: free[i] < free[j])
  }

  predicate AllFree(h: seq<Block>, free: seq<nat>) {
    forall i | 0 <= i < |free| :: free[i] < |h| && !h[free[i]].inUse
  }

  lemma {:induction false} FirstFreeAscends(h: seq<Block>, b: nat, n: nat)
    requires b <= |h|
    ensures Ascending(FirstFree(h, b, n), b) && AllFree(h, FirstFree(h, b, n))
    decreases |h| - b
  {
    if n == 0 || b == |h| {
    } else if h[b].inUse {
      FirstFreeAscends(h, b + 1, n);
      assert FirstFree(h, b, n) == FirstFree(h, b + 1, n);
    } else {
      FirstFreeAscends(h, b + 1, n - 1);
      var rest := FirstFree(h, b + 1, n - 1);
      assert FirstFree(h, b, n) == [b] + rest;
    }
  }

  /** Reservation gives what was asked for exactly when that many blocks are free. */
  lemma {:induction false} FirstFreeCount(h: seq<Block>, b: nat, n: nat)
    requires b <= |h|
    ensures |FirstFree(h, b, n)| == n <==> |FreeBlocks(h, b)| >= n
    decreases |h| - b
  {
    if n == 0 || b == |h| {
      assert b == |h| ==> FreeBlocks(h, b) == {};
    } else if h[b].inUse {
      assert FreeBlocks(h, b) == FreeBlocks(h, b + 1);
      FirstFreeCount(h, b + 1, n);
    } else {
      assert FreeBlocks(h, b) == FreeBlocks(h, b + 1) + {b};
      FirstFreeCount(h, b + 1, n - 1);
    }
  }

  lemma {:induction false} FirstFreeFits(h: seq<Block>, b: nat, n: nat)
    requires b <= |h|
    ensures |FirstFree(h, b, n)| <= |h| - b
    decreases |h| - b
  {
    if n > 0 && b < |h| {
      FirstFreeFits(h, b + 1, if h[b].inUse then n else n - 1);
    }
  }

  function MarkUsed(h: seq<Block>, blocks: seq<nat>): (h': seq<Block>)
    ensures |h'| == |h|
  {
    seq(|h|, b requires 0 <= b < |h| => if b in blocks then h[b].(inUse := true) else h[b])
  }

  /** Bytes 1 and 2 of a section are not filtered; four bytes a block. */
  function BlockCount(length: nat): nat {
    ((if length < 3 then 1 else length - 2) + 3) / 4
  }

  /** A 16-bit signed number holds this of x. */
  function Short16(x: int): (r: int)
    ensures -0x8000 <= r < 0x8000
  {
    if x % 0x1_0000 >= 0x8000 then x % 0x1_0000 - 0x1_0000 else x % 0x1_0000
  }

  /** The block count as the driver computes it: in 16 bits, and with a division toward zero. */
  function DriverBlockCount(length: nat): nat {
    Quarter((if length < 3 then 1 else Short16(length - 2)) + 3) % 0x1_0000
  }

  /** Division by four, toward zero. */
  function Quarter(x: int): int {
    if x >= 0 then x / 4 else -(-x / 4)
  }

  lemma QuarterIn16(x: int)
    requires -0x8000 <= x < 0x8003
    ensures Quarter(x) % 0x1_0000 == if x >= 0 then x / 4 else if x > -4 then 0 else 0x1_0000 - -x / 4
  {
  }

  /** What two less than a length is in 16 bits. */
  lemma TwoLess(length: nat, m: nat)
    requires length >= 3 && m == length % 0x1_0000
    ensures Short16(length - 2) == if m < 2 then m - 2 else if m < 0x8002 then m - 2 else m - 2 - 0x1_0000
  {
    var k := length / 0x1_0000;
    assert length - 2 == (m - 2) + k * 0x1_0000;
    if m < 2 {
      assert (length - 2) % 0x1_0000 == m - 2 + 0x1_0000;
    } else {
      assert (length - 2) % 0x1_0000 == m - 2;
    }
  }

  /** A count that can be met at all is the right one for the length the filter is given. */
  lemma DriverCountIs(length: nat)
    requires 0 < length && 0 < DriverBlockCount(length) <= MAX_BLOCKS
    ensures DriverBlockCount(length) == BlockCount(length % 0x1_0000) && length % 0x1_0000 > 0
  {
    CountCases(length);
  }

  lemma CountCases(length: nat)
    ensures var m := length % 0x1_0000;
      DriverBlockCount(length) ==
        if length < 3 then 1
        else if m < 3 then 0
        else if m < 0x8002 then (m + 1) / 4
        else if m >= 65532 then 0
        else 0x1_0000 - (0x1_0000 - m - 1) / 4
  {
    hide Quarter, Short16;
    var m := length % 0x1_0000;
    if length >= 3 {
      TwoLess(length, m);
      QuarterIn16(Short16(length - 2) + 3);
    } else {
      QuarterIn16(4);
    }
  }

  /** The lengths that are given no block at all. Short ones are not among them. */
  lemma NoBlocksIff(length: nat)
    ensures DriverBlockCount(length) == 0 <==> length >= 3 && (length % 0x1_0000 < 3 || length % 0x1_0000 >= 65532)
    ensures length < 65532 ==> DriverBlockCount(length) > 0
  {
    CountCases(length);
    hide DriverBlockCount;
  }

  // ----- what one filter's operation does to the others

  /** No filter is hit by a misdirected disable. */
  const NOBODY: int := -1

  /** An enabled filter that is not about to be freed is disabled. */
  function Dim(x: Slot): Slot {
    if x.Live? && x.f.state.Enabled? && !x.f.pending.PendingFree? then Live(x.f.(state := Disabled)) else x
  }

  predicate Dimmed(x: Slot, y: Slot, hit: bool) {
    y == if hit then Dim(x) else x
  }

  /** Other filters stay as they are, except that the one with number `stray` is disabled. */
  predicate OthersDimmed(fl: seq<Slot>, fl': seq<Slot>, id: nat, stray: int) {
    |fl'| == |fl| && forall k | 0 <= k < |fl| && k != id :: Dimmed(fl[k], fl'[k], k == stray)
  }

  /** The filter that is hit when a filter leaves the channel: the last one's first block is taken for a filter. */
  function Stray(ch: Channel): int {
    if ch.inUse == 1 then ch.first else NOBODY
  }

  predicate OthersSame(fl: seq<Slot>, fl': seq<Slot>, id: nat) {
    |fl'| == |fl| && forall k | 0 <= k < |fl| && k != id :: fl'[k] == fl[k]
  }

  lemma FirstFreeReserved(h: seq<Block>, h1: seq<Block>, h2: seq<Block>, blocks: seq<nat>)
    requires 0 < |blocks| <= MAX_BLOCKS && blocks == FirstFree(h, 0, |blocks|)
    requires h1 == MarkUsed(h, blocks) && Chain(h2, Singles(blocks)) && SameElsewhere(h1, h2, [], blocks)
    ensures Reserved(h, h2, blocks)
  {
    FirstFreeAscends(h, 0, |blocks|);
    FirstFreeDistinct(h, blocks);
    forall i | 0 <= i < |blocks| ensures h2[blocks[i]].inUse {
      assert blocks[i] in blocks;
    }
    forall b | 0 <= b < |h| && b !in blocks ensures h2[b] == h[b] {
      assert !Listed([], blocks, b);
    }
  }

  lemma FirstFreeDistinct(h: seq<Block>, blocks: seq<nat>)
    requires blocks == FirstFree(h, 0, |blocks|)
    ensures Distinct(Singles(blocks)) && forall i | 0 <= i < |blocks| :: blocks[i] < |h|
  {
    FirstFreeAscends(h, 0, |blocks|);
    forall i, j | 0 <= i < j < |blocks| ensures Singles(blocks)[i].id != Singles(blocks)[j].id {
      assert blocks[i] < blocks[j];
    }
  }

  /** The loop of reserve_hw_blocks before block i. */
  predicate Reserving(h: seq<Block>, h1: seq<Block>, blocks: seq<nat>, i: nat, n: nat) {
    && i <= |h| && |blocks| <= n
    && (forall k | 0 <= k < |blocks| :: blocks[k] < i)
    && blocks + FirstFree(h, i, n - |blocks|) == FirstFree(h, 0, n)
    && h1 == MarkUsed(h, blocks)
  }

  lemma ReserveStarts(h: seq<Block>, n: nat)
    ensures Reserving(h, h, [], 0, n)
  {
    assert MarkUsed(h, []) == h;
  }

  /** Block i still shows whether it was free, and a block in use is passed over. */
  lemma ReserveReads(h: seq<Block>, h1: seq<Block>, blocks: seq<nat>, i: nat, n: nat)
    requires i < |h| && |blocks| < n && Reserving(h, h1, blocks, i, n)
    ensures |h1| == |h| && h1[i] == h[i]
    ensures h[i].inUse ==> Reserving(h, h1, blocks, i + 1, n)
  {
    assert i !in blocks;
  }

  lemma ReserveTakes(h: seq<Block>, h1: seq<Block>, h2: seq<Block>, blocks: seq<nat>, i: nat, n: nat)
    requires i < |h| && |h1| == |h| && |blocks| < n && !h[i].inUse && Reserving(h, h1, blocks, i, n)
    requires h2 == h1[i := h1[i].(inUse := true)]
    ensures Reserving(h, h2, blocks + [i], i + 1, n)
  {
    MarkOne(h, blocks, i, h2);
    var rest := FirstFree(h, i + 1, n - |blocks| - 1);
    assert blocks + ([i] + rest) == blocks + [i] + rest;
    assert n - |blocks + [i]| == n - |blocks| - 1;
    hide MarkUsed;
  }

  lemma ReserveEnds(h: seq<Block>, h1: seq<Block>, blocks: seq<nat>, i: nat, n: nat)
    requires |blocks| <= n && i <= |h| && (i == |h| || |blocks| == n) && Reserving(h, h1, blocks, i, n)
    ensures blocks == FirstFree(h, 0, n) && h1 == MarkUsed(h, blocks)
    ensures AllFree(h, blocks) && Ascending(blocks, 0)
    ensures |blocks| == n <==> |FreeBlocks(h, 0)| >= n
  {
    FirstFreeAscends(h, 0, n);
    FirstFreeCount(h, 0, n);
    hide FreeBlocks, MarkUsed;
    assert FirstFree(h, i, n - |blocks|) == [];
  }

  lemma MarkOne(h: seq<Block>, blocks: seq<nat>, b: nat, h': seq<Block>)
    requires b < |h| && |h'| == |h| && h' == MarkUsed(h, blocks)[b := MarkUsed(h, blocks)[b].(inUse := true)]
    ensures h' == MarkUsed(h, blocks + [b])
  {
    forall k | 0 <= k < |h| ensures h'[k] == MarkUsed(h, blocks + [b])[k] {
      assert k in blocks + [b] <==> k in blocks || k == b;
    }
  }

  lemma UnmarkOne(h: seq<Block>, blocks: seq<nat>, h': seq<Block>)
    requires blocks != [] && blocks[0] < |h| && !h[blocks[0]].inUse && blocks[0] !in blocks[1..]
    requires var m := MarkUsed(h, blocks); h' == m[blocks[0] := m[blocks[0]].(inUse := false)]
    ensures h' == MarkUsed(h, blocks[1..])
  {
    forall k | 0 <= k < |h| ensures h'[k] == MarkUsed(h, blocks[1..])[k] {
      assert blocks == [blocks[0]] + blocks[1..];
      assert k in blocks <==> k in blocks[1..] || k == blocks[0];
    }
  }

  lemma AscendingOnce(blocks: seq<nat>, low: nat, i: nat)
    requires Ascending(blocks, low) && i < |blocks|
    ensures blocks[i] !in blocks[i + 1..]
  {
  }

  function NewFilter(length: nat, blocks: seq<nat>): Filter {
    Filter(Unused, NoPending, false, NO_CHANNEL, 0, length, blocks,
           seq(length, _ => 0), seq(length, _ => 0))
  }

  const NO_LISTS := Channel(0, 0, seq(CHANNELS, _ => NO_FILTER), 0, 0)

  lemma Initially(h: seq<Block>, fl: seq<Slot>, chs: seq<Channel>, order: seq<seq<nat>>, owner: seq<int>)
    requires |h| == |fl| == |owner| == MAX_BLOCKS && |chs| == |order| == CHANNELS
    requires forall b | 0 <= b < |h| :: !h[b].inUse && owner[b] == -1
    requires forall k | 0 <= k < |fl| :: fl[k] == Empty
    requires forall c | 0 <= c < CHANNELS :: chs[c] == NO_LISTS && order[c] == []
    ensures Consistent(h, fl, chs, order, owner) && Promised(fl, chs)
  {
  }

  lemma PromisedFrame(fl: seq<Slot>, fl': seq<Slot>, chs: seq<Channel>, id: nat)
    requires Promised(fl, chs) && OthersSame(fl, fl', id) && !IsPending(fl', id)
    ensures Promised(fl', chs)
  {
    forall k | 0 <= k < |fl'| && IsPending(fl', k)
      ensures fl'[k].f.channel < |chs| && chs[fl'[k].f.channel].requests > 0
    {
      assert k != id && IsPending(fl, k);
    }
  }

  lemma PromisedUpdate(fl: seq<Slot>, f: Filter, chs: seq<Channel>, id: nat)
    requires Promised(fl, chs) && IsLive(fl, id) && f.channel == fl[id].f.channel
    requires f.pending != NoPending ==>
      fl[id].f.pending != NoPending || (f.channel < |chs| && chs[f.channel].requests > 0)
    ensures Promised(fl[id := Live(f)], chs)
  {
    var fl' := fl[id := Live(f)];
    forall k | 0 <= k < |fl'| && IsPending(fl', k)
      ensures fl'[k].f.channel < |chs| && chs[fl'[k].f.channel].requests > 0
    {
      assert k != id ==> IsPending(fl, k);
      assert fl[id].f.pending != NoPending ==> IsPending(fl, id);
    }
  }

  /** An argument that the caller may leave out. */
  datatype Argument = Missing | Given(bytes: seq<bv8>)

  predicate LongEnough(a: Argument, length: nat) {
    a.Given? ==> length <= |a.bytes|
  }

  /** A mask that is left out selects every bit. */
  function MaskOf(a: Argument, length: nat): (mask: seq<bv8>)
    requires LongEnough(a, length)
    ensures |mask| == length
  {
    match a
    case Missing => seq(length, _ => 0xff)
    case Given(bytes) => bytes[..length]
  }

  function Redefined(f: Filter, data: seq<bv8>, mask: Argument): Filter
    requires f.length <= |data| && LongEnough(mask, f.length)
  {
    f.(data := data[..f.length], mask := MaskOf(mask, f.length),
       state := if f.state.Unused? then Defined else f.state,
       soft := f.soft || f.state.Enabled?)
  }

  /** Filter f has been given these bytes to compare, and this mask, or that of all bits. */
  predicate Holds(f: Filter, data: seq<bv8>, mask: Argument) {
    && |f.data| == |f.mask| == f.length
    && forall i | 0 <= i < f.length ::
         && i < |data| && f.data[i] == data[i]
         && (if mask.Given? then i < |mask.bytes| && f.mask[i] == mask.bytes[i] else f.mask[i] == 0xff)
  }

  /** Nothing about f has changed but its state and where it is. */
  predicate SameSettings(f: Filter, f': Filter) {
    f'.data == f.data && f'.mask == f.mask && f'.length == f.length && f'.blocks == f.blocks && f'.soft == f.soft
  }

  /** On channel c, in slot s, and in this state; a removal is pending or not. */
  predicate StandsAs(f: Filter, state: State, c: nat, s: nat, pending: Pending) {
    f.state == state && f.channel == c && f.matchId == s && f.pending == pending
  }

  /** The refusals, each exactly when. A filter that is no longer, or not yet, allocated is always refused first. */
  lemma RefusalsMean(fl: seq<Slot>, ch: Channel, c: nat, id: nat)
    requires IsLive(fl, id)
    ensures var f := fl[id].f; var onChannel := f.state.Enabled? || f.state.Disabled?;
      && (ControlError(fl, id) == NoError <==> onChannel && !f.pending.PendingFree?)
      && (ControlError(fl, id) == NotAssigned <==> !onChannel)
      && (DeleteError(fl, c, id) == NoError <==> onChannel && f.channel == c && f.pending.NoPending?)
      && (DeleteError(fl, c, id) == IsPendingError <==> !f.pending.NoPending?)
      && (DeleteError(fl, c, id) == Undefined <==> f.pending.NoPending? && f.state.Unused?)
      && (FreeError(fl, id) == NoError <==> !onChannel) && (FreeError(fl, id) == InUse <==> onChannel)
      && (AddError(fl, ch, id) == InUse <==> onChannel) && (AddError(fl, ch, id) == Undefined <==> f.state.Unused?)
      && (AddError(fl, ch, id) == IsPendingError <==> f.state.Defined? && !f.pending.NoPending?)
      && (AddError(fl, ch, id) == ChannelFull <==>
            f.state.Defined? && f.pending.NoPending? && ch.count == CHANNELS
            && forall s | 0 <= s < |ch.table| :: ch.table[s] != NO_FILTER)
  {
  }

  lemma RefusedFirst(fl: seq<Slot>, ch: Channel, c: nat, id: nat)
    requires !IsLive(fl, id)
    ensures ControlError(fl, id) == AddError(fl, ch, id) == DeleteError(fl, c, id) == FreeError(fl, id) == NotAllocated
  {
  }

  function ControlError(fl: seq<Slot>, id: nat): Error {
    if !IsLive(fl, id) then NotAllocated
    else if fl[id].f.state.Unused? || fl[id].f.state.Defined? then NotAssigned
    else if fl[id].f.pending.PendingFree? then IsPendingError
    else NoError
  }

  function Controlled(fl: seq<Slot>, id: nat, enable: bool): seq<Slot> {
    if ControlError(fl, id) != NoError then fl
    else fl[id := Live(fl[id].f.(state := if enable then Enabled else Disabled))]
  }

  /** A filter is on the list of one channel, or on no channel and no list. */
  lemma FilterWhereabouts(h: seq<Block>, fl: seq<Slot>, chs: seq<Channel>, order: seq<seq<nat>>,
                          owner: seq<int>, id: nat)
    requires Consistent(h, fl, chs, order, owner) && IsLive(fl, id)
    ensures |chs| == CHANNELS && Shaped(fl[id].f)
    ensures if Attached(fl[id].f) then fl[id].f.channel < CHANNELS else fl[id].f.channel == NO_CHANNEL
  {
    hide Tabled, Chained, Alone;
  }

  // ----- joining a channel

  function Joined(f: Filter, c: nat, s: nat): Filter {
    f.(state := Disabled, channel := c, matchId := s)
  }

  function AddError(fl: seq<Slot>, ch: Channel, id: nat): Error {
    if !IsLive(fl, id) then NotAllocated
    else if fl[id].f.state.Unused? then Undefined
    else if fl[id].f.state.Enabled? || fl[id].f.state.Disabled? then InUse
    else if fl[id].f.pending != NoPending then IsPendingError
    else if ch.count == CHANNELS && forall s | 0 <= s < |ch.table| :: ch.table[s] != NO_FILTER then ChannelFull
    else NoError
  }

  lemma ChannelShape(h: seq<Block>, fl: seq<Slot>, chs: seq<Channel>, order: seq<seq<nat>>, owner: seq<int>, c: nat)
    requires Consistent(h, fl, chs, order, owner) && c < CHANNELS
    ensures |chs| == |order| == CHANNELS && |chs[c].table| == CHANNELS && chs[c].inUse == |order[c]|
    ensures chs[c].count == 0 || chs[c].count == CHANNELS
  {
    hide Owned, Homed, Alone, Chained;
  }

  /** What hw_filter_add needs, for a filter that is on no channel. */
  lemma AddPossible(h: seq<Block>, fl: seq<Slot>, chs: seq<Channel>, order: seq<seq<nat>>, owner: seq<int>,
                    c: nat, id: nat)
    requires Consistent(h, fl, chs, order, owner) && c < CHANNELS && IsLive(fl, id) && !Attached(fl[id].f)
    ensures |chs| == |order| == CHANNELS && Standing(h, fl[id].f.blocks)
    ensures if order[c] == [] then Blocks(fl, order[c]) == []
            else OnChannel(h, chs[c].first, Blocks(fl, order[c])) && Apart(Grid(Blocks(fl, order[c])), fl[id].f.blocks)
  {
    hide Owned, Homed, Tabled, Tables, Grid, Standing, OnChannel, Apart;
    ConsistentParts(h, fl, chs, order, owner);
    NotListedElsewhere(fl, chs, order, c, id);
    ApartFromList(h, fl, owner, order[c], id);
  }

  lemma PromisedJoin(fl: seq<Slot>, fl': seq<Slot>, chs: seq<Channel>, chs': seq<Channel>, id: nat, c: nat)
    requires Promised(fl, chs) && OthersSame(fl, fl', id) && !IsPending(fl', id)
    requires |chs'| == |chs| && forall d | 0 <= d < |chs| :: d != c ==> chs'[d] == chs[d]
    requires c < |chs| && chs'[c].requests == chs[c].requests
    ensures Promised(fl', chs')
  {
    PromisedFrame(fl, fl', chs, id);
  }

  lemma JoinedIdle(f: Filter, c: nat, s: nat)
    requires !Attached(f)
    ensures Joined(f, c, s).pending == NoPending && Attached(Joined(f, c, s))
  {
  }

  /** The table grown to its full size, the new slots unused. */
  function Extended(ch: Channel): Channel
    requires |ch.table| == CHANNELS
  {
    ch.(table := seq(CHANNELS, t requires 0 <= t < CHANNELS => if t < ch.count then ch.table[t] else NO_FILTER),
        count := CHANNELS)
  }

  lemma JoinDone(h: seq<Block>, h': seq<Block>, fl: seq<Slot>, fl': seq<Slot>, chs: seq<Channel>, ch': Channel,
                 order: seq<seq<nat>>, owner: seq<int>, c: nat, id: nat, s: nat)
    requires c < CHANNELS && IsLive(fl, id) && !Attached(fl[id].f) && |chs| == |order| == CHANNELS
    requires Consistent(h, fl, chs, order, owner) && Promised(fl, chs)
    requires fl' == fl[id := Live(Joined(fl[id].f, c, s))]
    requires s < CHANNELS && ch'.count == CHANNELS && |ch'.table| == CHANNELS && ch'.table[s] == id
    requires ch'.inUse == chs[c].inUse + 1 && ch'.requests == chs[c].requests && |chs[c].table| == CHANNELS
    requires chs[c].count <= CHANNELS && forall t | 0 <= t < CHANNELS && t != s ::
      ch'.table[t] == if t < chs[c].count then chs[c].table[t] else NO_FILTER
    requires s < chs[c].count ==> chs[c].table[s] == NO_FILTER
    requires OnChannel(h', ch'.first, Blocks(fl, order[c]) + [fl[id].f.blocks])
    requires SameElsewhere(h, h', Grid(Blocks(fl, order[c])), fl[id].f.blocks)
    ensures Consistent(h', fl', chs[c := ch'], order[c := order[c] + [id]], owner)
    ensures Promised(fl', chs[c := ch'])
  {
    hide Consistent, Promised, OnChannel, SameElsewhere, Grid, Blocks, Attached;
    Attach(h, h', fl, fl', chs, ch', order, owner, c, id, s);
    JoinedIdle(fl[id].f, c, s);
    PromisedJoin(fl, fl', chs, chs[c := ch'], id, c);
  }

  lemma ControlKeeps(h: seq<Block>, fl: seq<Slot>, chs: seq<Channel>, order: seq<seq<nat>>, owner: seq<int>,
                     id: nat, enable: bool)
    requires Consistent(h, fl, chs, order, owner)
    ensures Consistent(h, Controlled(fl, id, enable), chs, order, owner)
    ensures Promised(fl, chs) ==> Promised(Controlled(fl, id, enable), chs)
  {
    hide Consistent, Promised;
    if ControlError(fl, id) == NoError {
      var f' := fl[id].f.(state := if enable then Enabled else Disabled);
      FilterWhereabouts(h, fl, chs, order, owner, id);
      Restate(h, fl, f', chs, order, owner, id);
      if Promised(fl, chs) {
        PromisedUpdate(fl, f', chs, id);
      }
    }
  }

  // ----- leaving a channel

  /** The channel has let go of the filter in slot s of its table. */
  predicate LeftBy(ch: Channel, ch': Channel, s: nat)
    requires s < |ch.table|
  {
    ch' == ch.(first := ch'.first, table := ch.table[s := NO_FILTER], inUse := ch.inUse - 1)
  }

  lemma OthersDimmedItself(fl: seq<Slot>, id: nat)
    ensures OthersDimmed(fl, fl, id, NOBODY)
  {
  }

  /** Where a filter is in its channel's list, and what hw_filter_delete needs there. */
  lemma DeletePossible(h: seq<Block>, fl: seq<Slot>, chs: seq<Channel>, order: seq<seq<nat>>, owner: seq<int>,
                       c: nat, id: nat) returns (j: nat)
    requires Consistent(h, fl, chs, order, owner) && IsLive(fl, id) && Attached(fl[id].f) && fl[id].f.channel == c
    requires c < CHANNELS
    ensures |chs| == |order| == CHANNELS && chs[c].inUse == |order[c]| && |h| == MAX_BLOCKS
    ensures j < |order[c]| && order[c][j] == id
    ensures fl[id].f.matchId < |chs[c].table| && chs[c].table[fl[id].f.matchId] == id
    ensures j < |Blocks(fl, order[c])| && Blocks(fl, order[c])[j] == fl[id].f.blocks
    ensures |order[c]| > 1 ==> Deletable(h, chs[c].first, Blocks(fl, order[c]), j)
    ensures 0 < |fl[id].f.blocks| <= MAX_BLOCKS && Distinct(Singles(fl[id].f.blocks))
    ensures forall k | 0 <= k < |fl[id].f.blocks| :: fl[id].f.blocks[k] < |h|
  {
    hide Tabled, OnChannel;
    ConsistentParts(h, fl, chs, order, owner);
    FilterShaped(h, fl, owner, id);
    assert id in order[c];
    j :| 0 <= j < |order[c]| && order[c][j] == id;
    MemberFacts(fl, chs[c], c, order[c], j);
    ChannelShape(h, fl, chs, order, owner, c);
    BlockOf(fl, order[c], j);
  }

  /**
   * Removing filter id from a channel changes another filter exactly when id was the channel's
   * only filter and its first block has the number of an enabled filter that nobody has freed.
   */
  lemma StrayIff(h: seq<Block>, fl: seq<Slot>, fl': seq<Slot>, chs: seq<Channel>, order: seq<seq<nat>>, owner: seq<int>,
                 c: nat, id: nat, k: nat)
    requires Consistent(h, fl, chs, order, owner) && c < CHANNELS && |chs| == CHANNELS
    requires IsLive(fl, id) && OnList(fl[id], c) && k < |fl| && k != id
    requires OthersDimmed(fl, fl', id, Stray(chs[c]))
    ensures fl'[k] != fl[k] <==>
      && chs[c].inUse == 1 && fl[id].f.blocks != [] && k == fl[id].f.blocks[0]
      && fl[k].Live? && fl[k].f.state.Enabled? && !fl[k].f.pending.PendingFree?
    ensures fl'[k] != fl[k] ==> fl'[k] == Live(fl[k].f.(state := Disabled))
  {
    hide Consistent, OnList;
    if chs[c].inUse == 1 {
      SoleFilter(h, fl, chs, order, owner, c, id);
    }
    assert Dimmed(fl[k], fl'[k], k == Stray(chs[c]));
  }

  /** The misdirected disable hits filter k, and cannot upset the lists. */
  lemma StrayDisable(h: seq<Block>, fl: seq<Slot>, f: Filter, chs: seq<Channel>, order: seq<seq<nat>>,
                     owner: seq<int>, id: nat, k: nat)
    requires id < |fl| && fl[id] == Live(f.(state := Defined))
    requires Consistent(h, fl[id := Live(f)], chs, order, owner)
    ensures var fl1 := Controlled(fl, k, false);
      && |fl1| == |fl| && fl1[id] == fl[id] && OthersDimmed(fl, fl1, id, k)
      && Consistent(h, fl1[id := Live(f)], chs, order, owner) && SameBlocks(fl[id := Live(f)], fl1[id := Live(f)])
    ensures SameBlocks(fl[id := Live(f)], fl[id := Live(f)])
  {
    hide Consistent, Attached;
    if ControlError(fl, k) == NoError {
      var f' := fl[k].f.(state := Disabled);
      assert Controlled(fl, k, false)[id := Live(f)] == fl[id := Live(f)][k := Live(f')];
      FilterWhereabouts(h, fl[id := Live(f)], chs, order, owner, k);
      RestatedDisable(fl[k].f);
      Restate(h, fl[id := Live(f)], f', chs, order, owner, k);
    }
  }

  lemma RestatedDisable(f: Filter)
    requires (f.state.Enabled? || f.state.Disabled?) && Shaped(f)
    ensures Restated(f, f.(state := Disabled))
  {
  }

  lemma MovedBy(h: seq<Block>, h1: seq<Block>, h2: seq<Block>, fs: seq<seq<nat>>, j: nat, first': nat)
    requires j < |fs| && (|fs| == 1 ==> h1 == h) && (|fs| > 1 ==> OnChannel(h1, first', Others(fs, j)))
    requires SameElsewhere(h, h1, Grid(fs), []) && SameElsewhere(h1, h2, [], fs[j])
    requires 0 < |fs[j]| <= MAX_BLOCKS && Chain(h2, Singles(fs[j]))
    ensures Moved(h, h1, h2, fs, j, first')
  {
    hide SameElsewhere, OnChannel, Others, Grid, Chain;
  }

  lemma DeleteDone(h: seq<Block>, h1: seq<Block>, h2: seq<Block>, fl: seq<Slot>, fl1: seq<Slot>, fl': seq<Slot>,
                   f: Filter, chs: seq<Channel>, ch': Channel, order: seq<seq<nat>>, owner: seq<int>,
                   c: nat, j: nat, id: nat, stray: int)
    requires c < CHANNELS && id < |fl| == |fl1| && fl1[id] == fl[id] == Live(f.(state := Defined))
    requires |order| == |chs| == CHANNELS && j < |order[c]| && order[c][j] == id && f.matchId < |chs[c].table|
    requires Consistent(h, fl1[id := Live(f)], chs, order, owner)
    requires SameBlocks(fl[id := Live(f)], fl1[id := Live(f)]) && OthersDimmed(fl, fl1, id, stray)
    requires fl' == fl1[id := Live(fl1[id].f.(channel := NO_CHANNEL, pending := NoPending))]
    requires ch'.table == chs[c].table[f.matchId := NO_FILTER] && ch'.count == chs[c].count
    requires ch'.inUse == chs[c].inUse - 1
    requires Moved(h, h1, h2, Blocks(fl[id := Live(f)], order[c]), j, ch'.first)
    ensures Consistent(h2, fl', chs[c := ch'], order[c := Without(order[c], j)], owner)
    ensures fl'[id] == Live(Detached(f)) && OthersDimmed(fl, fl', id, stray)
  {
    hide Consistent, Moved, Blocks, SameBlocks, Without;
    var fl2 := fl1[id := Live(f)];
    BlocksSame(fl[id := Live(f)], fl2, order[c]);
    assert fl' == fl2[id := Live(Detached(f))];
    Detach(h, h1, h2, fl2, fl', chs, ch', order, owner, c, j, id);
  }

  function DeleteError(fl: seq<Slot>, c: nat, id: nat): Error {
    if !IsLive(fl, id) then NotAllocated
    else if fl[id].f.pending != NoPending then IsPendingError
    else if fl[id].f.state.Unused? then Undefined
    else if fl[id].f.state.Defined? || fl[id].f.channel != c then NotAssigned
    else NoError
  }

  /** A removal that is refused has still disabled an enabled filter of another channel. */
  function Refused(fl: seq<Slot>, c: nat, id: nat): seq<Slot> {
    if IsLive(fl, id) && fl[id].f.pending == NoPending then Controlled(fl, id, false) else fl
  }

  /** Marked for removal once the hardware has let go. */
  function Deferred(f: Filter): Filter {
    f.(state := Defined, pending := PendingDelete)
  }

  predicate Closing(ch: Channel, ch': Channel, s: nat, busy: bool) {
    if busy then ch' == ch.(requests := ch.requests + 1) else s < |ch.table| && LeftBy(ch, ch', s)
  }

  function FreeError(fl: seq<Slot>, id: nat): Error {
    if !IsLive(fl, id) then NotAllocated
    else if fl[id].f.state.Enabled? || fl[id].f.state.Disabled? then InUse
    else NoError
  }

  lemma AttachedWhenDisabled(f: Filter)
    requires f.state.Disabled?
    ensures Attached(f) && f.(state := Defined).state.Defined?
  {
  }

  /** A channel's table names an attached filter in exactly its slot, if the filter is there at all. */
  lemma SlotOf(h: seq<Block>, fl: seq<Slot>, chs: seq<Channel>, order: seq<seq<nat>>, owner: seq<int>,
               c: nat, id: nat, s: nat)
    requires Consistent(h, fl, chs, order, owner) && c < CHANNELS && IsLive(fl, id) && Attached(fl[id].f)
    requires |chs| == CHANNELS && |chs[c].table| == CHANNELS && s <= chs[c].count <= CHANNELS && |fl| == MAX_BLOCKS
    requires forall t | 0 <= t < s :: chs[c].table[t] != id
    requires s == chs[c].count || chs[c].table[s] == id
    ensures s == chs[c].count <==> fl[id].f.channel != c
    ensures s != chs[c].count ==> s == fl[id].f.matchId
  {
    hide Owned, Alone, Chained;
    assert Tabled(fl, chs[c], c, order[c]);
    if s < chs[c].count {
      assert chs[c].table[s] in order[c] && Matches(fl, id, s);
      var i :| 0 <= i < |order[c]| && order[c][i] == id;
      MemberFacts(fl, chs[c], c, order[c], i);
    } else if fl[id].f.channel == c {
      assert id in order[c];
      var i :| 0 <= i < |order[c]| && order[c][i] == id;
      MemberFacts(fl, chs[c], c, order[c], i);
      assert false;
    }
  }

  lemma DeferDone(h: seq<Block>, fl: seq<Slot>, f: Filter, chs: seq<Channel>, ch': Channel, order: seq<seq<nat>>,
                  owner: seq<int>, c: nat, id: nat)
    requires c < CHANNELS && |chs| == CHANNELS && IsLive(fl, id) && fl[id].f == f
    requires f.state.Disabled? && f.pending == NoPending && f.channel == c
    requires ch' == chs[c].(requests := chs[c].requests + 1)
    requires Consistent(h, fl, chs, order, owner) && Promised(fl, chs)
    ensures Consistent(h, fl[id := Live(Deferred(f))], chs[c := ch'], order, owner)
    ensures Promised(fl[id := Live(Deferred(f))], chs[c := ch'])
  {
    var f' := Deferred(f);
    hide Consistent, Promised;
    assert Restated(f, f');
    ChannelShape(h, fl, chs, order, owner, c);
    Recount(h, fl, chs, ch', order, owner, c);
    PromisedMore(fl, chs, ch', c);
    Restate(h, fl, f', chs[c := ch'], order, owner, id);
    PromisedUpdate(fl, f', chs[c := ch'], id);
  }

  lemma PromisedMore(fl: seq<Slot>, chs: seq<Channel>, ch': Channel, c: nat)
    requires Promised(fl, chs) && c < |chs| && ch'.requests >= chs[c].requests
    ensures Promised(fl, chs[c := ch'])
  {
  }

  lemma PromisedDimmed(fl: seq<Slot>, fl': seq<Slot>, chs: seq<Channel>, chs': seq<Channel>, id: nat, stray: int)
    requires Promised(fl, chs) && OthersDimmed(fl, fl', id, stray) && !IsPending(fl', id)
    requires |chs'| == |chs| && forall d | 0 <= d < |chs| :: chs'[d].requests == chs[d].requests
    ensures Promised(fl', chs')
  {
    forall k | 0 <= k < |fl'| && IsPending(fl', k)
      ensures fl'[k].f.channel < |chs'| && chs'[fl'[k].f.channel].requests > 0
    {
      assert k != id && Dimmed(fl[k], fl'[k], k == stray) && IsPending(fl, k);
    }
  }

  lemma RemoveDone(fl: seq<Slot>, fl': seq<Slot>, chs: seq<Channel>, chs': seq<Channel>, id: nat, c: nat, f: Filter, stray: int)
    requires Promised(fl, chs) && id < |fl| && fl[id] == Live(f) && |fl'| == |fl|
    requires c < |chs| == |chs'| && f.matchId < |chs[c].table| && LeftBy(chs[c], chs'[c], f.matchId)
    requires forall d | 0 <= d < |chs| && d != c :: chs'[d] == chs[d]
    requires OthersDimmed(fl[id := Live(f.(state := Defined))], fl', id, stray) && fl'[id] == Live(Detached(f))
    ensures Promised(fl', chs') && OthersDimmed(fl, fl', id, stray)
  {
    hide Promised;
    assert OthersDimmed(fl, fl', id, stray) by {
      forall k | 0 <= k < |fl| && k != id ensures Dimmed(fl[k], fl'[k], k == stray) {
        assert fl[id := Live(f.(state := Defined))][k] == fl[k];
      }
    }
    PromisedDimmed(fl, fl', chs, chs', id, stray);
  }

  lemma DimmedAfter(fl: seq<Slot>, fl1: seq<Slot>, fl': seq<Slot>, id: nat, stray: int)
    requires OthersSame(fl, fl1, id) && OthersDimmed(fl1, fl', id, stray)
    ensures OthersDimmed(fl, fl', id, stray)
  {
  }

  function Cleared(h: seq<Block>, blocks: seq<nat>): (h': seq<Block>)
    ensures |h'| == |h|
  {
    seq(|h|, b requires 0 <= b < |h| => if b in blocks then h[b].(inUse := false) else h[b])
  }

  lemma ClearNone(h: seq<Block>)
    ensures Cleared(h, []) == h
  {
  }

  lemma ClearOne(h: seq<Block>, blocks: seq<nat>, b: nat, h': seq<Block>)
    requires b < |h| && h' == Cleared(h, blocks)[b := Cleared(h, blocks)[b].(inUse := false)]
    ensures h' == Cleared(h, blocks + [b])
  {
    forall k | 0 <= k < |h| ensures h'[k] == Cleared(h, blocks + [b])[k] {
      assert k in blocks + [b] <==> k in blocks || k == b;
    }
  }

  lemma OwnBlocks(h: seq<Block>, fl: seq<Slot>, chs: seq<Channel>, order: seq<seq<nat>>, owner: seq<int>, id: nat)
    requires Consistent(h, fl, chs, order, owner) && IsLive(fl, id)
    ensures |owner| == |h|
    ensures forall i | 0 <= i < |fl[id].f.blocks| :: fl[id].f.blocks[i] < |h|
    ensures forall b | 0 <= b < |h| :: owner[b] == id <==> b in fl[id].f.blocks
  {
    ConsistentParts(h, fl, chs, order, owner);
    FilterShaped(h, fl, owner, id);
    hide Consistent, Tables, Alone;
  }

  lemma ClearedIsFreed(h: seq<Block>, owner: seq<int>, blocks: seq<nat>, id: nat)
    requires |owner| == |h| && forall b | 0 <= b < |h| :: owner[b] == id <==> b in blocks
    ensures Cleared(h, blocks) == FreedBlocks(h, owner, id)
  {
  }

  // ----- carrying out what was put off

  /** What becomes of filter x when the slots below i of channel c have been dealt with. */
  predicate Settled(x: Slot, y: Slot, c: nat, i: nat, hit: bool) {
    if x.Live? && x.f.pending != NoPending && x.f.channel == c && x.f.matchId < i then
      if x.f.pending.PendingFree? then y.Empty? else y == Live(Detached(x.f))
    else Dimmed(x, y, hit)
  }

  predicate Drained(fl: seq<Slot>, fl': seq<Slot>, c: nat, i: nat, stray: int) {
    |fl'| == |fl| && forall k | 0 <= k < |fl| :: Settled(fl[k], fl'[k], c, i, k == stray)
  }

  /** All filters of the channel are waiting, and id is the one in the highest slot. */
  predicate LastOut(fl: seq<Slot>, c: nat, id: nat) {
    && IsLive(fl, id) && OnList(fl[id], c) && fl[id].f.pending != NoPending
    && forall k | 0 <= k < |fl| && OnList(fl[k], c) :: fl[k].f.pending != NoPending && fl[k].f.matchId <= fl[id].f.matchId
  }

  /** The filter hit is named by the first block of the filter that leaves the channel empty. */
  ghost predicate DrainHits(fl: seq<Slot>, c: nat, stray: int) {
    if stray == NOBODY then forall id: nat :: !LastOut(fl, c, id)
    else exists id: nat :: LastOut(fl, c, id) && fl[id].f.blocks != [] && stray == fl[id].f.blocks[0]
  }

  /** What is known of the filter hit while the channel's list changes from ids0 to ids. */
  ghost predicate HitSoFar(fl: seq<Slot>, ids0: seq<nat>, ids: seq<nat>, c: nat, stray: int) {
    && (ids0 != [] && ids == [] <==> stray != NOBODY) && (ids != [] ==> ids0 != [])
    && (stray != NOBODY ==> DrainHits(fl, c, stray))
  }

  lemma SlotNames(h: seq<Block>, fl: seq<Slot>, chs: seq<Channel>, order: seq<seq<nat>>, owner: seq<int>,
                  c: nat, i: nat)
    requires Consistent(h, fl, chs, order, owner) && c < CHANNELS && |chs| == CHANNELS && i < chs[c].count
    ensures |order| == CHANNELS && |chs[c].table| == CHANNELS && i < CHANNELS
    ensures var id := chs[c].table[i];
      id != NO_FILTER ==> IsLive(fl, id) && fl[id].f.channel == c && fl[id].f.matchId == i && Attached(fl[id].f)
  {
    hide Owned, Alone, Chained, Homed;
    assert Tabled(fl, chs[c], c, order[c]);
    var id := chs[c].table[i];
    if id != NO_FILTER {
      assert id in order[c] && Matches(fl, id, i);
      var j :| 0 <= j < |order[c]| && order[c][j] == id;
      MemberFacts(fl, chs[c], c, order[c], j);
    }
  }

  /** A filter of the channel is named by its own slot. */
  lemma NamedBySlot(h: seq<Block>, fl: seq<Slot>, chs: seq<Channel>, order: seq<seq<nat>>, owner: seq<int>,
                    c: nat, k: nat)
    requires Consistent(h, fl, chs, order, owner) && c < CHANNELS && |chs| == CHANNELS
    requires IsLive(fl, k) && fl[k].f.channel == c && Attached(fl[k].f)
    ensures fl[k].f.matchId < chs[c].count <= CHANNELS && |chs[c].table| == CHANNELS
    ensures chs[c].table[fl[k].f.matchId] == k && Shaped(fl[k].f)
  {
    ConsistentParts(h, fl, chs, order, owner);
    FilterShaped(h, fl, owner, k);
    ChannelShape(h, fl, chs, order, owner, c);
    assert k in order[c];
    var j :| 0 <= j < |order[c]| && order[c][j] == k;
    MemberFacts(fl, chs[c], c, order[c], j);
  }

  lemma NothingPending(fl: seq<Slot>, chs: seq<Channel>, c: nat)
    requires Promised(fl, chs) && c < |chs| && chs[c].requests == 0
    ensures Drained(fl, fl, c, CHANNELS, NOBODY) && DrainHits(fl, c, NOBODY)
  {
    forall k | 0 <= k < |fl| ensures Settled(fl[k], fl[k], c, CHANNELS, false) && !LastOut(fl, c, k) {
      assert IsPending(fl, k) ==> fl[k].f.channel != c;
    }
  }

  lemma DrainStarts(h: seq<Block>, fl: seq<Slot>, chs: seq<Channel>, order: seq<seq<nat>>, owner: seq<int>, c: nat)
    requires Consistent(h, fl, chs, order, owner) && c < CHANNELS && |chs| == CHANNELS
    ensures |order| == CHANNELS && chs[c].count <= CHANNELS && Drained(fl, fl, c, 0, NOBODY)
  {
    ChannelShape(h, fl, chs, order, owner, c);
    hide Consistent;
  }

  lemma PendingIsDefined(h: seq<Block>, fl: seq<Slot>, chs: seq<Channel>, order: seq<seq<nat>>, owner: seq<int>, id: nat)
    requires Consistent(h, fl, chs, order, owner) && IsLive(fl, id) && fl[id].f.pending != NoPending
    ensures fl[id].f.state.Defined? && Attached(fl[id].f) && fl[id].f.(state := Defined) == fl[id].f
  {
    ConsistentParts(h, fl, chs, order, owner);
    FilterShaped(h, fl, owner, id);
    hide Consistent;
  }

  lemma DetachedIdle(f: Filter)
    ensures !Attached(Detached(f))
  {
  }

  /** A filter still waiting in slot s at stage i <= s is in the table under that slot. */
  lemma StillWaiting(h: seq<Block>, fl: seq<Slot>, fl0: seq<Slot>, chs: seq<Channel>, order: seq<seq<nat>>,
                     owner: seq<int>, c: nat, i: nat, k: nat, hit: bool)
    requires Consistent(h, fl0, chs, order, owner) && c < CHANNELS && |chs| == CHANNELS
    requires IsLive(fl, k) && fl[k].f.pending != NoPending && fl[k].f.channel == c && i <= fl[k].f.matchId
    requires k < |fl0| && Settled(fl[k], fl0[k], c, i, hit)
    ensures !hit ==> fl0[k] == fl[k]
    ensures fl[k].f.matchId < chs[c].count <= CHANNELS && |chs[c].table| == CHANNELS
    ensures chs[c].table[fl[k].f.matchId] == k
  {
    hide Consistent;
    NamedBySlot(h, fl0, chs, order, owner, c, k);
  }

  lemma DrainSkips(h: seq<Block>, fl: seq<Slot>, fl0: seq<Slot>, chs: seq<Channel>, order: seq<seq<nat>>,
                   owner: seq<int>, c: nat, i: nat, stray: int)
    requires Consistent(h, fl0, chs, order, owner) && c < CHANNELS && |chs| == CHANNELS
    requires |chs[c].table| == CHANNELS && i < CHANNELS && Drained(fl, fl0, c, i, stray)
    requires var id := chs[c].table[i]; id == NO_FILTER || (IsLive(fl0, id) && fl0[id].f.pending == NoPending)
    requires |fl0| == MAX_BLOCKS
    ensures Drained(fl, fl0, c, i + 1, stray)
  {
    hide Consistent;
    forall k | 0 <= k < |fl| ensures Settled(fl[k], fl0[k], c, i + 1, k == stray) {
      assert Settled(fl[k], fl0[k], c, i, k == stray);
      if fl[k].Live? && fl[k].f.pending != NoPending && fl[k].f.channel == c && fl[k].f.matchId >= i {
        StillWaiting(h, fl, fl0, chs, order, owner, c, i, k, k == stray);
      }
    }
  }

  lemma DrainMoves(h: seq<Block>, fl: seq<Slot>, fl0: seq<Slot>, fl1: seq<Slot>, fl': seq<Slot>, chs: seq<Channel>,
                   order: seq<seq<nat>>, owner: seq<int>, c: nat, i: nat, id: nat, stray: int)
    requires Consistent(h, fl0, chs, order, owner) && c < CHANNELS && |chs| == CHANNELS
    requires |chs[c].table| == CHANNELS && i < CHANNELS && chs[c].table[i] == id && Drained(fl, fl0, c, i, NOBODY)
    requires IsLive(fl0, id) && fl0[id].f.pending != NoPending && fl0[id].f.channel == c && fl0[id].f.matchId == i
    requires OthersDimmed(fl0, fl1, id, stray) && OthersSame(fl1, fl', id)
    requires fl'[id] == if fl0[id].f.pending.PendingFree? then Empty else Live(Detached(fl0[id].f))
    ensures Drained(fl, fl', c, i + 1, stray)
  {
    PendingIsDefined(h, fl0, chs, order, owner, id);
    hide Consistent;
    forall k | 0 <= k < |fl| ensures Settled(fl[k], fl'[k], c, i + 1, k == stray) {
      if fl[k].Live? && fl[k].f.pending != NoPending && fl[k].f.channel == c && fl[k].f.matchId >= i {
        StillWaiting(h, fl, fl0, chs, order, owner, c, i, k, false);
      }
      if k == id {
        SettledMoved(fl[k], fl0[k], fl'[k], c, i, k == stray);
      } else {
        SettledDimmed(fl[k], fl0[k], fl'[k], c, i, k == stray);
      }
    }
  }

  lemma SettledMoved(x: Slot, y: Slot, y': Slot, c: nat, i: nat, hit: bool)
    requires Settled(x, y, c, i, false) && y.Live? && y.f.state.Defined? && y.f.pending != NoPending
    requires y.f.channel == c && y.f.matchId == i
    requires y' == if y.f.pending.PendingFree? then Empty else Live(Detached(y.f))
    ensures Settled(x, y', c, i + 1, hit)
  {
  }

  lemma SettledDimmed(x: Slot, y: Slot, y': Slot, c: nat, i: nat, hit: bool)
    requires Settled(x, y, c, i, false) && Dimmed(y, y', hit)
    requires !(x.Live? && x.f.pending != NoPending && x.f.channel == c && x.f.matchId == i)
    ensures Settled(x, y', c, i + 1, hit)
  {
  }

  /** A filter that leaves the channel empty is the last of the channel's filters, all of which were waiting. */
  lemma DrainedLast(h: seq<Block>, fl: seq<Slot>, fl0: seq<Slot>, chs: seq<Channel>, order: seq<seq<nat>>,
                    owner: seq<int>, c: nat, i: nat, id: nat)
    requires Consistent(h, fl0, chs, order, owner) && c < CHANNELS && |chs| == CHANNELS
    requires Drained(fl, fl0, c, i, NOBODY) && chs[c].inUse == 1
    requires IsLive(fl0, id) && fl0[id].f.pending != NoPending && fl0[id].f.channel == c && fl0[id].f.matchId == i
    ensures DrainHits(fl, c, chs[c].first) && |order| == CHANNELS && order[c] == [id]
  {
    PendingIsDefined(h, fl0, chs, order, owner, id);
    SoleFilter(h, fl0, chs, order, owner, c, id);
    hide Consistent, Attached;
    assert Settled(fl[id], fl0[id], c, i, false);
    assert fl[id] == fl0[id];
    forall k | 0 <= k < |fl| && OnList(fl[k], c)
      ensures fl[k].f.pending != NoPending && fl[k].f.matchId <= fl[id].f.matchId
    {
      assert Settled(fl[k], fl0[k], c, i, false);
      OnIsListed(h, fl0, chs, order, owner, c, k);
    }
    assert LastOut(fl, c, id);
  }

  /** The first block of a channel with one filter is that filter's first. */
  lemma SoleFilter(h: seq<Block>, fl: seq<Slot>, chs: seq<Channel>, order: seq<seq<nat>>, owner: seq<int>, c: nat, id: nat)
    requires Consistent(h, fl, chs, order, owner) && c < CHANNELS && |chs| == CHANNELS && chs[c].inUse == 1
    requires IsLive(fl, id) && OnList(fl[id], c)
    ensures |order| == CHANNELS && order[c] == [id] && fl[id].f.blocks != [] && chs[c].first == fl[id].f.blocks[0]
  {
    ConsistentParts(h, fl, chs, order, owner);
    FilterShaped(h, fl, owner, id);
    hide Consistent, Tables, Owned, Alone, Tabled, OnList, Grid;
    ChannelShape(h, fl, chs, order, owner, c);
    OnIsListed(h, fl, chs, order, owner, c, id);
    assert Chained(h, fl, chs[c], order[c]) && order[c] == [id];
    assert Blocks(fl, order[c]) == [fl[id].f.blocks];
    GridOfOne(fl[id].f.blocks);
  }

  lemma NoneHit(fl: seq<Slot>, ids: seq<nat>, c: nat)
    ensures HitSoFar(fl, ids, ids, c, NOBODY)
  {
  }

  lemma HitMeans(fl: seq<Slot>, ids0: seq<nat>, ids: seq<nat>, c: nat, stray: int)
    requires HitSoFar(fl, ids0, ids, c, stray)
    ensures ids0 != [] && ids == [] <==> stray != NOBODY
  {
  }

  /** While a filter is on the channel, nobody was hit. */
  lemma StillHere(h: seq<Block>, fl: seq<Slot>, fl0: seq<Slot>, chs: seq<Channel>, order: seq<seq<nat>>, owner: seq<int>,
                  c: nat, id: nat, ids: seq<nat>, stray: int)
    requires Consistent(h, fl0, chs, order, owner) && c < CHANNELS && |chs| == |order| == CHANNELS
    requires IsLive(fl0, id) && OnList(fl0[id], c) && HitSoFar(fl, ids, order[c], c, stray)
    ensures stray == NOBODY && order[c] != []
  {
    OnIsListed(h, fl0, chs, order, owner, c, id);
    hide Consistent, DrainHits;
  }

  /** What is known of the filter hit once one more has left the channel. */
  lemma HitMore(fl: seq<Slot>, ch: Channel, ids0: seq<nat>, ids: seq<nat>, c: nat, j: nat)
    requires HitSoFar(fl, ids0, ids, c, NOBODY) && j < |ids| && ch.inUse == |ids|
    requires ch.inUse == 1 ==> DrainHits(fl, c, ch.first)
    ensures HitSoFar(fl, ids0, Without(ids, j), c, Stray(ch))
  {
    hide DrainHits;
  }

  lemma DrainEnds(h: seq<Block>, fl: seq<Slot>, fl': seq<Slot>, chs: seq<Channel>, chs': seq<Channel>,
                  order: seq<seq<nat>>, owner: seq<int>, c: nat, stray: int)
    requires Consistent(h, fl', chs', order, owner) && c < CHANNELS && |chs| == |chs'| == CHANNELS
    requires Promised(fl, chs) && Drained(fl, fl', c, chs'[c].count, stray)
    requires forall d | 0 <= d < CHANNELS && d != c :: chs'[d] == chs[d]
    ensures Promised(fl', chs') && Drained(fl, fl', c, CHANNELS, stray)
  {
    var n := chs'[c].count;
    ChannelShape(h, fl', chs', order, owner, c);
    hide Consistent;
    forall k | 0 <= k < |fl| ensures Settled(fl[k], fl'[k], c, CHANNELS, k == stray) {
      assert Settled(fl[k], fl'[k], c, n, k == stray);
      if fl[k].Live? && fl[k].f.pending != NoPending && fl[k].f.channel == c && fl[k].f.matchId >= n {
        StillWaiting(h, fl, fl', chs', order, owner, c, n, k, k == stray);
      }
    }
    forall k | 0 <= k < |fl'| && IsPending(fl', k) && fl'[k].f.channel == c ensures fl'[k].f.matchId < CHANNELS {
      NamedBySlot(h, fl', chs', order, owner, c, k);
    }
    DrainKeepsPromise(fl, fl', chs, chs', c, stray);
  }

  /** When nobody was hit, the channel was not emptied, so not all of its filters were waiting. */
  lemma NobodyHit(h: seq<Block>, fl: seq<Slot>, fl': seq<Slot>, chs: seq<Channel>, chs': seq<Channel>,
                  order: seq<seq<nat>>, order': seq<seq<nat>>, owner: seq<int>, owner': seq<int>, hw: seq<Block>, c: nat, stray: int)
    requires Consistent(hw, fl, chs, order, owner) && Consistent(h, fl', chs', order', owner') && c < CHANNELS
    requires Drained(fl, fl', c, CHANNELS, stray) && |order| == |order'| == |chs| == |chs'| == CHANNELS
    requires HitSoFar(fl, order[c], order'[c], c, stray)
    ensures DrainHits(fl, c, stray)
  {
    hide Consistent, Attached;
    forall id: nat | stray == NOBODY ensures !LastOut(fl, c, id) {
      if order'[c] != [] {
        ListedIsOn(h, fl', chs', order', owner', c, order'[c][0]);
        NotAllWaiting(fl, fl', c, order'[c][0], id);
      } else if id < |fl| {
        OnIsListed(hw, fl, chs, order, owner, c, id);
      }
    }
  }

  lemma NotAllWaiting(fl: seq<Slot>, fl': seq<Slot>, c: nat, k: nat, id: nat)
    requires Drained(fl, fl', c, CHANNELS, NOBODY) && k < |fl'| && OnList(fl'[k], c) && fl'[k].f.matchId < CHANNELS
    ensures !LastOut(fl, c, id)
  {
    assert Settled(fl[k], fl'[k], c, CHANNELS, false);
  }

  lemma DrainKeepsPromise(fl: seq<Slot>, fl': seq<Slot>, chs: seq<Channel>, chs': seq<Channel>, c: nat, stray: int)
    requires Promised(fl, chs) && c < CHANNELS && |chs| == |chs'| == CHANNELS
    requires forall d | 0 <= d < CHANNELS && d != c :: chs'[d] == chs[d]
    requires Drained(fl, fl', c, CHANNELS, stray)
    requires forall k | 0 <= k < |fl'| && IsPending(fl', k) && fl'[k].f.channel == c :: fl'[k].f.matchId < CHANNELS
    ensures Promised(fl', chs')
  {
    forall k | 0 <= k < |fl'| && IsPending(fl', k)
      ensures fl'[k].f.channel < |chs'| && chs'[fl'[k].f.channel].requests > 0
    {
      assert Settled(fl[k], fl'[k], c, CHANNELS, k == stray) && IsPending(fl, k);
    }
  }

  // ----- freeing a channel

  predicate OnList(x: Slot, c: nat) {
    x.Live? && Attached(x.f) && x.f.channel == c
  }

  /** Whether freeing the channel gives the filter back: it must be removable at once. */
  predicate Freed(x: Slot, busy: seq<bool>) {
    x.Live? && x.f.pending == NoPending && x.f.matchId < |busy| && !busy[x.f.matchId]
  }

  function Leaked(f: Filter): Filter {
    f.(state := Defined, pending := PendingFree)
  }

  /** What becomes of filter x when slots below i of channel c have been freed. */
  predicate LetGo(x: Slot, y: Slot, c: nat, busy: seq<bool>, i: nat, hit: bool) {
    if OnList(x, c) && x.f.matchId < i then
      if Freed(x, busy) then y.Empty? else y == Live(Leaked(x.f))
    else Dimmed(x, y, hit)
  }

  predicate AllLetGo(fl: seq<Slot>, fl': seq<Slot>, c: nat, busy: seq<bool>, i: nat, stray: int) {
    |fl'| == |fl| && forall k | 0 <= k < |fl| :: LetGo(fl[k], fl'[k], c, busy, i, k == stray)
  }

  /** All filters of the channel can be given back, and id is the one in the highest slot. */
  predicate LastFreed(fl: seq<Slot>, c: nat, busy: seq<bool>, id: nat) {
    && IsLive(fl, id) && OnList(fl[id], c) && Freed(fl[id], busy)
    && forall k | 0 <= k < |fl| && OnList(fl[k], c) :: Freed(fl[k], busy) && fl[k].f.matchId <= fl[id].f.matchId
  }

  ghost predicate FreeHits(fl: seq<Slot>, c: nat, busy: seq<bool>, stray: int) {
    if stray == NOBODY then forall id: nat :: !LastFreed(fl, c, busy, id)
    else exists id: nat :: LastFreed(fl, c, busy, id) && fl[id].f.blocks != [] && stray == fl[id].f.blocks[0]
  }

  ghost predicate FreedSoFar(fl: seq<Slot>, ids0: seq<nat>, ids: seq<nat>, c: nat, busy: seq<bool>, stray: int) {
    && (ids0 != [] && ids == [] <==> stray != NOBODY) && (ids != [] ==> ids0 != [])
    && (stray != NOBODY ==> FreeHits(fl, c, busy, stray))
  }

  /** Every filter on the channel can be given back. */
  predicate AllFreed(fl: seq<Slot>, c: nat, busy: seq<bool>) {
    forall k | 0 <= k < |fl| && OnList(fl[k], c) :: Freed(fl[k], busy)
  }

  lemma LetGoStarts(fl: seq<Slot>, c: nat, busy: seq<bool>)
    ensures AllLetGo(fl, fl, c, busy, 0, NOBODY)
  {
  }

  lemma LetGoDimmed(x: Slot, y: Slot, y': Slot, c: nat, busy: seq<bool>, i: nat, hit: bool)
    requires LetGo(x, y, c, busy, i, false) && Dimmed(y, y', hit) && (x.Live? ==> Shaped(x.f))
    requires !(OnList(x, c) && x.f.matchId == i)
    ensures LetGo(x, y', c, busy, i + 1, hit)
  {
  }

  /** The filter in slot i, once it has been deleted and freed. */
  lemma LetGoMoved(x: Slot, y: Slot, y': Slot, c: nat, busy: seq<bool>, i: nat, hit: bool)
    requires LetGo(x, y, c, busy, i, false) && OnList(y, c) && Shaped(y.f) && y.f.matchId == i < |busy|
    requires x.Live? ==> Shaped(x.f)
    requires y' == if Freed(y, busy) then Empty else Live(Leaked(y.f))
    ensures LetGo(x, y', c, busy, i + 1, hit)
  {
  }

  lemma StillListed(h: seq<Block>, x: Slot, fl0: seq<Slot>, chs: seq<Channel>, order: seq<seq<nat>>,
                    owner: seq<int>, c: nat, busy: seq<bool>, i: nat, k: nat, hit: bool)
    requires Consistent(h, fl0, chs, order, owner) && c < CHANNELS && |chs| == CHANNELS
    requires OnList(x, c) && i <= x.f.matchId && k < |fl0| && LetGo(x, fl0[k], c, busy, i, hit)
    ensures fl0[k].Live? && fl0[k].f.matchId == x.f.matchId
    ensures x.f.matchId < chs[c].count <= CHANNELS && |chs[c].table| == CHANNELS
    ensures chs[c].table[x.f.matchId] == k
  {
    hide Consistent;
    assert Dimmed(x, fl0[k], hit);
    NamedBySlot(h, fl0, chs, order, owner, c, k);
  }

  predicate AllShaped(fl: seq<Slot>) {
    forall k | 0 <= k < |fl| && fl[k].Live? :: Shaped(fl[k].f)
  }

  lemma LetGoNext(h: seq<Block>, fl: seq<Slot>, fl0: seq<Slot>, fl': seq<Slot>, chs: seq<Channel>,
                  order: seq<seq<nat>>, owner: seq<int>, c: nat, busy: seq<bool>, i: nat, id: nat, stray: int)
    requires Consistent(h, fl0, chs, order, owner) && c < CHANNELS && |chs| == CHANNELS
    requires |chs[c].table| == CHANNELS && i < CHANNELS == |busy| && chs[c].table[i] == id
    requires AllLetGo(fl, fl0, c, busy, i, NOBODY) && AllShaped(fl)
    requires OthersDimmed(fl0, fl', id, stray) && IsLive(fl0, id)
    requires OnList(fl0[id], c) && fl0[id].f.matchId == i
    requires fl'[id] == if Freed(fl0[id], busy) then Empty else Live(Leaked(fl0[id].f))
    ensures AllLetGo(fl, fl', c, busy, i + 1, stray)
  {
    hide Consistent, LetGo, Freed, Leaked, Attached;
    forall k | 0 <= k < |fl| ensures LetGo(fl[k], fl'[k], c, busy, i + 1, k == stray) {
      if OnList(fl[k], c) && fl[k].f.matchId >= i {
        StillListed(h, fl[k], fl0, chs, order, owner, c, busy, i, k, false);
      }
      if k == id {
        LiveFilterShaped(h, fl0, chs, order, owner, id);
        LetGoMoved(fl[k], fl0[k], fl'[k], c, busy, i, k == stray);
      } else {
        LetGoDimmed(fl[k], fl0[k], fl'[k], c, busy, i, k == stray);
      }
    }
  }

  /** An empty slot of the table leaves everything as it was. */
  lemma LetGoSkips(h: seq<Block>, fl: seq<Slot>, fl0: seq<Slot>, chs: seq<Channel>,
                   order: seq<seq<nat>>, owner: seq<int>, c: nat, busy: seq<bool>, i: nat, stray: int)
    requires Consistent(h, fl0, chs, order, owner) && c < CHANNELS && |chs| == CHANNELS
    requires |chs[c].table| == CHANNELS && i < CHANNELS == |busy| && chs[c].table[i] == NO_FILTER
    requires AllLetGo(fl, fl0, c, busy, i, stray) && |fl0| == MAX_BLOCKS
    ensures AllLetGo(fl, fl0, c, busy, i + 1, stray)
  {
    hide Consistent, Attached;
    forall k | 0 <= k < |fl| ensures LetGo(fl[k], fl0[k], c, busy, i + 1, k == stray) {
      assert LetGo(fl[k], fl0[k], c, busy, i, k == stray);
      if OnList(fl[k], c) && fl[k].f.matchId >= i {
        StillListed(h, fl[k], fl0, chs, order, owner, c, busy, i, k, k == stray);
      }
    }
  }

  /** A filter that leaves the channel empty is the last of its filters, all of which could be given back. */
  lemma FreedLast(h: seq<Block>, fl: seq<Slot>, fl0: seq<Slot>, chs: seq<Channel>, order: seq<seq<nat>>,
                  owner: seq<int>, c: nat, busy: seq<bool>, i: nat, id: nat)
    requires Consistent(h, fl0, chs, order, owner) && c < CHANNELS && |chs| == CHANNELS
    requires AllLetGo(fl, fl0, c, busy, i, NOBODY) && AllShaped(fl) && chs[c].inUse == 1
    requires IsLive(fl0, id) && OnList(fl0[id], c) && fl0[id].f.matchId == i && Freed(fl0[id], busy)
    ensures FreeHits(fl, c, busy, chs[c].first) && |order| == CHANNELS && order[c] == [id]
  {
    SoleFilter(h, fl0, chs, order, owner, c, id);
    hide Consistent;
    assert LetGo(fl[id], fl0[id], c, busy, i, false);
    forall k | 0 <= k < |fl| && OnList(fl[k], c)
      ensures Freed(fl[k], busy) && fl[k].f.matchId <= fl[id].f.matchId
    {
      assert LetGo(fl[k], fl0[k], c, busy, i, false);
      OnIsListed(h, fl0, chs, order, owner, c, k);
    }
    assert LastFreed(fl, c, busy, id);
  }

  lemma NoneFreed(fl: seq<Slot>, ids: seq<nat>, c: nat, busy: seq<bool>)
    ensures FreedSoFar(fl, ids, ids, c, busy, NOBODY)
  {
  }

  /** While a filter is on the channel, nobody was hit. */
  lemma StillOn(h: seq<Block>, fl: seq<Slot>, fl0: seq<Slot>, chs: seq<Channel>, order: seq<seq<nat>>, owner: seq<int>,
                c: nat, busy: seq<bool>, id: nat, ids: seq<nat>, stray: int)
    requires Consistent(h, fl0, chs, order, owner) && c < CHANNELS && |chs| == |order| == CHANNELS
    requires IsLive(fl0, id) && OnList(fl0[id], c) && FreedSoFar(fl, ids, order[c], c, busy, stray)
    ensures stray == NOBODY && order[c] != []
  {
    OnIsListed(h, fl0, chs, order, owner, c, id);
    hide Consistent, FreeHits;
  }

  lemma FreedMore(fl: seq<Slot>, ch: Channel, ids0: seq<nat>, ids: seq<nat>, c: nat, busy: seq<bool>, j: nat)
    requires FreedSoFar(fl, ids0, ids, c, busy, NOBODY) && j < |ids| && ch.inUse == |ids|
    requires ch.inUse == 1 ==> FreeHits(fl, c, busy, ch.first)
    ensures FreedSoFar(fl, ids0, Without(ids, j), c, busy, Stray(ch))
  {
    hide FreeHits;
  }

  /** When nobody was hit, the channel was not emptied, so not all of its filters could be given back. */
  lemma NobodyFreed(h: seq<Block>, fl: seq<Slot>, chs: seq<Channel>, order: seq<seq<nat>>, owner: seq<int>,
                    ids: seq<nat>, c: nat, busy: seq<bool>, stray: int)
    requires Consistent(h, fl, chs, order, owner) && c < CHANNELS && |chs| == |order| == CHANNELS
    requires FreedSoFar(fl, order[c], ids, c, busy, stray) && (ids == [] <==> AllFreed(fl, c, busy))
    ensures FreeHits(fl, c, busy, stray)
  {
    hide Consistent, OnList, Freed;
    forall id | stray == NOBODY ensures !LastFreed(fl, c, busy, id) {
      if LastFreed(fl, c, busy, id) {
        OnIsListed(h, fl, chs, order, owner, c, id);
      }
    }
  }

  lemma LiveFilterShaped(h: seq<Block>, fl: seq<Slot>, chs: seq<Channel>, order: seq<seq<nat>>, owner: seq<int>, id: nat)
    requires Consistent(h, fl, chs, order, owner) && IsLive(fl, id)
    ensures Shaped(fl[id].f)
  {
    ConsistentParts(h, fl, chs, order, owner);
    FilterShaped(h, fl, owner, id);
  }

  lemma AreShaped(h: seq<Block>, fl: seq<Slot>, chs: seq<Channel>, order: seq<seq<nat>>, owner: seq<int>)
    requires Consistent(h, fl, chs, order, owner)
    ensures AllShaped(fl)
  {
    hide Tabled, Chained, Alone, Homed;
  }

  /** The two calls made for one slot: what they leave of the filter. */
  lemma DeletedAndFreed(fl0: seq<Slot>, fl1: seq<Slot>, fl': seq<Slot>, c: nat, id: nat, busy: bool, stray: int)
    requires IsLive(fl0, id) && OnList(fl0[id], c) && Shaped(fl0[id].f)
    requires DeleteError(fl0, c, id) != NoError ==> fl1 == Refused(fl0, c, id)
    requires DeleteError(fl0, c, id) == NoError && busy ==> fl1 == fl0[id := Live(Deferred(fl0[id].f))]
    requires DeleteError(fl0, c, id) == NoError && !busy ==>
      OthersDimmed(fl0, fl1, id, stray) && fl1[id] == Live(Detached(fl0[id].f))
    requires OthersSame(fl1, fl', id)
    requires FreeError(fl1, id) == NoError && fl1[id].f.pending == NoPending ==> fl'[id].Empty?
    requires FreeError(fl1, id) == NoError && fl1[id].f.pending != NoPending ==>
      fl'[id] == Live(fl1[id].f.(pending := PendingFree))
    ensures OthersDimmed(fl0, fl', id, if fl0[id].f.pending == NoPending && !busy then stray else NOBODY)
    ensures fl'[id] == if fl0[id].f.pending == NoPending && !busy then Empty else Live(Leaked(fl0[id].f))
  {
  }

  lemma FreeChannelEnds(h: seq<Block>, fl: seq<Slot>, fl': seq<Slot>, chs': seq<Channel>, order: seq<seq<nat>>,
                        owner: seq<int>, c: nat, busy: seq<bool>, stray: int)
    requires Consistent(h, fl', chs', order, owner) && c < CHANNELS && |chs'| == |order| == CHANNELS
    requires AllLetGo(fl, fl', c, busy, chs'[c].count, stray) && AllShaped(fl)
    ensures AllLetGo(fl, fl', c, busy, CHANNELS, stray)
    ensures order[c] == [] <==> AllFreed(fl, c, busy)
    ensures LiveInUse(h, fl')
    ensures chs'[c].count == 0 ==> order[c] == []
  {
    if chs'[c].count == 0 { NoTableNoList(h, fl', chs', order, owner, c); }
    var n := chs'[c].count;
    ChannelShape(h, fl', chs', order, owner, c);
    LiveBlocksInUse(h, fl', chs', order, owner);
    hide Consistent;
    forall k | 0 <= k < |fl| ensures LetGo(fl[k], fl'[k], c, busy, CHANNELS, k == stray) {
      if OnList(fl[k], c) && fl[k].f.matchId >= n {
        StillListed(h, fl[k], fl', chs', order, owner, c, busy, n, k, k == stray);
      }
    }
    LeftOnList(h, fl, fl', chs', order, owner, c, busy, stray);
  }

  /** The blocks of a filter that is still allocated are not available to others. */
  predicate LiveInUse(h: seq<Block>, fl: seq<Slot>) {
    forall k, b | 0 <= k < |fl| && fl[k].Live? && b in fl[k].f.blocks :: b < |h| && h[b].inUse
  }

  lemma LiveBlocksInUse(h: seq<Block>, fl: seq<Slot>, chs: seq<Channel>, order: seq<seq<nat>>, owner: seq<int>)
    requires Consistent(h, fl, chs, order, owner)
    ensures LiveInUse(h, fl)
  {
    ConsistentParts(h, fl, chs, order, owner);
    hide Consistent, Tables, Alone;
    forall k, b | 0 <= k < |fl| && fl[k].Live? && b in fl[k].f.blocks ensures b < |h| && h[b].inUse {
      FilterShaped(h, fl, owner, k);
      var i :| 0 <= i < |fl[k].f.blocks| && fl[k].f.blocks[i] == b;
    }
  }

  /** A filter that could not be given back keeps the list from being empty, and only such a filter does. */
  lemma LeftOnList(h: seq<Block>, fl: seq<Slot>, fl': seq<Slot>, chs': seq<Channel>, order: seq<seq<nat>>,
                   owner: seq<int>, c: nat, busy: seq<bool>, stray: int)
    requires Consistent(h, fl', chs', order, owner) && c < CHANNELS && |chs'| == |order| == CHANNELS
    requires AllLetGo(fl, fl', c, busy, CHANNELS, stray) && AllShaped(fl)
    ensures order[c] == [] <==> AllFreed(fl, c, busy)
  {
    hide Consistent, LetGo, OnList, Freed;
    if order[c] != [] {
      var k := order[c][0];
      ListedIsOn(h, fl', chs', order, owner, c, k);
      LetGoLeft(fl[k], fl'[k], c, busy, k == stray);
    }
    forall k | 0 <= k < |fl| && OnList(fl[k], c) && order[c] == [] ensures Freed(fl[k], busy) {
      OnIsListed(h, fl', chs', order, owner, c, k);
      LetGoLeft(fl[k], fl'[k], c, busy, k == stray);
    }
  }

  lemma LetGoLeft(x: Slot, y: Slot, c: nat, busy: seq<bool>, hit: bool)
    requires LetGo(x, y, c, busy, CHANNELS, hit) && (y.Live? ==> y.f.matchId < CHANNELS || !OnList(y, c))
    ensures OnList(y, c) <==> OnList(x, c) && !Freed(x, busy)
  {
  }

  lemma ListedIsOn(h: seq<Block>, fl: seq<Slot>, chs: seq<Channel>, order: seq<seq<nat>>, owner: seq<int>, c: nat, k: nat)
    requires Consistent(h, fl, chs, order, owner) && c < CHANNELS && |chs| == |order| == CHANNELS && k in order[c]
    ensures k < |fl| && OnList(fl[k], c) && fl[k].f.matchId < CHANNELS
  {
    hide Owned, Alone, Chained, Homed;
    assert Tabled(fl, chs[c], c, order[c]);
    var i :| 0 <= i < |order[c]| && order[c][i] == k;
    MemberFacts(fl, chs[c], c, order[c], i);
  }

  lemma OnIsListed(h: seq<Block>, fl: seq<Slot>, chs: seq<Channel>, order: seq<seq<nat>>, owner: seq<int>, c: nat, k: nat)
    requires Consistent(h, fl, chs, order, owner) && c < CHANNELS && |chs| == |order| == CHANNELS && k < |fl|
    ensures OnList(fl[k], c) ==> k in order[c] && fl[k].f.matchId < CHANNELS
  {
    hide Owned, Alone, Chained, Tabled;
    if OnList(fl[k], c) {
      ListedIsOn(h, fl, chs, order, owner, c, k);
    }
  }

  /** Wiping the table of a channel is harmless exactly when its list is empty. */
  lemma WipeDone(h: seq<Block>, fl: seq<Slot>, chs: seq<Channel>, ch': Channel, order: seq<seq<nat>>,
                 owner: seq<int>, c: nat)
    requires Consistent(h, fl, chs, order, owner) && Promised(fl, chs) && c < CHANNELS && |chs| == |order| == CHANNELS
    requires ch' == chs[c].(count := 0, table := seq(CHANNELS, _ => NO_FILTER))
    ensures Promised(fl, chs[c := ch'])
    ensures Consistent(h, fl, chs[c := ch'], order, owner) <==> order[c] == []
  {
    PromisedMore(fl, chs, ch', c);
    if order[c] == [] {
      hide Consistent;
      Recount(h, fl, chs, ch', order, owner, c);
    }
    if Consistent(h, fl, chs[c := ch'], order, owner) {
      NoTableNoList(h, fl, chs[c := ch'], order, owner, c);
    }
  }

  lemma NoTableNoList(h: seq<Block>, fl: seq<Slot>, chs: seq<Channel>, order: seq<seq<nat>>, owner: seq<int>, c: nat)
    requires Consistent(h, fl, chs, order, owner) && c < CHANNELS && |chs| == |order| == CHANNELS && chs[c].count == 0
    ensures order[c] == []
  {
    hide Owned, Alone, Chained, Homed;
    assert Tabled(fl, chs[c], c, order[c]);
  }

  // ----- what a sound pool means

  /** A block is in use exactly when some filter has it, and then only one does. */
  lemma BlocksPartition(h: seq<Block>, fl: seq<Slot>, owner: seq<int>, b: nat)
    requires Owned(h, fl, owner) && b < |h|
    ensures h[b].inUse <==> exists k :: 0 <= k < |fl| && fl[k].Live? && b in fl[k].f.blocks
    ensures forall k, m | 0 <= k < |fl| && 0 <= m < |fl| && fl[k].Live? && fl[m].Live? ::
      b in fl[k].f.blocks && b in fl[m].f.blocks ==> k == m
  {
    forall k | 0 <= k < |fl| && fl[k].Live? && b in fl[k].f.blocks ensures owner[b] == k {
      FilterShaped(h, fl, owner, k);
      var i :| 0 <= i < |fl[k].f.blocks| && fl[k].f.blocks[i] == b;
    }
  }

  /** A block that is on some channel's list is in use, whatever removals are pending. */
  lemma ListedBlocksInUse(h: seq<Block>, fl: seq<Slot>, chs: seq<Channel>, order: seq<seq<nat>>, owner: seq<int>,
                          c: nat, b: nat)
    requires Consistent(h, fl, chs, order, owner) && c < CHANNELS && |order| == CHANNELS
    requires Has(Grid(Blocks(fl, order[c])), b)
    ensures b < |h| && h[b].inUse
    ensures exists k :: k in order[c] && IsLive(fl, k) && fl[k].f.channel == c && b in fl[k].f.blocks
  {
    hide Grid, Alone, Chained, Homed;
    assert Owned(h, fl, owner) && Tabled(fl, chs[c], c, order[c]);
    var i := OnListOwned(h, fl, owner, order[c], b);
    MemberFacts(fl, chs[c], c, order[c], i);
    assert order[c][i] in order[c];
  }

  /** The number of filters on a channel is what its counter says. */
  lemma CountedFilters(h: seq<Block>, fl: seq<Slot>, chs: seq<Channel>, order: seq<seq<nat>>, owner: seq<int>, c: nat)
    requires Consistent(h, fl, chs, order, owner) && c < CHANNELS && |chs| == |order| == CHANNELS
    ensures chs[c].inUse == |set k | 0 <= k < |fl| && OnList(fl[k], c)|
  {
    ChannelShape(h, fl, chs, order, owner, c);
    ConsistentParts(h, fl, chs, order, owner);
    ListDistinct(fl, chs[c], c, order[c]);
    hide Tables, Tabled, Consistent;
    var on := set k | 0 <= k < |fl| && OnList(fl[k], c);
    forall k ensures k in on <==> k in set i | 0 <= i < |order[c]| :: order[c][i] {
      if k in order[c] {
        ListedIsOn(h, fl, chs, order, owner, c, k);
      }
      if k in on {
        OnIsListed(h, fl, chs, order, owner, c, k);
      }
    }
    assert on == set i | 0 <= i < |order[c]| :: order[c][i];
    DistinctCount(order[c]);
  }

  lemma {:induction false} DistinctCount(ids: seq<nat>)
    requires forall i, k | 0 <= i < k < |ids| :: ids[i] != ids[k]
    ensures |set i | 0 <= i < |ids| :: ids[i]| == |ids|
  {
    if ids != [] {
      var n := |ids| - 1;
      DistinctCount(ids[..n]);
      assert (set i | 0 <= i < |ids| :: ids[i]) == (set i | 0 <= i < n :: ids[..n][i]) + {ids[n]};
    }
  }
}
