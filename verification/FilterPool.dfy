/** The filter pool: allocation, channels and deferred removal, in place. */
module FilterPool {
  import opened FilterGrid
  import opened FilterSplice
  import opened FilterErase
  import opened FilterHardware
  import opened FilterTables
  import opened FilterSteps
  import opened FilterMoves
  import opened FilterRules

  class FilterPool {
    const grid: FilterHardware
    const slots: array<Slot>
    const channels: array<Channel>
    ghost var order: seq<seq<nat>>  // the filters on each channel's list, in the order they were added
    ghost var owner: seq<int>       // which filter has each block

    ghost predicate Sizes() {
      grid.hw.Length == slots.Length == MAX_BLOCKS && channels.Length == CHANNELS
    }

    ghost predicate Valid()
      reads this, grid.hw, slots, channels
    {
      Sizes() && Consistent(grid.hw[..], slots[..], channels[..], order, owner) && Promised(slots[..], channels[..])
    }

    constructor ()
      ensures Valid() && fresh(grid) && fresh(grid.hw) && fresh(slots) && fresh(channels)
      ensures forall k | 0 <= k < slots.Length :: slots[k].Empty?
      ensures forall c | 0 <= c < CHANNELS :: order[c] == [] && channels[c] == NO_LISTS
      ensures forall b | 0 <= b < grid.hw.Length :: !grid.hw[b].inUse
    {
      grid := new FilterHardware();
      slots := new Slot[MAX_BLOCKS](_ => Empty);
      channels := new Channel[CHANNELS](_ => NO_LISTS);
      order := seq(CHANNELS, _ => []);
      owner := seq(MAX_BLOCKS, _ => -1);
      new;
      Initially(grid.hw[..], slots[..], channels[..], order, owner);
    }

    /** reserve_hw_blocks: all or nothing. */
    method ReserveBlocks(n: nat) returns (ok: bool, blocks: seq<nat>)
      modifies grid.hw
      ensures ok <==> |FreeBlocks(old(grid.hw[..]), 0)| >= n
      ensures ok ==> |blocks| == n && blocks == FirstFree(old(grid.hw[..]), 0, n)
      ensures grid.hw[..] == if ok then MarkUsed(old(grid.hw[..]), blocks) else old(grid.hw[..])
    {
      ghost var h := grid.hw[..];
      hide FirstFree, FreeBlocks, MarkUsed, Ascending, AllFree, Reserving;
      var i := 0;
      blocks := [];
      ReserveStarts(h, n);
      while i < grid.hw.Length && |blocks| < n
        invariant i <= grid.hw.Length == |h| && |blocks| <= n && Reserving(h, grid.hw[..], blocks, i, n)
      {
        blocks := TakeIfFree(i, blocks, n, h);
        i := i + 1;
      }
      ReserveEnds(h, grid.hw[..], blocks, i, n);
      ok := |blocks| == n;
      if !ok {
        UndoReserve(blocks, h);
      }
    }

    method TakeIfFree(i: nat, blocks: seq<nat>, ghost n: nat, ghost h: seq<Block>) returns (blocks': seq<nat>)
      requires i < grid.hw.Length == |h| && |blocks| < n && Reserving(h, grid.hw[..], blocks, i, n)
      modifies grid.hw
      ensures |blocks'| <= n && Reserving(h, grid.hw[..], blocks', i + 1, n)
    {
      hide FirstFree, MarkUsed, Reserving;
      ghost var h1 := grid.hw[..];
      ReserveReads(h, h1, blocks, i, n);
      assert h1[i] == grid.hw[i];
      blocks' := blocks;
      if !grid.hw[i].inUse {
        grid.hw[i] := grid.hw[i].(inUse := true);
        assert grid.hw[..] == h1[i := h1[i].(inUse := true)];
        ReserveTakes(h, h1, grid.hw[..], blocks, i, n);
        blocks' := blocks + [i];
      }
    }

    method UndoReserve(blocks: seq<nat>, ghost h: seq<Block>)
      requires grid.hw[..] == MarkUsed(h, blocks) && AllFree(h, blocks) && Ascending(blocks, 0)
      modifies grid.hw
      ensures grid.hw[..] == h
    {
      var i := 0;
      while i < |blocks|
        invariant i <= |blocks| && grid.hw[..] == MarkUsed(h, blocks[i..])
      {
        AscendingOnce(blocks, 0, i);
        grid.hw[blocks[i]] := grid.hw[blocks[i]].(inUse := false);
        assert blocks[i..][0] == blocks[i] && blocks[i..][1..] == blocks[i + 1..];
        UnmarkOne(h, blocks[i..], grid.hw[..]);
        i := i + 1;
      }
    }

    /**
     * xp_osi_filter_allocate, without its pass over deferred removals, for a length that the driver
     * computes some blocks for. The filter keeps the length's lower 16 bits.
     */
    method Allocate(length: nat) returns (error: Error, id: nat)
      requires Valid() && DriverBlockCount(length) > 0
      modifies this`owner, grid.hw, slots
      ensures Valid()
      ensures error ==
        if length == 0 then BadLength
        else if (forall k | 0 <= k < slots.Length :: old(slots[k]).Live?) then Unavailable
        else if |FreeBlocks(old(grid.hw[..]), 0)| < DriverBlockCount(length) then Unavailable
        else NoError
      ensures error != NoError ==>
        slots[..] == old(slots[..]) && grid.hw[..] == old(grid.hw[..]) && owner == old(owner)
      ensures error == NoError ==> id < slots.Length && old(slots[id]).Empty? && OthersSame(old(slots[..]), slots[..], id)
      ensures error == NoError ==> forall k | 0 <= k < id :: old(slots[k]).Live?
      ensures error == NoError ==>
        slots[id] == Live(NewFilter(length % 0x1_0000, FirstFree(old(grid.hw[..]), 0, DriverBlockCount(length))))
      ensures error == NoError ==> DriverBlockCount(length) == BlockCount(length % 0x1_0000)
      ensures error == NoError ==>
        StandsAs(slots[id].f, Unused, NO_CHANNEL, 0, NoPending) && !slots[id].f.soft
        && slots[id].f.length == length % 0x1_0000 && |slots[id].f.blocks| == BlockCount(length % 0x1_0000)
    {
      id := 0;
      if length == 0 {
        return BadLength, id;
      }
      while id < slots.Length && slots[id].Live?
        invariant id <= slots.Length && forall k | 0 <= k < id :: slots[k].Live?
      {
        id := id + 1;
      }
      if id == slots.Length {
        return Unavailable, id;
      }
      var ok, blocks := ReserveBlocks(DriverBlockCount(length));
      if !ok {
        return Unavailable, id;
      }
      FirstFreeFits(old(grid.hw[..]), 0, DriverBlockCount(length));
      DriverCountIs(length);
      Install(id, NewFilter(length % 0x1_0000, blocks), old(grid.hw[..]));
      error := NoError;
    }

    method Install(id: nat, f: Filter, ghost h: seq<Block>)
      requires Sizes() && id < slots.Length && slots[id].Empty? && Fresh(f)
      requires Consistent(h, slots[..], channels[..], order, owner) && Promised(slots[..], channels[..])
      requires 0 < |f.blocks| <= MAX_BLOCKS && f.blocks == FirstFree(h, 0, |f.blocks|)
      requires grid.hw[..] == MarkUsed(h, f.blocks)
      modifies this`owner, grid.hw, slots
      ensures Valid() && slots[..] == old(slots[..])[id := Live(f)]
    {
      ghost var fl, h1 := slots[..], grid.hw[..];
      FirstFreeDistinct(h, f.blocks);
      grid.InitFilterLinks(f.blocks);
      FirstFreeReserved(h, h1, grid.hw[..], f.blocks);
      slots[id] := Live(f);
      owner := Assigned(owner, f.blocks, id);
      assert slots[..] == fl[id := Live(f)];
      Reserve(h, grid.hw[..], fl, f, channels[..], order, old(owner), id);
      PromisedFrame(fl, slots[..], channels[..], id);
    }

    /** Any update of one filter that leaves its blocks and whereabouts alone. */
    method Update(id: nat, f: Filter)
      requires Valid() && IsLive(slots[..], id) && Restated(slots[id].f, f)
      requires f.pending != NoPending ==>
        slots[id].f.pending != NoPending || (f.channel < channels.Length && channels[f.channel].requests > 0)
      modifies slots
      ensures Valid() && slots[..] == old(slots[..])[id := Live(f)]
    {
      ghost var fl := slots[..];
      slots[id] := Live(f);
      assert slots[..] == fl[id := Live(f)];
      Restate(grid.hw[..], fl, f, channels[..], order, owner, id);
      PromisedUpdate(fl, f, channels[..], id);
    }

    /** xp_osi_filter_set, up to the words it writes to hardware. */
    method Set(id: nat, length: nat, data: Argument, mask: Argument) returns (error: Error)
      requires Valid()
      requires IsLive(slots[..], id) ==> LongEnough(data, slots[id].f.length) && LongEnough(mask, slots[id].f.length)
      modifies slots
      ensures Valid() && OthersSame(old(slots[..]), slots[..], id)
      ensures error ==
        if !IsLive(old(slots[..]), id) then NotAllocated
        else if data.Missing? then MissingData
        else if length != 0 && length != old(slots[id]).f.length then BadLength
        else if old(slots[id]).f.pending.PendingFree? then IsPendingError
        else NoError
      ensures error != NoError ==> slots[..] == old(slots[..])
      ensures error == NoError ==> slots[id] == Live(Redefined(old(slots[id]).f, data.bytes, mask))
      ensures error == NoError ==> Holds(slots[id].f, data.bytes, mask)
      ensures error == NoError ==>
        var f, f' := old(slots[id]).f, slots[id].f;
        StandsAs(f', if f.state.Unused? then Defined else f.state, f.channel, f.matchId, f.pending)
        && f'.length == f.length && f'.blocks == f.blocks && (f'.soft <==> f.soft || f.state.Enabled?)
    {
      hide Consistent, Promised;
      if id >= slots.Length || slots[id].Empty? {
        return NotAllocated;
      }
      if data.Missing? {
        return MissingData;
      }
      var f := slots[id].f;
      if length != 0 && length != f.length {
        return BadLength;
      }
      if f.pending.PendingFree? {
        return IsPendingError;
      }
      FilterWhereabouts(grid.hw[..], slots[..], channels[..], order, owner, id);
      Update(id, Redefined(f, data.bytes, mask));
      error := NoError;
    }

    /** xp_osi_filter_control. */
    method Control(id: nat, enable: bool) returns (error: Error)
      requires Sizes()
      modifies slots
      ensures old(Valid()) ==> Valid()
      ensures error == ControlError(old(slots[..]), id)
      ensures slots[..] == Controlled(old(slots[..]), id, enable)
      ensures error == NoError ==>
        var f, f' := old(slots[id]).f, slots[id].f;
        StandsAs(f', if enable then Enabled else Disabled, f.channel, f.matchId, f.pending) && SameSettings(f, f')
      ensures error != NoError ==> slots[..] == old(slots[..])
    {
      hide Consistent, Promised;
      if id >= slots.Length || slots[id].Empty? {
        return NotAllocated;
      }
      var f := slots[id].f;
      if !f.state.Enabled? && !f.state.Disabled? {
        return NotAssigned;
      }
      if f.pending.PendingFree? {
        return IsPendingError;
      }
      ghost var fl := slots[..];
      slots[id] := Live(f.(state := if enable then Enabled else Disabled));
      error := NoError;
      assert slots[..] == Controlled(fl, id, enable);
      if old(Valid()) {
        ControlKeeps(grid.hw[..], fl, channels[..], order, owner, id, enable);
      }
    }

    /** xp_osi_filter_add_to_channel on a channel that is allocated. */
    method AddToChannel(c: nat, id: nat) returns (error: Error, matchId: nat)
      requires Valid() && c < CHANNELS
      modifies this`order, grid.hw, slots, channels
      ensures Valid()
      ensures error == AddError(old(slots[..]), old(channels[c]), id)
      ensures error != NoError ==>
        slots[..] == old(slots[..]) && channels[..] == old(channels[..]) && grid.hw[..] == old(grid.hw[..])
        && order == old(order)
      ensures error == NoError ==> |old(order)| == CHANNELS && order == old(order)[c := old(order)[c] + [id]]
      ensures error == NoError ==>
        id < slots.Length && slots[..] == old(slots[..])[id := Live(Joined(old(slots[id]).f, c, matchId))]
      ensures error == NoError ==>
        matchId < CHANNELS && |channels[c].table| == CHANNELS && channels[c].table[matchId] == id
      ensures error == NoError ==>
        StandsAs(slots[id].f, Disabled, c, matchId, NoPending) && SameSettings(old(slots[id]).f, slots[id].f)
      ensures forall d | 0 <= d < CHANNELS && d != c :: channels[d] == old(channels[d])
    {
      hide Consistent, Promised;
      ChannelShape(grid.hw[..], slots[..], channels[..], order, owner, c);
      matchId := 0;
      if id >= slots.Length || slots[id].Empty? {
        return NotAllocated, matchId;
      }
      var f := slots[id].f;
      if f.state.Unused? {
        return Undefined, matchId;
      }
      if f.state.Enabled? || f.state.Disabled? {
        return InUse, matchId;
      }
      if f.pending != NoPending {
        return IsPendingError, matchId;
      }
      var ch := channels[c];
      while matchId < ch.count && ch.table[matchId] != NO_FILTER
        invariant matchId <= ch.count && forall s | 0 <= s < matchId :: ch.table[s] != NO_FILTER
      {
        matchId := matchId + 1;
      }
      if matchId >= CHANNELS {
        return ChannelFull, matchId;
      }
      Join(c, id, matchId);
      error := NoError;
    }

    /** The last step of adding: in hardware, in the table, in the filter. */
    method Join(c: nat, id: nat, s: nat)
      requires c < CHANNELS && s < CHANNELS && Valid()
      requires IsLive(slots[..], id) && !Attached(slots[id].f)
      requires |channels[c].table| == CHANNELS && s <= channels[c].count <= CHANNELS
      requires s < channels[c].count ==> channels[c].table[s] == NO_FILTER
      modifies this`order, grid.hw, slots, channels
      ensures Valid() && |old(order)| == CHANNELS && order == old(order)[c := old(order)[c] + [id]]
      ensures slots[..] == old(slots[..])[id := Live(Joined(old(slots[id]).f, c, s))]
      ensures |channels[c].table| == CHANNELS && channels[c].table[s] == id
      ensures forall d | 0 <= d < CHANNELS && d != c :: channels[d] == old(channels[d])
    {
      hide Consistent, Promised, Standing, OnChannel, Apart, Grid, Blocks, SameElsewhere, Attached;
      ghost var h, fl, chs, ids := grid.hw[..], slots[..], channels[..], order;
      ChannelShape(h, fl, chs, order, owner, c);
      AddPossible(h, fl, chs, order, owner, c, id);
      var f, ch := slots[id].f, channels[c];
      if s == ch.count {
        ch := Extended(ch);
      }
      var first := grid.Add(ch.inUse == 0, ch.first, f.blocks, Blocks(fl, order[c]));
      ch := ch.(first := first, table := ch.table[s := id], inUse := ch.inUse + 1);
      slots[id] := Live(Joined(f, c, s));
      channels[c] := ch;
      order := order[c := order[c] + [id]];
      assert slots[..] == fl[id := Live(Joined(f, c, s))];
      assert channels[..] == chs[c := ch];
      JoinDone(h, grid.hw[..], fl, slots[..], chs, ch, ids, owner, c, id, s);
    }

    /**
     * delete_filter. When the filter is the last one, the call meant to disable it names a
     * filter by the number of a hardware block, so it may disable some other filter.
     * f is the filter as it was on its list; by now its state says Defined.
     */
    method DeleteFilter(c: nat, id: nat, s: nat, ghost f: Filter) returns (ghost j: nat)
      requires c < CHANNELS && Sizes() && id < slots.Length && slots[id] == Live(f.(state := Defined))
      requires Attached(f) && f.channel == c && f.matchId == s
      requires Consistent(grid.hw[..], slots[..][id := Live(f)], channels[..], order, owner)
      modifies this`order, grid.hw, slots, channels
      ensures Consistent(grid.hw[..], slots[..], channels[..], order, owner)
      ensures |old(order)| == CHANNELS && j < |old(order)[c]| && old(order)[c][j] == id
      ensures order == old(order)[c := Without(old(order)[c], j)]
      ensures slots[id] == Live(Detached(f))
      ensures OthersDimmed(old(slots[..]), slots[..], id, Stray(old(channels[c])))
      ensures s < |old(channels[c]).table| && LeftBy(old(channels[c]), channels[c], s)
      ensures forall d | 0 <= d < CHANNELS && d != c :: channels[d] == old(channels[d])
    {
      hide Consistent, Deletable, Moved, Blocks, Grid, Standing, OnChannel, SameElsewhere, Others, Without, Attached;
      hide OthersDimmed, Controlled, Detached;
      ghost var h, fl, chs, ids := grid.hw[..], slots[..], channels[..], order;
      ghost var fl0 := fl[id := Live(f)];
      j := DeletePossible(h, fl0, chs, order, owner, c, id);
      ghost var fs := Blocks(fl0, ids[c]);
      SameElsewhereItself(h, Grid(fs), []);
      var ch, blocks := channels[c], slots[id].f.blocks;
      var first := ch.first;
      if ch.inUse == 1 {
        var _ := Control(first, false);
      } else {
        first := grid.Delete(first, blocks, fs, j);
      }
      StrayDisable(h, fl, f, chs, order, owner, id, ch.first);
      OthersDimmedItself(fl, id);
      ghost var stray := Stray(ch);
      ghost var h1, fl1 := grid.hw[..], slots[..];
      grid.InitFilterLinks(blocks);
      MovedBy(h, h1, grid.hw[..], fs, j, first);
      ch := ch.(first := first, table := ch.table[s := NO_FILTER], inUse := ch.inUse - 1);
      channels[c] := ch;
      slots[id] := Live(slots[id].f.(channel := NO_CHANNEL, pending := NoPending));
      order := order[c := Without(order[c], j)];
      assert channels[..] == chs[c := ch] && slots[..] == fl1[id := slots[id]];
      DeleteDone(h, h1, grid.hw[..], fl, fl1, slots[..], f, chs, ch, ids, owner, c, j, id, stray);
    }

    /**
     * xp_osi_filter_delete_from_channel on an allocated channel. `busy` says that channel and queue
     * are enabled and the hardware has not finished with the channel's section yet.
     */
    method DeleteFromChannel(c: nat, id: nat, busy: bool) returns (error: Error, ghost j: nat)
      requires Valid() && c < CHANNELS
      modifies this`order, grid.hw, slots, channels
      ensures Valid()
      ensures error == DeleteError(old(slots[..]), c, id)
      ensures error != NoError ==> order == old(order) && channels[..] == old(channels[..])
      ensures error != NoError ==> slots[..] == Refused(old(slots[..]), c, id)
      ensures error == NoError && busy ==>
        slots[..] == old(slots[..])[id := Live(Deferred(old(slots[id]).f))] && order == old(order)
      ensures error == NoError && !busy ==>
        slots[id] == Live(Detached(old(slots[id]).f))
        && OthersDimmed(old(slots[..]), slots[..], id, Stray(old(channels[c])))
      ensures error == NoError && !busy ==>
        |old(order)| == CHANNELS && j < |old(order)[c]| && old(order)[c][j] == id
        && order == old(order)[c := Without(old(order)[c], j)]
      ensures error == NoError ==> Closing(old(channels[c]), channels[c], old(slots[id]).f.matchId, busy)
      ensures error == NoError ==>
        var f, f' := old(slots[id]).f, slots[id].f;
        SameSettings(f, f')
        && (if busy then StandsAs(f', Defined, c, f.matchId, PendingDelete)
            else StandsAs(f', Defined, NO_CHANNEL, f.matchId, NoPending))
      ensures forall d | 0 <= d < CHANNELS && d != c :: channels[d] == old(channels[d])
    {
      hide Consistent, Promised, OthersDimmed, Without;
      error, j := NoError, 0;
      ghost var fl := slots[..];
      if id >= slots.Length || slots[id].Empty? {
        return NotAllocated, j;
      }
      var f := slots[id].f;
      if f.pending != NoPending {
        return IsPendingError, j;
      }
      if f.state.Unused? {
        return Undefined, j;
      }
      if f.state.Defined? {
        return NotAssigned, j;
      }
      if f.state.Enabled? {
        error := Control(id, false);
      }
      var s := FindFilter(c, id);
      if s == channels[c].count {
        return NotAssigned, j;
      }
      assert OthersSame(fl, slots[..], id);
      ghost var fl1 := slots[..];
      j := Remove(c, id, s, busy);
      if !busy {
        DimmedAfter(fl, fl1, slots[..], id, Stray(old(channels[c])));
      }
    }

    /** find_filter: the slot of the filter in the channel's table, or the end of the table. */
    method FindFilter(c: nat, id: nat) returns (s: nat)
      requires Valid() && c < CHANNELS && IsLive(slots[..], id) && Attached(slots[id].f)
      ensures s == channels[c].count <==> slots[id].f.channel != c
      ensures s != channels[c].count ==> s == slots[id].f.matchId
    {
      hide Consistent, Promised, Attached;
      ChannelShape(grid.hw[..], slots[..], channels[..], order, owner, c);
      s := 0;
      while s < channels[c].count && channels[c].table[s] != id
        invariant s <= channels[c].count && forall t | 0 <= t < s :: channels[c].table[t] != id
      {
        s := s + 1;
      }
      SlotOf(grid.hw[..], slots[..], channels[..], order, owner, c, id, s);
    }

    /** The part of the removal that is done under way or put off. */
    method Remove(c: nat, id: nat, s: nat, busy: bool) returns (ghost j: nat)
      requires Valid() && c < CHANNELS && IsLive(slots[..], id)
      requires slots[id].f.state.Disabled? && slots[id].f.channel == c && s == slots[id].f.matchId
      modifies this`order, grid.hw, slots, channels
      ensures Valid()
      ensures busy ==> slots[..] == old(slots[..])[id := Live(Deferred(old(slots[id]).f))] && order == old(order)
      ensures !busy ==>
        slots[id] == Live(Detached(old(slots[id]).f))
        && OthersDimmed(old(slots[..]), slots[..], id, Stray(old(channels[c])))
      ensures !busy ==>
        |old(order)| == CHANNELS && j < |old(order)[c]| && old(order)[c][j] == id
        && order == old(order)[c := Without(old(order)[c], j)]
      ensures Closing(old(channels[c]), channels[c], s, busy)
      ensures forall d | 0 <= d < CHANNELS && d != c :: channels[d] == old(channels[d])
    {
      hide Consistent, Promised, OthersDimmed, Without, Detached, Attached;
      ghost var h, fl, chs := grid.hw[..], slots[..], channels[..];
      ghost var f := slots[id].f;
      j := 0;
      AttachedWhenDisabled(f);
      FilterWhereabouts(h, fl, chs, order, owner, id);
      slots[id] := Live(slots[id].f.(state := Defined));
      if busy {
        slots[id] := Live(slots[id].f.(pending := PendingDelete));
        channels[c] := channels[c].(requests := channels[c].requests + 1);
        assert slots[..] == fl[id := Live(Deferred(f))] && channels[..] == chs[c := channels[c]];
        DeferDone(h, fl, f, chs, channels[c], order, owner, c, id);
      } else {
        assert slots[..][id := Live(f)] == fl;
        j := DeleteFilter(c, id, s, f);
        ChannelShape(h, fl, chs, old(order), owner, c);
        RemoveDone(fl, slots[..], chs, channels[..], id, c, f, Stray(chs[c]));
      }
    }

    /** xp_osi_filter_free. */
    method Free(id: nat) returns (error: Error)
      requires Valid()
      modifies this`owner, grid.hw, slots
      ensures Valid()
      ensures error == FreeError(old(slots[..]), id)
      ensures OthersSame(old(slots[..]), slots[..], id)
      ensures error != NoError ==>
        slots[..] == old(slots[..]) && grid.hw[..] == old(grid.hw[..]) && owner == old(owner)
      ensures error == NoError && old(slots[id]).f.pending == NoPending ==>
        slots[id].Empty? && |old(owner)| == grid.hw.Length && owner == Disowned(old(owner), id)
        && grid.hw[..] == FreedBlocks(old(grid.hw[..]), old(owner), id)
      ensures error == NoError && old(slots[id]).f.pending != NoPending ==>
        slots[id] == Live(old(slots[id]).f.(pending := PendingFree)) && grid.hw[..] == old(grid.hw[..])
        && owner == old(owner)
    {
      hide Consistent, Promised, Disowned, FreedBlocks;
      if id >= slots.Length || slots[id].Empty? {
        return NotAllocated;
      }
      var f := slots[id].f;
      if f.state.Enabled? || f.state.Disabled? {
        return InUse;
      }
      error := NoError;
      if f.pending == NoPending {
        ghost var fl := slots[..];
        FreeFilter(id);
        PromisedFrame(fl, slots[..], channels[..], id);
      } else {
        FilterWhereabouts(grid.hw[..], slots[..], channels[..], order, owner, id);
        Update(id, f.(pending := PendingFree));
      }
    }

    /** free_filter. */
    method FreeFilter(id: nat)
      requires Sizes() && IsLive(slots[..], id) && !Attached(slots[id].f)
      requires Consistent(grid.hw[..], slots[..], channels[..], order, owner)
      modifies this`owner, grid.hw, slots
      ensures Consistent(grid.hw[..], slots[..], channels[..], order, owner)
      ensures slots[..] == old(slots[..])[id := Empty]
      ensures |old(owner)| == grid.hw.Length && owner == Disowned(old(owner), id)
      ensures grid.hw[..] == FreedBlocks(old(grid.hw[..]), old(owner), id)
    {
      hide Consistent, FreedBlocks, Disowned, Attached;
      ghost var h, fl := grid.hw[..], slots[..];
      OwnBlocks(h, fl, channels[..], order, owner, id);
      ClearBlocks(slots[id].f.blocks);
      ClearedIsFreed(h, owner, slots[id].f.blocks, id);
      slots[id] := Empty;
      assert slots[..] == fl[id := Empty];
      Release(h, fl, channels[..], order, owner, id);
      owner := Disowned(owner, id);
    }

    method ClearBlocks(blocks: seq<nat>)
      requires forall i | 0 <= i < |blocks| :: blocks[i] < grid.hw.Length
      modifies grid.hw
      ensures grid.hw[..] == Cleared(old(grid.hw[..]), blocks)
    {
      ghost var h := grid.hw[..];
      hide Cleared;
      var i := 0;
      ClearNone(h);
      while i < |blocks|
        invariant i <= |blocks| && grid.hw[..] == Cleared(h, blocks[..i])
      {
        ghost var h1 := grid.hw[..];
        grid.hw[blocks[i]] := grid.hw[blocks[i]].(inUse := false);
        assert grid.hw[..] == h1[blocks[i] := h1[blocks[i]].(inUse := false)];
        assert blocks[..i + 1] == blocks[..i] + [blocks[i]];
        ClearOne(h, blocks[..i], blocks[i], grid.hw[..]);
        i := i + 1;
      }
      assert blocks[..i] == blocks;
    }

    /**
     * xp_osi_filter_process_pending: carries out every removal put off on channel c, and no other.
     * When that empties the channel, the filter `stray` is disabled.
     */
    method ProcessPending(c: nat) returns (ghost stray: int)
      requires Valid() && c < CHANNELS
      modifies this`order, this`owner, grid.hw, slots, channels
      ensures Valid()
      ensures Drained(old(slots[..]), slots[..], c, CHANNELS, stray) && DrainHits(old(slots[..]), c, stray)
      ensures |order| == CHANNELS && (old(order)[c] != [] && order[c] == [] <==> stray != NOBODY)
      ensures |order| == |old(order)| && forall d | 0 <= d < |order| && d != c :: order[d] == old(order)[d]
      ensures forall d | 0 <= d < CHANNELS && d != c :: channels[d] == old(channels[d])
    {
      hide Consistent, Promised, Drained, DrainHits, HitSoFar;
      ghost var h, fl, chs, ids := grid.hw[..], slots[..], channels[..], order;
      ghost var owner0 := owner;
      ChannelShape(h, fl, chs, order, owner, c);
      if channels[c].requests == 0 {
        NothingPending(fl, chs, c);
        return NOBODY;
      }
      channels[c] := channels[c].(requests := 0);
      assert channels[..] == chs[c := channels[c]];
      Recount(h, fl, chs, channels[c], order, owner, c);
      var i := 0;
      var count := channels[c].count;
      DrainStarts(h, fl, channels[..], order, owner, c);
      stray := NOBODY;
      NoneHit(fl, order[c], c);
      while i < count
        invariant i <= count <= CHANNELS && |order| == CHANNELS && count == channels[c].count
        invariant Consistent(grid.hw[..], slots[..], channels[..], order, owner)
        invariant Drained(fl, slots[..], c, i, stray) && HitSoFar(fl, ids[c], order[c], c, stray)
        invariant forall d | 0 <= d < CHANNELS && d != c :: order[d] == old(order)[d] && channels[d] == chs[d]
      {
        stray := DrainSlot(c, i, fl, stray, ids[c]);
        i := i + 1;
      }
      DrainEnds(grid.hw[..], fl, slots[..], chs, channels[..], order, owner, c, stray);
      NobodyHit(grid.hw[..], fl, slots[..], chs, channels[..], ids, order, owner0, owner, h, c, stray);
      HitMeans(fl, ids[c], order[c], c, stray);
    }

    method DrainSlot(c: nat, i: nat, ghost fl: seq<Slot>, ghost stray: int, ghost ids: seq<nat>)
        returns (ghost stray': int)
      requires Sizes() && c < CHANNELS && i < channels[c].count && |order| == CHANNELS
      requires Consistent(grid.hw[..], slots[..], channels[..], order, owner) && Drained(fl, slots[..], c, i, stray)
      requires HitSoFar(fl, ids, order[c], c, stray)
      modifies this`order, this`owner, grid.hw, slots, channels
      ensures Consistent(grid.hw[..], slots[..], channels[..], order, owner) && Drained(fl, slots[..], c, i + 1, stray')
      ensures |order| == |old(order)| && channels[c].count == old(channels[c]).count
      ensures HitSoFar(fl, ids, order[c], c, stray')
      ensures forall d | 0 <= d < |order| && d != c :: order[d] == old(order)[d]
      ensures forall d | 0 <= d < CHANNELS && d != c :: channels[d] == old(channels[d])
    {
      hide Consistent, Drained, OthersDimmed, Without, Detached, Attached, HitSoFar;
      ghost var h, fl0, chs, order0, owner0 := grid.hw[..], slots[..], channels[..], order, owner;
      SlotNames(h, fl0, chs, order, owner, c, i);
      var id := channels[c].table[i];
      if id == NO_FILTER || slots[id].f.pending == NoPending {
        DrainSkips(h, fl, fl0, chs, order, owner, c, i, stray);
        return stray;
      }
      var f := slots[id].f;
      PendingIsDefined(h, fl0, chs, order, owner, id);
      assert slots[..][id := Live(f)] == fl0;
      StillHere(h, fl, fl0, chs, order, owner, c, id, ids, stray);
      ghost var j := DeleteFilter(c, id, i, f);
      stray' := Stray(chs[c]);
      ghost var fl1 := slots[..];
      DetachedIdle(f);
      if f.pending.PendingFree? {
        FreeFilter(id);
      }
      DrainMoves(h, fl, fl0, fl1, slots[..], chs, order0, owner0, c, i, id, stray');
      if chs[c].inUse == 1 {
        DrainedLast(h, fl, fl0, chs, order0, owner0, c, i, id);
      }
      ChannelShape(h, fl0, chs, order0, owner0, c);
      HitMore(fl, chs[c], ids, order0[c], c, j);
    }

    /**
     * xp_osi_filter_free_channel on an allocated channel; busy[s] is what the hardware says of the
     * channel when slot s is dealt with. The pool stays sound exactly when no filter of the channel
     * is waiting for a removal and none has to be put off: any other filter stays allocated, its
     * blocks in use, with no table naming it any more. When the channel's last filter is given
     * back, the filter `stray` is disabled.
     */
    method FreeChannel(c: nat, busy: seq<bool>) returns (ghost stray: int)
      requires Valid() && c < CHANNELS && |busy| == CHANNELS
      modifies this`order, this`owner, grid.hw, slots, channels
      ensures Valid() <==> AllFreed(old(slots[..]), c, busy)
      ensures AllLetGo(old(slots[..]), slots[..], c, busy, CHANNELS, stray) && FreeHits(old(slots[..]), c, busy, stray)
      ensures LiveInUse(grid.hw[..], slots[..])
      ensures channels[c].count == 0
      ensures old(channels[c]).count > 0 ==> channels[c].table == seq(CHANNELS, _ => NO_FILTER)
      ensures |order| == |old(order)| && forall d | 0 <= d < |order| && d != c :: order[d] == old(order)[d]
      ensures forall d | 0 <= d < CHANNELS && d != c :: channels[d] == old(channels[d])
    {
      hide Consistent, Promised, AllLetGo, AllFreed, LiveInUse, FreeHits, FreedSoFar;
      ghost var h, fl, chs, ids, owner0 := grid.hw[..], slots[..], channels[..], order, owner;
      ChannelShape(h, fl, chs, order, owner, c);
      AreShaped(h, fl, chs, order, owner);
      LetGoStarts(fl, c, busy);
      var i := 0;
      var count := channels[c].count;
      stray := NOBODY;
      NoneFreed(fl, order[c], c, busy);
      while i < count
        invariant i <= count <= CHANNELS && |order| == CHANNELS && count == channels[c].count
        invariant Valid() && AllLetGo(fl, slots[..], c, busy, i, stray) && FreedSoFar(fl, ids[c], order[c], c, busy, stray)
        invariant forall d | 0 <= d < CHANNELS && d != c :: order[d] == old(order)[d] && channels[d] == chs[d]
      {
        stray := FreeSlot(c, i, busy, fl, stray, ids[c]);
        i := i + 1;
      }
      FreeChannelEnds(grid.hw[..], fl, slots[..], channels[..], order, owner, c, busy, stray);
      NobodyFreed(h, fl, chs, ids, owner0, order[c], c, busy, stray);
      if channels[c].count > 0 {
        ghost var chs1 := channels[..];
        channels[c] := channels[c].(count := 0, table := seq(CHANNELS, _ => NO_FILTER));
        assert channels[..] == chs1[c := channels[c]];
        WipeDone(grid.hw[..], slots[..], chs1, channels[c], order, owner, c);
      }
    }

    method FreeSlot(c: nat, i: nat, busy: seq<bool>, ghost fl: seq<Slot>, ghost stray: int, ghost ids: seq<nat>)
        returns (ghost stray': int)
      requires Valid() && c < CHANNELS && i < channels[c].count && |busy| == |order| == CHANNELS && AllShaped(fl)
      requires AllLetGo(fl, slots[..], c, busy, i, stray) && FreedSoFar(fl, ids, order[c], c, busy, stray)
      modifies this`order, this`owner, grid.hw, slots, channels
      ensures Valid() && AllLetGo(fl, slots[..], c, busy, i + 1, stray')
      ensures |order| == |old(order)| && channels[c].count == old(channels[c]).count
      ensures FreedSoFar(fl, ids, order[c], c, busy, stray')
      ensures forall d | 0 <= d < |order| && d != c :: order[d] == old(order)[d]
      ensures forall d | 0 <= d < CHANNELS && d != c :: channels[d] == old(channels[d])
    {
      hide Consistent, Promised, AllLetGo, OthersDimmed, Without, Disowned, FreedBlocks, FreedSoFar, FreeHits;
      ghost var h, fl0, chs, order0, owner0 := grid.hw[..], slots[..], channels[..], order, owner;
      SlotNames(h, fl0, chs, order, owner, c, i);
      var id := channels[c].table[i];
      if id == NO_FILTER {
        LetGoSkips(h, fl, fl0, chs, order, owner, c, busy, i, stray);
        return stray;
      }
      LiveFilterShaped(h, fl0, chs, order, owner, id);
      StillOn(h, fl, fl0, chs, order, owner, c, busy, id, ids, stray);
      var _, j := DeleteFromChannel(c, id, busy[i]);
      ghost var fl1 := slots[..];
      var _ := Free(id);
      stray' := if Freed(fl0[id], busy) then Stray(chs[c]) else NOBODY;
      DeletedAndFreed(fl0, fl1, slots[..], c, id, busy[i], Stray(chs[c]));
      LetGoNext(h, fl, fl0, slots[..], chs, order0, owner0, c, busy, i, id, stray');
      if Freed(fl0[id], busy) {
        if chs[c].inUse == 1 {
          FreedLast(h, fl, fl0, chs, order0, owner0, c, busy, i, id);
        }
        ChannelShape(h, fl0, chs, order0, owner0, c);
        FreedMore(fl, chs[c], ids, order0[c], c, busy, j);
      }
    }
  }

  // ----- the misdirected disable

  /** Filters and blocks are taken from the bottom: the first n filters and the first `used` blocks. */
  ghost predicate Dense(pool: FilterPool, n: nat, used: nat)
    reads pool, pool.grid.hw, pool.slots, pool.channels
  {
    && pool.Valid() && n < MAX_BLOCKS && used < MAX_BLOCKS
    && (forall k | 0 <= k < MAX_BLOCKS :: pool.slots[k].Live? <==> k < n)
    && (forall b | 0 <= b < MAX_BLOCKS :: pool.grid.hw[b].inUse <==> b < used)
  }

  /** The blocks reserved where the first `used` are taken are the ones behind them. */
  lemma {:induction false} FreeFrom(h: seq<Block>, b: nat, used: nat, n: nat)
    requires b <= |h| && used + n <= |h| && forall i | b <= i < |h| :: h[i].inUse <==> i < used
    ensures var from := if b < used then used else b;
      from + n <= |h| ==> |FirstFree(h, b, n)| == n && forall i | 0 <= i < n :: FirstFree(h, b, n)[i] == from + i
    decreases |h| - b
  {
    if b < |h| && n > 0 {
      FreeFrom(h, b + 1, used, if h[b].inUse then n else n - 1);
    }
  }

  lemma StillDense(h: seq<Block>, h': seq<Block>, fl: seq<Slot>, f: Filter, owner: seq<int>, owner': seq<int>,
                   n: nat, used: nat, count: nat)
    requires n < |fl| && fl[n].Empty? && Owned(h, fl, owner) && Owned(h', fl[n := Live(f)], owner')
    requires forall b | 0 <= b < |h| :: h[b].inUse <==> b < used
    requires |f.blocks| == count && forall i | 0 <= i < count :: f.blocks[i] == used + i
    ensures forall b | 0 <= b < |h'| :: h'[b].inUse <==> b < used + count
  {
    var fl' := fl[n := Live(f)];
    forall b | 0 <= b < |h'| ensures h'[b].inUse <==> b < used + count {
      BlocksPartition(h, fl, owner, b);
      BlocksPartition(h', fl', owner', b);
      assert b in f.blocks <==> used <= b < used + count by {
        if used <= b < used + count { assert f.blocks[b - used] == b; }
      }
      assert fl'[n].f.blocks == f.blocks;
      assert forall k | 0 <= k < |fl| && k != n :: fl'[k] == fl[k];
    }
  }

  lemma SmallCount(length: nat)
    requires 0 < length <= 64
    ensures DriverBlockCount(length) == BlockCount(length) > 0 && length % 0x1_0000 == length
  {
    CountCases(length);
  }

  /** A filter of one to 64 bytes, allocated behind the others and given its data. */
  method DefineNext(pool: FilterPool, length: nat, ghost n: nat, ghost used: nat) returns (id: nat)
    requires Dense(pool, n, used) && n + 1 < MAX_BLOCKS && 0 < length <= 64 && used + BlockCount(length) < MAX_BLOCKS
    modifies pool`owner, pool.grid.hw, pool.slots
    ensures Dense(pool, n + 1, used + BlockCount(length)) && id == n
    ensures OthersSame(old(pool.slots[..]), pool.slots[..], n)
    ensures var f := pool.slots[n].f; f.state.Defined? && f.pending.NoPending? && f.blocks != [] && f.blocks[0] == used
  {
    hide Consistent, Promised, FirstFree, FreeBlocks, DriverBlockCount, BlockCount, Holds, StandsAs;
    ghost var h, fl, count, owner := pool.grid.hw[..], pool.slots[..], BlockCount(length), pool.owner;
    ConsistentParts(h, fl, pool.channels[..], pool.order, owner);
    FreeFrom(h, 0, used, count);
    FirstFreeCount(h, 0, count);
    SmallCount(length);
    var error;
    error, id := pool.Allocate(length);
    assert fl[n].Empty? && id == n;
    ghost var f := pool.slots[n].f;
    assert pool.slots[..] == fl[n := Live(f)];
    ConsistentParts(pool.grid.hw[..], pool.slots[..], pool.channels[..], pool.order, pool.owner);
    StillDense(h, pool.grid.hw[..], fl, f, owner, pool.owner, n, used, count);
    error := pool.Set(id, 0, Given(seq(length, _ => 0)), Missing);
  }

  /**
   * A filter of two blocks on no channel, one alone on channel 0, and one on channel 1 that is
   * enabled. Taking the second one off channel 0 disables the third.
   */
  method StrayExample() returns (before: Slot, after: Slot)
    ensures before.Live? && before.f.state.Enabled? && before.f.channel == 1
    ensures after == Live(before.f.(state := Disabled))
  {
    hide Consistent, Promised;
    var pool := new FilterPool();
    var _ := DefineNext(pool, 7, 0, 0);
    var a := DefineNext(pool, 1, 1, 2);
    var b := DefineNext(pool, 1, 2, 3);
    var error, s := pool.AddToChannel(0, a);
    error, s := pool.AddToChannel(1, b);
    error := pool.Control(b, true);
    before := pool.slots[b];
    ghost var fl, chs := pool.slots[..], pool.channels[..];
    ChannelShape(pool.grid.hw[..], fl, chs, pool.order, pool.owner, 0);
    SoleFilter(pool.grid.hw[..], fl, chs, pool.order, pool.owner, 0, a);
    ghost var j;
    error, j := pool.DeleteFromChannel(0, a, false);
    after := pool.slots[b];
    assert Dimmed(fl[b], pool.slots[..][b], b == Stray(chs[0]));
  }
}
