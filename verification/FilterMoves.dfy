/** The moves of the filter pool: each takes one consistent state to the next. */
module FilterMoves {
  import opened FilterGrid
  import opened FilterSplice
  import opened FilterErase
  import opened FilterHardware
  import opened FilterTables
  import opened FilterSteps

  // ----- reading the invariant

  lemma ConsistentParts(h: seq<Block>, fl: seq<Slot>, chs: seq<Channel>, order: seq<seq<nat>>, owner: seq<int>)
    requires Consistent(h, fl, chs, order, owner)
    ensures |chs| == |order| == CHANNELS && |fl| == |h| == |owner| == MAX_BLOCKS
    ensures Owned(h, fl, owner) && Alone(h, fl) && Tables(fl, chs, order)
    ensures forall c | 0 <= c < CHANNELS :: Tabled(fl, chs[c], c, order[c]) && Chained(h, fl, chs[c], order[c])
  {
  }

  lemma FilterShaped(h: seq<Block>, fl: seq<Slot>, owner: seq<int>, id: nat)
    requires Owned(h, fl, owner) && IsLive(fl, id)
    ensures Shaped(fl[id].f) && OwnsAll(owner, id, fl[id].f.blocks)
  {
  }

  lemma MemberFacts(fl: seq<Slot>, ch: Channel, c: nat, ids: seq<nat>, i: nat)
    requires Tabled(fl, ch, c, ids) && i < |ids|
    ensures Member(fl, ch, c, ids[i])
  {
  }

  /** Putting the invariant together when one channel and its list are replaced. */
  lemma ConsistentFrom(h': seq<Block>, fl': seq<Slot>, chs: seq<Channel>, ch': Channel, order: seq<seq<nat>>,
                       ids': seq<nat>, owner: seq<int>, c: nat)
    requires |chs| == |order| == CHANNELS && c < CHANNELS
    requires Tables(fl', chs[c := ch'], order[c := ids'])
    requires Owned(h', fl', owner) && Alone(h', fl') && Chained(h', fl', ch', ids')
    requires forall d | 0 <= d < CHANNELS && d != c :: Chained(h', fl', chs[d], order[d])
    ensures Consistent(h', fl', chs[c := ch'], order[c := ids'], owner)
  {
    hide Owned, Alone, Chained, Homed, Tabled;
    var chs', order' := chs[c := ch'], order[c := ids'];
    forall d | 0 <= d < CHANNELS ensures Chained(h', fl', chs'[d], order'[d]) {
    }
  }

  /** Two lists share no filter. */
  lemma ListsApart(fl: seq<Slot>, chs: seq<Channel>, order: seq<seq<nat>>, c: nat, d: nat, i: nat)
    requires Tables(fl, chs, order) && c < CHANNELS && d < CHANNELS && c != d && i < |order[d]|
    ensures order[d][i] as int !in IdSet(order[c])
  {
    MemberFacts(fl, chs[d], d, order[d], i);
    forall j | 0 <= j < |order[c]| ensures order[c][j] != order[d][i] {
      MemberFacts(fl, chs[c], c, order[c], j);
    }
  }

  /** What a change to channel c and filter id leaves standing. */
  lemma OtherLists(h: seq<Block>, h': seq<Block>, fl: seq<Slot>, fl': seq<Slot>, chs: seq<Channel>,
                   order: seq<seq<nat>>, owner: seq<int>, c: nat, id: nat)
    requires c < CHANNELS && IsLive(fl, id)
    requires Consistent(h, fl, chs, order, owner) && SameBlocks(fl, fl')
    requires Untouched(h, h', owner, IdSet(order[c]) + {id})
    requires forall d | 0 <= d < CHANNELS && d != c :: id !in order[d]
    ensures forall d | 0 <= d < CHANNELS && d != c :: Chained(h', fl', chs[d], order[d])
  {
    ConsistentParts(h, fl, chs, order, owner);
    forall d | 0 <= d < CHANNELS && d != c ensures Chained(h', fl', chs[d], order[d]) {
      forall i | 0 <= i < |order[d]| ensures order[d][i] as int !in IdSet(order[c]) + {id} {
        ListsApart(fl, chs, order, c, d, i);
      }
      hide Consistent, Tables, Owned, Untouched;
      ChainedFrame(h, h', fl, chs[d], order[d], owner, IdSet(order[c]) + {id});
      BlocksSame(fl, fl', order[d]);
    }
  }

  lemma OtherFilters(h: seq<Block>, h': seq<Block>, fl: seq<Slot>, chs: seq<Channel>,
                     order: seq<seq<nat>>, owner: seq<int>, c: nat, id: nat, k: nat)
    requires c < CHANNELS && IsLive(fl, k) && !Attached(fl[k].f) && k != id
    requires Consistent(h, fl, chs, order, owner)
    requires Untouched(h, h', owner, IdSet(order[c]) + {id})
    ensures Standing(h', fl[k].f.blocks)
  {
    hide Consistent, Tables, Untouched, Owned, Tabled, Standing, Chained, Attached;
    ConsistentParts(h, fl, chs, order, owner);
    NotListedElsewhere(fl, chs, order, c, k);
    StandingFrame(h, h', fl, k, owner, IdSet(order[c]) + {id});
  }

  // ----- restating a filter

  /** A change that leaves a filter's blocks and whereabouts alone. */
  predicate Restated(f: Filter, f': Filter) {
    && f'.blocks == f.blocks && f'.channel == f.channel && f'.matchId == f.matchId
    && Attached(f') == Attached(f) && (f'.pending != NoPending ==> f'.state.Defined?)
  }

  lemma Restate(h: seq<Block>, fl: seq<Slot>, f': Filter, chs: seq<Channel>, order: seq<seq<nat>>,
                owner: seq<int>, id: nat)
    requires IsLive(fl, id)
    requires Consistent(h, fl, chs, order, owner) && Restated(fl[id].f, f')
    ensures Consistent(h, fl[id := Live(f')], chs, order, owner)
  {
    var fl' := fl[id := Live(f')];
    ConsistentParts(h, fl, chs, order, owner);
    RestateTables(fl, f', chs, order, id);
    OwnedFrame(h, h, fl, fl', owner);
    forall c | 0 <= c < CHANNELS ensures Chained(h, fl', chs[c], order[c]) {
      BlocksSame(fl, fl', order[c]);
    }
  }

  lemma RestateTables(fl: seq<Slot>, f': Filter, chs: seq<Channel>, order: seq<seq<nat>>, id: nat)
    requires IsLive(fl, id) && Restated(fl[id].f, f') && Tables(fl, chs, order)
    ensures Tables(fl[id := Live(f')], chs, order)
  {
    var fl' := fl[id := Live(f')];
    forall c | 0 <= c < CHANNELS ensures Tabled(fl', chs[c], c, order[c]) {
      var ids := order[c];
      forall i | 0 <= i < |ids| ensures Member(fl', chs[c], c, ids[i]) {
        MemberFacts(fl, chs[c], c, ids, i);
      }
      forall s | 0 <= s < chs[c].count && chs[c].table[s] != NO_FILTER ensures Matches(fl', chs[c].table[s], s) {
        assert Matches(fl, chs[c].table[s], s);
      }
    }
  }

  // ----- attaching a filter to a channel

  lemma Attach(h: seq<Block>, h': seq<Block>, fl: seq<Slot>, fl': seq<Slot>, chs: seq<Channel>, ch': Channel,
               order: seq<seq<nat>>, owner: seq<int>, c: nat, id: nat, s: nat)
    requires c < CHANNELS && IsLive(fl, id) && !Attached(fl[id].f)
    requires Consistent(h, fl, chs, order, owner)
    requires fl' == fl[id := Live(fl[id].f.(state := Disabled, channel := c, matchId := s))]
    requires s < CHANNELS && ch'.count == CHANNELS && |ch'.table| == CHANNELS && ch'.table[s] == id
    requires ch'.inUse == chs[c].inUse + 1
    requires forall t | 0 <= t < CHANNELS && t != s ::
      ch'.table[t] == if t < chs[c].count then chs[c].table[t] else NO_FILTER
    requires s < chs[c].count ==> chs[c].table[s] == NO_FILTER
    requires OnChannel(h', ch'.first, Blocks(fl, order[c]) + [fl[id].f.blocks])
    requires SameElsewhere(h, h', Grid(Blocks(fl, order[c])), fl[id].f.blocks)
    ensures Consistent(h', fl', chs[c := ch'], order[c := order[c] + [id]], owner)
  {
    hide Consistent, Tables, Tabled, Owned, Alone, Chained, OnChannel, SameElsewhere, Grid, Blocks;
    ConsistentParts(h, fl, chs, order, owner);
    FilterShaped(h, fl, owner, id);
    AttachTables(fl, fl', chs, ch', order, c, id, s);
    AttachLists(h, h', fl, fl', chs, order, owner, c, id);
    AttachOwn(h', fl, fl', order[c], ch', id);
    ConsistentFrom(h', fl', chs, ch', order, order[c] + [id], owner, c);
  }

  lemma AttachOwn(h': seq<Block>, fl: seq<Slot>, fl': seq<Slot>, ids: seq<nat>, ch': Channel, id: nat)
    requires IsLive(fl, id) && SameBlocks(fl, fl')
    requires OnChannel(h', ch'.first, Blocks(fl, ids) + [fl[id].f.blocks])
    ensures Chained(h', fl', ch', ids + [id])
  {
    BlocksSame(fl, fl', ids + [id]);
    assert Blocks(fl, ids + [id]) == Blocks(fl, ids) + [fl[id].f.blocks];
  }

  lemma AttachLists(h: seq<Block>, h': seq<Block>, fl: seq<Slot>, fl': seq<Slot>, chs: seq<Channel>,
                    order: seq<seq<nat>>, owner: seq<int>, c: nat, id: nat)
    requires c < CHANNELS && IsLive(fl, id) && !Attached(fl[id].f)
    requires Consistent(h, fl, chs, order, owner) && SameBlocks(fl, fl')
    requires SameElsewhere(h, h', Grid(Blocks(fl, order[c])), fl[id].f.blocks)
    requires forall k | 0 <= k < |fl| && k != id :: fl'[k] == fl[k]
    requires IsLive(fl', id) && Attached(fl'[id].f) && Shaped(fl'[id].f)
    ensures Owned(h', fl', owner) && Alone(h', fl')
    ensures forall d | 0 <= d < CHANNELS && d != c :: Chained(h', fl', chs[d], order[d])
  {
    hide Consistent, Tables, Tabled, Grid, Chained, Owned, Blocks, Standing, Untouched, SameElsewhere;
    ConsistentParts(h, fl, chs, order, owner);
    FilterShaped(h, fl, owner, id);
    ListUntouched(h, h', fl, owner, order[c], id, fl[id].f.blocks);
    forall k | 0 <= k < |fl'| && fl'[k].Live? ensures Shaped(fl'[k].f) {
      FilterShaped(h, fl, owner, k);
    }
    OwnedFrame(h, h', fl, fl', owner);
    forall d | 0 <= d < CHANNELS ensures id !in order[d] {
      NotListedElsewhere(fl, chs, order, d, id);
    }
    OtherLists(h, h', fl, fl', chs, order, owner, c, id);
    forall k | 0 <= k < |fl'| && fl'[k].Live? && !Attached(fl'[k].f) ensures Standing(h', fl'[k].f.blocks) {
      OtherFilters(h, h', fl, chs, order, owner, c, id, k);
    }
  }

  // ----- taking a filter off its channel

  function Without(ids: seq<nat>, j: nat): seq<nat>
    requires j < |ids|
  {
    ids[..j] + ids[j + 1..]
  }

  function Detached(f: Filter): Filter {
    f.(state := Defined, channel := NO_CHANNEL, pending := NoPending)
  }

  lemma WithoutAt(ids: seq<nat>, j: nat)
    requires j < |ids|
    ensures |Without(ids, j)| == |ids| - 1
    ensures forall i | 0 <= i < |ids| - 1 :: Without(ids, j)[i] == ids[if i < j then i else i + 1]
    ensures forall i | 0 <= i < |ids| && i != j :: ids[i] == Without(ids, j)[if i < j then i else i - 1]
  {
  }

  lemma DetachSlot(fl: seq<Slot>, fl': seq<Slot>, ch: Channel, c: nat, ids: seq<nat>, j: nat, id: nat, t: nat)
    requires Tabled(fl, ch, c, ids) && j < |ids| && ids[j] == id && c < CHANNELS && IsLive(fl, id)
    requires fl' == fl[id := Live(Detached(fl[id].f))]
    requires t < ch.count && ch.table[t] != NO_FILTER && t != fl[id].f.matchId
    ensures ch.table[t] in Without(ids, j) && Matches(fl', ch.table[t], t)
  {
    hide Without;
    WithoutAt(ids, j);
    assert ch.table[t] in ids && Matches(fl, ch.table[t], t);
    var i :| 0 <= i < |ids| && ids[i] == ch.table[t];
    assert Without(ids, j)[if i < j then i else i - 1] == ch.table[t];
  }

  lemma DetachMember(fl: seq<Slot>, fl': seq<Slot>, ch: Channel, ch': Channel, c: nat, ids: seq<nat>, j: nat, id: nat,
                     i: nat)
    requires Tabled(fl, ch, c, ids) && j < |ids| && ids[j] == id && i < |ids| && i != j && IsLive(fl, id)
    requires fl' == fl[id := Live(Detached(fl[id].f))] && fl[id].f.matchId < |ch.table|
    requires ch'.table == ch.table[fl[id].f.matchId := NO_FILTER] && ch'.count == ch.count
    ensures Member(fl', ch', c, ids[i]) && ids[i] != id
  {
    assert Member(fl, ch, c, ids[i]) && Member(fl, ch, c, ids[j]);
  }

  lemma DetachOne(fl: seq<Slot>, fl': seq<Slot>, ch: Channel, ch': Channel, c: nat, ids: seq<nat>, j: nat, id: nat)
    requires Tabled(fl, ch, c, ids) && j < |ids| && ids[j] == id && c < CHANNELS && IsLive(fl, id)
    requires fl' == fl[id := Live(Detached(fl[id].f))] && fl[id].f.matchId < |ch.table|
    requires ch'.table == ch.table[fl[id].f.matchId := NO_FILTER] && ch'.count == ch.count && ch'.inUse == ch.inUse - 1
    ensures Tabled(fl', ch', c, Without(ids, j))
  {
    hide Without, Member, Matches, Detached;
    var ids' := Without(ids, j);
    WithoutAt(ids, j);
    assert |ch'.table| == |ch.table|;
    forall i | 0 <= i < |ids'| ensures Member(fl', ch', c, ids'[i]) {
      DetachMember(fl, fl', ch, ch', c, ids, j, id, if i < j then i else i + 1);
    }
    forall t | 0 <= t < ch'.count && ch'.table[t] != NO_FILTER
      ensures ch'.table[t] in ids' && Matches(fl', ch'.table[t], t)
    {
      DetachSlot(fl, fl', ch, c, ids, j, id, t);
    }
  }

  lemma DetachHomed(fl: seq<Slot>, fl': seq<Slot>, order: seq<seq<nat>>, c: nat, j: nat, id: nat)
    requires Homed(fl, order) && c < |order| && j < |order[c]| && order[c][j] == id && IsLive(fl, id)
    requires fl' == fl[id := Live(Detached(fl[id].f))]
    ensures Homed(fl', order[c := Without(order[c], j)])
  {
    var order' := order[c := Without(order[c], j)];
    WithoutAt(order[c], j);
    forall k | 0 <= k < |fl'| && fl'[k].Live?
      ensures if Attached(fl'[k].f) then fl'[k].f.channel < |order'| && k in order'[fl'[k].f.channel]
              else fl'[k].f.channel == NO_CHANNEL
    {
      if k != id && Attached(fl[k].f) && fl[k].f.channel == c {
        var i :| 0 <= i < |order[c]| && order[c][i] == k;
        assert order'[c][if i < j then i else i - 1] == k;
      }
    }
  }

  lemma DetachTables(fl: seq<Slot>, fl': seq<Slot>, chs: seq<Channel>, ch': Channel, order: seq<seq<nat>>,
                     c: nat, j: nat, id: nat)
    requires Tables(fl, chs, order) && c < CHANNELS && j < |order[c]| && order[c][j] == id && IsLive(fl, id)
    requires fl' == fl[id := Live(Detached(fl[id].f))] && fl[id].f.matchId < |chs[c].table|
    requires ch'.table == chs[c].table[fl[id].f.matchId := NO_FILTER] && ch'.count == chs[c].count
    requires ch'.inUse == chs[c].inUse - 1
    ensures Tables(fl', chs[c := ch'], order[c := Without(order[c], j)])
    ensures forall d | 0 <= d < CHANNELS && d != c :: id !in order[d]
  {
    forall d | 0 <= d < CHANNELS && d != c ensures Tabled(fl', chs[d], d, order[d]) && id !in order[d] {
      MemberFacts(fl, chs[c], c, order[c], j);
      NotListedElsewhere(fl, chs, order, d, id);
      TabledFrame(fl, fl', chs[d], d, order[d], id);
    }
    DetachOne(fl, fl', chs[c], ch', c, order[c], j, id);
    DetachHomed(fl, fl', order, c, j, id);
    hide Without;
  }

  lemma OthersAt(fs: seq<seq<nat>>, j: nat, i: nat)
    requires j < |fs| && i < |fs| - 1
    ensures |Others(fs, j)| == |fs| - 1 && Others(fs, j)[i] == fs[if i < j then i else i + 1]
  {
  }

  lemma BlocksWithout(fl: seq<Slot>, ids: seq<nat>, j: nat)
    requires j < |ids|
    ensures Blocks(fl, Without(ids, j)) == Others(Blocks(fl, ids), j)
  {
    hide Without, Others;
    WithoutAt(ids, j);
    if |ids| > 1 { OthersAt(Blocks(fl, ids), j, 0); } else { OthersOfOne(Blocks(fl, ids), j); }
    forall i | 0 <= i < |ids| - 1 ensures Blocks(fl, Without(ids, j))[i] == Others(Blocks(fl, ids), j)[i] {
      OthersAt(Blocks(fl, ids), j, i);
    }
  }

  lemma OthersOfOne(fs: seq<seq<nat>>, j: nat)
    requires |fs| == 1 && j < |fs|
    ensures Others(fs, j) == []
  {
  }

  lemma SameElsewhereWider(h: seq<Block>, h1: seq<Block>, h2: seq<Block>, ms: seq<Mark>, f: seq<nat>)
    requires SameElsewhere(h, h1, ms, []) && SameElsewhere(h1, h2, [], f)
    ensures SameElsewhere(h, h2, ms, f)
  {
  }

  /** Making a filter's blocks a list of their own leaves a list without that filter alone. */
  lemma OwnListApart(h1: seq<Block>, h2: seq<Block>, fl: seq<Slot>, ch: Channel, ids: seq<nat>, owner: seq<int>, id: nat)
    requires Owned(h1, fl, owner) && IsLive(fl, id) && id !in ids && Chained(h1, fl, ch, ids)
    requires SameElsewhere(h1, h2, [], fl[id].f.blocks)
    ensures Chained(h2, fl, ch, ids)
  {
    FilterShaped(h1, fl, owner, id);
    var f := fl[id].f.blocks;
    forall b | 0 <= b < |h1| && owner[b] !in {id as int} ensures SameLinks(h1[b], h2[b]) {
      assert forall i | 0 <= i < |f| :: f[i] != b;
      assert !Listed([], f, b);
    }
    hide Owned, Chained, SameElsewhere;
    ChainedFrame(h1, h2, fl, ch, ids, owner, {id});
  }

  /** The hardware side: off the list (unless it was the only filter there), then a list of its own. */
  predicate Moved(h: seq<Block>, h1: seq<Block>, h2: seq<Block>, fs: seq<seq<nat>>, j: nat, first': nat) {
    && j < |fs|
    && (|fs| == 1 ==> h1 == h)
    && (|fs| > 1 ==> OnChannel(h1, first', Others(fs, j)))
    && SameElsewhere(h, h1, Grid(fs), [])
    && Standing(h2, fs[j]) && SameElsewhere(h1, h2, [], fs[j])
  }

  lemma SameElsewhereUse(h: seq<Block>, h1: seq<Block>, ms: seq<Mark>, f: seq<nat>)
    requires SameElsewhere(h, h1, ms, f)
    ensures SameUse(h, h1)
  {
  }

  lemma SameBlocksItself(fl: seq<Slot>)
    ensures SameBlocks(fl, fl)
  {
  }

  lemma DetachOwn(h: seq<Block>, h1: seq<Block>, h2: seq<Block>, fl: seq<Slot>, fl': seq<Slot>, ch': Channel,
                  ids: seq<nat>, owner: seq<int>, j: nat, id: nat)
    requires j < |ids| && ids[j] == id && IsLive(fl, id) && id !in Without(ids, j)
    requires Owned(h, fl, owner) && SameBlocks(fl, fl') && Moved(h, h1, h2, Blocks(fl, ids), j, ch'.first)
    ensures Chained(h2, fl', ch', Without(ids, j))
  {
    hide Owned, SameElsewhere, Grid, Standing, SameBlocks, Without, Others, OnChannel, IsLive;
    var ids' := Without(ids, j);
    WithoutAt(ids, j);
    if ids' != [] {
      BlocksWithout(fl, ids, j);
      SameElsewhereUse(h, h1, Grid(Blocks(fl, ids)), []);
      SameBlocksItself(fl);
      forall k | 0 <= k < |fl| && fl[k].Live? ensures Shaped(fl[k].f) {
        LiveShaped(h, fl, owner, k);
      }
      OwnedFrame(h, h1, fl, fl, owner);
      BlockOf(fl, ids, j);
      OwnListApart(h1, h2, fl, ch', ids', owner, id);
      BlocksSame(fl, fl', ids');
    }
  }

  lemma LiveShaped(h: seq<Block>, fl: seq<Slot>, owner: seq<int>, k: nat)
    requires Owned(h, fl, owner) && k < |fl| && fl[k].Live?
    ensures Shaped(fl[k].f)
  {
  }

  lemma BlockOf(fl: seq<Slot>, ids: seq<nat>, j: nat)
    requires j < |ids| && IsLive(fl, ids[j])
    ensures Blocks(fl, ids)[j] == fl[ids[j]].f.blocks
  {
  }

  lemma WithoutLacks(ids: seq<nat>, j: nat)
    requires j < |ids| && forall i, k | 0 <= i < k < |ids| :: ids[i] != ids[k]
    ensures ids[j] !in Without(ids, j)
  {
    WithoutAt(ids, j);
    var ids' := Without(ids, j);
    hide Without;
    forall i | 0 <= i < |ids'| ensures ids'[i] != ids[j] {
    }
  }

  lemma DetachLists(h: seq<Block>, h2: seq<Block>, fl: seq<Slot>, fl': seq<Slot>, chs: seq<Channel>,
                    order: seq<seq<nat>>, owner: seq<int>, c: nat, id: nat)
    requires c < CHANNELS && IsLive(fl, id)
    requires Consistent(h, fl, chs, order, owner) && SameBlocks(fl, fl')
    requires SameElsewhere(h, h2, Grid(Blocks(fl, order[c])), fl[id].f.blocks)
    requires Standing(h2, fl[id].f.blocks)
    requires forall k | 0 <= k < |fl| && k != id :: fl'[k] == fl[k]
    requires IsLive(fl', id) && Shaped(fl'[id].f)
    requires forall d | 0 <= d < CHANNELS && d != c :: id !in order[d]
    ensures Owned(h2, fl', owner) && Alone(h2, fl')
    ensures forall d | 0 <= d < CHANNELS && d != c :: Chained(h2, fl', chs[d], order[d])
  {
    hide Consistent, Tables, Tabled, Grid, Chained, Owned, Blocks, Standing, Untouched, SameElsewhere;
    ConsistentParts(h, fl, chs, order, owner);
    FilterShaped(h, fl, owner, id);
    ListUntouched(h, h2, fl, owner, order[c], id, fl[id].f.blocks);
    forall k | 0 <= k < |fl'| && fl'[k].Live? ensures Shaped(fl'[k].f) {
      FilterShaped(h, fl, owner, k);
    }
    OwnedFrame(h, h2, fl, fl', owner);
    OtherLists(h, h2, fl, fl', chs, order, owner, c, id);
    forall k | 0 <= k < |fl'| && fl'[k].Live? && !Attached(fl'[k].f) ensures Standing(h2, fl'[k].f.blocks) {
      if k != id {
        OtherFilters(h, h2, fl, chs, order, owner, c, id, k);
      }
    }
  }

  lemma Detach(h: seq<Block>, h1: seq<Block>, h2: seq<Block>, fl: seq<Slot>, fl': seq<Slot>, chs: seq<Channel>,
               ch': Channel, order: seq<seq<nat>>, owner: seq<int>, c: nat, j: nat, id: nat)
    requires c < CHANNELS && IsLive(fl, id)
    requires Consistent(h, fl, chs, order, owner)
    requires j < |order[c]| && order[c][j] == id && fl[id].f.matchId < |chs[c].table|
    requires fl' == fl[id := Live(Detached(fl[id].f))]
    requires ch'.table == chs[c].table[fl[id].f.matchId := NO_FILTER] && ch'.count == chs[c].count
    requires ch'.inUse == chs[c].inUse - 1
    requires Moved(h, h1, h2, Blocks(fl, order[c]), j, ch'.first)
    ensures Consistent(h2, fl', chs[c := ch'], order[c := Without(order[c], j)], owner)
  {
    hide Consistent, Tables, Tabled, Owned, Alone, Chained, Moved, Grid, Blocks, Without;
    ConsistentParts(h, fl, chs, order, owner);
    FilterShaped(h, fl, owner, id);
    DetachTables(fl, fl', chs, ch', order, c, j, id);
    ListDistinct(fl, chs[c], c, order[c]);
    WithoutLacks(order[c], j);
    MovedParts(h, h1, h2, Blocks(fl, order[c]), j, ch'.first);
    BlockOf(fl, order[c], j);
    DetachOwn(h, h1, h2, fl, fl', ch', order[c], owner, j, id);
    DetachLists(h, h2, fl, fl', chs, order, owner, c, id);
    ConsistentFrom(h2, fl', chs, ch', order, Without(order[c], j), owner, c);
  }

  lemma ListDistinct(fl: seq<Slot>, ch: Channel, c: nat, ids: seq<nat>)
    requires Tabled(fl, ch, c, ids)
    ensures forall i, k | 0 <= i < k < |ids| :: ids[i] != ids[k]
  {
  }

  lemma MovedParts(h: seq<Block>, h1: seq<Block>, h2: seq<Block>, fs: seq<seq<nat>>, j: nat, first': nat)
    requires Moved(h, h1, h2, fs, j, first')
    ensures j < |fs| && SameElsewhere(h, h2, Grid(fs), fs[j]) && Standing(h2, fs[j])
  {
    SameElsewhereWider(h, h1, h2, Grid(fs), fs[j]);
  }

  // ----- new and released filters

  function FreedBlocks(h: seq<Block>, owner: seq<int>, id: int): (h': seq<Block>)
    requires |owner| == |h|
    ensures |h'| == |h|
  {
    seq(|h|, b requires 0 <= b < |h| => if owner[b] == id then h[b].(inUse := false) else h[b])
  }

  function Disowned(owner: seq<int>, id: int): (owner': seq<int>)
    ensures |owner'| == |owner|
  {
    seq(|owner|, b requires 0 <= b < |owner| => if owner[b] == id then -1 else owner[b])
  }

  lemma UseKeepsChain(h: seq<Block>, h': seq<Block>, ms: seq<Mark>)
    requires Chain(h, ms) && |h'| == |h| && forall b | 0 <= b < |h| :: SameLinks(h[b], h'[b])
    ensures Chain(h', ms)
  {
  }

  /** A list of ids does not see a filter it does not name. */
  lemma BlocksFrame(fl: seq<Slot>, fl': seq<Slot>, ids: seq<nat>, id: nat)
    requires |fl'| == |fl| && id !in ids && forall k | 0 <= k < |fl| && k != id :: fl'[k] == fl[k]
    ensures Blocks(fl', ids) == Blocks(fl, ids)
  {
    forall i | 0 <= i < |ids| ensures Blocks(fl', ids)[i] == Blocks(fl, ids)[i] {
      assert ids[i] != id;
      assert IsLive(fl, ids[i]) == IsLive(fl', ids[i]);
    }
  }

  /** Tables and lists when one filter that is on no list comes or goes. */
  lemma Unlisted(h: seq<Block>, h': seq<Block>, fl: seq<Slot>, fl': seq<Slot>, chs: seq<Channel>,
                 order: seq<seq<nat>>, owner: seq<int>, id: nat)
    requires Consistent(h, fl, chs, order, owner) && id < |fl| == |fl'|
    requires IsLive(fl, id) ==> !Attached(fl[id].f)
    requires IsLive(fl', id) ==> !Attached(fl'[id].f) && fl'[id].f.channel == NO_CHANNEL
    requires forall k | 0 <= k < |fl| && k != id :: fl'[k] == fl[k]
    requires |h'| == |h|
    requires forall b | 0 <= b < |h| && (IsLive(fl', id) ==> b !in fl'[id].f.blocks) :: SameLinks(h[b], h'[b])
    requires IsLive(fl', id) ==> !IsLive(fl, id) && forall b | 0 <= b < |owner| && b in fl'[id].f.blocks :: owner[b] < 0
    ensures Tables(fl', chs, order)
    ensures forall c | 0 <= c < CHANNELS :: Chained(h', fl', chs[c], order[c])
  {
    ConsistentParts(h, fl, chs, order, owner);
    forall c | 0 <= c < CHANNELS ensures Tabled(fl', chs[c], c, order[c]) && Chained(h', fl', chs[c], order[c]) {
      NotNamed(fl, chs, order, c, id);
      hide Consistent, Tables, Tabled, Chained, IsLive, Attached;
      TabledFrame(fl, fl', chs[c], c, order[c], id);
      ChainedApart(h, h', fl, fl', chs[c], order[c], owner, id);
    }
  }

  lemma NotNamed(fl: seq<Slot>, chs: seq<Channel>, order: seq<seq<nat>>, c: nat, id: nat)
    requires Tables(fl, chs, order) && c < CHANNELS && (IsLive(fl, id) ==> !Attached(fl[id].f))
    ensures id !in order[c]
  {
    forall i | 0 <= i < |order[c]| ensures order[c][i] != id {
      MemberFacts(fl, chs[c], c, order[c], i);
    }
  }

  lemma OnListNamed(h: seq<Block>, fl: seq<Slot>, owner: seq<int>, ids: seq<nat>, ms: seq<Mark>, i: nat)
    requires Owned(h, fl, owner) && ms == Grid(Blocks(fl, ids)) && i < |ms|
    ensures |owner| == |h| && ms[i].id < |h| && owner[ms[i].id] >= 0
  {
    hide Grid, Blocks;
    assert Has(ms, ms[i].id);
    var j := OnListOwned(h, fl, owner, ids, ms[i].id);
  }

  lemma ChainedApart(h: seq<Block>, h': seq<Block>, fl: seq<Slot>, fl': seq<Slot>, ch: Channel, ids: seq<nat>,
                     owner: seq<int>, id: nat)
    requires Owned(h, fl, owner) && Chained(h, fl, ch, ids) && id < |fl| == |fl'| && id !in ids && |h'| == |h|
    requires forall k | 0 <= k < |fl| && k != id :: fl'[k] == fl[k]
    requires forall b | 0 <= b < |h| && (IsLive(fl', id) ==> b !in fl'[id].f.blocks) :: SameLinks(h[b], h'[b])
    requires IsLive(fl', id) ==> forall b | 0 <= b < |owner| && b in fl'[id].f.blocks :: owner[b] < 0
    ensures Chained(h', fl', ch, ids)
  {
    hide Grid, Blocks, Owned, Chain;
    BlocksFrame(fl, fl', ids, id);
    if ids != [] {
      var ms := Grid(Blocks(fl, ids));
      forall i | 0 <= i < |ms| ensures ms[i].id < |h| && SameLinks(h[ms[i].id], h'[ms[i].id]) {
        OnListNamed(h, fl, owner, ids, ms, i);
      }
      ChainFrame(h, h', ms);
    }
  }

  lemma ReleaseOwned(h: seq<Block>, fl: seq<Slot>, owner: seq<int>, id: nat)
    requires Owned(h, fl, owner) && IsLive(fl, id)
    ensures Owned(FreedBlocks(h, owner, id), fl[id := Empty], Disowned(owner, id))
  {
    var h', fl', owner' := FreedBlocks(h, owner, id), fl[id := Empty], Disowned(owner, id);
    forall k | 0 <= k < |fl'| && fl'[k].Live? ensures Shaped(fl'[k].f) && OwnsAll(owner', k, fl'[k].f.blocks) {
      FilterShaped(h, fl, owner, k);
    }
    forall b | 0 <= b < |h'| && owner'[b] >= 0 ensures IsLive(fl', owner'[b]) && b in fl'[owner'[b]].f.blocks {
      assert owner'[b] == owner[b] && owner[b] != id;
    }
  }

  lemma StandingUse(h: seq<Block>, h': seq<Block>, f: seq<nat>)
    requires Standing(h, f) && |h'| == |h| && forall b | 0 <= b < |h| :: SameLinks(h[b], h'[b])
    ensures Standing(h', f)
  {
    hide Chain;
    UseKeepsChain(h, h', Singles(f));
  }

  /** free_filter: the blocks are free again and everything else is as it was. */
  lemma Release(h: seq<Block>, fl: seq<Slot>, chs: seq<Channel>, order: seq<seq<nat>>, owner: seq<int>, id: nat)
    requires IsLive(fl, id) && !Attached(fl[id].f) && |owner| == |h|
    requires Consistent(h, fl, chs, order, owner)
    ensures Consistent(FreedBlocks(h, owner, id), fl[id := Empty], chs, order, Disowned(owner, id))
  {
    var h', fl' := FreedBlocks(h, owner, id), fl[id := Empty];
    hide Consistent, Owned, Tables, Tabled, Chained, Standing;
    ConsistentParts(h, fl, chs, order, owner);
    ReleaseOwned(h, fl, owner, id);
    Unlisted(h, h', fl, fl', chs, order, owner, id);
    forall k | 0 <= k < |fl'| && fl'[k].Live? && !Attached(fl'[k].f) ensures Standing(h', fl'[k].f.blocks) {
      StandingUse(h, h', fl'[k].f.blocks);
    }
    ConsistentOf(h', fl', chs, order, Disowned(owner, id));
  }

  lemma ConsistentOf(h: seq<Block>, fl: seq<Slot>, chs: seq<Channel>, order: seq<seq<nat>>, owner: seq<int>)
    requires Tables(fl, chs, order) && Owned(h, fl, owner) && Alone(h, fl)
    requires forall c | 0 <= c < CHANNELS :: Chained(h, fl, chs[c], order[c])
    ensures Consistent(h, fl, chs, order, owner)
  {
    hide Owned, Alone, Chained, Tabled, Homed;
  }

  /** Free blocks handed to filter id: marked in use, and linked as a list of their own. */
  predicate Reserved(h: seq<Block>, h': seq<Block>, blocks: seq<nat>) {
    && |h'| == |h| && Standing(h', blocks) && Distinct(Singles(blocks))
    && (forall i | 0 <= i < |blocks| :: blocks[i] < |h| && !h[blocks[i]].inUse && h'[blocks[i]].inUse)
    && (forall b | 0 <= b < |h| && b !in blocks :: h'[b] == h[b])
  }

  function Assigned(owner: seq<int>, blocks: seq<nat>, id: int): (owner': seq<int>)
    ensures |owner'| == |owner|
  {
    seq(|owner|, b requires 0 <= b < |owner| => if b in blocks then id else owner[b])
  }

  predicate Fresh(f: Filter) {
    f.state.Unused? && f.pending == NoPending && f.channel == NO_CHANNEL
  }

  lemma ReserveOwned(h: seq<Block>, h': seq<Block>, fl: seq<Slot>, f: Filter, owner: seq<int>, id: nat)
    requires Owned(h, fl, owner) && id < |fl| && !fl[id].Live? && Reserved(h, h', f.blocks) && Fresh(f)
    ensures Owned(h', fl[id := Live(f)], Assigned(owner, f.blocks, id))
  {
    var fl', owner' := fl[id := Live(f)], Assigned(owner, f.blocks, id);
    forall k | 0 <= k < |fl'| && fl'[k].Live? ensures Shaped(fl'[k].f) && OwnsAll(owner', k, fl'[k].f.blocks) {
      if k != id {
        FilterShaped(h, fl, owner, k);
        OwnedAreOthers(h, fl, owner, f.blocks, k);
      }
    }
    forall b | 0 <= b < |h'| ensures h'[b].inUse <==> owner'[b] >= 0 {
      if b in f.blocks {
        var i :| 0 <= i < |f.blocks| && f.blocks[i] == b;
      }
    }
    forall b | 0 <= b < |h'| && owner'[b] >= 0 ensures IsLive(fl', owner'[b]) && b in fl'[owner'[b]].f.blocks {
      assert b !in f.blocks ==> IsLive(fl, owner[b]);
    }
  }

  /** Blocks that are free belong to nobody. */
  lemma OwnedAreOthers(h: seq<Block>, fl: seq<Slot>, owner: seq<int>, blocks: seq<nat>, k: nat)
    requires Owned(h, fl, owner) && IsLive(fl, k)
    requires forall i | 0 <= i < |blocks| :: blocks[i] < |h| && !h[blocks[i]].inUse
    ensures forall i | 0 <= i < |fl[k].f.blocks| :: fl[k].f.blocks[i] !in blocks
  {
    FilterShaped(h, fl, owner, k);
  }

  lemma StandingOther(h: seq<Block>, h': seq<Block>, blocks: seq<nat>, f: seq<nat>)
    requires Standing(h, f) && |h'| == |h|
    requires forall i | 0 <= i < |f| :: f[i] !in blocks
    requires forall b | 0 <= b < |h| && b !in blocks :: h'[b] == h[b]
    ensures Standing(h', f)
  {
    var ms := Singles(f);
    assert forall i | 0 <= i < |ms| :: ms[i].id == f[i];
    ChainFrame(h, h', ms);
  }

  lemma ReservedFacts(h: seq<Block>, h': seq<Block>, fl: seq<Slot>, owner: seq<int>, blocks: seq<nat>)
    requires Reserved(h, h', blocks) && Owned(h, fl, owner)
    ensures |h'| == |h| && Standing(h', blocks)
    ensures forall i | 0 <= i < |blocks| :: blocks[i] < |h| && !h[blocks[i]].inUse
    ensures forall b | 0 <= b < |h| && b !in blocks :: h'[b] == h[b]
    ensures forall b | 0 <= b < |owner| && b in blocks :: owner[b] < 0
  {
  }

  /** xp_osi_filter_allocate: a new filter owns blocks that nobody owned. */
  lemma Reserve(h: seq<Block>, h': seq<Block>, fl: seq<Slot>, f: Filter, chs: seq<Channel>,
                order: seq<seq<nat>>, owner: seq<int>, id: nat)
    requires id < |fl| && !fl[id].Live? && Fresh(f) && Reserved(h, h', f.blocks)
    requires Consistent(h, fl, chs, order, owner)
    ensures Consistent(h', fl[id := Live(f)], chs, order, Assigned(owner, f.blocks, id))
  {
    var fl' := fl[id := Live(f)];
    hide Consistent, Owned, Tables, Tabled, Chained, Standing, Reserved, Assigned;
    ConsistentParts(h, fl, chs, order, owner);
    ReservedFacts(h, h', fl, owner, f.blocks);
    ReserveOwned(h, h', fl, f, owner, id);
    Unlisted(h, h', fl, fl', chs, order, owner, id);
    forall k | 0 <= k < |fl'| && fl'[k].Live? && !Attached(fl'[k].f) ensures Standing(h', fl'[k].f.blocks) {
      if k != id {
        OwnedAreOthers(h, fl, owner, f.blocks, k);
        StandingOther(h, h', f.blocks, fl[k].f.blocks);
      }
    }
    ConsistentOf(h', fl', chs, order, Assigned(owner, f.blocks, id));
  }

  /** The request counter, and the table of a channel without filters, are free to change. */
  lemma Recount(h: seq<Block>, fl: seq<Slot>, chs: seq<Channel>, ch': Channel, order: seq<seq<nat>>,
                owner: seq<int>, c: nat)
    requires c < CHANNELS && Consistent(h, fl, chs, order, owner)
    requires ch'.inUse == chs[c].inUse && ch'.first == chs[c].first && |ch'.table| == CHANNELS
    requires (ch'.count == chs[c].count && ch'.table == chs[c].table)
      || (order[c] == [] && (ch'.count == 0 || ch'.count == CHANNELS)
          && forall s | 0 <= s < CHANNELS :: ch'.table[s] == NO_FILTER)
    ensures Consistent(h, fl, chs[c := ch'], order, owner)
  {
    hide Owned, Alone, Homed, OnChannel;
    var chs' := chs[c := ch'];
    forall d | 0 <= d < CHANNELS ensures Tabled(fl, chs'[d], d, order[d]) && Chained(h, fl, chs'[d], order[d]) {
      assert Tabled(fl, chs[d], d, order[d]) && Chained(h, fl, chs[d], order[d]);
      if d == c {
        RecountOne(fl, chs[c], ch', c, order[c]);
      }
    }
  }

  lemma RecountOne(fl: seq<Slot>, ch: Channel, ch': Channel, c: nat, ids: seq<nat>)
    requires Tabled(fl, ch, c, ids) && ch'.inUse == ch.inUse && |ch'.table| == CHANNELS
    requires (ch'.count == ch.count && ch'.table == ch.table)
      || (ids == [] && (ch'.count == 0 || ch'.count == CHANNELS)
          && forall s | 0 <= s < CHANNELS :: ch'.table[s] == NO_FILTER)
    ensures Tabled(fl, ch', c, ids)
  {
    forall i | 0 <= i < |ids| ensures Member(fl, ch', c, ids[i]) {
      assert Member(fl, ch, c, ids[i]);
    }
  }
}
