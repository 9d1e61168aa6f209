/** Each change the driver makes to its filter tables keeps them consistent with the hardware lists. */
module FilterSteps {
  import opened FilterGrid
  import opened FilterSplice
  import opened FilterErase
  import opened FilterHardware
  import opened FilterTables

  // ----- frames

  predicate SameBlocks(fl: seq<Slot>, fl': seq<Slot>) {
    && |fl'| == |fl|
    && forall k | 0 <= k < |fl| ::
      fl[k].Live? == fl'[k].Live? && (fl[k].Live? ==> fl'[k].f.blocks == fl[k].f.blocks)
  }

  lemma BlocksSame(fl: seq<Slot>, fl': seq<Slot>, ids: seq<nat>)
    requires SameBlocks(fl, fl')
    ensures Blocks(fl', ids) == Blocks(fl, ids)
  {
    forall i | 0 <= i < |ids| ensures Blocks(fl', ids)[i] == Blocks(fl, ids)[i] {
      assert IsLive(fl, ids[i]) == IsLive(fl', ids[i]);
    }
  }

  /** Links changed only in blocks owned by filters of K. */
  predicate Untouched(h: seq<Block>, h': seq<Block>, owner: seq<int>, K: set<int>) {
    && |h'| == |h| == |owner|
    && (forall b | 0 <= b < |h| :: owner[b] !in K ==> SameLinks(h[b], h'[b]))
  }

  predicate SameUse(h: seq<Block>, h': seq<Block>) {
    |h'| == |h| && forall b | 0 <= b < |h| :: h'[b].inUse == h[b].inUse
  }

  lemma OwnedFrame(h: seq<Block>, h': seq<Block>, fl: seq<Slot>, fl': seq<Slot>, owner: seq<int>)
    requires Owned(h, fl, owner) && SameUse(h, h') && SameBlocks(fl, fl')
    requires forall k | 0 <= k < |fl'| && fl'[k].Live? :: Shaped(fl'[k].f)
    ensures Owned(h', fl', owner)
  {
  }

  lemma ChainedFrame(h: seq<Block>, h': seq<Block>, fl: seq<Slot>, ch: Channel, ids: seq<nat>,
                     owner: seq<int>, K: set<int>)
    requires Owned(h, fl, owner) && Chained(h, fl, ch, ids) && Untouched(h, h', owner, K)
    requires forall i | 0 <= i < |ids| :: ids[i] as int !in K
    ensures Chained(h', fl, ch, ids)
  {
    if ids != [] {
      var ms := Grid(Blocks(fl, ids));
      forall i | 0 <= i < |ms| ensures ms[i].id < |h| && SameLinks(h[ms[i].id], h'[ms[i].id]) {
        assert Has(ms, ms[i].id);
        var j := OnListOwned(h, fl, owner, ids, ms[i].id);
      }
      ChainFrame(h, h', ms);
    }
  }

  lemma StandingFrame(h: seq<Block>, h': seq<Block>, fl: seq<Slot>, k: nat, owner: seq<int>, K: set<int>)
    requires Owned(h, fl, owner) && IsLive(fl, k) && Standing(h, fl[k].f.blocks)
    requires Untouched(h, h', owner, K) && k as int !in K
    ensures Standing(h', fl[k].f.blocks)
  {
    var f := fl[k].f.blocks;
    assert OwnsAll(owner, k, f);
    assert forall i | 0 <= i < |f| :: Singles(f)[i].id == f[i];
    ChainFrame(h, h', Singles(f));
  }

  function IdSet(ids: seq<nat>): set<int> {
    set i | 0 <= i < |ids| :: ids[i] as int
  }

  lemma NotOnList(h: seq<Block>, fl: seq<Slot>, owner: seq<int>, ids: seq<nat>, b: nat)
    requires Owned(h, fl, owner) && b < |owner| && owner[b] !in IdSet(ids)
    ensures !Has(Grid(Blocks(fl, ids)), b)
  {
    hide Grid;
    if Has(Grid(Blocks(fl, ids)), b) {
      var i := OnListOwned(h, fl, owner, ids, b);
      assert false;
    }
  }

  /** What Add and Delete of one channel leave alone, in terms of owners. */
  lemma ListUntouched(h: seq<Block>, h': seq<Block>, fl: seq<Slot>, owner: seq<int>, ids: seq<nat>, id: nat,
                      f: seq<nat>)
    requires Owned(h, fl, owner) && SameElsewhere(h, h', Grid(Blocks(fl, ids)), f)
    requires OwnsAll(owner, id, f)
    ensures Untouched(h, h', owner, IdSet(ids) + {id}) && SameUse(h, h')
  {
    hide Grid;
    forall b | 0 <= b < |h| && owner[b] !in IdSet(ids) + {id} ensures SameLinks(h[b], h'[b]) {
      NotOnList(h, fl, owner, ids, b);
      assert forall i | 0 <= i < |f| :: f[i] != b;
      assert !Listed(Grid(Blocks(fl, ids)), f, b);
    }
  }

  /** A filter that is not on the list shares no block with it. */
  lemma ApartFromList(h: seq<Block>, fl: seq<Slot>, owner: seq<int>, ids: seq<nat>, id: nat)
    requires Owned(h, fl, owner) && IsLive(fl, id) && id !in ids
    ensures Apart(Grid(Blocks(fl, ids)), fl[id].f.blocks)
  {
    var ms, f := Grid(Blocks(fl, ids)), fl[id].f.blocks;
    assert Shaped(fl[id].f) && OwnsAll(owner, id, f);
    forall i, j | 0 <= i < |ms| && 0 <= j < |f| ensures ms[i].id != Singles(f)[j].id {
      assert Has(ms, ms[i].id);
      var k := OnListOwned(h, fl, owner, ids, ms[i].id);
    }
  }

  // ----- attaching a filter

  predicate Tables(fl: seq<Slot>, chs: seq<Channel>, order: seq<seq<nat>>) {
    && |chs| == |order| == CHANNELS && |fl| == MAX_BLOCKS
    && Homed(fl, order)
    && (forall c | 0 <= c < CHANNELS :: Tabled(fl, chs[c], c, order[c]))
  }

  /** A filter that changes keeps the tables of the channels it is not on. */
  lemma TabledFrame(fl: seq<Slot>, fl': seq<Slot>, ch: Channel, c: nat, ids: seq<nat>, id: nat)
    requires Tabled(fl, ch, c, ids) && |fl'| == |fl| && id !in ids
    requires forall k | 0 <= k < |fl| && k != id :: fl'[k] == fl[k]
    ensures Tabled(fl', ch, c, ids)
  {
    forall i | 0 <= i < |ids| ensures Member(fl', ch, c, ids[i]) {
      assert Member(fl, ch, c, ids[i]);
    }
    forall s | 0 <= s < ch.count && ch.table[s] != NO_FILTER ensures Matches(fl', ch.table[s], s) {
      assert ch.table[s] in ids && Matches(fl, ch.table[s], s);
    }
  }

  /** Nobody else's list names a filter that is homed elsewhere. */
  lemma NotListedElsewhere(fl: seq<Slot>, chs: seq<Channel>, order: seq<seq<nat>>, c: nat, id: nat)
    requires Tables(fl, chs, order) && c < CHANNELS && IsLive(fl, id)
    requires fl[id].f.channel != c || !Attached(fl[id].f)
    ensures id !in order[c]
  {
    forall i | 0 <= i < |order[c]| ensures order[c][i] != id {
      assert Member(fl, chs[c], c, order[c][i]);
    }
  }

  lemma AttachTables(fl: seq<Slot>, fl': seq<Slot>, chs: seq<Channel>, ch': Channel, order: seq<seq<nat>>,
                     c: nat, id: nat, s: nat)
    requires Tables(fl, chs, order) && c < CHANNELS && IsLive(fl, id) && !Attached(fl[id].f)
    requires fl' == fl[id := Live(fl[id].f.(state := Disabled, channel := c, matchId := s))]
    requires s < CHANNELS && ch'.count == CHANNELS && |ch'.table| == CHANNELS && ch'.table[s] == id
    requires ch'.inUse == chs[c].inUse + 1
    requires forall t | 0 <= t < CHANNELS && t != s ::
      ch'.table[t] == if t < chs[c].count then chs[c].table[t] else NO_FILTER
    requires s < chs[c].count ==> chs[c].table[s] == NO_FILTER
    ensures Tables(fl', chs[c := ch'], order[c := order[c] + [id]])
  {
    var ids, ids' := order[c], order[c] + [id];
    var order' := order[c := ids'];
    NotListedElsewhere(fl, chs, order, c, id);
    forall d | 0 <= d < CHANNELS && d != c ensures Tabled(fl', chs[d], d, order[d]) {
      NotListedElsewhere(fl, chs, order, d, id);
      TabledFrame(fl, fl', chs[d], d, order[d], id);
    }
    AttachOne(fl, fl', chs[c], ch', c, ids, id, s);
    forall k | 0 <= k < |fl'| && fl'[k].Live?
      ensures if Attached(fl'[k].f) then fl'[k].f.channel < |order'| && k in order'[fl'[k].f.channel]
              else fl'[k].f.channel == NO_CHANNEL
    {
      if k != id && Attached(fl[k].f) && fl[k].f.channel == c {
        assert k in ids;
      }
    }
  }

  lemma AttachOne(fl: seq<Slot>, fl': seq<Slot>, ch: Channel, ch': Channel, c: nat, ids: seq<nat>, id: nat, s: nat)
    requires Tabled(fl, ch, c, ids) && id !in ids && c < CHANNELS && IsLive(fl, id) && !Attached(fl[id].f)
    requires id < MAX_BLOCKS == |fl|
    requires fl' == fl[id := Live(fl[id].f.(state := Disabled, channel := c, matchId := s))]
    requires s < CHANNELS && ch'.count == CHANNELS && |ch'.table| == CHANNELS && ch'.table[s] == id
    requires ch'.inUse == ch.inUse + 1
    requires forall t | 0 <= t < CHANNELS && t != s :: ch'.table[t] == if t < ch.count then ch.table[t] else NO_FILTER
    requires s < ch.count ==> ch.table[s] == NO_FILTER
    ensures Tabled(fl', ch', c, ids + [id])
  {
    var ids' := ids + [id];
    forall i | 0 <= i < |ids'| ensures Member(fl', ch', c, ids'[i]) {
      if i < |ids| {
        assert Member(fl, ch, c, ids[i]);
      }
    }
    forall t | 0 <= t < ch'.count && ch'.table[t] != NO_FILTER
      ensures ch'.table[t] in ids' && Matches(fl', ch'.table[t], t)
    {
      if t != s {
        assert ch.table[t] in ids && Matches(fl, ch.table[t], t);
      }
    }
  }
}
