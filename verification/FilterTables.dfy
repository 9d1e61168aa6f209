/**
 * The bookkeeping around the block table: which filter owns which block, which channel a
 * filter is on, and the invariant that ties both to the lists in hardware.
 */
module FilterTables {
  import opened FilterGrid
  import opened FilterSplice
  import opened FilterErase
  import opened FilterHardware

  datatype State = Unused | Defined | Enabled | Disabled

  datatype Pending = NoPending | PendingDelete | PendingFree

  /** FILTER_TYPE. A filter on no channel has channel NO_CHANNEL. */
  datatype Filter = Filter(
    state: State, pending: Pending, soft: bool, channel: nat, matchId: nat,
    length: nat, blocks: seq<nat>, data: seq<bv8>, mask: seq<bv8>)

  datatype Slot = Empty | Live(f: Filter)

  /** FILTER_CHANNEL_TYPE; table[s] is the id of the filter with match id s, or NO_FILTER. */
  datatype Channel = Channel(inUse: int, count: nat, table: seq<nat>, first: nat, requests: nat)

  const CHANNELS: nat := 32
  const NO_CHANNEL: nat := CHANNELS
  const NO_FILTER: nat := MAX_BLOCKS

  /** On a channel's list, whether or not its removal is pending. */
  predicate Attached(f: Filter) {
    f.state.Enabled? || f.state.Disabled? || f.pending != NoPending
  }

  predicate IsLive(fl: seq<Slot>, k: nat) {
    k < |fl| && fl[k].Live?
  }

  /** The block lists of the given filters. */
  function Blocks(fl: seq<Slot>, ids: seq<nat>): (fs: seq<seq<nat>>)
    ensures |fs| == |ids|
  {
    seq(|ids|, i requires 0 <= i < |ids| => if IsLive(fl, ids[i]) then fl[ids[i]].f.blocks else [])
  }

  // ----- the invariant

  predicate Shaped(f: Filter) {
    && 0 < |f.blocks| <= MAX_BLOCKS && Distinct(Singles(f.blocks))
    && (f.pending != NoPending ==> f.state.Defined?)
  }

  /** Blocks in use are exactly those of the live filters, and no two filters share one. */
  predicate Owned(h: seq<Block>, fl: seq<Slot>, owner: seq<int>) {
    && |h| == |fl| == |owner| == MAX_BLOCKS
    && (forall b | 0 <= b < |h| :: h[b].inUse <==> owner[b] >= 0)
    && (forall b | 0 <= b < |h| :: owner[b] >= 0 ==> IsLive(fl, owner[b]) && b in fl[owner[b]].f.blocks)
    && (forall k | 0 <= k < |fl| && fl[k].Live? :: Shaped(fl[k].f) && OwnsAll(owner, k, fl[k].f.blocks))
  }

  predicate OwnsAll(owner: seq<int>, k: int, blocks: seq<nat>) {
    forall i | 0 <= i < |blocks| :: blocks[i] < |owner| && owner[blocks[i]] == k
  }

  /** The filters of channel c, in the order of its list, are those its table names. */
  predicate Tabled(fl: seq<Slot>, ch: Channel, c: nat, ids: seq<nat>) {
    && |ch.table| == CHANNELS && (ch.count == 0 || ch.count == CHANNELS)
    && ch.inUse == |ids| && (ch.count == 0 ==> ids == [])
    && (forall i, j | 0 <= i < j < |ids| :: ids[i] != ids[j])
    && (forall i | 0 <= i < |ids| :: Member(fl, ch, c, ids[i]))
    && (forall s | 0 <= s < ch.count && ch.table[s] != NO_FILTER :: ch.table[s] in ids && Matches(fl, ch.table[s], s))
  }

  predicate IsPending(fl: seq<Slot>, k: nat) {
    IsLive(fl, k) && fl[k].f.pending != NoPending
  }

  /** A deferred removal is always announced to the pass that carries removals out. */
  predicate Promised(fl: seq<Slot>, chs: seq<Channel>) {
    forall k | 0 <= k < |fl| && IsPending(fl, k) ::
      fl[k].f.channel < |chs| && chs[fl[k].f.channel].requests > 0
  }

  predicate Matches(fl: seq<Slot>, k: nat, s: nat) {
    IsLive(fl, k) && fl[k].f.matchId == s
  }

  predicate Member(fl: seq<Slot>, ch: Channel, c: nat, k: nat) {
    && IsLive(fl, k) && fl[k].f.channel == c && Attached(fl[k].f)
    && fl[k].f.matchId < ch.count && fl[k].f.matchId < |ch.table| && ch.table[fl[k].f.matchId] == k
  }

  /** A live filter is on the list of its channel, or on none. */
  predicate Homed(fl: seq<Slot>, order: seq<seq<nat>>) {
    forall k | 0 <= k < |fl| && fl[k].Live? ::
      if Attached(fl[k].f) then fl[k].f.channel < |order| && k in order[fl[k].f.channel]
      else fl[k].f.channel == NO_CHANNEL
  }

  predicate Chained(h: seq<Block>, fl: seq<Slot>, ch: Channel, ids: seq<nat>) {
    ids != [] ==> OnChannel(h, ch.first, Blocks(fl, ids))
  }

  predicate Alone(h: seq<Block>, fl: seq<Slot>) {
    forall k | 0 <= k < |fl| && fl[k].Live? && !Attached(fl[k].f) :: Standing(h, fl[k].f.blocks)
  }

  predicate Consistent(h: seq<Block>, fl: seq<Slot>, chs: seq<Channel>, order: seq<seq<nat>>, owner: seq<int>) {
    && |chs| == |order| == CHANNELS
    && Owned(h, fl, owner) && Homed(fl, order) && Alone(h, fl)
    && (forall c | 0 <= c < CHANNELS :: Tabled(fl, chs[c], c, order[c]))
    && (forall c | 0 <= c < CHANNELS :: Chained(h, fl, chs[c], order[c]))
  }

  // ----- what a list can touch

  lemma {:induction false} ColumnFrom(fs: seq<seq<nat>>, k: nat, i: nat)
    requires i < |Column(fs, k)|
    ensures exists m :: 0 <= m < |fs| && k < |fs[m]| && fs[m][k] == Column(fs, k)[i]
  {
    var head := if k < |fs[0]| then 1 else 0;
    if i < head {
      assert fs[0][k] == Column(fs, k)[i];
    } else {
      ColumnFrom(fs[1..], k, i - head);
      var m :| 0 <= m < |fs[1..]| && k < |fs[1..][m]| && fs[1..][m][k] == Column(fs[1..], k)[i - head];
      assert fs[m + 1][k] == Column(fs, k)[i];
    }
  }

  lemma {:induction false} ColumnsFrom(fs: seq<seq<nat>>, a: nat, n: nat, i: nat)
    requires i < |Columns(fs, a, n)|
    ensures exists m :: 0 <= m < |fs| && Columns(fs, a, n)[i].id in fs[m]
    decreases n - a
  {
    var column := Column(fs, a);
    if i < |column| {
      ColumnFrom(fs, a, i);
      var m :| 0 <= m < |fs| && a < |fs[m]| && fs[m][a] == column[i];
      assert Columns(fs, a, n)[i].id in fs[m];
    } else {
      ColumnsFrom(fs, a + 1, n, i - |column|);
    }
  }

  /** Every block on a list belongs to one of the filters it was laid out for. */
  lemma GridFrom(fs: seq<seq<nat>>, b: nat)
    requires Has(Grid(fs), b)
    ensures exists m :: 0 <= m < |fs| && b in fs[m]
  {
    var i :| 0 <= i < |Grid(fs)| && Grid(fs)[i].id == b;
    ColumnsFrom(fs, 0, MAX_BLOCKS, i);
  }

  /** A block on the list of some filters is owned by one of them. */
  lemma OnListOwned(h: seq<Block>, fl: seq<Slot>, owner: seq<int>, ids: seq<nat>, b: nat) returns (i: nat)
    requires Owned(h, fl, owner) && Has(Grid(Blocks(fl, ids)), b)
    ensures i < |ids| && b < |owner| && owner[b] == ids[i]
  {
    GridFrom(Blocks(fl, ids), b);
    i :| 0 <= i < |ids| && b in Blocks(fl, ids)[i];
    var k :| 0 <= k < |Blocks(fl, ids)[i]| && Blocks(fl, ids)[i][k] == b;
    assert IsLive(fl, ids[i]);
    assert OwnsAll(owner, ids[i], fl[ids[i]].f.blocks);
  }

  predicate SameLinks(x: Block, y: Block) {
    x.next == y.next && x.prev == y.prev && x.endOfColumn == y.endOfColumn
  }

  lemma ChainFrame(h: seq<Block>, h': seq<Block>, ms: seq<Mark>)
    requires Chain(h, ms) && |h'| == |h|
    requires forall i | 0 <= i < |ms| :: ms[i].id < |h| && SameLinks(h[ms[i].id], h'[ms[i].id])
    ensures Chain(h', ms)
  {
  }
}
