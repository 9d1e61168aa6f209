/** The block table and the operations that rewrite its links in place. */
module FilterHardware {
  import opened FilterGrid
  import opened FilterSplice
  import opened FilterErase

  /** A filter that is on no channel: its blocks form a list of their own. */
  predicate Standing(h: seq<Block>, f: seq<nat>) {
    0 < |f| <= MAX_BLOCKS && Chain(h, Singles(f))
  }

  predicate Sized(fs: seq<seq<nat>>) {
    forall k | 0 <= k < |fs| :: 0 < |fs[k]| <= MAX_BLOCKS
  }

  /** The channel's blocks are laid out for the filters fs, and first is where the list begins. */
  predicate OnChannel(h: seq<Block>, first: nat, fs: seq<seq<nat>>) {
    fs != [] && Sized(fs) && Chain(h, Grid(fs)) && first == Grid(fs)[0].id
  }

  lemma GridOfOne(f: seq<nat>)
    requires |f| <= MAX_BLOCKS
    ensures Grid([f]) == Singles(f)
  {
    MergeIsAdd([], f, 0, MAX_BLOCKS);
    EmptyFrom([], 0, MAX_BLOCKS);
    MergeEmpty(f);
    assert f[0..] == f && [] + [f] == [f];
  }

  lemma GridOfMore(fs: seq<seq<nat>>, f: seq<nat>, ms: seq<Mark>)
    requires ms == Grid(fs) && ms != [] && |f| <= MAX_BLOCKS
    ensures Stage(ms, f, 0) == Grid(fs + [f])
  {
    MergeIsAdd(fs, f, 0, MAX_BLOCKS);
    assert f[0..] == f && ms[0..] == ms;
  }

  /** What the links of one block of a list say. */
  lemma LinksOf(h: seq<Block>, ms: seq<Mark>, i: nat)
    requires Chain(h, ms) && i < |ms|
    ensures ms[i].id < |h| && h[ms[i].id].endOfColumn == ms[i].last
    ensures h[ms[i].id].next == ms[i].id <==> i == |ms| - 1
    ensures h[ms[i].id].prev == ms[i].id <==> i == 0
    ensures i < |ms| - 1 ==> h[ms[i].id].next == ms[i + 1].id
    ensures i > 0 ==> h[ms[i].id].prev == ms[i - 1].id
  {
    if i < |ms| - 1 { assert ms[i].id != ms[i + 1].id; }
    if i > 0 { assert ms[i - 1].id != ms[i].id; }
  }

  lemma SameElsewhereItself(h: seq<Block>, ms: seq<Mark>, f: seq<nat>)
    ensures SameElsewhere(h, h, ms, f)
  {
  }

  lemma SameElsewhereChain(h0: seq<Block>, h1: seq<Block>, h2: seq<Block>, ms: seq<Mark>, f: seq<nat>)
    requires SameElsewhere(h0, h1, ms, f) && SameElsewhere(h1, h2, ms, f)
    ensures SameElsewhere(h0, h2, ms, f)
  {
  }

  // ----- a filter's own list

  function LinkPair(h: seq<Block>, b1: nat, b2: nat): seq<Block>
    requires b1 < |h| && b2 < |h|
  {
    var h1 := h[b1 := h[b1].(next := b2)];
    var h2 := h1[b2 := h1[b2].(prev := b1)];
    h2[b1 := h2[b1].(endOfColumn := true)]
  }

  /** The links among the first i + 1 blocks are in place. */
  predicate InitPart(h: seq<Block>, f: seq<nat>, i: nat) {
    && i < |f| && Distinct(Singles(f))
    && (forall k | 0 <= k < |f| :: f[k] < |h|)
    && h[f[0]].prev == f[0]
    && (forall k | 0 <= k < i :: h[f[k]].endOfColumn && h[f[k]].next == f[k + 1])
    && (forall k | 0 < k <= i :: h[f[k]].prev == f[k - 1])
  }

  lemma OtherBlocks(f: seq<nat>, i: nat)
    requires Distinct(Singles(f)) && i < |f|
    ensures forall k | 0 <= k < |f| && k != i :: f[k] != f[i]
  {
    forall k | 0 <= k < |f| && k != i ensures f[k] != f[i] {
      assert Singles(f)[k].id != Singles(f)[i].id;
    }
  }

  lemma InitStep(h0: seq<Block>, h: seq<Block>, f: seq<nat>, i: nat)
    requires InitPart(h, f, i) && i < |f| - 1 && SameElsewhere(h0, h, [], f)
    ensures InitPart(LinkPair(h, f[i], f[i + 1]), f, i + 1)
    ensures SameElsewhere(h0, LinkPair(h, f[i], f[i + 1]), [], f)
  {
    OtherBlocks(f, i);
    OtherBlocks(f, i + 1);
    var h' := LinkPair(h, f[i], f[i + 1]);
    assert h'[f[i]] == h[f[i]].(next := f[i + 1], endOfColumn := true);
    assert h'[f[i + 1]] == h[f[i + 1]].(prev := f[i]);
    assert forall k | 0 <= k < |f| && k != i && k != i + 1 :: h'[f[k]] == h[f[k]];
    hide LinkPair;
  }

  lemma InitDone(h0: seq<Block>, h: seq<Block>, h': seq<Block>, f: seq<nat>)
    requires f != [] && InitPart(h, f, |f| - 1) && SameElsewhere(h0, h, [], f)
    requires h' == h[f[|f| - 1] := h[f[|f| - 1]].(next := f[|f| - 1], endOfColumn := true)]
    ensures Chain(h', Singles(f)) && SameElsewhere(h0, h', [], f)
  {
    OtherBlocks(f, |f| - 1);
    assert forall k | 0 <= k < |f| :: Singles(f)[k] == Mark(f[k], true);
    assert forall k | 0 <= k < |f| - 1 :: h'[f[k]] == h[f[k]];
  }

  // ----- the walk of hw_filter_add

  lemma MergeKeepsFirst(ms: seq<Mark>, f: seq<nat>)
    requires ms != []
    ensures Merge(ms, f) != [] && Merge(ms, f)[0].id == ms[0].id
  {
  }

  lemma {:induction false} EndsOfAll(ms: seq<Mark>, p: nat, n: nat)
    requires p <= n <= |ms|
    ensures Ends(ms, p) <= Ends(ms, n)
    decreases n - p
  {
    if p < n { EndsOfAll(ms, p, n - 1); }
  }

  lemma StageStarts(ms: seq<Mark>, f: seq<nat>, p: nat)
    requires 0 < p <= |ms| && 0 < Ends(ms, p) <= |f| && (p == |ms| || Ends(ms, p) == |f|)
    ensures Stage(ms, f, p) == ms
  {
    if p < |ms| {
      assert f[|f|..] == [];
      MergeNothing(ms[p..]);
      assert ms[..p] + ms[p..] == ms;
    }
  }

  lemma WalkStarts(h: seq<Block>, ms: seq<Mark>, f: seq<nat>, p: nat, id1: nat, id2: nat)
    requires 0 < p <= |ms| && 0 < Ends(ms, p) <= |f| && (p == |ms| || Ends(ms, p) == |f|)
    requires id1 == ms[p - 1].id && id2 == f[Ends(ms, p) - 1] && ms[|ms| - 1].last
    requires Chain(h, ms) && Chain(h, Singles(f)) && Apart(ms, f)
    ensures WalkAt(h, ms, f, p, id1, id2)
  {
    StageStarts(ms, f, p);
    FreshWaits(h, f, Ends(ms, p));
    hide Chain, Stage, Apart, Waiting;
  }

  lemma FreshWaits(h: seq<Block>, f: seq<nat>, e: nat)
    requires Chain(h, Singles(f)) && e <= |f|
    ensures Waiting(h, f, e)
  {
    assert forall k | 0 <= k < |f| :: Singles(f)[k] == Mark(f[k], true);
  }

  /** The backward walk stands on block p - 1 of the list, with the filter's block for its column. */
  predicate WalkAt(h: seq<Block>, ms: seq<Mark>, f: seq<nat>, p: nat, id1: nat, id2: nat) {
    && 0 < p <= |ms| && Ends(ms, p) <= |f| && id1 == ms[p - 1].id
    && (Ends(ms, p) > 0 ==> id2 == f[Ends(ms, p) - 1])
    && Walk(h, ms, f, p)
  }

  /** What the walk reads there. */
  lemma WalkReads(h: seq<Block>, ms: seq<Mark>, f: seq<nat>, p: nat, id1: nat, id2: nat)
    requires WalkAt(h, ms, f, p, id1, id2)
    ensures p > 0 && id1 < |h| && h[id1].next < |h| && h[id1].prev < |h|
    ensures h[id1].endOfColumn ==> ms[p - 1].last && Ends(ms, p) > 0 && id2 < |h|
    ensures !h[id1].endOfColumn ==> !ms[p - 1].last
    ensures h[id1].prev == id1 <==> p == 1
    ensures p > 1 ==> h[id1].prev == ms[p - 2].id
    ensures Ends(ms, p) > 1 ==> h[f[Ends(ms, p) - 1]].prev == f[Ends(ms, p) - 2]
  {
    WalkBounds(h, ms, f, p);
    StageAt(ms, f, p);
    StageKeepsFront(ms, f, p);
    if p > 1 {
      assert Stage(ms, f, p)[p - 2] == Stage(ms, f, p)[..p][p - 2] == ms[..p][p - 2];
    }
    LinksOf(h, Stage(ms, f, p), p - 1);
    if p > 1 {
      LinksOf(h, Stage(ms, f, p), p - 2);
    }
  }

  lemma WalkSkips(h: seq<Block>, ms: seq<Mark>, f: seq<nat>, p: nat, id1: nat, id2: nat)
    requires WalkAt(h, ms, f, p, id1, id2) && id1 < |h| && !h[id1].endOfColumn
    ensures Chain(h, Stage(ms, f, p - 1))
    ensures p > 1 ==> WalkAt(h, ms, f, p - 1, h[id1].prev, id2)
  {
    WalkReads(h, ms, f, p, id1, id2);
    hide Chain, Apart, Waiting;
    StageInside(ms, f, p);
    hide Stage, Ends;
    if p > 1 { SkipEnds(ms, p); }
  }

  lemma SkipEnds(ms: seq<Mark>, p: nat)
    requires 0 < p <= |ms| && !ms[p - 1].last
    ensures Ends(ms, p - 1) == Ends(ms, p)
  {
  }

  lemma WalkMoves(h: seq<Block>, h': seq<Block>, ms: seq<Mark>, f: seq<nat>, p: nat, id1: nat, id2: nat)
    requires id1 < |h| && id2 < |h| && h[id1].next < |h| && h' == UpdateLinks(h, id1, id2)
    requires h[id1].endOfColumn && WalkAt(h, ms, f, p, id1, id2)
    ensures Chain(h', Stage(ms, f, p - 1)) && SameElsewhere(h, h', ms, f)
    ensures p > 1 ==> WalkAt(h', ms, f, p - 1, h'[id1].prev, h[id2].prev)
  {
    var e := Ends(ms, p);
    WalkReads(h, ms, f, p, id1, id2);
    hide Chain, Apart, Waiting, UpdateLinks, SameElsewhere, Stage;
    WalkChain(h, ms, f, p, e, id1, id2, h', Stage(ms, f, p), Stage(ms, f, p - 1), Inserted(ms, f, p));
    WalkFrame(h, ms, f, p, e, id1, id2, h');
    assert Ends(ms, p - 1) == e - 1;
  }

  lemma AddFirst(h: seq<Block>, f: seq<nat>)
    requires Standing(h, f)
    ensures f != [] && OnChannel(h, f[0], [f]) && SameElsewhere(h, h, Grid([]), f)
  {
    GridOfOne(f);
    SameElsewhereItself(h, Grid([]), f);
  }

  lemma AddReady(h: seq<Block>, first: nat, f: seq<nat>, fs: seq<seq<nat>>)
    requires Standing(h, f) && OnChannel(h, first, fs)
    ensures f != [] && Chain(h, Grid(fs)) && Chain(h, Singles(f)) && Grid(fs) != [] && first == Grid(fs)[0].id
    ensures |f| <= MAX_BLOCKS && Sized(fs) && Grid(fs)[|Grid(fs)| - 1].last
  {
    ColumnsEndInLast(fs, 0, MAX_BLOCKS);
  }

  lemma AddResult(h: seq<Block>, first: nat, f: seq<nat>, fs: seq<seq<nat>>)
    requires Sized(fs) && 0 < |f| <= MAX_BLOCKS && Grid(fs) != [] && first == Grid(fs)[0].id
    requires Chain(h, Stage(Grid(fs), f, 0))
    ensures OnChannel(h, first, fs + [f])
  {
    hide Chain, Grid;
    GridOfMore(fs, f, Grid(fs));
    StageZero(Grid(fs), f);
    MergeKeepsFirst(Grid(fs), f);
  }

  lemma StageZero(ms: seq<Mark>, f: seq<nat>)
    requires ms != []
    ensures Stage(ms, f, 0) == Merge(ms, f)
  {
    assert ms[0..] == ms && f[0..] == f;
  }

  /** The forward walk stands on block p - 1, with the filter's block of the same column. */
  predicate FindAt(ms: seq<Mark>, f: seq<nat>, p: nat, id1: nat, id2: nat) {
    0 < p <= |ms| && id1 == ms[p - 1].id && Ends(ms, p - 1) < |f| && id2 == f[Ends(ms, p - 1)]
  }

  lemma FindReads(h: seq<Block>, ms: seq<Mark>, f: seq<nat>, p: nat, id1: nat, id2: nat)
    requires Chain(h, ms) && Chain(h, Singles(f)) && ms[|ms| - 1].last && FindAt(ms, f, p, id1, id2)
    ensures id1 < |h| && id2 < |h| && h[id1].next < |h| && h[id2].next < |h|
    ensures h[id1].next == id1 <==> p == |ms|
    ensures h[id1].endOfColumn == ms[p - 1].last
    ensures ms[p - 1].last ==> 0 < Ends(ms, p) <= |f| && id2 == f[Ends(ms, p) - 1]
    ensures ms[p - 1].last && h[id2].next == id2 ==> Ends(ms, p) == |f|
    ensures p < |ms| && !ms[p - 1].last ==> FindAt(ms, f, p + 1, h[id1].next, id2)
    ensures p < |ms| && ms[p - 1].last && h[id2].next != id2 ==> FindAt(ms, f, p + 1, h[id1].next, h[id2].next)
  {
    var c := Ends(ms, p - 1);
    assert Singles(f)[c].id == f[c];
    LinksOf(h, ms, p - 1);
    LinksOf(h, Singles(f), c);
    if p < |ms| { LinksOf(h, ms, p); }
    if c < |f| - 1 {
      assert Singles(f)[c + 1].id == f[c + 1];
      LinksOf(h, Singles(f), c + 1);
    }
    hide Chain, Singles;
  }

  // ----- the loop of hw_filter_delete

  /** What is left after i blocks starts at first and is made of blocks of the channel. */
  predicate Remains(fs: seq<seq<nat>>, j: nat, i: nat, first: nat)
    requires j < |fs|
  {
    StartsAt(Remaining(fs, j, i), first, Grid(fs))
  }

  predicate StartsAt(z: seq<Mark>, first: nat, ms: seq<Mark>) {
    z != [] && z[0].id == first && Within(z, ms)
  }

  /** The state of hw_filter_delete when i blocks of filter j are unlinked, id the last of them. */
  predicate Deleting(h0: seq<Block>, h: seq<Block>, fs: seq<seq<nat>>, j: nat, i: nat, id: nat, prev: nat, first: nat)
    requires j < |fs|
  {
    && i <= |fs[j]| && id < |h| && prev < |h|
    && Remains(fs, j, i, first) && SameElsewhere(h0, h, Grid(fs), [])
    && (if i == 0 then j != 0 && Chain(h, Remaining(fs, j, 0)) else DeleteAt(h, Remaining(fs, j, i), id, prev))
    && (0 < i < |fs[j]| ==> h[id].next != id)
    && (i > 0 && h[id].next == id ==> Has(Grid(fs), prev))
  }

  predicate Deletable(h: seq<Block>, first: nat, fs: seq<seq<nat>>, j: nat) {
    OnChannel(h, first, fs) && |fs| > 1 && j < |fs|
  }

  lemma WithinItself(z: seq<Mark>)
    ensures Within(z, z)
  {
  }

  /** Block q of a list is the one it starts with exactly when q is 0. */
  lemma FirstIs(h: seq<Block>, z: seq<Mark>, q: nat)
    requires Chain(h, z) && q < |z|
    ensures z[q].id < |h| && (z[q].id == z[0].id <==> q == 0)
    ensures StartsAt(z, z[0].id, z)
  {
    WithinItself(z);
    if q != 0 { assert z[0].id != z[q].id; }
  }

  lemma DeleteStarts(h: seq<Block>, first: nat, fs: seq<seq<nat>>, j: nat, z: seq<Mark>, q: nat)
    requires j < |fs| && |fs| > 1 && NonEmpty(fs) && |fs[j]| <= MAX_BLOCKS
    requires z == Grid(fs) && q == Position(fs, j, 0)
    requires Chain(h, z) && first == z[0].id
    ensures fs[j][0] < |h| && (first == fs[j][0] <==> j == 0)
    ensures z == Remaining(fs, j, 0) && Remains(fs, j, 0, first)
  {
    hide Grid, Remaining, Position, Chain, StartsAt;
    RemainingBounds(fs, j);
    EraseStep(fs, j, 0);
    HeadPosition(fs, j, 0);
    FirstIs(h, z, q);
  }

  lemma SecondBlock(h: seq<Block>, z: seq<Mark>)
    requires Chain(h, z) && |z| > 1
    ensures z[0].id < |h| && h[z[0].id].next == z[1].id < |h| && z[1].id != z[0].id
    ensures Chain(DropHead(h, z[1].id), z[1..]) && StartsAt(z[1..], z[1].id, z) && Has(z, z[1].id)
  {
    LinksOf(h, z, 0);
    LinksOf(h, z, 1);
    UnlinkHead(h, z);
    var z' := z[1..];
    forall k | 0 <= k < |z'| ensures Has(z, z'[k].id) {
      assert z[k + 1].id == z'[k].id;
    }
    assert z[0].id != z[1].id;
  }

  /** The filter whose first block heads the list: the second block becomes the head. */
  lemma DeleteHead(h: seq<Block>, fs: seq<seq<nat>>, z: seq<Mark>, next: nat)
    requires |fs| > 1 && NonEmpty(fs) && |fs[0]| <= MAX_BLOCKS && z == Grid(fs)
    requires Chain(h, z) && z[0].id < |h| && next == h[z[0].id].next
    ensures next < |h| && next != z[0].id && Has(z, next)
    ensures Chain(DropHead(h, next), Remaining(fs, 0, 1)) && Remains(fs, 0, 1, next)
  {
    HeadHasNext(fs);
    hide Grid, Remaining, Chain, StartsAt, DropHead;
    HeadErased(fs);
    SecondBlock(h, z);
  }

  lemma HeadErased(fs: seq<seq<nat>>)
    requires |fs| > 1 && NonEmpty(fs) && |fs[0]| <= MAX_BLOCKS
    ensures Grid(fs) != [] && Remaining(fs, 0, 1) == Grid(fs)[1..]
  {
    hide Grid, Remaining, Position;
    RemainingBounds(fs, 0);
    EraseStep(fs, 0, 0);
    HeadPosition(fs, 0, 0);
  }

  /** With two filters or more, the first column has a second block. */
  lemma HeadHasNext(fs: seq<seq<nat>>)
    requires |fs| > 1 && NonEmpty(fs)
    ensures |Grid(fs)| > 1
  {
    ColumnZeroFull(fs);
  }

  lemma DeleteReads(h0: seq<Block>, h: seq<Block>, fs: seq<seq<nat>>, j: nat, i: nat, id: nat, prev: nat, first: nat)
    requires j < |fs| && i < |fs[j]| <= MAX_BLOCKS && Deleting(h0, h, fs, j, i, id, prev, first)
    ensures Chain(h, Remaining(fs, j, i))
    ensures fs[j][i] < |h| && h[fs[j][i]].next < |h| && h[fs[j][i]].prev < |h|
    ensures Has(Grid(fs), h[fs[j][i]].next) && Has(Grid(fs), h[fs[j][i]].prev)
  {
    var z, q := Remaining(fs, j, i), Position(fs, j, i);
    assert Chain(h, z) && Within(z, Grid(fs));
    hide Deleting, Remaining, Grid;
    EraseStep(fs, j, i);
    NeighboursOf(h, z, q);
    assert Has(Grid(fs), z[q].id);
    if q > 0 { assert Has(Grid(fs), z[q - 1].id); }
    if q < |z| - 1 { assert Has(Grid(fs), z[q + 1].id); }
  }

  lemma RemainsNext(fs: seq<seq<nat>>, j: nat, i: nat, first: nat)
    requires j < |fs| && i < |fs[j]| <= MAX_BLOCKS && Position(fs, j, i) > 0 && Remains(fs, j, i, first)
    ensures Remains(fs, j, i + 1, first)
  {
    EraseStep(fs, j, i);
    hide Remaining, Position, Grid;
    EraseWithin(Remaining(fs, j, i), Position(fs, j, i), Grid(fs));
  }

  lemma UnlinkElsewhere(h0: seq<Block>, h: seq<Block>, id: nat, ms: seq<Mark>)
    requires id < |h| && h[id].next < |h| && h[id].prev < |h| && Has(ms, h[id].next) && Has(ms, h[id].prev)
    requires SameElsewhere(h0, h, ms, [])
    ensures SameElsewhere(h0, Unlink(h, id), ms, [])
  {
    hide Unlink;
  }

  lemma DeleteMoves(h0: seq<Block>, h: seq<Block>, h': seq<Block>, fs: seq<seq<nat>>, j: nat, i: nat,
                    id0: nat, prev0: nat, first: nat, id: nat, prev: nat)
    requires j < |fs| && i < |fs[j]| <= MAX_BLOCKS && |fs| > 1 && NonEmpty(fs)
    requires id == fs[j][i] && id < |h| && h[id].next < |h| && h[id].prev < |h|
    requires h' == Unlink(h, id) && prev == h[id].prev
    requires Deleting(h0, h, fs, j, i, id0, prev0, first)
    ensures Deleting(h0, h', fs, j, i + 1, id, prev, first)
  {
    var z, z', q := Remaining(fs, j, i), Remaining(fs, j, i + 1), Position(fs, j, i);
    hide Remaining, Grid, Position, EraseMark, Chain, DeleteAt, Unlink, SameElsewhere, Remains, Has;
    assert i <= |fs[j]|;
    DeleteReads(h0, h, fs, j, i, id0, prev0, first);
    EraseStep(fs, j, i);
    HeadPosition(fs, j, i);
    RemainsNext(fs, j, i, first);
    UnlinkElsewhere(h0, h, id, Grid(fs));
    DeleteStep(h, h', z, q, id, prev, z');
  }

  lemma DropElsewhere(h: seq<Block>, next: nat, ms: seq<Mark>)
    requires next < |h| && Has(ms, next)
    ensures SameElsewhere(h, DropHead(h, next), ms, [])
  {
    hide DropHead;
  }

  lemma DeletingBounds(h0: seq<Block>, h: seq<Block>, fs: seq<seq<nat>>, j: nat, i: nat, id: nat, prev: nat, first: nat)
    requires j < |fs| && Deleting(h0, h, fs, j, i, id, prev, first)
    ensures i <= |fs[j]| && id < |h| && prev < |h|
  {
  }

  lemma DeleteSetup(h: seq<Block>, first: nat, fs: seq<seq<nat>>, j: nat)
    requires Deletable(h, first, fs, j)
    ensures Sized(fs) && NonEmpty(fs) && |fs| > 1 && 0 < |fs[j]| <= MAX_BLOCKS
    ensures Chain(h, Grid(fs)) && Grid(fs) != [] && first == Grid(fs)[0].id && first < |h| && fs[j][0] < |h|
    ensures first == fs[j][0] <==> j == 0
    ensures Remains(fs, j, 0, first) && Grid(fs) == Remaining(fs, j, 0)
    ensures SameElsewhere(h, h, Grid(fs), [])
  {
    FirstIs(h, Grid(fs), 0);
    assert NonEmpty(fs);
    hide Grid, Chain, Remains, Remaining;
    DeleteStarts(h, first, fs, j, Grid(fs), Position(fs, j, 0));
    SameElsewhereItself(h, Grid(fs), []);
  }

  lemma CloseElsewhere(h0: seq<Block>, h: seq<Block>, prev: nat, ms: seq<Mark>)
    requires SameElsewhere(h0, h, ms, []) && prev < |h| && Has(ms, prev)
    ensures SameElsewhere(h0, CloseAt(h, prev), ms, [])
  {
    hide CloseAt;
  }

  lemma OthersSized(fs: seq<seq<nat>>, j: nat)
    requires Sized(fs) && j < |fs|
    ensures Sized(Others(fs, j)) && |Others(fs, j)| == |fs| - 1
  {
    var o := Others(fs, j);
    assert forall k | 0 <= k < |o| :: o[k] == fs[if k < j then k else k + 1];
  }

  lemma DeleteEnds(h0: seq<Block>, h: seq<Block>, h': seq<Block>, fs: seq<seq<nat>>, j: nat,
                   id: nat, prev: nat, first: nat)
    requires j < |fs| && |fs| > 1 && Sized(fs)
    requires id < |h| && prev < |h| && h' == if h[id].next == id then CloseAt(h, prev) else h
    requires Deleting(h0, h, fs, j, |fs[j]|, id, prev, first)
    ensures OnChannel(h', first, Others(fs, j)) && SameElsewhere(h0, h', Grid(fs), [])
  {
    assert 0 < |fs[j]| <= MAX_BLOCKS;
    OthersSized(fs, j);
    hide Grid, Remaining, Others, Chain, SameElsewhere, CloseAt, Has, Within, Sized;
    RemainingBounds(fs, j);
    if h[id].next == id {
      CloseElsewhere(h0, h, prev, Grid(fs));
    }
  }

  class FilterHardware {
    const hw: array<Block>

    constructor ()
      ensures fresh(hw) && hw.Length == MAX_BLOCKS
      ensures forall b | 0 <= b < hw.Length :: hw[b] == Block(false, false, 0, 0)
    {
      hw := new Block[MAX_BLOCKS](_ => Block(false, false, 0, 0));
    }

    /** init_filter_links: the filter's blocks become a list of their own, one block a column. */
    method InitFilterLinks(f: seq<nat>)
      requires f != [] && Distinct(Singles(f)) && forall k | 0 <= k < |f| :: f[k] < hw.Length
      modifies hw
      ensures Chain(hw[..], Singles(f))
      ensures SameElsewhere(old(hw[..]), hw[..], [], f)
    {
      ghost var h0 := hw[..];
      var b1 := f[0];
      hw[b1] := hw[b1].(prev := b1);
      var i := 0;
      while i < |f| - 1
        invariant 0 <= i < |f| && b1 == f[i] && |h0| == hw.Length
        invariant InitPart(hw[..], f, i) && SameElsewhere(h0, hw[..], [], f)
      {
        ghost var h := hw[..];
        var b2 := f[i + 1];
        InitStep(h0, h, f, i);
        hw[b1] := hw[b1].(next := b2);
        hw[b2] := hw[b2].(prev := b1);
        hw[b1] := hw[b1].(endOfColumn := true);
        assert hw[..] == LinkPair(h, b1, b2);
        b1 := b2;
        i := i + 1;
      }
      ghost var h := hw[..];
      hw[b1] := hw[b1].(next := b1);
      hw[b1] := hw[b1].(endOfColumn := true);
      InitDone(h0, h, hw[..], f);
    }

    method LinkBehind(id1: nat, id2: nat)
      requires id1 < hw.Length && id2 < hw.Length && hw[id1].next < hw.Length
      modifies hw
      ensures hw[..] == UpdateLinks(old(hw[..]), id1, id2)
    {
      var next := hw[id1].next;
      if next != id1 {
        hw[id2] := hw[id2].(next := next);
        hw[next] := hw[next].(prev := id2);
      }
      hw[id1] := hw[id1].(next := id2);
      hw[id2] := hw[id2].(prev := id1);
      hw[id1] := hw[id1].(endOfColumn := false);
    }

    /**
     * The forward half of hw_filter_add: walks both lists, a column at a time, to the end of
     * the last column the two have in common.
     */
    method FindLastCommonColumn(first: nat, f: seq<nat>, ghost ms: seq<Mark>)
        returns (id1: nat, id2: nat, ghost p: nat)
      requires Chain(hw[..], ms) && Chain(hw[..], Singles(f)) && f != []
      requires first == ms[0].id && ms[|ms| - 1].last
      ensures 0 < p <= |ms| && ms[p - 1].last && 0 < Ends(ms, p) <= |f|
      ensures id1 == ms[p - 1].id && id2 == f[Ends(ms, p) - 1]
      ensures p == |ms| || Ends(ms, p) == |f|
    {
      ghost var h := hw[..];
      p := 1;
      id1, id2 := first, f[0];
      FindReads(h, ms, f, p, id1, id2);
      hide Chain, Singles, Ends, FindAt;
      while hw[id1].next != id1
        invariant 0 < p <= |ms| && id1 < hw.Length && id2 < hw.Length && FindAt(ms, f, p, id1, id2)
        decreases |ms| - p
      {
        FindReads(h, ms, f, p, id1, id2);
        if hw[id1].endOfColumn {
          if hw[id2].next == id2 {
            return;
          }
          id2 := hw[id2].next;
        }
        id1 := hw[id1].next;
        p := p + 1;
        FindReads(h, ms, f, p, id1, id2);
      }
      FindReads(h, ms, f, p, id1, id2);
    }

    /**
     * hw_filter_add: appends block k of the filter to column k of the channel, for every k.
     * `empty` is wInuse == 0; the ghost fs are the filters already on the channel.
     */
    method Add(empty: bool, first: nat, f: seq<nat>, ghost fs: seq<seq<nat>>) returns (first': nat)
      requires Standing(hw[..], f)
      requires if empty then fs == [] else OnChannel(hw[..], first, fs) && Apart(Grid(fs), f)
      modifies hw
      ensures OnChannel(hw[..], first', fs + [f])
      ensures SameElsewhere(old(hw[..]), hw[..], Grid(fs), f)
    {
      hide OnChannel, Grid, Apart, SameElsewhere, Standing, Chain, Singles;
      if empty {
        AddFirst(hw[..], f);
        assert fs + [f] == [f];
        first' := f[0];
      } else {
        AddReady(hw[..], first, f, fs);
        first' := first;
        AddToLayout(first, f, Grid(fs));
        AddResult(hw[..], first, f, fs);
      }
    }

    method AddToLayout(first: nat, f: seq<nat>, ghost ms: seq<Mark>)
      requires Chain(hw[..], ms) && Chain(hw[..], Singles(f)) && Apart(ms, f) && f != []
      requires first == ms[0].id && ms[|ms| - 1].last
      modifies hw
      ensures Chain(hw[..], Stage(ms, f, 0)) && SameElsewhere(old(hw[..]), hw[..], ms, f)
    {
      hide Chain, Apart, Singles, Stage, SameElsewhere, WalkAt;
      var id1, id2, p := FindLastCommonColumn(first, f, ms);
      WalkStarts(hw[..], ms, f, p, id1, id2);
      WalkBack(id1, id2, ms, f, p);
    }

    /** The backward half: splices the filter's blocks in, last common column first. */
    method WalkBack(start1: nat, start2: nat, ghost ms: seq<Mark>, ghost f: seq<nat>, ghost start: nat)
      requires WalkAt(hw[..], ms, f, start, start1, start2)
      modifies hw
      ensures Chain(hw[..], Stage(ms, f, 0))
      ensures SameElsewhere(old(hw[..]), hw[..], ms, f)
    {
      hide WalkAt, Chain, SameElsewhere, Stage, UpdateLinks, Ends;
      var id1: nat, id2: nat := start1, start2;
      ghost var p: nat, h0 := start, hw[..];
      SameElsewhereItself(h0, ms, f);
      WalkReads(h0, ms, f, p, id1, id2);
      while hw[id1].prev != id1
        invariant 0 < p && id1 < hw.Length
        invariant WalkAt(hw[..], ms, f, p, id1, id2) && SameElsewhere(h0, hw[..], ms, f)
        decreases p
      {
        ghost var h := hw[..];
        WalkReads(h, ms, f, p, id1, id2);
        if hw[id1].endOfColumn {
          var prev := hw[id2].prev;
          LinkBehind(id1, id2);
          WalkMoves(h, hw[..], ms, f, p, id1, id2);
          SameElsewhereChain(h0, h, hw[..], ms, f);
          id2 := prev;
        } else {
          WalkSkips(h, ms, f, p, id1, id2);
        }
        id1 := hw[id1].prev;
        p := p - 1;
        WalkReads(hw[..], ms, f, p, id1, id2);
      }
      ghost var h := hw[..];
      WalkReads(h, ms, f, p, id1, id2);
      if hw[id1].endOfColumn {
        LinkBehind(id1, id2);
        WalkMoves(h, hw[..], ms, f, p, id1, id2);
        SameElsewhereChain(h0, h, hw[..], ms, f);
      } else {
        WalkSkips(h, ms, f, p, id1, id2);
      }
    }

    /**
     * A filter that is added to a channel with filters, taken off again and linked on its own
     * leaves every block of the table as it was.
     */
    method AddAndRemove(first: nat, f: seq<nat>, ghost fs: seq<seq<nat>>) returns (first': nat)
      requires Standing(hw[..], f) && OnChannel(hw[..], first, fs) && Apart(Grid(fs), f)
      modifies hw
      ensures first' == first && Standing(hw[..], f)
      ensures forall b | 0 <= b < hw.Length :: hw[b] == old(hw[b])
    {
      hide OnChannel, Standing, Grid, Apart, SameElsewhere, Chain;
      ghost var h0 := hw[..];
      StandingBlocks(h0, f);
      SomeOnChannel(h0, first, fs);
      var head := Add(false, first, f, fs);
      ghost var h1 := hw[..];
      LastIsDeletable(h1, head, fs, f);
      first' := Delete(head, f, fs + [f], |fs|);
      ghost var h2 := hw[..];
      InitFilterLinks(f);
      AllAsBefore(h0, h1, h2, hw[..], first, first', fs, f);
    }

    /**
     * hw_filter_delete: takes the blocks of filter j off a channel with at least two filters.
     * The order of all other blocks is kept.
     */
    method Delete(first: nat, f: seq<nat>, ghost fs: seq<seq<nat>>, ghost j: nat) returns (first': nat)
      requires Deletable(hw[..], first, fs, j) && fs[j] == f
      modifies hw
      ensures OnChannel(hw[..], first', Others(fs, j))
      ensures SameElsewhere(old(hw[..]), hw[..], Grid(fs), [])
    {
      ghost var h0 := hw[..];
      DeleteSetup(h0, first, fs, j);
      hide OnChannel, Grid, Chain, Remaining, SameElsewhere, Others, Remains, DeleteAt, Position, Has, Deletable;
      var start: nat, id: nat := 0, f[0];
      first' := first;
      if first == id {
        DeleteHead(h0, fs, Grid(fs), h0[id].next);
        first' := hw[id].next;
        hw[first'] := hw[first'].(prev := first');
        start := 1;
        assert hw[..] == DropHead(h0, first');
        DropElsewhere(h0, first', Grid(fs));
      }
      Unlinks(start, id, f, fs, j, first', h0);
    }

    /** The loop of hw_filter_delete and the step that closes the list after it. */
    method Unlinks(start: nat, id0: nat, f: seq<nat>, ghost fs: seq<seq<nat>>, ghost j: nat, ghost first: nat,
                   ghost h0: seq<Block>)
      requires j < |fs| && |fs| > 1 && Sized(fs) && f == fs[j]
      requires Deleting(h0, hw[..], fs, j, start, id0, 0, first)
      requires start <= |f|
      modifies hw
      ensures OnChannel(hw[..], first, Others(fs, j)) && SameElsewhere(h0, hw[..], Grid(fs), [])
    {
      hide Deleting, OnChannel, Grid, Others, SameElsewhere, NonEmpty, Sized;
      var i, id: nat, prev: nat := start, id0, 0;
      while i < |f|
        invariant i <= |f| && Deleting(h0, hw[..], fs, j, i, id, prev, first)
      {
        id, prev := UnlinkBlock(f, i, id, prev, fs, j, first, h0);
        i := i + 1;
      }
      CloseList(id, prev, fs, j, first, h0);
    }

    method CloseList(id: nat, prev: nat, ghost fs: seq<seq<nat>>, ghost j: nat, ghost first: nat, ghost h0: seq<Block>)
      requires j < |fs| && |fs| > 1 && Sized(fs)
      requires Deleting(h0, hw[..], fs, j, |fs[j]|, id, prev, first)
      modifies hw
      ensures OnChannel(hw[..], first, Others(fs, j)) && SameElsewhere(h0, hw[..], Grid(fs), [])
    {
      ghost var h := hw[..];
      DeletingBounds(h0, h, fs, j, |fs[j]|, id, prev, first);
      hide Deleting, OnChannel, Grid, Others, SameElsewhere, Has, Sized;
      if hw[id].next == id {
        hw[prev] := hw[prev].(next := prev);
        assert hw[..] == CloseAt(h, prev);
      }
      DeleteEnds(h0, h, hw[..], fs, j, id, prev, first);
    }

    method UnlinkBlock(f: seq<nat>, i: nat, ghost id0: nat, ghost prev0: nat, ghost fs: seq<seq<nat>>, ghost j: nat,
                       ghost first: nat, ghost h0: seq<Block>) returns (id: nat, prev: nat)
      requires j < |fs| && |fs| > 1 && Sized(fs) && f == fs[j] && i < |f|
      requires Deleting(h0, hw[..], fs, j, i, id0, prev0, first)
      modifies hw
      ensures Deleting(h0, hw[..], fs, j, i + 1, id, prev, first)
    {
      hide Deleting, Grid, Has, Unlink;
      ghost var h := hw[..];
      DeleteReads(h0, h, fs, j, i, id0, prev0, first);
      id := f[i];
      prev := hw[id].prev;
      UnlinkAt(id);
      DeleteMoves(h0, h, hw[..], fs, j, i, id0, prev0, first, id, prev);
    }

    method UnlinkAt(id: nat)
      requires id < hw.Length && hw[id].next < hw.Length && hw[id].prev < hw.Length
      modifies hw
      ensures hw[..] == Unlink(old(hw[..]), id)
    {
      var next, prev := hw[id].next, hw[id].prev;
      hw[next] := hw[next].(prev := prev);
      hw[prev] := hw[prev].(next := next);
      if hw[id].endOfColumn {
        hw[prev] := hw[prev].(endOfColumn := true);
      }
    }
  }

  lemma StandingBlocks(h: seq<Block>, f: seq<nat>)
    requires Standing(h, f)
    ensures f != [] && Distinct(Singles(f)) && |f| <= MAX_BLOCKS && forall k | 0 <= k < |f| :: f[k] < |h|
  {
    forall k | 0 <= k < |f| ensures f[k] < |h| {
      assert Singles(f)[k].id == f[k];
    }
  }

  lemma LastIsDeletable(h: seq<Block>, first: nat, fs: seq<seq<nat>>, f: seq<nat>)
    requires OnChannel(h, first, fs + [f]) && fs != []
    ensures Deletable(h, first, fs + [f], |fs|) && Others(fs + [f], |fs|) == fs
  {
  }

  /** A list of blocks determines their links. */
  lemma ChainIsUnique(h: seq<Block>, h': seq<Block>, ms: seq<Mark>, b: nat)
    requires Chain(h, ms) && Chain(h', ms) && Has(ms, b) && b < |h| == |h'| && h'[b].inUse == h[b].inUse
    ensures h'[b] == h[b]
  {
    var i :| 0 <= i < |ms| && ms[i].id == b;
    assert h[ms[i].id].endOfColumn == ms[i].last == h'[ms[i].id].endOfColumn;
    if i > 0 {
      assert h[ms[i].id].prev == ms[i - 1].id == h'[ms[i].id].prev;
    }
    if i < |ms| - 1 {
      assert h[ms[i].id].next == ms[i + 1].id == h'[ms[i].id].next;
    }
  }

  lemma AllAsBefore(h0: seq<Block>, h1: seq<Block>, h2: seq<Block>, h3: seq<Block>, first: nat, first': nat,
                    fs: seq<seq<nat>>, f: seq<nat>)
    requires OnChannel(h0, first, fs) && Standing(h0, f) && Apart(Grid(fs), f)
    requires SameElsewhere(h0, h1, Grid(fs), f) && SameElsewhere(h1, h2, Grid(fs + [f]), [])
    requires OnChannel(h2, first', fs) && SameElsewhere(h2, h3, [], f) && Chain(h3, Singles(f))
    ensures first' == first && Standing(h3, f) && |h3| == |h0| && forall b | 0 <= b < |h0| :: h3[b] == h0[b]
  {
    forall b | 0 <= b < |h0| ensures h3[b] == h0[b] {
      AsBefore(h0, h1, h2, h3, first, first', fs, f, b);
    }
  }

  lemma AsBefore(h0: seq<Block>, h1: seq<Block>, h2: seq<Block>, h3: seq<Block>, first: nat, first': nat,
                 fs: seq<seq<nat>>, f: seq<nat>, b: nat)
    requires OnChannel(h0, first, fs) && Standing(h0, f) && Apart(Grid(fs), f)
    requires SameElsewhere(h0, h1, Grid(fs), f) && SameElsewhere(h1, h2, Grid(fs + [f]), [])
    requires OnChannel(h2, first', fs) && SameElsewhere(h2, h3, [], f) && Chain(h3, Singles(f)) && b < |h0|
    ensures |h3| == |h2| == |h1| == |h0| && h3[b] == h0[b]
  {
    hide Grid, Apart;
    SomeOnChannel(h0, first, fs);
    assert h3[b].inUse == h0[b].inUse;
    hide Chain;
    if b in f {
      var i :| 0 <= i < |f| && f[i] == b;
      assert Singles(f)[i].id == b;
      ChainIsUnique(h0, h3, Singles(f), b);
    } else if Has(Grid(fs), b) {
      ChainIsUnique(h0, h2, Grid(fs), b);
    } else {
      NotInMerge(fs, f, b);
    }
  }

  lemma NotInMerge(fs: seq<seq<nat>>, f: seq<nat>, b: nat)
    requires !Has(Grid(fs), b) && b !in f
    requires Grid(fs) != [] && |f| <= MAX_BLOCKS
    ensures !Has(Grid(fs + [f]), b)
  {
    GridOfMore(fs, f, Grid(fs));
    StageZero(Grid(fs), f);
    hide Grid, Stage, Merge;
    if Has(Grid(fs + [f]), b) {
      var i :| 0 <= i < |Grid(fs + [f])| && Grid(fs + [f])[i].id == b;
      MergeLists(Grid(fs), f, i);
    }
  }

  lemma SomeOnChannel(h: seq<Block>, first: nat, fs: seq<seq<nat>>)
    requires OnChannel(h, first, fs)
    ensures fs != [] && Grid(fs) != []
  {
  }
}
