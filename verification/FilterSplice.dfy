/** Insertion into a channel's list: what update_links does, and the backward walk made of it. */
module FilterSplice {
  import opened FilterGrid

  /** update_links: id2 is linked in behind id1 and ends the column there. */
  function UpdateLinks(h: seq<Block>, id1: nat, id2: nat): (h': seq<Block>)
    requires id1 < |h| && id2 < |h| && h[id1].next < |h|
    ensures |h'| == |h|
    ensures forall b | 0 <= b < |h| && b != id1 && b != id2 && b != h[id1].next :: h'[b] == h[b]
    ensures forall b | 0 <= b < |h| :: h'[b].inUse == h[b].inUse
  {
    var next := h[id1].next;
    var h1 := if next == id1 then h
              else
                var h0 := h[id2 := h[id2].(next := next)];
                h0[next := h0[next].(prev := id2)];
    var h2 := h1[id1 := h1[id1].(next := id2)];
    var h3 := h2[id2 := h2[id2].(prev := id1)];
    h3[id1 := h3[id1].(endOfColumn := false)]
  }

  lemma UpdateLinksFields(h: seq<Block>, id1: nat, id2: nat)
    requires id1 < |h| && id2 < |h| && h[id1].next < |h| && id1 != id2 && h[id1].next != id2
    ensures var h', next := UpdateLinks(h, id1, id2), h[id1].next;
      && h'[id1] == h[id1].(next := id2, endOfColumn := false)
      && h'[id2] == h[id2].(prev := id1, next := if next == id1 then h[id2].next else next)
      && (next != id1 ==> h'[next] == h[next].(prev := id2))
  {
  }

  predicate Disjoint(ms: seq<Mark>, g: seq<Mark>) {
    forall i, j | 0 <= i < |ms| && 0 <= j < |g| :: ms[i].id != g[j].id
  }

  lemma JoinLinked(h: seq<Block>, a: seq<Mark>, b: seq<Mark>)
    requires Linked(h, a) && Linked(h, b)
    requires a != [] && b != [] ==> h[a[|a| - 1].id].next == b[0].id && h[b[0].id].prev == a[|a| - 1].id
    ensures Linked(h, a + b)
  {
    var c := a + b;
    forall i | 0 <= i < |c| ensures c[i].id < |h| && h[c[i].id].endOfColumn == c[i].last {
      assert c[i] == if i < |a| then a[i] else b[i - |a|];
    }
    forall i | 0 <= i < |c| - 1 ensures h[c[i].id].next == c[i + 1].id {
      if i >= |a| { assert h[b[i - |a|].id].next == b[i - |a| + 1].id; }
    }
    forall i | 0 < i < |c| ensures h[c[i].id].prev == c[i - 1].id {
      if i > |a| { assert h[b[i - |a|].id].prev == b[i - |a| - 1].id; }
    }
  }

  lemma JoinDistinct(a: seq<Mark>, b: seq<Mark>)
    requires Distinct(a) && Distinct(b) && Disjoint(a, b)
    ensures Distinct(a + b)
  {
  }

  lemma JoinDisjoint(a: seq<Mark>, b: seq<Mark>, g: seq<Mark>)
    requires Disjoint(a, g) && Disjoint(b, g)
    ensures Disjoint(a + b, g)
  {
  }

  function Front(z: seq<Mark>, q: nat): seq<Mark>
    requires q < |z|
  {
    z[..q] + [Mark(z[q].id, false)]
  }

  /** The list z with g linked in behind its element q. */
  function Spliced(z: seq<Mark>, q: nat, g: seq<Mark>): seq<Mark>
    requires q < |z|
  {
    Front(z, q) + g + z[q + 1..]
  }

  /**
   * Splicing one block into the middle of a list, or the rest of a filter's own list behind
   * its end, gives one closed list.
   */
  lemma SpliceKeepsChain(h: seq<Block>, z: seq<Mark>, q: nat, g: seq<Mark>)
    requires Chain(h, z) && q < |z| && g != [] && Linked(h, g) && Distinct(g) && Disjoint(z, g)
    requires if q == |z| - 1 then Closes(h, g) else |g| == 1
    ensures z[q].id < |h| && h[z[q].id].next < |h|
    ensures Chain(UpdateLinks(h, z[q].id, g[0].id), Spliced(z, q, g))
  {
    var a, b := Front(z, q), z[q + 1..];
    if b != [] { assert h[z[q].id].next == z[q + 1].id; }
    assert z[q].id != g[0].id;
    assert h[z[q].id].next != g[0].id;
    var h' := UpdateLinks(h, z[q].id, g[0].id);
    UpdateLinksFields(h, z[q].id, g[0].id);
    SplicedPieces(h, h', z, q, g);
    JoinLinked(h', a, g);
    JoinLinked(h', a + g, b);
    SplicedDistinct(z, q, g);
    SplicedEnds(h, h', z, q, g);
  }

  /** The pieces keep their inner links: only fields at the seams are written. */
  lemma SplicedPieces(h: seq<Block>, h': seq<Block>, z: seq<Mark>, q: nat, g: seq<Mark>)
    requires Chain(h, z) && q < |z| && g != [] && Linked(h, g) && Distinct(g) && Disjoint(z, g)
    requires |h'| == |h| && (q == |z| - 1 || |g| == 1)
    requires h'[z[q].id] == h[z[q].id].(next := g[0].id, endOfColumn := false)
    requires q == |z| - 1 ==> h'[g[0].id] == h[g[0].id].(prev := z[q].id)
    requires q < |z| - 1 ==> h'[g[0].id] == h[g[0].id].(prev := z[q].id, next := z[q + 1].id)
    requires q < |z| - 1 ==> h'[z[q + 1].id] == h[z[q + 1].id].(prev := g[0].id)
    requires forall b | 0 <= b < |h| && b != z[q].id && b != g[0].id && b != h[z[q].id].next :: h'[b] == h[b]
    ensures Linked(h', Front(z, q)) && Linked(h', g) && Linked(h', z[q + 1..])
  {
    var a, b := Front(z, q), z[q + 1..];
    forall i | 0 <= i < |z| && i != q && i != q + 1 ensures h'[z[i].id] == h[z[i].id] {
      if q < |z| - 1 { assert h[z[q].id].next == z[q + 1].id; }
    }
    FrontLinked(h, h', z, q);
    forall i | 0 < i < |g| ensures h'[g[i].id] == h[g[i].id] {
      assert h[z[q].id].next == z[q].id;
    }
    BackLinked(h, h', z, q);
  }

  lemma FrontLinked(h: seq<Block>, h': seq<Block>, z: seq<Mark>, q: nat)
    requires Linked(h, z) && q < |z| && |h'| == |h|
    requires forall i | 0 <= i < q :: h'[z[i].id] == h[z[i].id]
    requires h'[z[q].id].prev == h[z[q].id].prev && !h'[z[q].id].endOfColumn
    ensures Linked(h', Front(z, q))
  {
    var a := Front(z, q);
    assert forall i | 0 <= i < q :: a[i] == z[i];
    assert a[q] == Mark(z[q].id, false);
  }

  lemma BackLinked(h: seq<Block>, h': seq<Block>, z: seq<Mark>, q: nat)
    requires Linked(h, z) && q < |z| && |h'| == |h|
    requires forall i | q + 1 < i < |z| :: h'[z[i].id] == h[z[i].id]
    requires q < |z| - 1 ==>
      h'[z[q + 1].id].next == h[z[q + 1].id].next && h'[z[q + 1].id].endOfColumn == h[z[q + 1].id].endOfColumn
    ensures Linked(h', z[q + 1..])
  {
    var b := z[q + 1..];
    assert forall i | 0 <= i < |b| :: b[i] == z[q + 1 + i];
  }

  lemma SplicedDistinct(z: seq<Mark>, q: nat, g: seq<Mark>)
    requires Distinct(z) && Distinct(g) && Disjoint(z, g) && q < |z|
    ensures Distinct(Spliced(z, q, g))
  {
    var a, b := Front(z, q), z[q + 1..];
    assert forall i | 0 <= i <= q :: a[i].id == z[i].id;
    assert forall i | 0 <= i < |b| :: b[i].id == z[q + 1 + i].id;
    JoinDistinct(a, g);
    JoinDisjoint(a, g, b);
    JoinDistinct(a + g, b);
  }

  lemma SplicedEnds(h: seq<Block>, h': seq<Block>, z: seq<Mark>, q: nat, g: seq<Mark>)
    requires Chain(h, z) && q < |z| && g != [] && Linked(h, g) && Distinct(g) && Disjoint(z, g) && |h'| == |h|
    requires q == |z| - 1 ==> Closes(h, g)
    requires h'[z[q].id] == h[z[q].id].(next := g[0].id, endOfColumn := false)
    requires q == |z| - 1 ==> h'[g[0].id] == h[g[0].id].(prev := z[q].id)
    requires q < |z| - 1 ==> h'[z[q + 1].id] == h[z[q + 1].id].(prev := g[0].id)
    requires forall b | 0 <= b < |h| && b != z[q].id && b != g[0].id && b != h[z[q].id].next :: h'[b] == h[b]
    ensures Opens(h', Spliced(z, q, g)) && Closes(h', Spliced(z, q, g))
  {
    var s, n := Spliced(z, q, g), |z|;
    assert s[0].id == z[0].id;
    if q < n - 1 {
      assert s[|s| - 1] == z[n - 1];
      assert h'[z[n - 1].id].next == h[z[n - 1].id].next;
    } else {
      assert s[|s| - 1] == g[|g| - 1];
    }
  }

  // ----- the walk

  /** Columns that end among the first p blocks. */
  function Ends(ms: seq<Mark>, p: nat): (c: nat)
    requires p <= |ms|
    ensures c <= p
  {
    if p == 0 then 0 else Ends(ms, p - 1) + (if ms[p - 1].last then 1 else 0)
  }

  /** The list when the backward walk has dealt with every block from p on. */
  function Stage(ms: seq<Mark>, f: seq<nat>, p: nat): seq<Mark>
    requires p <= |ms|
  {
    if p == |ms| || Ends(ms, p) > |f| then ms else ms[..p] + Merge(ms[p..], f[Ends(ms, p)..])
  }

  lemma StageKeepsFront(ms: seq<Mark>, f: seq<nat>, p: nat)
    requires p <= |ms| && Ends(ms, p) <= |f|
    ensures |Stage(ms, f, p)| >= |ms| && Stage(ms, f, p)[..p] == ms[..p]
  {
    if p < |ms| { MergeLonger(ms[p..], f[Ends(ms, p)..]); }
  }

  lemma {:induction false} MergeLonger(ms: seq<Mark>, f: seq<nat>)
    ensures |Merge(ms, f)| >= |ms|
  {
    if ms != [] && f != [] {
      MergeLonger(ms[1..], f);
      MergeLonger(ms[1..], f[1..]);
    }
  }

  /** Passing a block inside a column changes nothing. */
  lemma StageInside(ms: seq<Mark>, f: seq<nat>, p: nat)
    requires 0 < p < |ms| && Ends(ms, p) <= |f| && !ms[p - 1].last
    ensures Stage(ms, f, p - 1) == Stage(ms, f, p)
  {
    assert ms[p - 1..] == [ms[p - 1]] + ms[p..];
    if f[Ends(ms, p)..] == [] {
      MergeNothing(ms[p - 1..]);
      MergeNothing(ms[p..]);
    }
    assert ms[..p - 1] + [ms[p - 1]] == ms[..p];
    assert Merge(ms[p - 1..], f[Ends(ms, p)..]) == [ms[p - 1]] + Merge(ms[p..], f[Ends(ms, p)..]);
  }

  /** What goes in behind block p - 1: one block, or behind the very last one the rest of the filter. */
  function Inserted(ms: seq<Mark>, f: seq<nat>, p: nat): seq<Mark>
    requires 0 < p <= |ms| && 0 < Ends(ms, p) <= |f|
  {
    var c := Ends(ms, p);
    if p < |ms| then [Mark(f[c - 1], true)] else Singles(f[c - 1..])
  }

  lemma MergeAtEnd(ms: seq<Mark>, f: seq<nat>, p: nat, c: nat)
    requires 0 < p <= |ms| && ms[p - 1].last && 0 < c <= |f|
    ensures Merge(ms[p - 1..], f[c - 1..]) ==
      [Mark(ms[p - 1].id, false), Mark(f[c - 1], true)] + Merge(ms[p..], f[c..])
  {
    assert ms[p - 1..] == [ms[p - 1]] + ms[p..];
    assert f[c - 1..][1..] == f[c..];
  }

  lemma TailStage(ms: seq<Mark>, f: seq<nat>, c: nat)
    requires ms != [] && 0 < c <= |f|
    ensures ms[..|ms| - 1] + ([Mark(ms[|ms| - 1].id, false), Mark(f[c - 1], true)] + Singles(f[c..]))
      == Spliced(ms, |ms| - 1, Singles(f[c - 1..]))
  {
    assert Singles(f[c - 1..]) == [Mark(f[c - 1], true)] + Singles(f[c..]);
    var a, g := ms[..|ms| - 1], Singles(f[c..]);
    var m, b := Mark(ms[|ms| - 1].id, false), Mark(f[c - 1], true);
    assert a + ([m, b] + g) == a + [m] + ([b] + g);
    assert ms[|ms|..] == [];
  }

  lemma MergeEmpty(f: seq<nat>)
    ensures Merge([], f) == Singles(f)
  {
  }

  lemma SplitStage(ms: seq<Mark>, z: seq<Mark>, p: nat, b: nat, rest: seq<Mark>)
    requires 0 < p <= |ms| && z == ms[..p] + rest
    ensures ms[..p - 1] + ([Mark(ms[p - 1].id, false), Mark(b, true)] + rest) == Spliced(z, p - 1, [Mark(b, true)])
  {
    assert z[..p - 1] == ms[..p - 1] && z[p - 1] == ms[p - 1] && z[p..] == rest;
  }

  lemma EndMiddle(ms: seq<Mark>, f: seq<nat>, p: nat, c: nat, z: seq<Mark>, z': seq<Mark>)
    requires 0 < p < |ms| && ms[p - 1].last && 0 < c <= |f|
    requires z == ms[..p] + Merge(ms[p..], f[c..])
    requires z' == ms[..p - 1] + Merge(ms[p - 1..], f[c - 1..])
    ensures z' == Spliced(z, p - 1, [Mark(f[c - 1], true)])
  {
    MergeAtEnd(ms, f, p, c);
    SplitStage(ms, z, p, f[c - 1], Merge(ms[p..], f[c..]));
  }

  lemma EndTail(ms: seq<Mark>, f: seq<nat>, c: nat, z': seq<Mark>)
    requires ms != [] && ms[|ms| - 1].last && 0 < c <= |f|
    requires z' == ms[..|ms| - 1] + Merge(ms[|ms| - 1..], f[c - 1..])
    ensures z' == Spliced(ms, |ms| - 1, Singles(f[c - 1..]))
  {
    MergeAtEnd(ms, f, |ms|, c);
    MergeEmpty(f[c..]);
    assert ms[|ms|..] == [];
    TailStage(ms, f, c);
  }

  /** At the end of a column the filter's block for that column goes in. */
  lemma StageAtEnd(ms: seq<Mark>, f: seq<nat>, p: nat)
    requires 0 < p <= |ms| && Ends(ms, p) <= |f| && ms[p - 1].last
    ensures p - 1 < |Stage(ms, f, p)|
    ensures Stage(ms, f, p - 1) == Spliced(Stage(ms, f, p), p - 1, Inserted(ms, f, p))
  {
    var c := Ends(ms, p);
    assert Ends(ms, p - 1) == c - 1;
    StageKeepsFront(ms, f, p);
    hide Merge, Spliced, Singles, Ends;
    if p < |ms| {
      EndMiddle(ms, f, p, c, Stage(ms, f, p), Stage(ms, f, p - 1));
    } else {
      EndTail(ms, f, c, Stage(ms, f, p - 1));
    }
  }

  // ----- the invariant of the walk

  predicate Listed(ms: seq<Mark>, f: seq<nat>, id: nat) {
    Has(ms, id) || id in f
  }

  lemma {:induction false} MergeLists(ms: seq<Mark>, f: seq<nat>, i: nat)
    requires i < |Merge(ms, f)|
    ensures Listed(ms, f, Merge(ms, f)[i].id)
  {
    var id := Merge(ms, f)[i].id;
    if ms == [] {
      assert id == f[i];
    } else if f == [] {
      assert Has(ms, ms[i].id);
    } else {
      assert Has(ms, ms[0].id);
      var k := if !ms[0].last then 1 else 2;
      if i >= k {
        MergeLists(ms[1..], f[k - 1..], i - k);
        if Has(ms[1..], id) {
          var j :| 0 <= j < |ms[1..]| && ms[1..][j].id == id;
          assert ms[j + 1].id == id;
        }
      }
    }
  }

  lemma HasDropped(ms: seq<Mark>, p: nat, id: nat)
    requires p <= |ms| && Has(ms[p..], id)
    ensures Has(ms, id)
  {
    var j :| 0 <= j < |ms[p..]| && ms[p..][j].id == id;
    assert ms[p + j].id == id;
  }

  lemma ConcatLists(ms: seq<Mark>, p: nat, rest: seq<Mark>, f: seq<nat>, i: nat)
    requires p <= |ms| && i < |ms[..p] + rest|
    requires forall k | 0 <= k < |rest| :: Listed(ms, f, rest[k].id)
    ensures Listed(ms, f, (ms[..p] + rest)[i].id)
  {
    if i < p {
      assert Has(ms, ms[i].id);
    } else {
      assert (ms[..p] + rest)[i] == rest[i - p];
    }
  }

  /** Every block of a stage is one of the list or one of the filter's later blocks. */
  lemma StageLists(ms: seq<Mark>, f: seq<nat>, p: nat, i: nat)
    requires p <= |ms| && Ends(ms, p) <= |f| && i < |Stage(ms, f, p)|
    ensures Listed(ms, f[Ends(ms, p)..], Stage(ms, f, p)[i].id)
  {
    if p == |ms| {
      assert Has(ms, ms[i].id);
    } else {
      var rest, g := Merge(ms[p..], f[Ends(ms, p)..]), f[Ends(ms, p)..];
      forall k | 0 <= k < |rest| ensures Listed(ms, g, rest[k].id) {
        MergeLists(ms[p..], g, k);
        if Has(ms[p..], rest[k].id) { HasDropped(ms, p, rest[k].id); }
      }
      hide Merge;
      ConcatLists(ms, p, rest, g, i);
    }
  }

  /** The part of the filter's own list that has not been spliced in yet. */
  predicate Waiting(h: seq<Block>, f: seq<nat>, e: nat) {
    && e <= |f|
    && (forall i | 0 <= i < e :: f[i] < |h| && h[f[i]].endOfColumn)
    && (forall i | 0 < i < e :: h[f[i]].prev == f[i - 1])
  }

  predicate Apart(ms: seq<Mark>, f: seq<nat>) {
    Distinct(Singles(f)) && Disjoint(ms, Singles(f))
  }

  predicate Walk(h: seq<Block>, ms: seq<Mark>, f: seq<nat>, p: nat) {
    && 0 < p <= |ms| && Ends(ms, p) <= |f|
    && Apart(ms, f) && ms[|ms| - 1].last
    && Chain(h, Stage(ms, f, p)) && Waiting(h, f, Ends(ms, p))
    && (p == |ms| ==> Chain(h, Singles(f)))
  }

  lemma SuffixChain(h: seq<Block>, f: seq<nat>, k: nat)
    requires Chain(h, Singles(f)) && k < |f|
    ensures var g := Singles(f[k..]); Linked(h, g) && Distinct(g) && Closes(h, g)
  {
    var s, g := Singles(f), Singles(f[k..]);
    assert forall i | 0 <= i < |g| :: g[i] == s[k + i];
    assert Closes(h, g) by { assert g[|g| - 1] == s[|s| - 1]; }
  }

  lemma StageAt(ms: seq<Mark>, f: seq<nat>, p: nat)
    requires 0 < p <= |ms| && Ends(ms, p) <= |f|
    ensures p <= |Stage(ms, f, p)| && Stage(ms, f, p)[p - 1] == ms[p - 1]
    ensures p < |ms| ==> p < |Stage(ms, f, p)|
  {
    StageKeepsFront(ms, f, p);
    var z := Stage(ms, f, p);
    assert z[p - 1] == z[..p][p - 1] == ms[..p][p - 1];
  }

  lemma EarlierNotLater(f: seq<nat>, e: nat, k: nat)
    requires Distinct(Singles(f)) && k < e <= |f|
    ensures f[k] !in f[e..]
  {
    forall j | 0 <= j < |f[e..]| ensures f[e..][j] != f[k] {
      assert Singles(f)[k].id != Singles(f)[e + j].id;
    }
  }

  lemma ListMisses(ms: seq<Mark>, f: seq<nat>, k: nat)
    requires Disjoint(ms, Singles(f)) && k < |f|
    ensures !Has(ms, f[k])
  {
    forall j | 0 <= j < |ms| ensures ms[j].id != f[k] {
      assert ms[j].id != Singles(f)[k].id;
    }
  }

  lemma StageMisses(ms: seq<Mark>, f: seq<nat>, p: nat, i: nat, k: nat)
    requires p <= |ms| && Ends(ms, p) <= |f| && i < |Stage(ms, f, p)|
    requires Apart(ms, f)
    requires k < |f| && (k < Ends(ms, p) || p == |ms|)
    ensures Stage(ms, f, p)[i].id != f[k]
  {
    ListMisses(ms, f, k);
    if p == |ms| {
      assert Has(ms, ms[i].id);
    } else {
      StageLists(ms, f, p, i);
      EarlierNotLater(f, Ends(ms, p), k);
    }
  }

  lemma InsertedReady(h: seq<Block>, ms: seq<Mark>, f: seq<nat>, p: nat, z: seq<Mark>, g: seq<Mark>)
    requires Walk(h, ms, f, p) && ms[p - 1].last && z == Stage(ms, f, p) && g == Inserted(ms, f, p)
    ensures p <= |z| && g != [] && z[p - 1].id == ms[p - 1].id && g[0].id == f[Ends(ms, p) - 1]
    ensures Linked(h, g) && Distinct(g) && Disjoint(z, g)
    ensures if p - 1 == |z| - 1 then Closes(h, g) else |g| == 1
  {
    var e := Ends(ms, p);
    StageAt(ms, f, p);
    forall i, j | 0 <= i < |z| && 0 <= j < |g| ensures z[i].id != g[j].id {
      StageMisses(ms, f, p, i, e - 1 + j);
    }
    if p == |ms| {
      SuffixChain(h, f, e - 1);
    }
  }

  /** Outside the list and the filter, update_links touches nothing. */
  predicate SameElsewhere(h: seq<Block>, h': seq<Block>, ms: seq<Mark>, f: seq<nat>) {
    && |h'| == |h|
    && (forall b | 0 <= b < |h| :: h'[b].inUse == h[b].inUse)
    && (forall b | 0 <= b < |h| && !Listed(ms, f, b) :: h'[b] == h[b])
  }

  /** The block behind p - 1, whose back link is rewritten, is one of the stage. */
  lemma NextInStage(h: seq<Block>, ms: seq<Mark>, f: seq<nat>, p: nat) returns (q: nat)
    requires Walk(h, ms, f, p)
    ensures ms[p - 1].id < |h| && q < |Stage(ms, f, p)|
    ensures h[ms[p - 1].id].next == Stage(ms, f, p)[q].id < |h|
  {
    var z := Stage(ms, f, p);
    StageAt(ms, f, p);
    q := if p < |z| then p else p - 1;
    hide Stage;
  }

  lemma WalkWaiting(h: seq<Block>, h': seq<Block>, f: seq<nat>, e: nat, id1: nat, id2: nat, next: nat)
    requires Waiting(h, f, e) && e > 0 && |h'| == |h|
    requires forall b | 0 <= b < |h| && b != id1 && b != id2 && b != next :: h'[b] == h[b]
    requires forall i | 0 <= i < e - 1 :: f[i] != id1 && f[i] != id2 && f[i] != next
    ensures Waiting(h', f, e - 1)
  {
  }

  /** The blocks update_links writes are not among those still waiting. */
  lemma WalkMisses(ms: seq<Mark>, f: seq<nat>, p: nat, e: nat, q: nat, next: nat)
    requires 0 < p <= |ms| && e == Ends(ms, p) && 0 < e <= |f|
    requires q < |Stage(ms, f, p)| && next == Stage(ms, f, p)[q].id
    requires Apart(ms, f)
    ensures ms[p - 1].id != f[e - 1] && next != f[e - 1] && Listed(ms, f, next)
    ensures forall i | 0 <= i < e - 1 :: f[i] != ms[p - 1].id && f[i] != f[e - 1] && f[i] != next
  {
    StageAt(ms, f, p);
    StageLists(ms, f, p, q);
    hide Stage;
    StageMisses(ms, f, p, p - 1, e - 1);
    StageMisses(ms, f, p, q, e - 1);
    forall i | 0 <= i < e - 1 ensures f[i] != ms[p - 1].id && f[i] != f[e - 1] && f[i] != next {
      StageMisses(ms, f, p, p - 1, i);
      StageMisses(ms, f, p, q, i);
      assert Singles(f)[i].id != Singles(f)[e - 1].id;
    }
  }

  lemma WalkBounds(h: seq<Block>, ms: seq<Mark>, f: seq<nat>, p: nat)
    requires Walk(h, ms, f, p)
    ensures ms[p - 1].id < |h| && h[ms[p - 1].id].next < |h|
    ensures Waiting(h, f, Ends(ms, p))
  {
    var q := NextInStage(h, ms, f, p);
  }

  /** The names used for one step of the backward walk, from h to h'. */
  predicate StepOf(h: seq<Block>, ms: seq<Mark>, f: seq<nat>, p: nat, e: nat, id1: nat, id2: nat, h': seq<Block>) {
    && 0 < p <= |ms| && e == Ends(ms, p) && 0 < e <= |f| && ms[p - 1].last
    && id1 == ms[p - 1].id && id2 == f[e - 1]
    && id1 < |h| && id2 < |h| && h[id1].next < |h| && h' == UpdateLinks(h, id1, id2)
  }

  lemma SpliceNamed(h: seq<Block>, z: seq<Mark>, q: nat, g: seq<Mark>, id1: nat, id2: nat,
                    h': seq<Block>, z': seq<Mark>)
    requires Chain(h, z) && q < |z| && g != [] && Linked(h, g) && Distinct(g) && Disjoint(z, g)
    requires if q == |z| - 1 then Closes(h, g) else |g| == 1
    requires id1 == z[q].id && id2 == g[0].id && id1 < |h| && id2 < |h| && h[id1].next < |h|
    requires h' == UpdateLinks(h, id1, id2) && z' == Spliced(z, q, g)
    ensures Chain(h', z')
  {
    hide UpdateLinks, Spliced, Chain, Linked, Distinct, Disjoint, Closes;
    SpliceKeepsChain(h, z, q, g);
  }

  lemma WalkChain(h: seq<Block>, ms: seq<Mark>, f: seq<nat>, p: nat, e: nat, id1: nat, id2: nat,
                  h': seq<Block>, z: seq<Mark>, z': seq<Mark>, g: seq<Mark>)
    requires StepOf(h, ms, f, p, e, id1, id2, h')
    requires z == Stage(ms, f, p) && z' == Stage(ms, f, p - 1) && g == Inserted(ms, f, p)
    requires Walk(h, ms, f, p)
    ensures Chain(h', z')
  {
    assert Chain(h, z);
    StageAtEnd(ms, f, p);
    hide Walk, Stage, Inserted, Spliced, Chain, Linked, Distinct, Disjoint, Closes, UpdateLinks;
    InsertedReady(h, ms, f, p, z, g);
    SpliceNamed(h, z, p - 1, g, id1, id2, h', z');
  }

  lemma WalkFrame(h: seq<Block>, ms: seq<Mark>, f: seq<nat>, p: nat, e: nat, id1: nat, id2: nat, h': seq<Block>)
    requires StepOf(h, ms, f, p, e, id1, id2, h')
    requires Walk(h, ms, f, p)
    ensures Waiting(h', f, e - 1)
    ensures SameElsewhere(h, h', ms, f)
    ensures h'[id1].prev == h[id1].prev
  {
    WalkBounds(h, ms, f, p);
    var q := NextInStage(h, ms, f, p);
    assert Apart(ms, f);
    hide Walk, Stage, Singles, Apart;
    WalkMisses(ms, f, p, e, q, h[id1].next);
    WalkWaiting(h, h', f, e, id1, id2, h[id1].next);
    ElsewhereSame(h, ms, f, id1, id2);
    UpdateLinksFields(h, id1, id2);
    hide UpdateLinks, Waiting;
  }

  lemma ElsewhereSame(h: seq<Block>, ms: seq<Mark>, f: seq<nat>, id1: nat, id2: nat)
    requires id1 < |h| && id2 < |h| && h[id1].next < |h| && Has(ms, id1) && id2 in f && Listed(ms, f, h[id1].next)
    ensures SameElsewhere(h, UpdateLinks(h, id1, id2), ms, f)
  {
    hide UpdateLinks;
  }
}
