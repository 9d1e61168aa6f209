/** Removal from a channel's list: unlinking one block at a time, column after column. */
module FilterErase {
  import opened FilterGrid

  /** The list without element q; a column that ended in it now ends in the element before. */
  function EraseMark(z: seq<Mark>, q: nat): seq<Mark>
    requires q < |z|
  {
    if q == 0 then z[1..]
    else z[..q - 1] + [Mark(z[q - 1].id, z[q - 1].last || z[q].last)] + z[q + 1..]
  }

  lemma EraseMarkAt(z: seq<Mark>, q: nat, i: nat)
    requires q < |z| && i < |z| - 1
    ensures |EraseMark(z, q)| == |z| - 1
    ensures EraseMark(z, q)[i] ==
      if i + 1 == q then Mark(z[i].id, z[i].last || z[q].last) else if i < q then z[i] else z[i + 1]
  {
  }

  /** One pass of the loop of hw_filter_delete. */
  function Unlink(h: seq<Block>, id: nat): (h': seq<Block>)
    requires id < |h| && h[id].next < |h| && h[id].prev < |h|
    ensures |h'| == |h|
    ensures forall b | 0 <= b < |h| && b != h[id].next && b != h[id].prev :: h'[b] == h[b]
    ensures forall b | 0 <= b < |h| :: h'[b].inUse == h[b].inUse
  {
    var next, prev := h[id].next, h[id].prev;
    var h1 := h[next := h[next].(prev := prev)];
    var h2 := h1[prev := h1[prev].(next := next)];
    if h2[id].endOfColumn then h2[prev := h2[prev].(endOfColumn := true)] else h2
  }

  lemma UnlinkFields(h: seq<Block>, id: nat)
    requires id < |h| && h[id].next < |h| && h[id].prev < |h| && h[id].prev != id
    requires h[id].next != h[id].prev
    ensures var h', next, prev := Unlink(h, id), h[id].next, h[id].prev;
      && h'[next] == h[next].(prev := prev)
      && h'[prev] == h[prev].(next := next, endOfColumn := h[prev].endOfColumn || h[id].endOfColumn)
  {
  }

  lemma NeighboursOf(h: seq<Block>, z: seq<Mark>, q: nat)
    requires Chain(h, z) && q < |z|
    ensures z[q].id < |h|
    ensures h[z[q].id].next == (if q < |z| - 1 then z[q + 1].id else z[q].id) < |h|
    ensures h[z[q].id].prev == (if q > 0 then z[q - 1].id else z[q].id) < |h|
  {
  }

  lemma EraseDistinct(z: seq<Mark>, q: nat)
    requires Distinct(z) && q < |z|
    ensures Distinct(EraseMark(z, q))
  {
    var z' := EraseMark(z, q);
    forall i, j | 0 <= i < j < |z'| ensures z'[i].id != z'[j].id {
      EraseMarkAt(z, q, i);
      EraseMarkAt(z, q, j);
    }
  }

  /** Unlinking a block that has neighbours on both sides. */
  lemma UnlinkMiddle(h: seq<Block>, z: seq<Mark>, q: nat)
    requires Chain(h, z) && 0 < q < |z| - 1
    ensures z[q].id < |h| && h[z[q].id].next < |h| && h[z[q].id].prev < |h|
    ensures Chain(Unlink(h, z[q].id), EraseMark(z, q))
  {
    NeighboursOf(h, z, q);
    var h', z' := Unlink(h, z[q].id), EraseMark(z, q);
    EraseDistinct(z, q);
    UnlinkFields(h, z[q].id);
    EraseMarkAt(z, q, 0);
    assert forall i | 0 <= i < |z| && i != q - 1 && i != q + 1 :: h'[z[i].id] == h[z[i].id];
    hide Unlink, EraseMark;
    EraseLinked(h, h', z, q);
    EraseMarkAt(z, q, |z'| - 1);
  }

  lemma EraseLinked(h: seq<Block>, h': seq<Block>, z: seq<Mark>, q: nat)
    requires Chain(h, z) && 0 < q < |z| && |h'| == |h| && |EraseMark(z, q)| == |z| - 1
    requires forall i | 0 <= i < |z| && i != q - 1 && i != q && i != q + 1 :: h'[z[i].id] == h[z[i].id]
    requires var p := z[q - 1];
      && h'[p.id].prev == h[p.id].prev && h'[p.id].endOfColumn == (h[p.id].endOfColumn || h[z[q].id].endOfColumn)
      && (q < |z| - 1 ==> h'[p.id].next == z[q + 1].id)
    requires q < |z| - 1 ==> h'[z[q + 1].id] == h[z[q + 1].id].(prev := z[q - 1].id)
    ensures Linked(h', EraseMark(z, q))
  {
    var z' := EraseMark(z, q);
    hide EraseMark;
    forall i | 0 <= i < |z'| ensures z'[i].id < |h'| && h'[z'[i].id].endOfColumn == z'[i].last {
      EraseMarkAt(z, q, i);
    }
    forall i | 0 <= i < |z'| - 1 ensures h'[z'[i].id].next == z'[i + 1].id {
      EraseMarkAt(z, q, i);
      EraseMarkAt(z, q, i + 1);
    }
    forall i | 0 < i < |z'| ensures h'[z'[i].id].prev == z'[i - 1].id {
      EraseMarkAt(z, q, i);
      EraseMarkAt(z, q, i - 1);
    }
  }

  /** Unlinking the last block leaves the list open; closing it is the step after the loop. */
  function CloseAt(h: seq<Block>, id: nat): (h': seq<Block>)
    requires id < |h|
    ensures |h'| == |h|
    ensures forall b | 0 <= b < |h| && b != id :: h'[b] == h[b]
    ensures forall b | 0 <= b < |h| :: h'[b].inUse == h[b].inUse
  {
    h[id := h[id].(next := id)]
  }

  lemma UnlinkTail(h: seq<Block>, z: seq<Mark>)
    requires Chain(h, z) && |z| > 1
    ensures var id, prev := z[|z| - 1].id, z[|z| - 2].id;
      && id < |h| && prev < |h| && h[id].next == id && h[id].prev == prev
      && Unlink(h, id)[id].next == id
      && Chain(CloseAt(Unlink(h, id), prev), EraseMark(z, |z| - 1))
  {
    var q := |z| - 1;
    NeighboursOf(h, z, q);
    var id, prev := z[q].id, z[q - 1].id;
    var h' := CloseAt(Unlink(h, id), prev);
    EraseDistinct(z, q);
    UnlinkFields(h, id);
    EraseMarkAt(z, q, 0);
    assert forall i | 0 <= i < q - 1 :: h'[z[i].id] == h[z[i].id];
    assert h'[prev] == h[prev].(next := prev, endOfColumn := h[prev].endOfColumn || h[id].endOfColumn);
    EraseLinked(h, h', z, q);
    EraseMarkAt(z, q, q - 1);
  }

  /** Moving the head to the second block. */
  function DropHead(h: seq<Block>, next: nat): (h': seq<Block>)
    requires next < |h|
    ensures |h'| == |h|
    ensures forall b | 0 <= b < |h| && b != next :: h'[b] == h[b]
    ensures forall b | 0 <= b < |h| :: h'[b].inUse == h[b].inUse
  {
    h[next := h[next].(prev := next)]
  }

  lemma UnlinkHead(h: seq<Block>, z: seq<Mark>)
    requires Chain(h, z) && |z| > 1
    ensures z[1].id < |h| && Chain(DropHead(h, z[1].id), z[1..])
  {
  }

  // ----- which list results

  function Others(fs: seq<seq<nat>>, j: nat): seq<seq<nat>>
    requires j < |fs|
  {
    fs[..j] + fs[j + 1..]
  }

  /** The layout when blocks 0, .., i - 1 of filter j are gone. */
  function Remaining(fs: seq<seq<nat>>, j: nat, i: nat): seq<Mark>
    requires j < |fs|
  {
    Columns(Others(fs, j), 0, i) + Columns(fs, i, MAX_BLOCKS)
  }

  function Position(fs: seq<seq<nat>>, j: nat, i: nat): nat
    requires j < |fs|
  {
    |Columns(Others(fs, j), 0, i)| + |Column(fs[..j], i)|
  }

  lemma ColumnAround(fs: seq<seq<nat>>, j: nat, i: nat)
    requires j < |fs|
    ensures Column(Others(fs, j), i) == Column(fs[..j], i) + Column(fs[j + 1..], i)
    ensures Column(fs, i) == Column(fs[..j], i) + (if i < |fs[j]| then [fs[j][i]] else []) + Column(fs[j + 1..], i)
  {
    ColumnOfConcat(fs[..j], fs[j + 1..], i);
    ColumnOfConcat(fs[..j], fs[j..], i);
    assert fs == fs[..j] + fs[j..];
    assert fs[j..][0] == fs[j] && fs[j..][1..] == fs[j + 1..];
  }

  lemma Associative(a: seq<Mark>, b: seq<Mark>, c: seq<Mark>)
    ensures a + (b + c) == a + b + c
  {
  }

  lemma {:induction false} ColumnsSplit(fs: seq<seq<nat>>, a: nat, b: nat, n: nat)
    requires a <= b <= n
    ensures Columns(fs, a, n) == Columns(fs, a, b) + Columns(fs, b, n)
    decreases b - a
  {
    if a < b {
      ColumnsSplit(fs, a + 1, b, n);
      Associative(Marks(Column(fs, a)), Columns(fs, a + 1, b), Columns(fs, b, n));
      hide Marks, Column;
    }
  }

  lemma {:induction false} ColumnsEqual(fs: seq<seq<nat>>, gs: seq<seq<nat>>, a: nat, n: nat)
    requires forall k :: a <= k < n ==> Column(fs, k) == Column(gs, k)
    ensures Columns(fs, a, n) == Columns(gs, a, n)
    decreases n - a
  {
    if a < n { ColumnsEqual(fs, gs, a + 1, n); }
  }

  lemma {:induction false} ColumnsEndInLast(fs: seq<seq<nat>>, a: nat, n: nat)
    ensures var z := Columns(fs, a, n); z != [] ==> z[|z| - 1].last
    decreases n - a
  {
    if a < n {
      ColumnsEndInLast(fs, a + 1, n);
    }
  }

  /** Taking one block out of one column of a layout. */
  lemma EraseInColumn(l: seq<Mark>, a: seq<nat>, b: nat, c: seq<nat>, r: seq<Mark>)
    requires l != [] ==> l[|l| - 1].last
    ensures var z := l + Marks(a + [b] + c) + r; var q := |l| + |a|;
      q + 1 + |r| <= |z| && z[q] == Mark(b, c == []) && EraseMark(z, q) == l + Marks(a + c) + r
  {
    var z, z' := l + Marks(a + [b] + c) + r, l + Marks(a + c) + r;
    var q := |l| + |a|;
    EraseLength(z, q);
    LayoutAt(l, a + [b] + c, r, q);
    hide EraseMark, Marks;
    forall i | 0 <= i < |z'| ensures EraseMark(z, q)[i] == z'[i] {
      EraseMarkAt(z, q, i);
      LayoutAt(l, a + [b] + c, r, i);
      LayoutAt(l, a + [b] + c, r, i + 1);
      LayoutAt(l, a + c, r, i);
    }
  }

  lemma EraseLength(z: seq<Mark>, q: nat)
    requires q < |z|
    ensures |EraseMark(z, q)| == |z| - 1
  {
  }

  lemma LayoutAt(l: seq<Mark>, column: seq<nat>, r: seq<Mark>, i: nat)
    requires i < |l| + |column| + |r|
    ensures (l + Marks(column) + r)[i] ==
      if i < |l| then l[i]
      else if i < |l| + |column| then Mark(column[i - |l|], i == |l| + |column| - 1)
      else r[i - |l| - |column|]
  {
  }

  lemma OneColumn(fs: seq<seq<nat>>, i: nat)
    ensures Columns(fs, i, i + 1) == Marks(Column(fs, i))
  {
    assert Columns(fs, i + 1, i + 1) == [];
  }

  lemma NextColumnExists(fs: seq<seq<nat>>, j: nat, i: nat)
    requires j < |fs| && i + 1 < |fs[j]| <= MAX_BLOCKS
    ensures Columns(fs, i + 1, MAX_BLOCKS) != []
  {
    ColumnAround(fs, j, i + 1);
  }

  /** Column i with and without block b, between the columns before it and those after it. */
  lemma ColumnsAround(fs: seq<seq<nat>>, others: seq<seq<nat>>, a: seq<nat>, b: nat, c: seq<nat>, i: nat)
    requires Column(others, i) == a + c && Column(fs, i) == a + [b] + c && i < MAX_BLOCKS
    ensures var l, r := Columns(others, 0, i), Columns(fs, i + 1, MAX_BLOCKS);
      && l + Columns(fs, i, MAX_BLOCKS) == l + Marks(a + [b] + c) + r
      && Columns(others, 0, i + 1) + r == l + Marks(a + c) + r
  {
    ColumnsSplit(others, 0, i, i + 1);
    OneColumn(others, i);
  }

  lemma EraseGiven(l: seq<Mark>, a: seq<nat>, b: nat, c: seq<nat>, r: seq<Mark>, z: seq<Mark>, z': seq<Mark>)
    requires l != [] ==> l[|l| - 1].last
    requires z == l + Marks(a + [b] + c) + r
    requires z' == l + Marks(a + c) + r
    ensures |l| + |a| + 1 + |r| <= |z| && EraseMark(z, |l| + |a|) == z' && z[|l| + |a|].id == b
  {
    hide EraseMark, Marks;
    EraseInColumn(l, a, b, c, r);
  }

  lemma StepWith(fs: seq<seq<nat>>, others: seq<seq<nat>>, a: seq<nat>, b: nat, c: seq<nat>, i: nat,
                 l: seq<Mark>, r: seq<Mark>, z: seq<Mark>, z': seq<Mark>)
    requires Column(others, i) == a + c && Column(fs, i) == a + [b] + c && i < MAX_BLOCKS
    requires l == Columns(others, 0, i) && r == Columns(fs, i + 1, MAX_BLOCKS)
    requires z == Columns(others, 0, i) + Columns(fs, i, MAX_BLOCKS)
    requires z' == Columns(others, 0, i + 1) + Columns(fs, i + 1, MAX_BLOCKS)
    ensures |l| + |a| + 1 + |r| <= |z| && EraseMark(z, |l| + |a|) == z' && z[|l| + |a|].id == b
  {
    hide EraseMark, Marks, Columns, Column;
    ColumnsAround(fs, others, a, b, c, i);
    ColumnsEndInLast(others, 0, i);
    EraseGiven(l, a, b, c, r, z, z');
  }

  lemma StepPosition(fs: seq<seq<nat>>, j: nat, i: nat)
    requires j < |fs| && i < |fs[j]| <= MAX_BLOCKS
    ensures Position(fs, j, i) < |Remaining(fs, j, i)|
    ensures Remaining(fs, j, i)[Position(fs, j, i)].id == fs[j][i]
    ensures EraseMark(Remaining(fs, j, i), Position(fs, j, i)) == Remaining(fs, j, i + 1)
    ensures Position(fs, j, i) + 1 + |Columns(fs, i + 1, MAX_BLOCKS)| <= |Remaining(fs, j, i)|
  {
    hide Others, Columns, Column, EraseMark;
    ColumnAround(fs, j, i);
    StepWith(fs, Others(fs, j), Column(fs[..j], i), fs[j][i], Column(fs[j + 1..], i), i,
             Columns(Others(fs, j), 0, i), Columns(fs, i + 1, MAX_BLOCKS), Remaining(fs, j, i), Remaining(fs, j, i + 1));
  }

  /** One step of the deletion takes exactly the filter's next block out of the layout. */
  lemma EraseStep(fs: seq<seq<nat>>, j: nat, i: nat)
    requires j < |fs| && i < |fs[j]| <= MAX_BLOCKS
    ensures Position(fs, j, i) < |Remaining(fs, j, i)|
    ensures Remaining(fs, j, i)[Position(fs, j, i)].id == fs[j][i]
    ensures EraseMark(Remaining(fs, j, i), Position(fs, j, i)) == Remaining(fs, j, i + 1)
    ensures i + 1 < |fs[j]| ==> Position(fs, j, i) < |Remaining(fs, j, i)| - 1
  {
    hide Columns, Column, EraseMark, Marks, Remaining, Position;
    StepPosition(fs, j, i);
    if i + 1 < |fs[j]| {
      NextColumnExists(fs, j, i);
    }
  }

  lemma RemainingBounds(fs: seq<seq<nat>>, j: nat)
    requires j < |fs| && |fs[j]| <= MAX_BLOCKS
    ensures Remaining(fs, j, 0) == Grid(fs)
    ensures Remaining(fs, j, |fs[j]|) == Grid(Others(fs, j))
  {
    var n := |fs[j]|;
    forall k | n <= k < MAX_BLOCKS ensures Column(fs, k) == Column(Others(fs, j), k) {
      ColumnAround(fs, j, k);
    }
    ColumnsEqual(fs, Others(fs, j), n, MAX_BLOCKS);
    ColumnsSplit(Others(fs, j), 0, n, MAX_BLOCKS);
  }

  // ----- the deletion loop

  predicate NonEmpty(fs: seq<seq<nat>>) {
    forall k | 0 <= k < |fs| :: fs[k] != []
  }

  lemma {:induction false} ColumnZeroFull(fs: seq<seq<nat>>)
    requires NonEmpty(fs)
    ensures |Column(fs, 0)| == |fs|
  {
    if fs != [] {
      ColumnZeroFull(fs[1..]);
    }
  }

  lemma OthersNonEmpty(fs: seq<seq<nat>>, j: nat)
    requires NonEmpty(fs) && j < |fs|
    ensures NonEmpty(Others(fs, j)) && NonEmpty(fs[..j]) && |Others(fs, j)| == |fs| - 1
  {
    var o := Others(fs, j);
    assert forall k | 0 <= k < |o| :: o[k] == fs[if k < j then k else k + 1];
  }

  /** Only the first block of the first filter heads the list. */
  lemma HeadPosition(fs: seq<seq<nat>>, j: nat, i: nat)
    requires j < |fs| && |fs| > 1 && i < |fs[j]| <= MAX_BLOCKS && NonEmpty(fs)
    ensures Position(fs, j, i) == 0 <==> i == 0 && j == 0
  {
    OthersNonEmpty(fs, j);
    if i == 0 {
      assert Columns(Others(fs, j), 0, 0) == [];
      ColumnZeroFull(fs[..j]);
    } else {
      hide Others;
      ColumnZeroFull(Others(fs, j));
      ColumnsSplit(Others(fs, j), 0, 1, i);
      OneColumn(Others(fs, j), 0);
    }
  }

  /** Where the loop of hw_filter_delete stands after i blocks: the list is closed, or the block
      just unlinked was its end and still ends it. */
  predicate DeleteAt(h: seq<Block>, z: seq<Mark>, id: nat, prev: nat) {
    && id < |h| && prev < |h|
    && (h[id].next != id ==> Chain(h, z))
    && (h[id].next == id ==> Chain(CloseAt(h, prev), z))
  }

  /** All ids of z are ids of ms. */
  predicate Within(z: seq<Mark>, ms: seq<Mark>) {
    forall k | 0 <= k < |z| :: Has(ms, z[k].id)
  }

  lemma EraseWithin(z: seq<Mark>, q: nat, ms: seq<Mark>)
    requires Within(z, ms) && q < |z|
    ensures Within(EraseMark(z, q), ms)
    ensures q > 0 ==> EraseMark(z, q) != [] && EraseMark(z, q)[0].id == z[0].id
  {
    var z' := EraseMark(z, q);
    EraseLength(z, q);
    forall k | 0 <= k < |z'| ensures Has(ms, z'[k].id) {
      EraseMarkAt(z, q, k);
      assert Has(ms, z[k].id) && Has(ms, z[k + 1].id);
    }
    if q > 0 { EraseMarkAt(z, q, 0); }
  }

  /** Unlinking one block that is not the head. */
  lemma DeleteStep(h: seq<Block>, h': seq<Block>, z: seq<Mark>, q: nat, id: nat, prev: nat, z': seq<Mark>)
    requires 0 < q < |z| && z[q].id == id && z' == EraseMark(z, q)
    requires id < |h| && h[id].next < |h| && h[id].prev < |h| && h' == Unlink(h, id) && prev == h[id].prev
    requires Chain(h, z)
    ensures h'[id].next == id <==> q == |z| - 1
    ensures DeleteAt(h', z', id, prev)
  {
    NeighboursOf(h, z, q);
    if q == |z| - 1 {
      UnlinkTail(h, z);
    } else {
      assert z[q].id != z[q + 1].id && z[q].id != z[q - 1].id;
      UnlinkMiddle(h, z, q);
    }
  }
}
