/**
 * The layout of a channel's section filters in hardware. All blocks of the channel form one
 * doubly linked list, column by column: column k holds block k of every filter that has one,
 * in the order the filters were added. A list is closed by self-links at its two ends.
 */
module FilterGrid {

  /** HW_FILTER_TYPE. */
  datatype Block = Block(inUse: bool, endOfColumn: bool, next: nat, prev: nat)

  /** One element of the list: a block and whether it ends its column. */
  datatype Mark = Mark(id: nat, last: bool)

  // ----- layout

  function Marks(column: seq<nat>): (ms: seq<Mark>)
    ensures |ms| == |column|
  {
    seq(|column|, i requires 0 <= i < |column| => Mark(column[i], i == |column| - 1))
  }

  function Column(fs: seq<seq<nat>>, k: nat): seq<nat> {
    if fs == [] then []
    else (if k < |fs[0]| then [fs[0][k]] else []) + Column(fs[1..], k)
  }

  /** Columns a, a + 1, .., n - 1, one after the other. */
  function Columns(fs: seq<seq<nat>>, a: nat, n: nat): seq<Mark>
    decreases n - a
  {
    if a >= n then [] else Marks(Column(fs, a)) + Columns(fs, a + 1, n)
  }

  /** Filters have at most this many blocks. */
  const MAX_BLOCKS: nat := 64

  function Grid(fs: seq<seq<nat>>): seq<Mark> {
    Columns(fs, 0, MAX_BLOCKS)
  }

  // ----- links

  predicate Distinct(ms: seq<Mark>) {
    forall i, j | 0 <= i < j < |ms| :: ms[i].id != ms[j].id
  }

  predicate Linked(h: seq<Block>, ms: seq<Mark>) {
    && (forall i | 0 <= i < |ms| :: ms[i].id < |h| && h[ms[i].id].endOfColumn == ms[i].last)
    && (forall i | 0 <= i < |ms| - 1 :: h[ms[i].id].next == ms[i + 1].id)
    && (forall i | 0 < i < |ms| :: h[ms[i].id].prev == ms[i - 1].id)
  }

  predicate Opens(h: seq<Block>, ms: seq<Mark>) {
    ms != [] && ms[0].id < |h| && h[ms[0].id].prev == ms[0].id
  }

  predicate Closes(h: seq<Block>, ms: seq<Mark>) {
    ms != [] && ms[|ms| - 1].id < |h| && h[ms[|ms| - 1].id].next == ms[|ms| - 1].id
  }

  /** The blocks of ms, and nothing else, form one closed list in that order. */
  predicate Chain(h: seq<Block>, ms: seq<Mark>) {
    Distinct(ms) && Linked(h, ms) && Opens(h, ms) && Closes(h, ms)
  }

  predicate Has(ms: seq<Mark>, id: nat) {
    exists i :: 0 <= i < |ms| && ms[i].id == id
  }

  /** A list on its own, as init_filter_links leaves it: every block is a column. */
  function Singles(f: seq<nat>): (ms: seq<Mark>)
    ensures |ms| == |f|
  {
    seq(|f|, i requires 0 <= i < |f| => Mark(f[i], true))
  }

  // ----- insertion

  /** The list with the first block of f put at the end of the first column, and so on. */
  function Merge(ms: seq<Mark>, f: seq<nat>): seq<Mark> {
    if ms == [] then Singles(f)
    else if f == [] then ms
    else if !ms[0].last then [ms[0]] + Merge(ms[1..], f)
    else [Mark(ms[0].id, false), Mark(f[0], true)] + Merge(ms[1..], f[1..])
  }

  lemma {:induction false} MergeColumn(column: seq<nat>, rest: seq<Mark>, f: seq<nat>)
    requires column != [] && f != []
    ensures Merge(Marks(column) + rest, f) == Marks(column + [f[0]]) + Merge(rest, f[1..])
  {
    var ms := Marks(column) + rest;
    if |column| == 1 {
      assert ms[1..] == rest;
      assert Marks(column + [f[0]]) == [Mark(column[0], false), Mark(f[0], true)];
    } else {
      assert ms[1..] == Marks(column[1..]) + rest;
      MergeColumn(column[1..], rest, f);
      assert column + [f[0]] == [column[0]] + (column[1..] + [f[0]]);
      assert Marks(column + [f[0]]) == [ms[0]] + Marks(column[1..] + [f[0]]);
    }
  }

  lemma {:induction false} ColumnOfConcat(fs: seq<seq<nat>>, gs: seq<seq<nat>>, k: nat)
    ensures Column(fs + gs, k) == Column(fs, k) + Column(gs, k)
  {
    if fs == [] {
      assert fs + gs == gs;
    } else {
      ColumnOfConcat(fs[1..], gs, k);
      assert (fs + gs)[0] == fs[0] && (fs + gs)[1..] == fs[1..] + gs;
      var head := if k < |fs[0]| then [fs[0][k]] else [];
      assert head + (Column(fs[1..], k) + Column(gs, k)) == head + Column(fs[1..], k) + Column(gs, k);
    }
  }

  lemma {:induction false} ColumnsShrink(fs: seq<seq<nat>>, k: nat)
    requires Column(fs, k) == []
    ensures Column(fs, k + 1) == []
  {
    if fs != [] { ColumnsShrink(fs[1..], k); }
  }

  lemma {:induction false} EmptyFrom(fs: seq<seq<nat>>, k: nat, n: nat)
    requires Column(fs, k) == []
    ensures Columns(fs, k, n) == []
    decreases n - k
  {
    if k < n {
      ColumnsShrink(fs, k);
      EmptyFrom(fs, k + 1, n);
    }
  }

  lemma MergePastEnd(fs: seq<seq<nat>>, f: seq<nat>, k: nat, n: nat)
    requires Column(fs, k) == [] && k < |f|
    ensures Merge(Columns(fs, k, n), f[k..]) == Marks([f[k]]) + Merge(Columns(fs, k + 1, n), f[k + 1..])
  {
    EmptyFrom(fs, k, n);
    ColumnsShrink(fs, k);
    EmptyFrom(fs, k + 1, n);
    assert Singles(f[k..]) == Marks([f[k]]) + Singles(f[k + 1..]);
  }

  /** Merging a filter into the layout of some filters gives the layout of all of them. */
  lemma {:induction false} MergeIsAdd(fs: seq<seq<nat>>, f: seq<nat>, k: nat, n: nat)
    requires k <= n && |f| <= n
    ensures Merge(Columns(fs, k, n), if k <= |f| then f[k..] else []) == Columns(fs + [f], k, n)
    decreases n - k
  {
    if k < n {
      MergeIsAdd(fs, f, k + 1, n);
      ColumnOfConcat(fs, [f], k);
      var column, rest := Column(fs, k), Columns(fs, k + 1, n);
      if k >= |f| {
        assert Column(fs + [f], k) == column;
        MergeNothing(Columns(fs, k, n));
        MergeNothing(rest);
      } else if column == [] {
        MergePastEnd(fs, f, k, n);
        assert Column(fs + [f], k) == [f[k]];
      } else {
        assert Column(fs + [f], k) == column + [f[k]];
        assert f[k..][1..] == f[k + 1..];
        MergeColumn(column, rest, f[k..]);
      }
    }
  }

  lemma MergeNothing(ms: seq<Mark>)
    ensures Merge(ms, []) == ms
  {
  }
}
