/**
 * Who is told of which interrupts: a small table of masks and callbacks, the loop that calls
 * them, and the hardware mask that follows from the table.
 */
module InterruptRegistry {

  /** XP_INTERRUPT_NOTIFY_TYPE; callback NONE is a null pointer. */
  datatype Entry = Entry(mask: bv32, callback: nat)

  const NONE: nat := 0
  const SLOTS: nat := 10

  datatype Status = Done | Duplicate | NotFound | TableFull | InvalidCallback

  predicate Meets(a: bv32, b: bv32) {
    a & b != 0
  }

  // ----- bits

  const BITS: nat := 32

  function Mask(k: nat): bv32
    requires k < BITS
  {
    1 << k
  }

  /** Bit k of a, the least significant being bit 0. */
  predicate Bit(a: bv32, k: nat)
    requires k < BITS
  {
    Meets(a, Mask(k))
  }

  predicate Single(m: bv32) {
    m != 0 && m & (m - 1) == 0
  }

  lemma LowMasks()
    ensures forall k | 0 <= k < 16 :: Single(Mask(k)) && Mask(k) < Mask(k + 1)
  {
    assert Single(Mask(0)) && Single(Mask(1)) && Single(Mask(2)) && Single(Mask(3));
    assert Single(Mask(4)) && Single(Mask(5)) && Single(Mask(6)) && Single(Mask(7));
    assert Single(Mask(8)) && Single(Mask(9)) && Single(Mask(10)) && Single(Mask(11));
    assert Single(Mask(12)) && Single(Mask(13)) && Single(Mask(14)) && Single(Mask(15));
    assert Mask(0) < Mask(1) < Mask(2) < Mask(3) < Mask(4) < Mask(5) < Mask(6) < Mask(7) < Mask(8);
    assert Mask(8) < Mask(9) < Mask(10) < Mask(11) < Mask(12) < Mask(13) < Mask(14) < Mask(15) < Mask(16);
    hide Mask, Single;
  }

  lemma HighMasks()
    ensures forall k | 16 <= k < BITS :: Single(Mask(k)) && (k + 1 < BITS ==> Mask(k) < Mask(k + 1))
  {
    assert Single(Mask(16)) && Single(Mask(17)) && Single(Mask(18)) && Single(Mask(19));
    assert Single(Mask(20)) && Single(Mask(21)) && Single(Mask(22)) && Single(Mask(23));
    assert Single(Mask(24)) && Single(Mask(25)) && Single(Mask(26)) && Single(Mask(27));
    assert Single(Mask(28)) && Single(Mask(29)) && Single(Mask(30)) && Single(Mask(31));
    assert Mask(16) < Mask(17) < Mask(18) < Mask(19) < Mask(20) < Mask(21) < Mask(22) < Mask(23);
    assert Mask(23) < Mask(24) < Mask(25) < Mask(26) < Mask(27) < Mask(28) < Mask(29) < Mask(30) < Mask(31);
    hide Mask, Single;
  }

  lemma MaskStep(k: nat)
    requires k < BITS
    ensures Single(Mask(k)) && (k + 1 < BITS ==> Mask(k) < Mask(k + 1))
  {
    hide Mask, Single;
    LowMasks();
    HighMasks();
  }

  lemma {:induction false} MasksAscend(i: nat, j: nat)
    requires i < j < BITS
    ensures Mask(i) < Mask(j)
  {
    hide Mask;
    MaskStep(j - 1);
    if i < j - 1 {
      MasksAscend(i, j - 1);
    }
  }

  lemma AndSingle(a: bv32, b: bv32, m: bv32)
    requires Single(m)
    ensures Meets(a & b, m) <==> Meets(a, m) && Meets(b, m)
  {
  }

  lemma SingleMeets(m: bv32, n: bv32)
    requires Single(m) && Single(n)
    ensures Meets(m, n) <==> m == n
  {
  }

  lemma NoBits(x: bv32)
    requires forall k | 0 <= k < BITS :: !Bit(x, k)
    ensures x == 0
  {
    assert !Bit(x, 0) && !Bit(x, 1) && !Bit(x, 2) && !Bit(x, 3) && !Bit(x, 4) && !Bit(x, 5) && !Bit(x, 6) && !Bit(x, 7);
    assert !Bit(x, 8) && !Bit(x, 9) && !Bit(x, 10) && !Bit(x, 11) && !Bit(x, 12) && !Bit(x, 13) && !Bit(x, 14);
    assert !Bit(x, 15) && !Bit(x, 16) && !Bit(x, 17) && !Bit(x, 18) && !Bit(x, 19) && !Bit(x, 20) && !Bit(x, 21);
    assert !Bit(x, 22) && !Bit(x, 23) && !Bit(x, 24) && !Bit(x, 25) && !Bit(x, 26) && !Bit(x, 27) && !Bit(x, 28);
    assert !Bit(x, 29) && !Bit(x, 30) && !Bit(x, 31);
  }

  lemma BitAnd(a: bv32, b: bv32, k: nat)
    requires k < BITS
    ensures Bit(a & b, k) <==> Bit(a, k) && Bit(b, k)
  {
    hide Mask, Single, Meets;
    MaskStep(k);
    AndSingle(a, b, Mask(k));
  }

  /** Some bit is set in both. */
  predicate ShareBit(a: bv32, b: bv32) {
    exists k :: 0 <= k < BITS && Bit(a, k) && Bit(b, k)
  }

  lemma MeetsIff(a: bv32, b: bv32)
    ensures Meets(a, b) <==> ShareBit(a, b)
  {
    hide Bit;
    if Meets(a, b) {
      HasBit(a & b);
      var k :| 0 <= k < BITS && Bit(a & b, k);
      BitAnd(a, b, k);
    }
    if ShareBit(a, b) {
      var k :| 0 <= k < BITS && Bit(a, k) && Bit(b, k);
      BitAnd(a, b, k);
      NotZero(a & b, k);
    }
  }

  lemma HasBit(x: bv32)
    requires x != 0
    ensures exists k :: 0 <= k < BITS && Bit(x, k)
  {
    hide Bit;
    if forall k | 0 <= k < BITS :: !Bit(x, k) {
      NoBits(x);
    }
  }

  lemma NotZero(x: bv32, k: nat)
    requires k < BITS && Bit(x, k)
    ensures x != 0
  {
    NothingThere(Mask(k));
  }

  lemma NothingThere(m: bv32)
    ensures 0 & m == 0
  {
  }

  /** Two single bits meet exactly when they are the same. */
  lemma SingleBitsMeet(i: nat, j: nat)
    requires i < BITS && j < BITS
    ensures Meets(Mask(i), Mask(j)) <==> i == j
    ensures Bit(Mask(i), j) <==> i == j
  {
    hide Mask, Single, Meets;
    MaskStep(i);
    MaskStep(j);
    SingleMeets(Mask(i), Mask(j));
    if i < j {
      MasksAscend(i, j);
    } else if j < i {
      MasksAscend(j, i);
    }
  }

  lemma Distributes(a: bv32, b: bv32, c: bv32)
    ensures (a | b) & c == (a & c) | (b & c)
  {
  }

  lemma BothZero(a: bv32, b: bv32)
    ensures a | b == 0 <==> a == 0 && b == 0
  {
  }

  lemma MeetsUnion(a: bv32, b: bv32, c: bv32)
    ensures Meets(a | b, c) <==> Meets(a, c) || Meets(b, c)
  {
    Distributes(a, b, c);
    BothZero(a & c, b & c);
  }

  lemma MeetsNothing(a: bv32)
    ensures !Meets(0, a) && !Meets(a, 0)
  {
  }

  // ----- reading the table

  function Union(slots: seq<Entry>): bv32 {
    if slots == [] then 0 else Union(slots[..|slots| - 1]) | slots[|slots| - 1].mask
  }

  /** The union of the masks meets exactly what one of them meets. */
  lemma {:induction false} UnionMeets(slots: seq<Entry>, bits: bv32)
    ensures Meets(Union(slots), bits) <==> exists i :: 0 <= i < |slots| && Meets(slots[i].mask, bits)
  {
    if slots == [] {
      MeetsNothing(bits);
    } else {
      var n := |slots| - 1;
      UnionMeets(slots[..n], bits);
      MeetsUnion(Union(slots[..n]), slots[n].mask, bits);
      hide Meets;
      if i :| 0 <= i < |slots| && Meets(slots[i].mask, bits) {
        assert i < n ==> slots[..n][i] == slots[i];
      }
    }
  }

  /** A bit is in the union exactly when it is in one of the masks. */
  lemma UnionBit(slots: seq<Entry>, k: nat)
    requires k < BITS
    ensures Bit(Union(slots), k) <==> SomeAsks(slots, k)
  {
    hide Mask, Union, Meets;
    UnionMeets(slots, Mask(k));
  }

  /** Somebody asks for interrupt bit k. */
  predicate SomeAsks(slots: seq<Entry>, k: nat)
    requires k < BITS
  {
    exists i :: 0 <= i < |slots| && Bit(slots[i].mask, k)
  }

  /** Entry e is a callback for some bit of the interrupt. */
  predicate CalledFor(e: Entry, interrupt: bv32) {
    e.callback != NONE && ShareBit(interrupt, e.mask)
  }

  /** A callback is called exactly when some entry has it for a bit of the interrupt. */
  lemma {:induction false} WantedIff(slots: seq<Entry>, interrupt: bv32, x: nat)
    ensures x in Wanted(slots, interrupt) <==>
      exists i :: 0 <= i < |slots| && slots[i].callback == x && CalledFor(slots[i], interrupt)
  {
    hide Meets, ShareBit;
    if slots != [] {
      var n := |slots| - 1;
      WantedIff(slots[..n], interrupt, x);
      MeetsIff(interrupt, slots[n].mask);
      if i :| 0 <= i < |slots| && slots[i].callback == x && CalledFor(slots[i], interrupt) {
        assert i < n ==> slots[..n][i] == slots[i];
      }
    }
  }

  /** Slots whose mask could ever meet an interrupt. */
  function Occupied(slots: seq<Entry>): nat {
    if slots == [] then 0
    else Occupied(slots[..|slots| - 1]) + if slots[|slots| - 1].mask != 0 then 1 else 0
  }

  /** Slots that hold a callback. */
  function Held(slots: seq<Entry>): nat {
    if slots == [] then 0
    else Held(slots[..|slots| - 1]) + if slots[|slots| - 1].callback != NONE then 1 else 0
  }

  /** The callbacks an interrupt is for, in the order of the table. */
  function Wanted(slots: seq<Entry>, interrupt: bv32): seq<nat> {
    if slots == [] then []
    else
      var last := slots[|slots| - 1];
      Wanted(slots[..|slots| - 1], interrupt)
      + if Meets(interrupt, last.mask) && last.callback != NONE then [last.callback] else []
  }

  function Hits(slots: seq<Entry>, interrupt: bv32): nat {
    if slots == [] then 0
    else Hits(slots[..|slots| - 1], interrupt) + if Meets(interrupt, slots[|slots| - 1].mask) then 1 else 0
  }

  lemma {:induction false} HitsAreOccupied(slots: seq<Entry>, interrupt: bv32, k: nat)
    requires k <= |slots|
    ensures Hits(slots[..k], interrupt) <= Hits(slots, interrupt) <= Occupied(slots)
    ensures Hits(slots[..k], interrupt) == Hits(slots, interrupt) ==>
      Wanted(slots[..k], interrupt) == Wanted(slots, interrupt)
    decreases |slots|
  {
    hide Meets;
    if slots != [] {
      MeetsNothing(interrupt);
    }
    if k == |slots| {
      assert slots[..k] == slots;
      if slots != [] {
        HitsAreOccupied(slots[..|slots| - 1], interrupt, 0);
      }
    } else {
      assert slots[..|slots| - 1][..k] == slots[..k];
      HitsAreOccupied(slots[..|slots| - 1], interrupt, k);
    }
  }

  // ----- changing it

  /** No two entries are alike. */
  predicate NoDuplicates(slots: seq<Entry>) {
    forall i, j | 0 <= i < j < |slots| && slots[i].callback != NONE :: slots[i] != slots[j]
  }

  /** A slot without a callback is empty. */
  predicate Clean(slots: seq<Entry>) {
    forall i | 0 <= i < |slots| && slots[i].callback == NONE :: slots[i].mask == 0
  }

  /** A slot counts as free when its mask is zero, even if it has a callback. */
  predicate HasFree(slots: seq<Entry>) {
    exists i :: 0 <= i < |slots| && slots[i].mask == 0
  }

  predicate Has(slots: seq<Entry>, e: Entry) {
    exists i :: 0 <= i < |slots| && slots[i] == e
  }

  function LastFree(slots: seq<Entry>): (k: int)
    ensures -1 <= k < |slots|
    ensures k >= 0 ==> slots[k].mask == 0
    ensures forall i | k < i < |slots| :: slots[i].mask != 0
  {
    if slots == [] then -1
    else if slots[|slots| - 1].mask == 0 then |slots| - 1
    else LastFree(slots[..|slots| - 1])
  }

  function Fresh(): seq<Entry> {
    seq(SLOTS, _ => Entry(0, NONE))
  }

  /** The slot the next registration goes into still holds a callback, one that was added without any bit. */
  predicate TakesOver(slots: seq<Entry>) {
    slots != [] && HasFree(slots) && slots[LastFree(slots)].callback != NONE
  }

  /** The table after a registration that is accepted. */
  function Registered(slots: seq<Entry>, e: Entry): seq<Entry> {
    if slots == [] then Fresh()[0 := e]
    else if LastFree(slots) < 0 then slots
    else slots[LastFree(slots) := e]
  }

  /** Whether every entry that was ever added had a mask that is not zero. */
  predicate Exact(slots: seq<Entry>) {
    forall i | 0 <= i < |slots| && slots[i].mask == 0 :: slots[i].callback == NONE
  }

  lemma {:induction false} HeldUpdate(slots: seq<Entry>, k: nat, e: Entry)
    requires k < |slots|
    ensures Held(slots[k := e]) ==
      Held(slots) - (if slots[k].callback != NONE then 1 else 0) + (if e.callback != NONE then 1 else 0)
    decreases |slots|
  {
    var n := |slots| - 1;
    if k < n {
      assert slots[k := e][..n] == slots[..n][k := e];
      HeldUpdate(slots[..n], k, e);
    } else {
      assert slots[k := e][..n] == slots[..n];
    }
  }

  lemma {:induction false} OccupiedIsHeld(slots: seq<Entry>)
    requires Clean(slots)
    ensures Occupied(slots) <= Held(slots)
    ensures Exact(slots) ==> Occupied(slots) == Held(slots)
  {
    if slots != [] {
      var n := |slots| - 1;
      assert Clean(slots[..n]);
      OccupiedIsHeld(slots[..n]);
    }
  }

  lemma {:induction false} NothingHeld(n: nat)
    ensures Held(seq(n, _ => Entry(0, NONE))) == 0
  {
    if n > 0 {
      assert seq(n, _ => Entry(0, NONE))[..n - 1] == seq(n - 1, _ => Entry(0, NONE));
      NothingHeld(n - 1);
    }
  }

  /** Of n slots, the first k have been gone through by del_mask. */
  function Removed(slots: seq<Entry>, e: Entry): seq<Entry> {
    seq(|slots|, i requires 0 <= i < |slots| => if slots[i] == e then Entry(0, NONE) else slots[i])
  }

  lemma {:induction false} RemovedHeld(slots: seq<Entry>, e: Entry)
    requires NoDuplicates(slots) && e.callback != NONE
    ensures Held(Removed(slots, e)) == Held(slots) - if Has(slots, e) then 1 else 0
  {
    if slots != [] {
      var n := |slots| - 1;
      assert Removed(slots, e)[..n] == Removed(slots[..n], e);
      assert forall i | 0 <= i < n :: slots[..n][i] == slots[i];
      RemovedHeld(slots[..n], e);
      HasLast(slots, e);
    }
  }

  lemma HasLast(slots: seq<Entry>, e: Entry)
    requires slots != []
    ensures Has(slots, e) <==> Has(slots[..|slots| - 1], e) || slots[|slots| - 1] == e
  {
    var n := |slots| - 1;
    if Has(slots[..n], e) {
      var i :| 0 <= i < n && slots[..n][i] == e;
      assert slots[i] == e;
    }
    if Has(slots, e) {
      var i :| 0 <= i < |slots| && slots[i] == e;
      assert i < n ==> slots[..n][i] == e;
    }
  }

  // ----- in place

  /** INTERRUPT_INFO: the table of one level of interrupts. */
  class NotifyTable {
    var slots: seq<Entry>   // pNotify; none before the first registration
    var count: nat          // wNotifyCount
    ghost var exact: bool   // no entry with an empty mask has been added since the last reset

    constructor ()
      ensures Valid() && slots == [] && count == 0 && exact
    {
      slots, count, exact := [], 0, true;
    }

    ghost predicate Valid()
      reads this
    {
      && (slots == [] || |slots| == SLOTS) && Clean(slots) && NoDuplicates(slots)
      && Held(slots) <= count
      && (exact ==> Exact(slots) && count == Held(slots))
    }

    /** add_mask: into the last free slot, except that the very first entry goes into slot 0. */
    method AddMask(mask: bv32, callback: nat) returns (status: Status)
      requires Valid() && callback != NONE
      modifies this
      ensures Valid()
      ensures status == if Has(old(slots), Entry(mask, callback)) then Duplicate
                        else if old(slots) != [] && !HasFree(old(slots)) then TableFull else Done
      ensures status != Done ==> slots == old(slots) && count == old(count) && exact == old(exact)
      ensures status == Done ==> count == old(count) + 1 && exact == (old(exact) && mask != 0)
      ensures status == Done ==>
        count - Held(slots) == old(count) - Held(old(slots)) + if TakesOver(old(slots)) then 1 else 0
      ensures status == Done ==>
        slots == Registered(old(slots), Entry(mask, callback)) && (old(slots) != [] ==> LastFree(old(slots)) >= 0)
    {
      var index := -1;
      var i := 0;
      while i < |slots|
        invariant i <= |slots| && -1 <= index < i && !Has(slots[..i], Entry(mask, callback))
        invariant unchanged(this)
        invariant index >= 0 ==> slots[index].mask == 0
        invariant forall k | index < k < i :: slots[k].mask != 0
      {
        if mask == slots[i].mask && callback == slots[i].callback {
          assert slots[i] == Entry(mask, callback);
          return Duplicate;
        }
        HasLast(slots[..i + 1], Entry(mask, callback));
        assert slots[..i + 1][..i] == slots[..i];
        if slots[i].mask == 0 {
          index := i;
        }
        i := i + 1;
      }
      assert slots[..i] == slots;
      LastFreeIs(slots, index);
      if index < 0 {
        if slots == [] {
          index := 0;
          slots := seq(SLOTS, _ => Entry(0, NONE));
          NothingHeld(SLOTS);
        } else {
          return TableFull;
        }
      }
      Put(index, Entry(mask, callback));
      return Done;
    }

    method Put(index: nat, e: Entry)
      requires Valid() && |slots| == SLOTS && index < SLOTS && slots[index].mask == 0
      requires e.callback != NONE && !Has(slots, e)
      modifies this
      ensures Valid() && slots == old(slots)[index := e] && count == old(count) + 1
      ensures exact == (old(exact) && e.mask != 0)
      ensures count - Held(slots) ==
        old(count) - Held(old(slots)) + if old(slots)[index].callback != NONE then 1 else 0
    {
      HeldUpdate(slots, index, e);
      slots := slots[index := e];
      count := count + 1;
      exact := exact && e.mask != 0;
    }

    /** del_mask. */
    method DeleteMask(mask: bv32, callback: nat) returns (status: Status)
      requires Valid() && callback != NONE
      modifies this`slots, this`count
      ensures Valid()
      ensures status == if Has(old(slots), Entry(mask, callback)) then Done else NotFound
      ensures slots == Removed(old(slots), Entry(mask, callback))
      ensures count == old(count) - if Has(old(slots), Entry(mask, callback)) then 1 else 0
      ensures count - Held(slots) == old(count) - Held(old(slots))
    {
      ghost var before, e := slots, Entry(mask, callback);
      RemovedHeld(slots, e);
      RemovedKeeps(slots, e);
      var i, removed := 0, 0;
      while i < |slots|
        invariant i <= |slots| == |before|
        invariant forall k | 0 <= k < i :: slots[k] == Removed(before, e)[k]
        invariant forall k | i <= k < |slots| :: slots[k] == before[k]
        invariant removed == if Has(before[..i], e) then 1 else 0
        invariant count == old(count) - removed
      {
        HasLast(before[..i + 1], e);
        assert before[..i + 1][..i] == before[..i];
        if mask == slots[i].mask && callback == slots[i].callback {
          OnlyOnce(before, e, i);
          HeldPositive(before, i);
          slots := slots[i := Entry(0, NONE)];
          count := count - 1;
          removed := removed + 1;
        }
        i := i + 1;
      }
      assert before[..i] == before;
      assert slots == Removed(before, e);
      status := if removed == 0 then NotFound else Done;
    }

    /** reset_mask. */
    method Reset()
      modifies this
      ensures Valid() && slots == [] && count == 0 && exact
    {
      slots, count, exact := [], 0, true;
    }

    /**
     * The loop of the interrupt handlers. It stops early when as many entries were met as are
     * counted, and still calls exactly the callbacks the interrupt is for.
     */
    method Dispatch(interrupt: bv32) returns (calls: seq<nat>)
      requires Valid()
      ensures calls == Wanted(slots, interrupt)
      ensures forall x :: x in calls <==>
        exists i :: 0 <= i < |slots| && slots[i].callback == x && CalledFor(slots[i], interrupt)
    {
      calls := [];
      var i, j := 0, 0;
      hide Meets, Wanted, Hits, Occupied;
      HitsStart(slots, interrupt);
      while i < |slots| && j < count
        invariant i <= |slots| && j == Hits(slots[..i], interrupt) && calls == Wanted(slots[..i], interrupt)
      {
        HitsNext(slots, interrupt, i);
        if Meets(interrupt, slots[i].mask) {
          j := j + 1;
          if slots[i].callback != NONE {
            calls := calls + [slots[i].callback];
          }
        }
        i := i + 1;
      }
      OccupiedIsHeld(slots);
      HitsAreOccupied(slots, interrupt, i);
      if i == |slots| {
        assert slots[..i] == slots;
      }
      hide CalledFor;
      forall x ensures x in calls <==>
        exists i :: 0 <= i < |slots| && slots[i].callback == x && CalledFor(slots[i], interrupt)
      {
        WantedIff(slots, interrupt, x);
      }
    }
  }

  lemma HitsStart(slots: seq<Entry>, interrupt: bv32)
    ensures slots[..0] == [] && Hits(slots[..0], interrupt) == 0 && Wanted(slots[..0], interrupt) == []
  {
  }

  lemma HitsNext(slots: seq<Entry>, interrupt: bv32, i: nat)
    requires i < |slots|
    ensures Hits(slots[..i + 1], interrupt) == Hits(slots[..i], interrupt) + if Meets(interrupt, slots[i].mask) then 1 else 0
    ensures Wanted(slots[..i + 1], interrupt) == Wanted(slots[..i], interrupt)
      + if Meets(interrupt, slots[i].mask) && slots[i].callback != NONE then [slots[i].callback] else []
  {
    hide Meets;
    assert slots[..i + 1][..i] == slots[..i];
  }

  lemma {:induction false} LastFreeIs(slots: seq<Entry>, index: int)
    requires -1 <= index < |slots| && (index >= 0 ==> slots[index].mask == 0)
    requires forall k | index < k < |slots| :: slots[k].mask != 0
    ensures LastFree(slots) == index && (HasFree(slots) <==> index >= 0)
  {
  }

  lemma OnlyOnce(slots: seq<Entry>, e: Entry, i: nat)
    requires NoDuplicates(slots) && e.callback != NONE && i < |slots| && slots[i] == e
    ensures !Has(slots[..i], e)
  {
  }

  lemma {:induction false} HeldPositive(slots: seq<Entry>, i: nat)
    requires i < |slots| && slots[i].callback != NONE
    ensures Held(slots) > 0
  {
    if i < |slots| - 1 {
      HeldPositive(slots[..|slots| - 1], i);
    }
  }

  lemma RemovedKeeps(slots: seq<Entry>, e: Entry)
    requires Clean(slots) && NoDuplicates(slots)
    ensures Clean(Removed(slots, e)) && NoDuplicates(Removed(slots, e))
    ensures Exact(slots) ==> Exact(Removed(slots, e))
  {
  }

  // ----- the order of the calls

  lemma {:induction false} WantedJoin(a: seq<Entry>, b: seq<Entry>, interrupt: bv32)
    ensures Wanted(a + b, interrupt) == Wanted(a, interrupt) + Wanted(b, interrupt)
  {
    hide Meets;
    if b == [] {
      assert a + b == a;
    } else {
      var n := |b| - 1;
      WantedJoin(a, b[..n], interrupt);
      assert (a + b)[..|a + b| - 1] == a + b[..n] && (a + b)[|a + b| - 1] == b[n];
    }
  }

  lemma WantedOne(e: Entry, interrupt: bv32)
    ensures Wanted([e], interrupt) == if Meets(interrupt, e.mask) && e.callback != NONE then [e.callback] else []
  {
    hide Meets;
    assert [e][..0] == [];
  }

  predicate AllAre(s: seq<nat>, x: nat) {
    forall i | 0 <= i < |s| :: s[i] == x
  }

  /** What a slot without a mask, and what a registration in its place, contributes to the calls. */
  lemma WantedAround(slots: seq<Entry>, k: nat, e: Entry, interrupt: bv32)
    requires k < |slots| && slots[k].mask == 0 && Meets(interrupt, e.mask) && e.callback != NONE
    ensures Wanted(slots[k := e], interrupt)
         == Wanted(slots[..k], interrupt) + [e.callback] + Wanted(slots[k + 1..], interrupt)
    ensures Wanted(slots, interrupt) == Wanted(slots[..k], interrupt) + Wanted(slots[k + 1..], interrupt)
  {
    hide Meets, Wanted;
    var below, above := slots[..k], slots[k + 1..];
    MeetsNothing(interrupt);
    assert slots == below + [slots[k]] + above && slots[k := e] == below + [e] + above;
    WantedJoin(below, [slots[k]], interrupt);
    WantedJoin(below + [slots[k]], above, interrupt);
    WantedJoin(below, [e], interrupt);
    WantedJoin(below + [e], above, interrupt);
    WantedOne(e, interrupt);
    WantedOne(slots[k], interrupt);
  }

  /**
   * A new registration is called behind those in lower slots and before those in higher ones. So
   * it comes last, as registrations should, exactly when no other callback in a higher slot is
   * called for the same interrupt.
   */
  lemma CalledLastIff(slots: seq<Entry>, e: Entry, interrupt: bv32)
    requires LastFree(slots) >= 0 && Meets(interrupt, e.mask) && e.callback != NONE
    ensures var k := LastFree(slots);
      && Wanted(Registered(slots, e), interrupt)
         == Wanted(slots[..k], interrupt) + [e.callback] + Wanted(slots[k + 1..], interrupt)
      && Wanted(slots, interrupt) == Wanted(slots[..k], interrupt) + Wanted(slots[k + 1..], interrupt)
      && (Wanted(Registered(slots, e), interrupt) == Wanted(slots, interrupt) + [e.callback]
          <==> AllAre(Wanted(slots[k + 1..], interrupt), e.callback))
  {
    hide Meets, Wanted, AllAre;
    var k := LastFree(slots);
    WantedAround(slots, k, e, interrupt);
    PushedIn(Wanted(slots[..k], interrupt), Wanted(slots[k + 1..], interrupt), e.callback);
  }

  lemma PushedIn(a: seq<nat>, b: seq<nat>, x: nat)
    ensures a + [x] + b == a + b + [x] <==> AllAre(b, x)
  {
    if a + [x] + b == a + b + [x] {
      forall i | 0 <= i < |b| ensures b[i] == x {
        ShiftedBy(a, b, x, i);
      }
    }
    if AllAre(b, x) {
      assert forall i | 0 <= i < |a| + 1 + |b| :: (a + [x] + b)[i] == (a + b + [x])[i];
    }
  }

  lemma {:induction false} ShiftedBy(a: seq<nat>, b: seq<nat>, x: nat, i: nat)
    requires a + [x] + b == a + b + [x] && i < |b|
    ensures b[i] == x
  {
    assert (a + [x] + b)[|a| + i] == (a + b + [x])[|a| + i];
    if i > 0 {
      ShiftedBy(a, b, x, i - 1);
    }
  }

  /** The table after these registrations, one after the other, of an empty one. */
  function Register(es: seq<Entry>): seq<Entry> {
    if es == [] then [] else Registered(Register(es[..|es| - 1]), es[|es| - 1])
  }

  function Reverse<T>(s: seq<T>): (r: seq<T>)
    ensures |r| == |s| && forall i | 0 <= i < |s| :: r[i] == s[|s| - 1 - i]
  {
    if s == [] then [] else Reverse(s[1..]) + [s[0]]
  }

  /** Up to ten registrations: the first in slot 0, the others from the last slot down. */
  function Layout(es: seq<Entry>): seq<Entry>
    requires 0 < |es| <= SLOTS
  {
    [es[0]] + seq(SLOTS - |es|, _ => Entry(0, NONE)) + Reverse(es[1..])
  }

  lemma {:induction false} SlotsTaken(es: seq<Entry>)
    requires 0 < |es| <= SLOTS && forall i | 0 <= i < |es| :: es[i].mask != 0
    ensures Register(es) == Layout(es)
  {
    var n := |es| - 1;
    if n == 0 {
      assert Register(es[..0]) == [];
    } else {
      hide Layout, LastFree;
      SlotsTaken(es[..n]);
      LayoutNext(es);
      LastFreeIs(Layout(es[..n]), SLOTS - n);
    }
  }

  lemma LayoutNext(es: seq<Entry>)
    requires 2 <= |es| <= SLOTS && forall i | 0 <= i < |es| :: es[i].mask != 0
    ensures var n := |es| - 1; var l := Layout(es[..n]);
      && |l| == SLOTS && l[SLOTS - n].mask == 0 && l[SLOTS - n := es[n]] == Layout(es)
      && forall k | SLOTS - n < k < SLOTS :: l[k].mask != 0
  {
    var n := |es| - 1;
    assert es[..n][1..] == es[1..][..n - 1] && es[1..][n - 1] == es[n];
  }

  lemma {:induction false} WantedReverse(es: seq<Entry>, interrupt: bv32)
    ensures Wanted(Reverse(es), interrupt) == Reverse(Wanted(es, interrupt))
  {
    hide Meets;
    if es != [] {
      var n := |es| - 1;
      assert Reverse(es) == [es[n]] + Reverse(es[..n]);
      assert es == es[..n] + [es[n]];
      WantedReverse(es[..n], interrupt);
      WantedJoin([es[n]], Reverse(es[..n]), interrupt);
      WantedJoin(es[..n], [es[n]], interrupt);
      WantedOne(es[n], interrupt);
      ReverseJoin(Wanted(es[..n], interrupt), Wanted([es[n]], interrupt));
    }
  }

  lemma ReverseJoin<T>(a: seq<T>, b: seq<T>)
    requires |b| <= 1
    ensures Reverse(a + b) == b + Reverse(a)
  {
  }

  lemma {:induction false} WantedNothing(n: nat, interrupt: bv32)
    ensures Wanted(seq(n, _ => Entry(0, NONE)), interrupt) == []
  {
    if n > 0 {
      assert seq(n, _ => Entry(0, NONE))[..n - 1] == seq(n - 1, _ => Entry(0, NONE));
      WantedNothing(n - 1, interrupt);
    }
  }

  /**
   * The callbacks of a fresh table are called in the order of their registration exactly when
   * those behind the first one read the same backwards; if they are all different, exactly when
   * the interrupt is for at most one of them.
   */
  lemma CallOrderIff(es: seq<Entry>, interrupt: bv32)
    requires 0 < |es| <= SLOTS && forall i | 0 <= i < |es| :: es[i].mask != 0
    ensures var first, later := Wanted([es[0]], interrupt), Wanted(es[1..], interrupt);
      && Wanted(Register(es), interrupt) == first + Reverse(later)
      && Wanted(es, interrupt) == first + later
      && (Wanted(Register(es), interrupt) == Wanted(es, interrupt) <==> Reverse(later) == later)
      && (AllDifferent(later) ==>
            (Wanted(Register(es), interrupt) == Wanted(es, interrupt) <==> |later| <= 1))
  {
    hide Meets, Wanted, Register, Reverse;
    SlotsTaken(es);
    var gap := seq(SLOTS - |es|, _ => Entry(0, NONE));
    WantedJoin([es[0]] + gap, Reverse(es[1..]), interrupt);
    WantedJoin([es[0]], gap, interrupt);
    WantedNothing(SLOTS - |es|, interrupt);
    WantedReverse(es[1..], interrupt);
    assert es == [es[0]] + es[1..];
    WantedJoin([es[0]], es[1..], interrupt);
    var first, later := Wanted([es[0]], interrupt), Wanted(es[1..], interrupt);
    SameTail(first, Reverse(later), later);
    if |later| > 1 && Reverse(later) == later {
      assert Reverse(later)[0] == later[|later| - 1];
    }
    if |later| <= 1 {
      assert Reverse(later) == later;
    }
  }

  predicate AllDifferent(s: seq<nat>) {
    forall i, j | 0 <= i < j < |s| :: s[i] != s[j]
  }

  lemma SameTail(a: seq<nat>, b: seq<nat>, c: seq<nat>)
    ensures a + b == a + c <==> b == c
  {
    assert (a + b)[|a|..] == b && (a + c)[|a|..] == c;
  }
}
