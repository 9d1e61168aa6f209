/** The notification tables of one transport and the hardware masks computed from them. */
module InterruptMasks {
  import opened InterruptRegistry

  const QSTAT_INTERRUPT_MASK: bv32 := 0x0000FFFF
  const XP0_PRIMARY_INTERRUPT_MASK: bv32 := 0xFFFE0003
  const XP0_PRIMARY_SET_MASK: bv32 := 0xF0000000
  const XP12_PRIMARY_INTERRUPT_MASK: bv32 := 0xC6CE0000
  const XP12_PRIMARY_SET_MASK: bv32 := 0xC0000000

  const CHANNELS: nat := 32
  const INTERRUPT_AUDIO: nat := 32
  const INTERRUPT_COUNT: nat := 34

  datatype Command = Add | Delete

  function AlwaysOn(device: nat): bv32 {
    if device == 0 then XP0_PRIMARY_SET_MASK else XP12_PRIMARY_SET_MASK
  }

  /** Bits 31 to 28 are always on in the first device, and bits 31 and 30 in the others. */
  lemma AlwaysOnIs(device: nat)
    ensures AlwaysOn(device) == Mask(31) | Mask(30) | if device == 0 then Mask(29) | Mask(28) else 0
    ensures AlwaysOn(device) & ValidBits(device) == AlwaysOn(device)
  {
  }

  /** The mask register of the primary interrupts for a table. */
  function PrimaryMask(slots: seq<Entry>, device: nat): bv32 {
    Union(slots) | AlwaysOn(device)
  }

  function ValidBits(device: nat): bv32 {
    if device == 0 then XP0_PRIMARY_INTERRUPT_MASK else XP12_PRIMARY_INTERRUPT_MASK
  }

  /** The union over several tables. */
  function UnionAll(tables: seq<seq<Entry>>): bv32 {
    if tables == [] then 0 else UnionAll(tables[..|tables| - 1]) | Union(tables[|tables| - 1])
  }

  predicate SomeMeets(slots: seq<Entry>, bits: bv32) {
    exists i :: 0 <= i < |slots| && Meets(slots[i].mask, bits)
  }

  lemma {:induction false} UnionAllMeets(tables: seq<seq<Entry>>, bits: bv32)
    ensures Meets(UnionAll(tables), bits) <==> exists k :: 0 <= k < |tables| && SomeMeets(tables[k], bits)
  {
    hide Meets;
    if tables == [] {
      MeetsNothing(bits);
    } else {
      var n := |tables| - 1;
      UnionAllMeets(tables[..n], bits);
      UnionMeets(tables[n], bits);
      MeetsUnion(UnionAll(tables[..n]), Union(tables[n]), bits);
      assert forall k | 0 <= k < n :: tables[..n][k] == tables[k];
    }
  }

  /** The primary mask lets an interrupt through exactly when it is always on or somebody asked for it. */
  lemma PrimaryMaskMeets(slots: seq<Entry>, union: bv32, alwaysOn: bv32, bits: bv32)
    requires union == Union(slots)
    ensures Meets(union | alwaysOn, bits) <==> Meets(alwaysOn, bits) || SomeMeets(slots, bits)
  {
    hide Meets, Union;
    MeetsUnion(union, alwaysOn, bits);
    UnionMeets(slots, bits);
  }

  /** Mask lets an interrupt bit through exactly when it is always on or asked for in the table. */
  predicate LetsThrough(mask: bv32, alwaysOn: bv32, slots: seq<Entry>) {
    forall b | 0 <= b < BITS :: Bit(mask, b) <==> Bit(alwaysOn, b) || SomeAsks(slots, b)
  }

  /** The same for several tables and nothing always on. */
  predicate AsksOfAll(mask: bv32, tables: seq<seq<Entry>>) {
    forall b | 0 <= b < BITS :: Bit(mask, b) <==> exists k :: 0 <= k < |tables| && SomeAsks(tables[k], b)
  }

  lemma SomeMeetsBit(slots: seq<Entry>, b: nat)
    requires b < BITS
    ensures SomeMeets(slots, Mask(b)) <==> SomeAsks(slots, b)
  {
    hide Mask;
  }

  lemma UnionAllBit(tables: seq<seq<Entry>>, b: nat)
    requires b < BITS
    ensures Bit(UnionAll(tables), b) <==> exists k :: 0 <= k < |tables| && SomeAsks(tables[k], b)
  {
    hide Mask, UnionAll, SomeAsks, SomeMeets, Meets;
    UnionAllMeets(tables, Mask(b));
    forall k | 0 <= k < |tables| ensures SomeMeets(tables[k], Mask(b)) <==> SomeAsks(tables[k], b) {
      SomeMeetsBit(tables[k], b);
    }
  }

  lemma UnionAllBits(tables: seq<seq<Entry>>)
    ensures AsksOfAll(UnionAll(tables), tables)
  {
    hide Bit, UnionAll, SomeAsks;
    forall b | 0 <= b < BITS
      ensures Bit(UnionAll(tables), b) <==> exists k :: 0 <= k < |tables| && SomeAsks(tables[k], b)
    {
      UnionAllBit(tables, b);
    }
  }

  lemma PrimaryMaskBit(slots: seq<Entry>, union: bv32, alwaysOn: bv32, b: nat)
    requires union == Union(slots) && b < BITS
    ensures Bit(union | alwaysOn, b) <==> Bit(alwaysOn, b) || SomeAsks(slots, b)
  {
    hide Mask, Union, SomeAsks, SomeMeets, Meets;
    PrimaryMaskMeets(slots, union, alwaysOn, Mask(b));
    SomeMeetsBit(slots, b);
  }

  lemma PrimaryMaskBits(slots: seq<Entry>, device: nat)
    ensures LetsThrough(PrimaryMask(slots, device), AlwaysOn(device), slots)
  {
    hide Bit, Union, SomeAsks, AlwaysOn;
    forall b | 0 <= b < BITS
      ensures Bit(PrimaryMask(slots, device), b) <==> Bit(AlwaysOn(device), b) || SomeAsks(slots, b)
    {
      PrimaryMaskBit(slots, Union(slots), AlwaysOn(device), b);
    }
  }

  lemma Associative(a: bv32, b: bv32, c: bv32)
    ensures (a | b) | c == a | (b | c)
  {
  }

  lemma NothingAdded(a: bv32)
    ensures a | 0 == a && 0 | a == a
  {
  }

  /** The inner loop: the masks of one table added to what there is. */
  method Gather(table: NotifyTable, mask: bv32) returns (mask': bv32)
    ensures mask' == mask | Union(table.slots)
  {
    mask' := mask;
    var j := 0;
    NothingAdded(mask);
    while j < |table.slots|
      invariant j <= |table.slots| && mask' == mask | Union(table.slots[..j])
    {
      assert table.slots[..j + 1][..j] == table.slots[..j];
      Associative(mask, Union(table.slots[..j]), table.slots[j].mask);
      mask' := mask' | table.slots[j].mask;
      j := j + 1;
    }
    assert table.slots[..j] == table.slots;
  }

  method Asked(table: NotifyTable, device: nat) returns (mask: bv32)
    ensures mask == PrimaryMask(table.slots, device)
  {
    mask := Gather(table, 0);
    NothingAdded(Union(table.slots));
    mask := mask | AlwaysOn(device);
  }

  class Interrupts {
    const device: nat
    const primary: NotifyTable
    const channels: seq<NotifyTable>
    var primaryMask: bv32   // the mask register of the primary interrupts
    var queueMask: bv32     // the one mask register of all queue status interrupts
    var requests: seq<bool> // the register that lets each channel interrupt at all
    var audioMask: bv32
    var videoMask: bv32

    constructor (device: nat, primary: NotifyTable, channels: seq<NotifyTable>)
      requires |channels| == INTERRUPT_COUNT
      requires primary.Valid() && forall i | 0 <= i < |channels| :: channels[i].Valid()
      requires primary !in channels && forall i, j | 0 <= i < j < |channels| :: channels[i] != channels[j]
      ensures Valid() && this.device == device && this.primary == primary && this.channels == channels
    {
      this.device, this.primary, this.channels := device, primary, channels;
      primaryMask, queueMask, audioMask, videoMask := AlwaysOn(device), 0, 0, 0;
      requests := seq(CHANNELS, _ => false);
    }

    ghost predicate Valid()
      reads this, primary, channels
    {
      && |channels| == INTERRUPT_COUNT && primary !in channels && |requests| == CHANNELS
      && (forall i, j | 0 <= i < j < |channels| :: channels[i] != channels[j])
      && primary.Valid() && forall i | 0 <= i < |channels| :: channels[i].Valid()
    }

    /** The tables of the channels, as values. */
    ghost function Tables(n: nat): (tables: seq<seq<Entry>>)
      requires n <= |channels|
      reads channels
    {
      seq(n, i requires 0 <= i < n reads channels => channels[i].slots)
    }

    /** xp_osi_interrupt_notify. */
    method Notify(command: Command, mask: bv32, callback: nat) returns (status: Status)
      requires Valid()
      modifies this`primaryMask, primary
      ensures Valid()
      ensures callback == NONE ==> status == InvalidCallback
      ensures status == Done ==> primaryMask == PrimaryMask(primary.slots, device)
      ensures status == Done ==> LetsThrough(primaryMask, AlwaysOn(device), primary.slots)
      ensures status != Done ==> primaryMask == old(primaryMask) && primary.slots == old(primary.slots)
      ensures status == Done && command == Add ==> Has(primary.slots, Entry(mask & ValidBits(device), callback))
      ensures status == Done && command == Delete ==> !Has(primary.slots, Entry(mask & ValidBits(device), callback))
    {
      hide LetsThrough, Has, PrimaryMask, AlwaysOn, ValidBits;
      if callback == NONE {
        return InvalidCallback;
      }
      status := ChangePrimary(command, mask & ValidBits(device), callback);
      if status == Done {
        WritePrimary();
      }
    }

    /** The mask register written from the table. */
    method WritePrimary()
      modifies this`primaryMask
      ensures primaryMask == PrimaryMask(primary.slots, device)
      ensures LetsThrough(primaryMask, AlwaysOn(device), primary.slots)
    {
      hide LetsThrough, PrimaryMask;
      primaryMask := Asked(primary, device);
      PrimaryMaskBits(primary.slots, device);
    }

    /** The registration itself. */
    method ChangePrimary(command: Command, mask: bv32, callback: nat) returns (status: Status)
      requires primary.Valid() && callback != NONE
      modifies primary
      ensures primary.Valid()
      ensures status != Done ==> primary.slots == old(primary.slots)
      ensures status == Done && command == Add ==> Has(primary.slots, Entry(mask, callback))
      ensures status == Done && command == Delete ==> !Has(primary.slots, Entry(mask, callback))
    {
      ghost var e := Entry(mask, callback);
      if command == Delete {
        status := primary.DeleteMask(mask, callback);
        RemovedLacks(old(primary.slots), e);
        NotThereNotRemoved(old(primary.slots), e);
      } else {
        status := primary.AddMask(mask, callback);
        assert status == Done ==> primary.slots[if old(primary.slots) == [] then 0 else LastFree(old(primary.slots))] == e;
      }
    }

    /** xp_osi_interrupt_channel_notify. */
    method ChannelNotify(command: Command, c: nat, mask: bv32, callback: nat) returns (status: Status)
      requires Valid() && c < INTERRUPT_COUNT
      modifies this`queueMask, this`audioMask, this`videoMask, this`requests, channels[c]
      ensures Valid()
      ensures requests == if status == Done && c < CHANNELS && (command == Add || channels[c].count == 0)
                          then old(requests)[c := command == Add] else old(requests)
      ensures callback == NONE ==> status == InvalidCallback
      ensures status == Done && c < CHANNELS ==> queueMask == UnionAll(Tables(INTERRUPT_COUNT))
      ensures status == Done && c < CHANNELS ==> AsksOfAll(queueMask, Tables(INTERRUPT_COUNT))
      ensures status == Done && c == INTERRUPT_AUDIO ==> audioMask == Union(channels[c].slots)
      ensures status == Done && c > INTERRUPT_AUDIO ==> videoMask == Union(channels[c].slots)
      ensures status != Done ==> queueMask == old(queueMask) && channels[c].slots == old(channels[c].slots)
      ensures status == Done && command == Add ==> Has(channels[c].slots, Entry(mask & QSTAT_INTERRUPT_MASK, callback))
      ensures status == Done && command == Delete ==> !Has(channels[c].slots, Entry(mask & QSTAT_INTERRUPT_MASK, callback))
    {
      hide AsksOfAll, Has, Union, UnionAll;
      if callback == NONE {
        return InvalidCallback;
      }
      var valid := mask & QSTAT_INTERRUPT_MASK;
      status := Change(command, c, valid, callback);
      OtherTables(c);
      if status == Done {
        if command == Add || channels[c].count == 0 {
          Request(c, command == Add);
        }
        WriteMask(c);
        UnionAllBits(Tables(INTERRUPT_COUNT));
      }
    }

    /** The registration itself. */
    method Change(command: Command, c: nat, mask: bv32, callback: nat) returns (status: Status)
      requires Valid() && c < INTERRUPT_COUNT && callback != NONE
      modifies channels[c]
      ensures channels[c].Valid()
      ensures status != Done ==> channels[c].slots == old(channels[c].slots)
      ensures status == Done && command == Add ==> Has(channels[c].slots, Entry(mask, callback)) && channels[c].count > 0
      ensures status == Done && command == Delete ==> !Has(channels[c].slots, Entry(mask, callback))
    {
      ghost var e, table := Entry(mask, callback), channels[c];
      if command == Delete {
        status := channels[c].DeleteMask(mask, callback);
        RemovedLacks(old(table.slots), e);
        NotThereNotRemoved(old(table.slots), e);
      } else {
        status := channels[c].AddMask(mask, callback);
        assert status == Done ==> table.slots[if old(table.slots) == [] then 0 else LastFree(old(table.slots))] == e;
      }
    }

    /** xp_osi_interrupt_channel_control, to enable or disable; audio and video have no such bit. */
    method Request(c: nat, on: bool)
      requires |requests| == CHANNELS
      modifies this`requests
      ensures requests == if c < CHANNELS then old(requests)[c := on] else old(requests)
    {
      if c < CHANNELS {
        requests := requests[c := on];
      }
    }

    method WriteMask(c: nat)
      requires |channels| == INTERRUPT_COUNT && c < INTERRUPT_COUNT
      modifies this`queueMask, this`audioMask, this`videoMask
      ensures c < CHANNELS ==> queueMask == UnionAll(Tables(INTERRUPT_COUNT))
      ensures c == INTERRUPT_AUDIO ==> audioMask == Union(channels[c].slots)
      ensures c > INTERRUPT_AUDIO ==> videoMask == Union(channels[c].slots)
    {
      if c < CHANNELS {
        queueMask := GatherAll();
      } else {
        var union := Gather(channels[c], 0);
        NothingAdded(Union(channels[c].slots));
        if c == INTERRUPT_AUDIO {
          audioMask := union;
        } else {
          videoMask := union;
        }
      }
    }

    method GatherAll() returns (mask: bv32)
      requires |channels| == INTERRUPT_COUNT
      ensures mask == UnionAll(Tables(INTERRUPT_COUNT))
    {
      mask := 0;
      var i := 0;
      while i < INTERRUPT_COUNT
        invariant i <= INTERRUPT_COUNT && mask == UnionAll(Tables(i))
      {
        assert Tables(i + 1)[..i] == Tables(i);
        mask := Gather(channels[i], mask);
        i := i + 1;
      }
    }

    /**
     * xp_osi_interrupt_channel_free: the channel's registrations are gone at once, but the mask
     * register keeps their bits until the next registration anywhere.
     */
    method ChannelFree(c: nat)
      requires Valid() && c < INTERRUPT_COUNT
      modifies channels[c]
      ensures Valid() && channels[c].slots == [] && channels[c].count == 0
      ensures queueMask == old(queueMask)
      ensures forall i | 0 <= i < INTERRUPT_COUNT && i != c :: channels[i].slots == old(channels[i].slots)
      ensures old(queueMask == UnionAll(Tables(INTERRUPT_COUNT))) ==> forall bits ::
        Stale(Tables(INTERRUPT_COUNT), queueMask, bits) <==> OnlyAsks(old(Tables(INTERRUPT_COUNT)), c, bits)
    {
      ghost var before := Tables(INTERRUPT_COUNT);
      channels[c].Reset();
      assert Tables(INTERRUPT_COUNT) == before[c := []];
      if queueMask == UnionAll(before) {
        forall bits ensures Stale(before[c := []], queueMask, bits) <==> OnlyAsks(before, c, bits) {
          StaleBitsIff(before, c, bits);
        }
      }
    }

    twostate lemma OtherTables(c: nat)
      requires c < |channels| == INTERRUPT_COUNT && old(Valid()) && channels[c].Valid()
      requires forall i | 0 <= i < |channels| && i != c :: unchanged(channels[i])
      requires unchanged(primary) && |requests| == CHANNELS
      ensures Valid()
    {
    }
  }

  lemma RemovedLacks(slots: seq<Entry>, e: Entry)
    requires e.callback != NONE
    ensures !Has(Removed(slots, e), e)
  {
  }

  lemma NotThereNotRemoved(slots: seq<Entry>, e: Entry)
    ensures !Has(slots, e) ==> Removed(slots, e) == slots
  {
  }

  /** The mask lets these bits through although no table asks for any of them. */
  predicate Stale(tables: seq<seq<Entry>>, mask: bv32, bits: bv32) {
    Meets(mask, bits) && forall k | 0 <= k < |tables| :: !SomeMeets(tables[k], bits)
  }

  /** Table c asks for some of the bits, and no other table does. */
  predicate OnlyAsks(tables: seq<seq<Entry>>, c: nat, bits: bv32) {
    && c < |tables| && SomeMeets(tables[c], bits)
    && forall k | 0 <= k < |tables| && k != c :: !SomeMeets(tables[k], bits)
  }

  /** After a channel is freed exactly the bits that only it had asked for stay enabled for nobody. */
  lemma StaleBitsIff(tables: seq<seq<Entry>>, c: nat, bits: bv32)
    requires c < |tables|
    ensures Stale(tables[c := []], UnionAll(tables), bits) <==> OnlyAsks(tables, c, bits)
  {
    hide Meets, UnionAll;
    UnionAllMeets(tables, bits);
    var after := tables[c := []];
    assert !SomeMeets([], bits);
    assert forall k | 0 <= k < |tables| && k != c :: after[k] == tables[k];
  }

  // ----- what the table does not promise

  /** Callbacks are not called in the order they were registered: the third comes before the second. */
  method CallOrder(mask: bv32) returns (calls: seq<nat>)
    requires mask != 0
    ensures calls == [1, 3, 2]
  {
    var t := new NotifyTable();
    var s := t.AddMask(mask, 1);
    var one := Fresh()[0 := Entry(mask, 1)];
    assert t.slots == one;
    assert !Has(one, Entry(mask, 2));
    LastFreeIs(one, 9);
    s := t.AddMask(mask, 2);
    var two := one[9 := Entry(mask, 2)];
    assert t.slots == two;
    assert !Has(two, Entry(mask, 3));
    LastFreeIs(two, 8);
    s := t.AddMask(mask, 3);
    var three := two[8 := Entry(mask, 3)];
    assert t.slots == three;
    calls := t.Dispatch(mask);
    ThreeCalled(mask, three);
  }

  lemma ThreeCalled(mask: bv32, slots: seq<Entry>)
    requires mask != 0 && |slots| == 10 && forall k | 1 <= k < 8 :: slots[k].mask == 0
    requires slots[0] == Entry(mask, 1) && slots[8] == Entry(mask, 3) && slots[9] == Entry(mask, 2)
    ensures Wanted(slots, mask) == [1, 3, 2]
  {
    hide Meets, Wanted;
    MeetsItself(mask);
    HitsStart(slots, mask);
    HitsNext(slots, mask, 0);
    Quiet(slots, mask, 1, 8);
    HitsNext(slots, mask, 8);
    HitsNext(slots, mask, 9);
    assert slots[..10] == slots;
  }

  /** Empty slots call nobody. */
  lemma {:induction false} Quiet(slots: seq<Entry>, mask: bv32, i: nat, j: nat)
    requires i <= j <= |slots| && forall k | i <= k < j :: slots[k].mask == 0
    ensures Wanted(slots[..j], mask) == Wanted(slots[..i], mask)
    decreases j - i
  {
    if i < j {
      hide Meets, Wanted;
      Quiet(slots, mask, i, j - 1);
      MeetsNothing(mask);
      HitsNext(slots, mask, j - 1);
    }
  }

  lemma MeetsItself(mask: bv32)
    requires mask != 0
    ensures Meets(mask, mask)
  {
  }

  /** A registration without any valid bit keeps being counted after its slot has been taken over. */
  method EmptyMaskLingers(mask: bv32) returns (t: NotifyTable)
    requires mask != 0
    ensures t.count == 1 && Held(t.slots) == 0
  {
    t := new NotifyTable();
    var s := t.AddMask(mask, 1);
    var one := Fresh()[0 := Entry(mask, 1)];
    assert t.slots == one;
    assert !Has(one, Entry(0, 2));
    LastFreeIs(one, 9);
    s := t.AddMask(0, 2);
    var two := one[9 := Entry(0, 2)];
    assert t.slots == two && two[9].mask == 0;
    assert !Has(two, Entry(mask, 3));
    LastFreeIs(two, 9);
    s := t.AddMask(mask, 3);
    var three := two[9 := Entry(mask, 3)];
    assert t.slots == three && t.count == 3;
    assert three[0] == Entry(mask, 1) && three[9] == Entry(mask, 3);
    s := t.DeleteMask(mask, 1);
    assert t.slots[9] == Entry(mask, 3);
    s := t.DeleteMask(mask, 3);
    assert t.slots == Fresh();
    NothingHeld(SLOTS);
  }
}
