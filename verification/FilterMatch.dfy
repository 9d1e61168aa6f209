/**
 * Comparing a section with a filter: in software, byte by byte on the ring, and in hardware, on
 * the words that the driver packs into the filter's blocks.
 */
module FilterMatch {
  import opened FilterGrid
  import opened FilterTables
  import opened FilterRules

  /** Position x of a walk round a ring of n places, at most once round. */
  function Wrap(x: nat, n: nat): (p: nat)
    requires x < 2 * n
    ensures p < n
  {
    if x >= n then x - n else x
  }

  predicate Filled(f: Filter) {
    |f.data| == |f.mask| == f.length
  }

  /** x and y agree in the bits of the mask. */
  predicate Agree(x: bv8, y: bv8, mask: bv8) {
    (x ^ y) & mask == 0
  }

  /** What the mask leaves of x and of y is equal. */
  predicate SameBits(x: bv8, y: bv8, mask: bv8) {
    x & mask == y & mask
  }

  /** Having no differing bit under the mask is having equal bits there; under a mask of all bits, being equal. */
  lemma AgreeIff(x: bv8, y: bv8, mask: bv8)
    ensures Agree(x, y, mask) <==> SameBits(x, y, mask)
    ensures SameBits(x, y, 0xff) <==> x == y
    ensures SameBits(x, y, 0)
  {
  }

  lemma NothingMasked(x: bv8, y: bv8)
    ensures Agree(x, y, 0)
  {
  }

  predicate ByteHit(f: Filter, i: nat, b: bv8)
    requires i < |f.data| && i < |f.mask|
  {
    Agree(b, f.data[i], f.mask[i])
  }

  /** Bytes 1 and 2 of a section hold its length and are not compared. */
  predicate Compared(i: nat) {
    i != 1 && i != 2
  }

  /** The section's bytes agree with the filter as far as both go. */
  predicate SectionHit(f: Filter, section: seq<bv8>)
    requires Filled(f)
  {
    forall i | 0 <= i < |section| && i < f.length && Compared(i) :: ByteHit(f, i, section[i])
  }

  /** The bytes of a section, as far as both it and the filter go, but for its length field, are the filter's under the mask. */
  predicate EqualUnderMask(f: Filter, section: seq<bv8>)
    requires Filled(f)
  {
    forall i | 0 <= i < |section| && i < f.length && i != 1 && i != 2 :: SameBits(section[i], f.data[i], f.mask[i])
  }

  lemma SectionHitIff(f: Filter, section: seq<bv8>)
    requires Filled(f)
    ensures SectionHit(f, section) <==> EqualUnderMask(f, section)
  {
    hide Agree, SameBits;
    forall i | 0 <= i < |section| && i < f.length && i != 1 && i != 2
      ensures ByteHit(f, i, section[i]) <==> SameBits(section[i], f.data[i], f.mask[i])
    {
      AgreeIff(section[i], f.data[i], f.mask[i]);
    }
    if SectionHit(f, section) {
      forall i | 0 <= i < |section| && i < f.length && i != 1 && i != 2 ensures SameBits(section[i], f.data[i], f.mask[i]) {
        assert Compared(i) && ByteHit(f, i, section[i]);
      }
    }
  }

  /** Byte b of a section is the i-th byte given, in the bits of the mask given, or in all bits. */
  predicate AsGiven(data: seq<bv8>, mask: Argument, i: nat, b: bv8) {
    i < |data| &&
    match mask
    case Missing => b == data[i]
    case Given(bytes) => i < |bytes| && SameBits(b, data[i], bytes[i])
  }

  lemma GivenByte(f: Filter, data: seq<bv8>, mask: Argument, i: nat, b: bv8)
    requires f.length <= |data| && LongEnough(mask, f.length) && i < f.length
    ensures var f' := Redefined(f, data, mask);
      Filled(f') && (SameBits(b, f'.data[i], f'.mask[i]) <==> AsGiven(data, mask, i, b))
  {
    AgreeIff(b, data[i], 0xff);
    hide SameBits;
  }

  /**
   * A filter that was given data and a mask hits a section exactly when each byte compared is the
   * given one, in the bits of the mask that was given, or in all bits.
   */
  lemma DefinedHitIff(f: Filter, data: seq<bv8>, mask: Argument, section: seq<bv8>)
    requires f.length <= |data| && LongEnough(mask, f.length)
    ensures Filled(Redefined(f, data, mask))
    ensures SectionHit(Redefined(f, data, mask), section) <==>
      forall i | 0 <= i < |section| && i < f.length && i != 1 && i != 2 :: AsGiven(data, mask, i, section[i])
  {
    var f' := Redefined(f, data, mask);
    SectionHitIff(f', section);
    hide AsGiven, SectionHit, SameBits;
    assert f'.length == f.length;
    forall i | 0 <= i < |section| && i < f.length && i != 1 && i != 2
      ensures SameBits(section[i], f'.data[i], f'.mask[i]) <==> AsGiven(data, mask, i, section[i])
    {
      GivenByte(f, data, mask, i, section[i]);
    }
  }

  /** The bytes found from `start` on. */
  function RingBytes(mem: seq<bv8>, start: nat, length: nat): (bytes: seq<bv8>)
    requires start < |mem| && length <= |mem|
    ensures |bytes| == length
  {
    seq(length, k requires 0 <= k < length => mem[Wrap(start + k, |mem|)])
  }

  /** filter_match. */
  method MatchOnRing(mem: seq<bv8>, start: nat, sectionLength: nat, f: Filter) returns (hit: bool)
    requires Filled(f) && start < |mem| && sectionLength <= |mem|
    ensures hit <==> SectionHit(f, RingBytes(mem, start, sectionLength))
    ensures hit <==> EqualUnderMask(f, RingBytes(mem, start, sectionLength))
  {
    var length := if sectionLength < f.length then sectionLength else f.length;
    ghost var section := RingBytes(mem, start, sectionLength);
    var i, s := 0, start;
    hide Agree;
    hit := true;
    while i < length && hit
      invariant i <= length && s <= |mem|
      invariant i < length ==> (if s == |mem| then 0 else s) == Wrap(start + i, |mem|)
      invariant hit <==> forall k | 0 <= k < i && Compared(k) :: ByteHit(f, k, section[k])
    {
      if s == |mem| {
        s := 0;
      }
      if i != 1 && i != 2 {
        assert mem[s] == section[i];
        hit := Agree(mem[s], f.data[i], f.mask[i]);
        assert hit <==> ByteHit(f, i, section[i]);
      }
      i, s := i + 1, s + 1;
    }
    SectionHitIff(f, section);
  }

  // ----- the packed form

  /** One hardware block: four bytes to compare. A polarity byte of 0xff compares for equality. */
  datatype Word = Word(data: seq<bv8>, mask: seq<bv8>, polarity: seq<bv8>)

  /** Which byte of the section is the n-th one compared. */
  function ComparedByte(n: nat): (i: nat)
    ensures Compared(i)
  {
    if n == 0 then 0 else n + 2
  }

  function PackedByte(bytes: seq<bv8>, n: nat, padding: bv8): bv8 {
    if ComparedByte(n) < |bytes| then bytes[ComparedByte(n)] else padding
  }

  function PackedBytes(bytes: seq<bv8>, k: nat, padding: bv8): (four: seq<bv8>)
    ensures |four| == 4
  {
    [PackedByte(bytes, 4 * k, padding), PackedByte(bytes, 4 * k + 1, padding),
     PackedByte(bytes, 4 * k + 2, padding), PackedByte(bytes, 4 * k + 3, padding)]
  }

  function PackedWord(data: seq<bv8>, mask: seq<bv8>, polarity: seq<bv8>, k: nat): Word {
    Word(PackedBytes(data, k, 0), PackedBytes(mask, k, 0), PackedBytes(polarity, k, 0xff))
  }

  /** How many of the first i bytes are compared. */
  function ComparedBelow(i: nat): nat {
    if i == 0 then 0 else if i < 3 then 1 else i - 2
  }

  lemma ComparedBelowCounts(i: nat)
    ensures Compared(i) ==> ComparedByte(ComparedBelow(i)) == i
    ensures ComparedBelow(i + 1) == ComparedBelow(i) + if Compared(i) then 1 else 0
  {
  }

  /** A filter has the least number of blocks that have room for all its bytes that are compared. */
  lemma BlockCountIs(length: nat)
    requires length > 0
    ensures 4 * (BlockCount(length) - 1) < ComparedBelow(length) <= 4 * BlockCount(length)
  {
  }

  /** The filter's blocks as hw_filter_set leaves them, once n words have been written. */
  predicate WordsWritten(dram: seq<Word>, dram0: seq<Word>, blocks: seq<nat>, data: seq<bv8>, mask: seq<bv8>,
                         polarity: seq<bv8>, n: nat) {
    && |dram| == |dram0| && n <= |blocks|
    && (forall k | 0 <= k < |blocks| :: blocks[k] < |dram|)
    && (forall k | 0 <= k < n :: dram[blocks[k]] == PackedWord(data, mask, polarity, k))
    && (forall b | 0 <= b < |dram| && b !in blocks :: dram[b] == dram0[b])
  }

  lemma WriteNext(dram: seq<Word>, dram0: seq<Word>, blocks: seq<nat>, data: seq<bv8>, mask: seq<bv8>,
                  polarity: seq<bv8>, n: nat, w: Word)
    requires WordsWritten(dram, dram0, blocks, data, mask, polarity, n) && n < |blocks|
    requires Distinct(Singles(blocks)) && w == PackedWord(data, mask, polarity, n)
    ensures WordsWritten(dram[blocks[n] := w], dram0, blocks, data, mask, polarity, n + 1)
  {
    hide PackedWord;
    forall k | 0 <= k < n ensures blocks[k] != blocks[n] {
      assert Singles(blocks)[k].id != Singles(blocks)[n].id;
    }
    assert blocks[n] in blocks;
  }

  /** The first j bytes of word k are in place. */
  predicate Filling(four: seq<bv8>, bytes: seq<bv8>, k: nat, j: nat) {
    && |four| == 4 && j <= 4
    && forall t | 0 <= t < j :: FilledAt(four, bytes, k, t)
  }

  predicate FilledAt(four: seq<bv8>, bytes: seq<bv8>, k: nat, t: nat) {
    t < |four| && ComparedByte(4 * k + t) < |bytes| && four[t] == bytes[ComparedByte(4 * k + t)]
  }

  lemma FillOne(four: seq<bv8>, bytes: seq<bv8>, k: nat, j: nat, i: nat)
    requires Filling(four, bytes, k, j) && j < 4 && i < |bytes| && ComparedByte(4 * k + j) == i
    ensures Filling(four[j := bytes[i]], bytes, k, j + 1)
  {
    var four' := four[j := bytes[i]];
    forall t | 0 <= t < j + 1 ensures FilledAt(four', bytes, k, t) {
      if t < j {
        assert FilledAt(four, bytes, k, t);
      }
    }
  }

  predicate FillingWord(w: Word, f: Filter, polarity: seq<bv8>, k: nat, j: nat) {
    Filling(w.data, f.data, k, j) && Filling(w.mask, f.mask, k, j) && Filling(w.polarity, polarity, k, j)
  }

  function PutByte(w: Word, j: nat, data: bv8, mask: bv8, polarity: bv8): Word
    requires j < |w.data| && j < |w.mask| && j < |w.polarity|
  {
    Word(w.data[j := data], w.mask[j := mask], w.polarity[j := polarity])
  }

  lemma FillByte(w: Word, f: Filter, polarity: seq<bv8>, k: nat, j: nat, i: nat)
    requires Filled(f) && |polarity| == f.length && i < f.length
    requires FillingWord(w, f, polarity, k, j) && j < 4 && ComparedByte(4 * k + j) == i
    ensures FillingWord(PutByte(w, j, f.data[i], f.mask[i], polarity[i]), f, polarity, k, j + 1)
  {
    FillOne(w.data, f.data, k, j, i);
    FillOne(w.mask, f.mask, k, j, i);
    FillOne(w.polarity, polarity, k, j, i);
  }

  lemma FullBytes(four: seq<bv8>, bytes: seq<bv8>, k: nat, padding: bv8)
    requires Filling(four, bytes, k, 4)
    ensures four == PackedBytes(bytes, k, padding)
  {
    var p := PackedBytes(bytes, k, padding);
    assert FilledAt(four, bytes, k, 0) && FilledAt(four, bytes, k, 1);
    assert FilledAt(four, bytes, k, 2) && FilledAt(four, bytes, k, 3);
    assert four[0] == p[0] && four[1] == p[1] && four[2] == p[2] && four[3] == p[3];
  }

  lemma FullWord(w: Word, f: Filter, polarity: seq<bv8>, k: nat)
    requires FillingWord(w, f, polarity, k, 4)
    ensures w == PackedWord(f.data, f.mask, polarity, k)
  {
    FullBytes(w.data, f.data, k, 0);
    FullBytes(w.mask, f.mask, k, 0);
    FullBytes(w.polarity, polarity, k, 0xff);
  }

  /** Places j0, .., j - 1 of a word hold padding. */
  predicate Padded(four: seq<bv8>, four0: seq<bv8>, j0: nat, j: nat, padding: bv8) {
    && |four| == |four0| == 4 && j0 <= j <= 4
    && (forall t | 0 <= t < j0 :: four[t] == four0[t])
    && (forall t | j0 <= t < j :: four[t] == padding)
  }

  predicate PaddedWord(w: Word, w0: Word, j0: nat, j: nat) {
    && Padded(w.data, w0.data, j0, j, 0) && Padded(w.mask, w0.mask, j0, j, 0)
    && Padded(w.polarity, w0.polarity, j0, j, 0xff)
  }

  lemma PaddedBytes(four: seq<bv8>, four0: seq<bv8>, bytes: seq<bv8>, k: nat, j: nat, padding: bv8)
    requires Filling(four0, bytes, k, j) && 0 < j < 4 && ComparedByte(4 * k + j) >= |bytes|
    requires Padded(four, four0, j, 4, padding)
    ensures four == PackedBytes(bytes, k, padding)
  {
    var p := PackedBytes(bytes, k, padding);
    assert FilledAt(four0, bytes, k, 0);
    assert j > 1 ==> FilledAt(four0, bytes, k, 1);
    assert j > 2 ==> FilledAt(four0, bytes, k, 2);
    assert four[0] == p[0] && four[1] == p[1] && four[2] == p[2] && four[3] == p[3];
  }

  lemma LastWord(w: Word, w0: Word, f: Filter, polarity: seq<bv8>, k: nat, j: nat)
    requires Filled(f) && |polarity| == f.length
    requires FillingWord(w0, f, polarity, k, j) && 0 < j < 4 && ComparedByte(4 * k + j) >= f.length
    requires PaddedWord(w, w0, j, 4)
    ensures w == PackedWord(f.data, f.mask, polarity, k)
  {
    PaddedBytes(w.data, w0.data, f.data, k, j, 0);
    PaddedBytes(w.mask, w0.mask, f.mask, k, j, 0);
    PaddedBytes(w.polarity, w0.polarity, polarity, k, j, 0xff);
  }

  class FilterWords {
    const dram: array<Word>

    constructor ()
      ensures fresh(dram) && dram.Length == MAX_BLOCKS
    {
      dram := new Word[MAX_BLOCKS](_ => Word([], [], []));
    }

    /** hw_filter_set: fills exactly the filter's blocks, one word each. */
    method Set(f: Filter, polarity: seq<bv8>)
      requires Filled(f) && |polarity| == f.length && f.length > 0
      requires |f.blocks| == BlockCount(f.length) && Distinct(Singles(f.blocks))
      requires forall k | 0 <= k < |f.blocks| :: f.blocks[k] < dram.Length
      modifies dram
      ensures WordsWritten(dram[..], old(dram[..]), f.blocks, f.data, f.mask, polarity, |f.blocks|)
    {
      ghost var d0 := dram[..];
      hide PackedWord, FillingWord, Distinct, Singles;
      var w := Word([0, 0, 0, 0], [0, 0, 0, 0], [0, 0, 0, 0]);
      var i, j, count := 0, 0, 0;
      NothingFilled(w, f, polarity, 0);
      while i < f.length
        invariant i <= f.length && j < 4 && ComparedBelow(i) == 4 * count + j
        invariant |w.data| == |w.mask| == |w.polarity| == 4 && FillingWord(w, f, polarity, count, j)
        invariant WordsWritten(dram[..], d0, f.blocks, f.data, f.mask, polarity, count)
      {
        ComparedBelowCounts(i);
        if i != 1 && i != 2 {
          FillByte(w, f, polarity, count, j, i);
          w := PutByte(w, j, f.data[i], f.mask[i], polarity[i]);
          j := j + 1;
          if j == 4 {
            FullWord(w, f, polarity, count);
            Write(f, polarity, count, w, d0);
            count, j := count + 1, 0;
            NothingFilled(w, f, polarity, count);
          }
        }
        i := i + 1;
      }
      if j != 0 {
        ghost var w0, j0 := w, j;
        while j < 4
          invariant 0 < j0 <= j <= 4 && PaddedWord(w, w0, j0, j)
        {
          w := PutByte(w, j, 0, 0, 0xff);
          j := j + 1;
        }
        LastWord(w, w0, f, polarity, count, j0);
        Write(f, polarity, count, w, d0);
      }
    }

    method Write(f: Filter, ghost polarity: seq<bv8>, n: nat, w: Word, ghost d0: seq<Word>)
      requires n < |f.blocks| && Distinct(Singles(f.blocks)) && w == PackedWord(f.data, f.mask, polarity, n)
      requires WordsWritten(dram[..], d0, f.blocks, f.data, f.mask, polarity, n)
      modifies dram
      ensures WordsWritten(dram[..], d0, f.blocks, f.data, f.mask, polarity, n + 1)
    {
      ghost var d := dram[..];
      dram[f.blocks[n]] := w;
      assert dram[..] == d[f.blocks[n] := w];
      WriteNext(d, d0, f.blocks, f.data, f.mask, polarity, n, w);
    }
  }

  lemma NothingFilled(w: Word, f: Filter, polarity: seq<bv8>, k: nat)
    requires |w.data| == |w.mask| == |w.polarity| == 4
    ensures FillingWord(w, f, polarity, k, 0)
  {
  }

  // ----- what the hardware compares

  predicate Words(words: seq<Word>) {
    forall k | 0 <= k < |words| :: |words[k].data| == |words[k].mask| == 4
  }

  /** Byte i as the hardware sees it; past the end of the section it is whatever follows in the stream. */
  function Seen(section: seq<bv8>, beyond: nat -> bv8, i: nat): bv8 {
    if i < |section| then section[i] else beyond(i)
  }

  /** Position n of the comparison. */
  predicate HardwareByteHit(words: seq<Word>, section: seq<bv8>, n: nat, beyond: nat -> bv8)
    requires Words(words) && n / 4 < |words|
  {
    Agree(Seen(section, beyond, ComparedByte(n)), words[n / 4].data[n % 4], words[n / 4].mask[n % 4])
  }

  predicate HardwareHit(words: seq<Word>, section: seq<bv8>, beyond: nat -> bv8)
    requires Words(words)
  {
    forall n | 0 <= n < 4 * |words| :: HardwareByteHit(words, section, n, beyond)
  }

  function Packed(f: Filter, polarity: seq<bv8>): (words: seq<Word>)
    ensures Words(words) && |words| == BlockCount(f.length)
  {
    seq(BlockCount(f.length), k requires 0 <= k => PackedWord(f.data, f.mask, polarity, k))
  }

  lemma PackedAt(bytes: seq<bv8>, n: nat, padding: bv8)
    ensures PackedBytes(bytes, n / 4, padding)[n % 4] == PackedByte(bytes, n, padding)
  {
    var k, t := n / 4, n % 4;
    assert n == 4 * k + t && (t == 0 || t == 1 || t == 2 || t == 3);
  }

  /** Position n compares byte ComparedByte(n) of the filter, or nothing past its end. */
  lemma PackedByteHit(f: Filter, polarity: seq<bv8>, section: seq<bv8>, beyond: nat -> bv8, n: nat)
    requires Filled(f) && n / 4 < BlockCount(f.length)
    ensures HardwareByteHit(Packed(f, polarity), section, n, beyond) <==>
      (ComparedByte(n) < f.length ==> ByteHit(f, ComparedByte(n), Seen(section, beyond, ComparedByte(n))))
  {
    hide Agree, PackedBytes;
    PackedAt(f.data, n, 0);
    PackedAt(f.mask, n, 0);
    if ComparedByte(n) >= f.length {
      NothingMasked(Seen(section, beyond, ComparedByte(n)), 0);
    }
    assert Packed(f, polarity)[n / 4] == PackedWord(f.data, f.mask, polarity, n / 4);
  }

  /** What the filter asks of bytes behind the end of the section; nothing if the section is long enough. */
  predicate RestHit(f: Filter, section: seq<bv8>, beyond: nat -> bv8)
    requires Filled(f)
  {
    forall i | |section| <= i < f.length && Compared(i) :: ByteHit(f, i, Seen(section, beyond, i))
  }

  /**
   * The masked comparison of the packed words is the comparison filter_match makes, and, if the
   * section is shorter than the filter, the same comparison of what follows it.
   */
  lemma PackedHit(f: Filter, polarity: seq<bv8>, section: seq<bv8>, beyond: nat -> bv8)
    requires Filled(f) && 0 < f.length
    ensures HardwareHit(Packed(f, polarity), section, beyond) ==> EqualUnderMask(f, section)
    ensures f.length <= |section| ==> (HardwareHit(Packed(f, polarity), section, beyond) <==> EqualUnderMask(f, section))
    ensures HardwareHit(Packed(f, polarity), section, beyond) <==> SectionHit(f, section) && RestHit(f, section, beyond)
    ensures f.length <= |section| ==> RestHit(f, section, beyond)
  {
    var words := Packed(f, polarity);
    SectionHitIff(f, section);
    hide HardwareByteHit, ByteHit, Packed, EqualUnderMask;
    if HardwareHit(words, section, beyond) {
      forall i | 0 <= i < f.length && Compared(i) ensures ByteHit(f, i, Seen(section, beyond, i)) {
        var n := ComparedBelow(i);
        ComparedBelowCounts(i);
        assert HardwareByteHit(words, section, n, beyond);
        PackedByteHit(f, polarity, section, beyond, n);
      }
    }
    if SectionHit(f, section) && RestHit(f, section, beyond) {
      forall n | 0 <= n < 4 * |words| ensures HardwareByteHit(words, section, n, beyond) {
        PackedByteHit(f, polarity, section, beyond, n);
      }
    }
  }
}
