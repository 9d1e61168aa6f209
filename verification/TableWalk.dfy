/**
 * The table sections the hardware has delivered into a channel's queue: each is a word of match
 * bits, the section itself, and padding to a whole number of words. The loop under interrupt
 * control finds them again, on a ring, from the section lengths alone.
 */
module TableWalk {
  import opened FilterTables
  import opened FilterMatch
  import opened FilterCheck

  datatype Record = Record(word: seq<bv8>, section: seq<bv8>, padding: seq<bv8>)

  /** The 12-bit length field behind the table id (ISO/IEC 13818-1, section 2.4.4.10). */
  function SectionLength(b1: bv8, b2: bv8): nat {
    (b1 as nat % 16) * 256 + b2 as nat
  }

  /** The field is a 12-bit number, its upper four bits in the lower half of the first byte. */
  lemma SectionLengthIs(b1: bv8, b2: bv8, upper: nat, length: nat)
    requires upper < 16 && length < 4096
    requires b1 as nat == upper * 16 + length / 256 && b2 as nat == length % 256
    ensures SectionLength(b1, b2) == length
  {
    LengthField(b1 as nat, b2 as nat, upper, length);
  }

  lemma LengthField(x: nat, y: nat, upper: nat, length: nat)
    requires upper < 16 && length < 4096 && x == upper * 16 + length / 256 && y == length % 256
    ensures x % 16 * 256 + y == length
  {
  }

  predicate Proper(r: Record) {
    && |r.word| == 4
    && |r.section| >= 3 && |r.section| == 3 + SectionLength(r.section[1], r.section[2])
    && |r.padding| < 4 && (|r.section| + |r.padding|) % 4 == 0
  }

  predicate AllProper(rs: seq<Record>) {
    forall i | 0 <= i < |rs| :: Proper(rs[i])
  }

  function Bytes(r: Record): seq<bv8> {
    r.word + r.section + r.padding
  }

  function Laid(rs: seq<Record>): seq<bv8> {
    if rs == [] then [] else Bytes(rs[0]) + Laid(rs[1..])
  }

  /** Bytes in front of record k. */
  function Offset(rs: seq<Record>, k: nat): nat
    requires k <= |rs|
  {
    if k == 0 then 0 else |Bytes(rs[0])| + Offset(rs[1..], k - 1)
  }

  /** The bytes are on the ring from `at` on, and do not fill it. */
  predicate Holds(mem: seq<bv8>, at: nat, bytes: seq<bv8>) {
    && at < |mem| && |bytes| < |mem|
    && forall k | 0 <= k < |bytes| :: mem[Wrap(at + k, |mem|)] == bytes[k]
  }

  // ----- binary digits

  function Halved(n: nat, k: nat): nat {
    if k == 0 then n else Halved(n / 2, k - 1)
  }

  /** The digit of 2^k in n. */
  predicate Digit(n: nat, k: nat) {
    Halved(n, k) % 2 == 1
  }

  function Doubled(n: nat, k: nat): (m: nat)
    ensures n > 0 ==> m > 0
  {
    if k == 0 then n else 2 * Doubled(n, k - 1)
  }

  /** Halving k times is dividing by 2^k. */
  lemma {:induction false} HalvedIs(n: nat, k: nat)
    ensures Doubled(1, k) > 0 && Halved(n, k) == n / Doubled(1, k)
    decreases k
  {
    if k > 0 {
      HalvedIs(n / 2, k - 1);
      HalfFirst(n, Doubled(1, k - 1));
    }
  }

  lemma HalfFirst(n: nat, p: nat)
    requires p > 0
    ensures n / 2 / p == n / (2 * p)
  {
    var d, r := n / 2 / p, n / 2 % p;
    assert n / 2 == d * p + r && n == 2 * (n / 2) + n % 2;
    assert n == d * (2 * p) + (2 * r + n % 2) by {
      assert 2 * (d * p) == d * (2 * p);
    }
    QuotientIs(n, 2 * p, d, 2 * r + n % 2);
  }

  lemma QuotientIs(n: nat, k: nat, d: nat, rest: nat)
    requires k > 0 && n == d * k + rest && rest < k
    ensures n / k == d
  {
    var e := n / k;
    assert n == e * k + n % k;
    SameProduct(d, e, k, rest, n % k);
  }

  lemma SameProduct(d: nat, e: nat, k: nat, r: nat, s: nat)
    requires d * k + r == e * k + s && r < k && s < k
    ensures d == e
  {
    if d < e {
      Grows(d, e, k);
    } else if e < d {
      Grows(e, d, k);
    }
  }

  lemma {:induction false} Grows(d: nat, e: nat, k: nat)
    requires d < e
    ensures d * k + k <= e * k
    decreases e
  {
    assert e * k == (e - 1) * k + k;
    if d < e - 1 {
      Grows(d, e - 1, k);
    }
  }

  lemma {:induction false} HalvedTwice(n: nat, a: nat, b: nat)
    ensures Halved(Halved(n, a), b) == Halved(n, a + b)
    decreases a
  {
    if a > 0 {
      HalvedTwice(n / 2, a - 1, b);
    }
  }

  lemma {:induction false} DoubledTwice(n: nat, a: nat, b: nat)
    ensures Doubled(Doubled(n, a), b) == Doubled(n, a + b)
    decreases b
  {
    if b > 0 {
      DoubledTwice(n, a, b - 1);
    }
  }

  /** What stands in front of k + 1 digits does not matter to the last of them. */
  lemma {:induction false} LowDigit(a: nat, b: nat, k: nat)
    ensures Digit(Doubled(a, k + 1) + b, k) <==> Digit(b, k)
    decreases k
  {
    if k > 0 {
      assert (Doubled(a, k + 1) + b) / 2 == Doubled(a, k) + b / 2;
      LowDigit(a, b / 2, k - 1);
    } else {
      assert Doubled(a, 1) == 2 * Doubled(a, 0);
    }
  }

  lemma {:induction false} HighPart(a: nat, b: nat, k: nat)
    requires b < Doubled(1, k)
    ensures Halved(Doubled(a, k) + b, k) == a
    decreases k
  {
    if k > 0 {
      assert (Doubled(a, k) + b) / 2 == Doubled(a, k - 1) + b / 2;
      HighPart(a, b / 2, k - 1);
    }
  }

  lemma Eight(x: nat)
    ensures Doubled(x, 8) == 256 * x
  {
    Four(x);
    Four(16 * x);
    DoubledTwice(x, 4, 4);
  }

  lemma Four(x: nat)
    ensures Doubled(x, 4) == 16 * x
  {
    assert Doubled(x, 1) == 2 * x && Doubled(x, 2) == 4 * x && Doubled(x, 3) == 8 * x;
  }

  /** A byte behind other bytes: its own digits, and behind them theirs. */
  lemma ByteBehind(x: nat, b: nat, k: nat)
    requires b < 256 && k < 8
    ensures Digit(x * 256 + b, k) <==> Digit(b, k)
    ensures Halved(x * 256 + b, 8) == x
  {
    Eight(x);
    Eight(1);
    DoubledTwice(x, 7 - k, k + 1);
    LowDigit(Doubled(x, 7 - k), b, k);
    HighPart(x, b, 8);
  }

  /** The bits of a byte, most significant first. */
  function ByteBits(b: bv8): (bits: seq<bool>)
    ensures |bits| == 8
  {
    seq(8, i requires 0 <= i < 8 => Digit(b as nat, 7 - i))
  }

  /** The four bytes as the processor reads them: one number, the most significant byte first. */
  function Number(word: seq<bv8>): (n: nat)
    requires |word| == 4
  {
    ((word[0] as nat * 256 + word[1] as nat) * 256 + word[2] as nat) * 256 + word[3] as nat
  }

  /** Bit i of the match word, most significant first, says filter i of the channel matched. */
  function MatchBits(word: seq<bv8>): (bits: seq<bool>)
    requires |word| == 4
    ensures |bits| == BITS
  {
    ByteBits(word[0]) + ByteBits(word[1]) + ByteBits(word[2]) + ByteBits(word[3])
  }

  /** Bit i of the match word is the digit of 2^(31 - i) in its number. */
  lemma MatchBitsIs(word: seq<bv8>, i: nat)
    requires |word| == 4 && i < BITS
    ensures MatchBits(word)[i] <==> Digit(Number(word), 31 - i)
    ensures MatchBits(word)[i] <==> Number(word) / Doubled(1, 31 - i) % 2 == 1
  {
    hide Digit, Number, MatchBits;
    DigitIs(Number(word), 31 - i);
    WordBit(word, i);
    NumberDigit(word, i / 8, 7 - i % 8);
  }

  lemma DigitIs(n: nat, k: nat)
    ensures Digit(n, k) <==> n / Doubled(1, k) % 2 == 1
  {
    HalvedIs(n, k);
  }

  lemma WordBit(word: seq<bv8>, i: nat)
    requires |word| == 4 && i < BITS
    ensures MatchBits(word)[i] <==> Digit(word[i / 8] as nat, 7 - i % 8)
  {
    hide Digit;
    var j, k := i / 8, i % 8;
    assert ByteBits(word[j])[k] == Digit(word[j] as nat, 7 - k);
    assert MatchBits(word)[8 * j + k] == ByteBits(word[j])[k];
  }

  lemma NumberDigit(word: seq<bv8>, j: nat, k: nat)
    requires |word| == 4 && j < 4 && k < 8
    ensures Digit(Number(word), k + 8 * (3 - j)) <==> Digit(word[j] as nat, k)
  {
    hide Digit;
    DigitOfByte(word[0] as nat, word[1] as nat, word[2] as nat, word[3] as nat, j, k);
  }

  lemma DigitOfByte(b0: nat, b1: nat, b2: nat, b3: nat, j: nat, k: nat)
    requires b0 < 256 && b1 < 256 && b2 < 256 && b3 < 256 && j < 4 && k < 8
    ensures Digit(((b0 * 256 + b1) * 256 + b2) * 256 + b3, k + 8 * (3 - j)) <==>
      Digit(if j == 0 then b0 else if j == 1 then b1 else if j == 2 then b2 else b3, k)
  {
    hide Digit, Halved;
    var x1 := b0 * 256 + b1;
    var x2 := x1 * 256 + b2;
    var x3 := x2 * 256 + b3;
    ByteBehind(x2, b3, k);
    ByteBehind(x1, b2, k);
    ByteBehind(b0, b1, k);
    DigitBehind(x3, 8, k, x2);
    DigitBehind(x3, 8, 8 + k, x2);
    DigitBehind(x3, 8, 16 + k, x2);
    DigitBehind(x2, 8, k, x1);
    DigitBehind(x2, 8, 8 + k, x1);
    DigitBehind(x1, 8, k, b0);
  }

  lemma DigitBehind(n: nat, a: nat, k: nat, m: nat)
    requires m == Halved(n, a)
    ensures Digit(n, a + k) <==> Digit(m, k)
  {
    HalvedTwice(n, a, k);
  }

  /** The bits are the binary digits of the match word, the most significant first. */
  predicate BitsOf(bits: seq<bool>, word: seq<bv8>) {
    |word| == 4 && |bits| == BITS && forall i | 0 <= i < BITS :: bits[i] <==> Number(word) / Doubled(1, 31 - i) % 2 == 1
  }

  lemma MatchBitsAll(word: seq<bv8>)
    requires |word| == 4
    ensures BitsOf(MatchBits(word), word)
  {
    hide Number, MatchBits, Doubled;
    forall i | 0 <= i < BITS ensures MatchBits(word)[i] <==> Number(word) / Doubled(1, 31 - i) % 2 == 1 {
      MatchBitsIs(word, i);
    }
  }

  datatype Visit = Visit(bits: seq<bool>, start: nat, end: nat, length: nat)

  function VisitOf(rs: seq<Record>, k: nat, at: nat, size: nat): Visit
    requires k < |rs| && AllProper(rs) && at < size && Offset(rs, k) + |Bytes(rs[k])| < size
  {
    var start := at + Offset(rs, k) + 4;
    Visit(MatchBits(rs[k].word), Wrap(start, size), Wrap(start + |rs[k].section|, size), |rs[k].section|)
  }

  /** What the loop reports of one section: where it is, which filters still want it, and whether it
      is locked for the application. */
  datatype Delivery = Delivery(visit: Visit, wanted: seq<bool>, locked: bool)

  /** The filters' say in one delivery. */
  predicate Answered(fl: seq<Slot>, fl': seq<Slot>, ch: Channel, r: Record, filtering: bool, short: Short,
                     wanted: seq<bool>, locked: bool)
    requires |r.word| == 4 && Usable(fl, ch)
  {
    if filtering then
      && Checked(fl, ch, MatchBits(r.word), wanted, r.section, short, BITS)
      && After(fl, fl', ch, MatchBits(r.word), r.section, BITS)
      && (locked <==> true in wanted)
    else
      wanted == MatchBits(r.word) && locked && fl' == fl
  }

  // ----- arithmetic of one step

  lemma {:induction false} OffsetNext(rs: seq<Record>, k: nat)
    requires k < |rs|
    ensures Offset(rs, k + 1) == Offset(rs, k) + |Bytes(rs[k])|
    ensures Offset(rs, k + 1) <= |Laid(rs)|
    ensures |Laid(rs)| == Offset(rs, k) + |Laid(rs[k..])|
    ensures Laid(rs[k..]) == Bytes(rs[k]) + Laid(rs[k + 1..])
  {
    assert rs[k..][0] == rs[k] && rs[k..][1..] == rs[k + 1..];
    if k > 0 {
      OffsetNext(rs[1..], k - 1);
      assert rs[1..][k - 1..] == rs[k..] && rs[1..][k..] == rs[k + 1..];
    } else {
      assert rs[0..] == rs;
    }
  }

  lemma OffsetEnd(rs: seq<Record>, k: nat)
    requires k <= |rs|
    ensures |Laid(rs)| == Offset(rs, k) + |Laid(rs[k..])|
  {
    if k < |rs| {
      OffsetNext(rs, k);
    } else if k > 0 {
      OffsetNext(rs, k - 1);
    } else {
      assert rs[0..] == rs;
    }
  }

  lemma HoldsRest(mem: seq<bv8>, at: nat, a: seq<bv8>, b: seq<bv8>)
    requires Holds(mem, at, a + b)
    ensures at + |a| < 2 * |mem| && Holds(mem, at, a) && Holds(mem, Wrap(at + |a|, |mem|), b)
  {
    forall k | 0 <= k < |a| ensures mem[Wrap(at + k, |mem|)] == a[k] {
      assert a[k] == (a + b)[k];
    }
    var at' := Wrap(at + |a|, |mem|);
    forall k | 0 <= k < |b| ensures mem[Wrap(at' + k, |mem|)] == b[k] {
      assert b[k] == (a + b)[|a| + k];
      assert Wrap(at' + k, |mem|) == Wrap(at + (|a| + k), |mem|);
    }
  }

  lemma HoldsRing(mem: seq<bv8>, at: nat, bytes: seq<bv8>)
    requires Holds(mem, at, bytes)
    ensures RingBytes(mem, at, |bytes|) == bytes
  {
  }

  /** Where the section and what follows it begin, in words. */
  function HeaderAt(p: nat, n: nat): nat {
    if p + 1 == n then 0 else p + 1
  }

  lemma RecordAt(mem: seq<bv8>, n: nat, p: nat, r: Record, rest: seq<bv8>)
    requires |mem| == 4 * n && p < n && Proper(r) && Holds(mem, 4 * p, Bytes(r) + rest)
    ensures mem[4 * p..4 * p + 4] == r.word && HeaderAt(p, n) < n
    ensures Holds(mem, 4 * HeaderAt(p, n), r.section) && Holds(mem, 4 * HeaderAt(p, n), r.section + r.padding)
    ensures mem[4 * HeaderAt(p, n) + 1] == r.section[1] && mem[4 * HeaderAt(p, n) + 2] == r.section[2]
  {
    var q := HeaderAt(p, n);
    HoldsRest(mem, 4 * p, Bytes(r), rest);
    assert Bytes(r) == r.word + (r.section + r.padding);
    HoldsRest(mem, 4 * p, r.word, r.section + r.padding);
    assert Wrap(4 * p + 4, 4 * n) == 4 * q;
    HoldsRest(mem, 4 * q, r.section, r.padding);
    forall k | 0 <= k < 4 ensures mem[4 * p + k] == r.word[k] {
      assert Wrap(4 * p + k, 4 * n) == 4 * p + k;
    }
    assert Wrap(4 * q + 1, 4 * n) == 4 * q + 1 && Wrap(4 * q + 2, 4 * n) == 4 * q + 2;
  }

  /** The end of a section that starts at `start`. */
  function EndAt(start: nat, length: nat, size: nat): nat
    requires start <= size
  {
    var avail := size - start;
    if avail <= length then length - avail else start + length
  }

  /** Where the next record begins, in words, and whether the ring's end was passed on the way. */
  function NextAt(q: nat, length: nat, n: nat): nat
    requires q <= n
  {
    var words, avail := (length + 3) / 4, n - q;
    if avail <= words then words - avail else q + words
  }

  predicate Passes(q: nat, length: nat, n: nat)
    requires q <= n
  {
    n - q <= (length + 3) / 4
  }

  /** The ring's end is passed exactly when the next record does not begin behind this one's section. */
  lemma PassesIff(q: nat, length: nat, n: nat)
    requires q <= n && 0 < length <= 4 * n
    ensures Passes(q, length, n) <==> NextAt(q, length, n) <= q
  {
  }

  lemma PaddedLength(r: Record)
    requires Proper(r)
    ensures |Bytes(r)| == 4 + 4 * ((|r.section| + 3) / 4) && (|r.section| + 3) / 4 >= 1
  {
    var m := |r.section| + |r.padding|;
    assert m % 4 == 0;
  }

  lemma StepPositions(n: nat, p: nat, r: Record, rest: nat)
    requires p < n && Proper(r) && |Bytes(r)| + rest < 4 * n
    ensures var q := HeaderAt(p, n);
      && q < n && 4 * q == Wrap(4 * p + 4, 4 * n)
      && EndAt(4 * q, |r.section|, 4 * n) == Wrap(4 * p + 4 + |r.section|, 4 * n)
      && NextAt(q, |r.section|, n) < n && 4 * NextAt(q, |r.section|, n) == Wrap(4 * p + |Bytes(r)|, 4 * n)
    ensures Passes(HeaderAt(p, n), |r.section|, n) ==> 4 * NextAt(HeaderAt(p, n), |r.section|, n) + rest < 4 * p
    ensures 4 * p + |Bytes(r)| + rest < 4 * n ==>
      !Passes(HeaderAt(p, n), |r.section|, n) && 4 * NextAt(HeaderAt(p, n), |r.section|, n) + rest < 4 * n
  {
    PaddedLength(r);
  }

  // ----- the loop

  /** Where the loop stands before record i. */
  predicate WalkState(mem: seq<bv8>, n: nat, ba: nat, ea: nat, rs: seq<Record>, i: nat, p: nat, wraps: nat) {
    && |mem| == 4 * n && p < n && ba < n && ea < n && i <= |rs| && AllProper(rs)
    && Holds(mem, 4 * p, Laid(rs[i..])) && Offset(rs, i) + |Laid(rs[i..])| == |Laid(rs)| < 4 * n
    && 4 * p == Wrap(4 * ba + Offset(rs, i), 4 * n)
    && 4 * ea == Wrap(4 * p + |Laid(rs[i..])|, 4 * n)
    && wraps <= 1 && (wraps == 1 ==> 4 * p + |Laid(rs[i..])| < 4 * n)
  }

  /** The end address is reached exactly when nothing is left, and the guard on wraps never stops the loop. */
  lemma WalkContinues(mem: seq<bv8>, n: nat, ba: nat, ea: nat, rs: seq<Record>, i: nat, p: nat, wraps: nat)
    requires WalkState(mem, n, ba, ea, rs, i, p, wraps)
    ensures p == ea <==> i == |rs|
    ensures wraps < 2
  {
    if i < |rs| {
      OffsetNext(rs, i);
      PaddedLength(rs[i]);
    }
  }

  lemma WalkReadsRecord(mem: seq<bv8>, n: nat, ba: nat, ea: nat, rs: seq<Record>, i: nat, p: nat, wraps: nat)
    requires WalkState(mem, n, ba, ea, rs, i, p, wraps) && i < |rs|
    ensures Proper(rs[i]) && mem[4 * p..4 * p + 4] == rs[i].word
    ensures var q := HeaderAt(p, n);
      q < n && |rs[i].section| == 3 + SectionLength(mem[4 * q + 1], mem[4 * q + 2])
      && |rs[i].section| < |mem| && RingBytes(mem, 4 * q, |rs[i].section|) == rs[i].section
  {
    OffsetNext(rs, i);
    RecordAt(mem, n, p, rs[i], Laid(rs[i + 1..]));
    HoldsRing(mem, 4 * HeaderAt(p, n), rs[i].section);
  }

  lemma WrapMore(at: nat, a: nat, b: nat, size: nat)
    requires at < size && a + b < size
    ensures Wrap(Wrap(at + a, size) + b, size) == Wrap(at + (a + b), size)
  {
  }

  /** Offsets and positions, in bytes, of one step of the loop. */
  lemma StepOffsets(n: nat, ba: nat, ea: nat, p: nat, off: nat, r: Record, rest: nat)
    requires p < n && ba < n && ea < n && Proper(r) && off + |Bytes(r)| + rest < 4 * n
    requires 4 * p == Wrap(4 * ba + off, 4 * n) && 4 * ea == Wrap(4 * p + (|Bytes(r)| + rest), 4 * n)
    ensures var q, len := HeaderAt(p, n), |r.section|;
      && q < n && NextAt(q, len, n) < n
      && 4 * NextAt(q, len, n) == Wrap(4 * ba + (off + |Bytes(r)|), 4 * n)
      && 4 * ea == Wrap(4 * NextAt(q, len, n) + rest, 4 * n)
      && 4 * q == Wrap(4 * ba + (off + 4), 4 * n)
      && EndAt(4 * q, len, 4 * n) == Wrap(4 * ba + (off + 4 + len), 4 * n)
  {
    StepPositions(n, p, r, rest);
    PaddedLength(r);
    hide HeaderAt, NextAt, EndAt, Wrap, Proper, Bytes;
    WrapMore(4 * ba, off, |Bytes(r)|, 4 * n);
    WrapMore(4 * ba, off, 4, 4 * n);
    WrapMore(4 * ba, off, 4 + |r.section|, 4 * n);
    WrapMore(4 * p, |Bytes(r)|, rest, 4 * n);
  }

  lemma ProperAt(rs: seq<Record>, i: nat)
    requires AllProper(rs) && i < |rs|
    ensures Proper(rs[i])
  {
  }

  lemma WalkMoves(mem: seq<bv8>, n: nat, ba: nat, ea: nat, rs: seq<Record>, i: nat, p: nat, wraps: nat,
                  q: nat, p': nat, wraps': nat)
    requires WalkState(mem, n, ba, ea, rs, i, p, wraps) && i < |rs| && q == HeaderAt(p, n) && q <= n
    requires p' == NextAt(q, |rs[i].section|, n)
    requires wraps' == wraps + if Passes(q, |rs[i].section|, n) then 1 else 0
    ensures WalkState(mem, n, ba, ea, rs, i + 1, p', wraps')
  {
    hide Laid, AllProper, Offset, Bytes, Proper, HeaderAt, NextAt, EndAt, Wrap, Holds, Passes;
    var r, rest, bytes := rs[i], Laid(rs[i + 1..]), Bytes(rs[i]);
    OffsetNext(rs, i);
    OffsetEnd(rs, i + 1);
    ProperAt(rs, i);
    StepOffsets(n, ba, ea, p, Offset(rs, i), r, |rest|);
    StepPositions(n, p, r, |rest|);
    HoldsRest(mem, 4 * p, bytes, rest);
    assert 4 * p' == Wrap(4 * p + |bytes|, |mem|);
  }

  lemma WalkVisits(mem: seq<bv8>, n: nat, ba: nat, ea: nat, rs: seq<Record>, i: nat, p: nat, wraps: nat)
    requires WalkState(mem, n, ba, ea, rs, i, p, wraps) && i < |rs|
    ensures var q, len := HeaderAt(p, n), |rs[i].section|;
      && q < n && Offset(rs, i) + |Bytes(rs[i])| < 4 * n && AllProper(rs)
      && Visit(MatchBits(rs[i].word), 4 * q, EndAt(4 * q, len, 4 * n), len) == VisitOf(rs, i, 4 * ba, 4 * n)
  {
    var r, rest := rs[i], Laid(rs[i + 1..]);
    OffsetNext(rs, i);
    OffsetEnd(rs, i + 1);
    PaddedLength(r);
    hide Laid, Offset, Bytes, HeaderAt, NextAt, EndAt, Wrap, Holds;
    StepOffsets(n, ba, ea, p, Offset(rs, i), r, |rest|);
  }

  lemma WalkStarts(mem: seq<bv8>, ba: nat, ea: nat, rs: seq<Record>)
    requires |mem| % 4 == 0 && 4 * ba < |mem| && 4 * ea < |mem| && AllProper(rs)
    requires Holds(mem, 4 * ba, Laid(rs)) && 4 * ea == Wrap(4 * ba + |Laid(rs)|, |mem|)
    ensures WalkState(mem, |mem| / 4, ba, ea, rs, 0, ba, 0)
  {
    assert rs[0..] == rs;
  }

  class Walker {
    const checker: Checker

    constructor (checker: Checker)
      ensures this.checker == checker
    {
      this.checker := checker;
    }

    /**
     * xp_osi_filter_process_table_data, up to its last step, which carries out deferred removals.
     * The region from word ba to word ea holds the records rs, and every one of them is reported.
     */
    method ProcessTables(ch: Channel, mem: seq<bv8>, ba: nat, ea: nat, filtering: bool, channelShort: Short,
                         defaultShort: Short, ghost rs: seq<Record>) returns (log: seq<Delivery>, ghost states: seq<seq<Slot>>)
      requires |mem| % 4 == 0 && 4 * ba < |mem| && 4 * ea < |mem| && AllProper(rs)
      requires Holds(mem, 4 * ba, Laid(rs)) && 4 * ea == Wrap(4 * ba + |Laid(rs)|, |mem|)
      requires Usable(checker.slots[..], ch) && NamedOnce(ch)
      modifies checker.slots
      ensures |log| == |rs| && |states| == |rs| + 1
      ensures states[0] == old(checker.slots[..]) && states[|rs|] == checker.slots[..]
      ensures forall k | 0 <= k < |rs| ::
        Reported(ch, mem, ba, rs, k, filtering, ShortRule(channelShort, defaultShort), log, states)
      ensures forall k | 0 <= k < |rs| :: BitsOf(log[k].visit.bits, rs[k].word)
    {
      hide WalkState, Usable, NamedOnce, Answered, Holds, Laid, AllProper, Reported;
      var n := |mem| / 4;
      var short := ShortRule(channelShort, defaultShort);
      var p: nat, wraps: nat := ba, 0;
      ghost var i := 0;
      log := [];
      states := [checker.slots[..]];
      WalkStarts(mem, ba, ea, rs);
      while p != ea && wraps < 2
        invariant i <= |rs| && WalkState(mem, n, ba, ea, rs, i, p, wraps)
        invariant |log| == i && |states| == i + 1
        invariant states[0] == old(checker.slots[..]) && states[i] == checker.slots[..]
        invariant Usable(checker.slots[..], ch)
        invariant forall k | 0 <= k < i :: Reported(ch, mem, ba, rs, k, filtering, short, log, states)
        decreases |rs| - i
      {
        WalkContinues(mem, n, ba, ea, rs, i, p, wraps);
        var d;
        d, p, wraps := VisitRecord(ch, mem, n, p, wraps, filtering, short, ba, ea, rs, i);
        LogNext(ch, mem, ba, rs, i, filtering, short, log, states, d, checker.slots[..]);
        log := log + [d];
        states := states + [checker.slots[..]];
        i := i + 1;
      }
      WalkContinues(mem, n, ba, ea, rs, i, p, wraps);
      AllBits(ch, mem, ba, rs, filtering, short, log, states);
    }

    /** One pass of the loop, at the record that begins at word p. */
    method VisitRecord(ch: Channel, mem: seq<bv8>, n: nat, p: nat, wraps: nat, filtering: bool, short: Short,
                  ghost ba: nat, ghost ea: nat, ghost rs: seq<Record>, ghost i: nat)
        returns (d: Delivery, p': nat, wraps': nat)
      requires n == |mem| / 4 && i < |rs| && WalkState(mem, n, ba, ea, rs, i, p, wraps)
      requires Usable(checker.slots[..], ch) && NamedOnce(ch)
      modifies checker.slots
      ensures WalkState(mem, n, ba, ea, rs, i + 1, p', wraps') && Usable(checker.slots[..], ch)
      ensures Found(ch, mem, ba, rs, i, filtering, short, old(checker.slots[..]), checker.slots[..], d)
    {
      hide WalkState, Usable, NamedOnce, Answered, Holds, Laid, AllProper, Proper, HeaderAt, NextAt, EndAt, Passes;
      hide Offset, Bytes, RingBytes, MatchBits, SectionLength, VisitOf;
      WalkReadsRecord(mem, n, ba, ea, rs, i, p, wraps);
      WalkVisits(mem, n, ba, ea, rs, i, p, wraps);
      WalkBounds(mem, n, ba, ea, rs, i, p, wraps);
      var bits := MatchBits(mem[4 * p..4 * p + 4]);
      var q := HeaderAt(p, n);
      var length := 3 + SectionLength(mem[4 * q + 1], mem[4 * q + 2]);
      var visit := Visit(bits, 4 * q, EndAt(4 * q, length, 4 * n), length);
      var wanted, locked := Answer(ch, bits, mem, 4 * q, length, filtering, short, rs[i]);
      d := Delivery(visit, wanted, locked);
      wraps' := wraps + if Passes(q, length, n) then 1 else 0;
      p' := NextAt(q, length, n);
      WalkMoves(mem, n, ba, ea, rs, i, p, wraps, q, p', wraps');
    }

    /** Whether a section is locked for the application, and for which filters. */
    method Answer(ch: Channel, bits: seq<bool>, mem: seq<bv8>, start: nat, length: nat, filtering: bool, short: Short,
                  ghost r: Record) returns (wanted: seq<bool>, locked: bool)
      requires Proper(r) && bits == MatchBits(r.word) && start < |mem| && length == |r.section| <= |mem|
      requires RingBytes(mem, start, length) == r.section
      requires Usable(checker.slots[..], ch) && NamedOnce(ch)
      modifies checker.slots
      ensures Usable(checker.slots[..], ch)
      ensures Answered(old(checker.slots[..]), checker.slots[..], ch, r, filtering, short, wanted, locked)
    {
      wanted, locked := bits, true;
      if filtering {
        ghost var fl := checker.slots[..];
        wanted := checker.CheckFilters(ch, bits, mem, start, length, short);
        AfterUsable(fl, checker.slots[..], ch, bits, r.section);
        locked := true in wanted;
      }
    }
  }

  lemma AfterUsable(fl: seq<Slot>, fl': seq<Slot>, ch: Channel, word: seq<bool>, section: seq<bv8>)
    requires Usable(fl, ch) && |word| == BITS && After(fl, fl', ch, word, section, BITS)
    ensures Usable(fl', ch)
  {
    forall s | 0 <= s < ch.count && ch.table[s] != NO_FILTER
      ensures IsLive(fl', ch.table[s]) && Filled(fl'[ch.table[s]].f)
    {
      var k := ch.table[s];
      assert AfterAt(fl, fl'[k], ch, word, section, BITS, k);
    }
  }

  /** Record k was found where it is, and answered by the filters as they then were. */
  predicate Found(ch: Channel, mem: seq<bv8>, ba: nat, rs: seq<Record>, k: nat, filtering: bool, short: Short,
                  fl: seq<Slot>, fl': seq<Slot>, d: Delivery) {
    && k < |rs| && AllProper(rs) && Proper(rs[k])
    && 4 * ba < |mem| && Offset(rs, k) + |Bytes(rs[k])| < |mem|
    && d.visit == VisitOf(rs, k, 4 * ba, |mem|)
    && Usable(fl, ch) && Answered(fl, fl', ch, rs[k], filtering, short, d.wanted, d.locked)
  }

  predicate Reported(ch: Channel, mem: seq<bv8>, ba: nat, rs: seq<Record>, k: nat, filtering: bool, short: Short,
                     log: seq<Delivery>, states: seq<seq<Slot>>) {
    && k < |log| && k + 1 < |states|
    && Found(ch, mem, ba, rs, k, filtering, short, states[k], states[k + 1], log[k])
  }

  lemma LogNext(ch: Channel, mem: seq<bv8>, ba: nat, rs: seq<Record>, i: nat, filtering: bool, short: Short,
                log: seq<Delivery>, states: seq<seq<Slot>>, d: Delivery, fl': seq<Slot>)
    requires |log| == i && |states| == i + 1
    requires forall k | 0 <= k < i :: Reported(ch, mem, ba, rs, k, filtering, short, log, states)
    requires Found(ch, mem, ba, rs, i, filtering, short, states[i], fl', d)
    ensures forall k | 0 <= k < i + 1 :: Reported(ch, mem, ba, rs, k, filtering, short, log + [d], states + [fl'])
  {
    hide Found;
    var log', states' := log + [d], states + [fl'];
    forall k | 0 <= k < i + 1 ensures Reported(ch, mem, ba, rs, k, filtering, short, log', states') {
      if k < i {
        assert Reported(ch, mem, ba, rs, k, filtering, short, log, states);
      }
    }
  }

  lemma AllBits(ch: Channel, mem: seq<bv8>, ba: nat, rs: seq<Record>, filtering: bool, short: Short,
                log: seq<Delivery>, states: seq<seq<Slot>>)
    requires |log| == |rs|
    requires forall k | 0 <= k < |rs| :: Reported(ch, mem, ba, rs, k, filtering, short, log, states)
    ensures forall k | 0 <= k < |rs| :: BitsOf(log[k].visit.bits, rs[k].word)
  {
    hide BitsOf, Usable, Answered, MatchBits, Offset, Bytes, SectionLength;
    forall k | 0 <= k < |rs| ensures BitsOf(log[k].visit.bits, rs[k].word) {
      assert Reported(ch, mem, ba, rs, k, filtering, short, log, states);
      MatchBitsAll(rs[k].word);
    }
  }

  lemma WalkBounds(mem: seq<bv8>, n: nat, ba: nat, ea: nat, rs: seq<Record>, i: nat, p: nat, wraps: nat)
    requires WalkState(mem, n, ba, ea, rs, i, p, wraps)
    ensures |mem| == 4 * n && p < n && 4 * ba < |mem| && AllProper(rs)
    ensures HeaderAt(p, n) < n
  {
  }
}
