/**
 * Clock recovery: each time the hardware latches a program clock reference, the pulse width
 * modulator that tunes the local 27 MHz clock is moved a little.
 */
module ClockRecovery {

  const PWM_CLAMP: int := 50
  const STC_LOAD_PWM_CLAMP: int := 100
  const PCRS_HIGH_GAIN: nat := 10
  const LOW_THRESHOLD: int := 32
  const HIGH_THRESHOLD: nat := 256

  // ----- machine arithmetic

  const TWO_32: int := 0x1_0000_0000
  const TWO_16: int := 0x1_0000
  const TWO_12: int := 0x1000

  /** The n-bit pattern of x, read as a two's complement number; m is 2^n. */
  function Signed(x: int, m: int): (r: int)
    requires m == TWO_32 || m == TWO_16 || m == TWO_12
    ensures -m <= 2 * r < m
  {
    if 2 * (x % m) >= m then x % m - m else x % m
  }

  /** Division of C: toward zero. */
  function Quotient(x: int, y: int): int
    requires y != 0
  {
    if x >= 0 then (if y > 0 then x / y else -(x / -y))
    else (if y > 0 then -(-x / y) else -x / -y)
  }

  function Clamp(x: int, c: int): (r: int)
    requires c >= 0
    ensures -c <= r <= c
  {
    if x > c then c else if x < -c then -c else x
  }

  function Distance(x: int, y: int): nat {
    if x < y then y - x else x - y
  }

  /** A limit leaves the number that is nearest to x. */
  lemma ClampNearest(x: int, c: int, y: int)
    requires c >= 0 && -c <= y <= c
    ensures Distance(x, Clamp(x, c)) < Distance(x, y) || Clamp(x, c) == y
  {
  }

  /** The quotient is the whole number of times y goes into x, both taken without their signs. */
  lemma QuotientTowardZero(x: int, y: int)
    requires y != 0
    ensures Distance(0, Quotient(x, y)) == Distance(0, x) / Distance(0, y)
    ensures Quotient(x, y) > 0 ==> (x > 0 <==> y > 0)
    ensures Quotient(x, y) < 0 ==> (x > 0 <==> y < 0)
  {
    hide Signed, Clamp;
    NotNegative(Distance(0, x), Distance(0, y));
  }

  lemma NotNegative(x: nat, y: nat)
    requires y > 0
    ensures x / y >= 0 && (x == 0 ==> x / y == 0)
  {
  }

  lemma SignedSmall(x: int, m: int)
    requires m == TWO_32 || m == TWO_16 || m == TWO_12
    ensures Signed(x, m) == x <==> -m <= 2 * x < m
  {
  }

  // ----- one reading of the clock registers

  datatype Reading = Reading(pcrHigh: nat, pcrLow: nat, stcHigh: nat, stcLow: nat, delta: nat, overflow: bool,
                             pcrLowAgain: nat)

  /** The count of 27 MHz ticks without the upper 10 bits of the base. */
  function Ticks(high: nat, low: nat): nat {
    (high % 0x40_0000 * 2 + low / 512 % 2) * 300 + low % 512
  }

  /** The most that 22 bits of the base, the bit below them and the extension can say. */
  const MAX_TICKS: int := 2516582611

  lemma TicksFit(high: nat, low: nat)
    ensures Ticks(high, low) <= MAX_TICKS < TWO_32
  {
  }

  /** The two clocks are too far apart for the software algorithm. */
  predicate SoftOverflow(r: Reading) {
    r.overflow || r.stcHigh / 0x40_0000 != r.pcrHigh / 0x40_0000
  }

  /** A clock value: a 33-bit count of 90 kHz and what is left over in 27 MHz (ISO/IEC 13818-1, section 2.4.2.2). */
  datatype Time = Time(base: nat, extension: nat)

  predicate Proper(t: Time) {
    t.base < 0x2_0000_0000 && t.extension < 300
  }

  function TrueTicks(t: Time): nat {
    t.base * 300 + t.extension
  }

  /** The registers hold the time: the upper 32 bits of the base, and its last bit in front of the extension. */
  predicate Shows(high: nat, low: nat, t: Time) {
    high == t.base / 2 && low == t.base % 2 * 512 + t.extension
  }

  lemma TicksAre(high: nat, low: nat, t: Time)
    requires Shows(high, low, t) && Proper(t)
    ensures Ticks(high, low) == TrueTicks(t.(base := t.base % 0x80_0000))
  {
    assert low / 512 == t.base % 2 && low % 512 == t.extension;
    LowerBits(t.base);
  }

  lemma LowerBits(base: nat)
    ensures base / 2 % 0x40_0000 * 2 + base % 2 == base % 0x80_0000
    ensures base / 2 / 0x40_0000 == base / 0x80_0000
  {
  }

  /**
   * Without the hardware's overflow, the algorithm runs exactly when the two clocks have the upper
   * ten bits of their bases in common; and then the difference it takes is the true one.
   */
  lemma OffsetIsTrue(r: Reading, pcr: Time, stc: Time)
    requires Proper(pcr) && Proper(stc) && !r.overflow
    requires Shows(r.pcrHigh, r.pcrLow, pcr) && Shows(r.stcHigh, r.stcLow, stc)
    ensures SoftOverflow(r) <==> pcr.base / 0x80_0000 != stc.base / 0x80_0000
    ensures !SoftOverflow(r) ==>
      Ticks(r.pcrHigh, r.pcrLow) - Ticks(r.stcHigh, r.stcLow) == TrueTicks(pcr) - TrueTicks(stc)
  {
    hide Ticks, Proper;
    TicksAre(r.pcrHigh, r.pcrLow, pcr);
    TicksAre(r.stcHigh, r.stcLow, stc);
    LowerBits(pcr.base);
    LowerBits(stc.base);
  }

  // ----- the adjustment

  /** What the driver computes; `undefined` stands for the quotient of a division by zero. */
  function Adjustment(pcr: nat, stc: nat, prevPcr: nat, prevStc: nat, undefined: int): int {
    var deltaPcr := Signed(pcr - prevPcr, TWO_32);
    var deltaStc := Signed(stc - prevStc, TWO_32);
    var drift := Signed(deltaPcr - deltaStc, TWO_32);
    var rate := if deltaPcr == 0 then Signed(undefined, TWO_32) else Quotient(27000000, deltaPcr);
    var rateAdjust := Signed(Signed(drift * rate, TWO_32) / 16, TWO_16);
    var valueAdjust := (pcr - stc) % TWO_32 / 16;
    Signed(rateAdjust + valueAdjust, TWO_16)
  }

  /** The offset between the clocks is shifted as an unsigned number; cut to 16 bits that is the same
      as dividing it, rounding down. */
  lemma UnsignedShift(x: int, y: int)
    requires -TWO_32 < x < TWO_32
    ensures Signed(y + x % TWO_32 / 16, TWO_16) == Signed(y + x / 16, TWO_16)
  {
    if x < 0 {
      assert x % TWO_32 == x + TWO_32;
      assert (x + TWO_32) / 16 == x / 16 + 0x1000 * TWO_16;
      SameResidue(y + x / 16, 0x1000);
    } else {
      assert x % TWO_32 == x;
    }
  }

  lemma SameResidue(x: int, k: int)
    ensures Signed(x + k * TWO_16, TWO_16) == Signed(x, TWO_16)
  {
  }

  // ----- the pulse width modulator

  /** The register holds 12 bits and counts from -2048 to 2047. */
  function UpdatedPwm(pwm: nat, adjust: int): (r: nat)
    requires pwm < TWO_12
    ensures r < TWO_12
  {
    var sum := (pwm + adjust) % TWO_32;
    var bounded :=
      if pwm <= 0x7ff && sum > 0x7ff && adjust > 0 then 0x7ff
      else if pwm >= 0x800 && sum < 0x800 && adjust < 0 then 0x800
      else sum;
    bounded % TWO_12
  }

  function Saturated(x: int): int {
    if x > 2047 then 2047 else if x < -2048 then -2048 else x
  }

  /** For every register value and adjustment, the update is an addition that stops at the ends. */
  lemma PwmSaturates(pwm: nat, adjust: int)
    requires pwm < TWO_12 && -2048 <= adjust <= 2048
    ensures Signed(UpdatedPwm(pwm, adjust), TWO_12) == Saturated(Signed(pwm, TWO_12) + adjust)
  {
    if pwm + adjust < 0 {
      assert (pwm + adjust) % TWO_32 == pwm + adjust + TWO_32;
      assert (pwm + adjust + TWO_32) % TWO_12 == pwm + adjust + TWO_12;
    } else {
      assert (pwm + adjust) % TWO_32 == pwm + adjust;
    }
  }

  // ----- one interrupt

  /** ClkInfo, the PWM register, and how many critical sections have been entered and not left. */
  datatype Clock = Clock(
    npcrs: nat, prevError: bool, prevPcr: nat, prevStc: nat, prevDelta: nat, threshold: nat,
    pwm: nat, reloads: nat, errors: nat, inconsistent: nat, entered: nat)

  predicate Sane(s: Clock) {
    && s.npcrs <= PCRS_HIGH_GAIN + 1 && s.pwm < TWO_12
    && s.prevPcr <= MAX_TICKS && s.prevStc <= MAX_TICKS
  }

  /** xp_osi_clk_start: the high gain does not apply before the first load. */
  function Start(pwm: nat): Clock {
    Clock(PCRS_HIGH_GAIN, false, 0, 0, 0, 0, pwm, 0, 0, 0, 0)
  }

  datatype Event = Event(stcl: bool, reading: Reading, undefined: int)

  predicate Torn(e: Event) {
    e.reading.pcrLow != e.reading.pcrLowAgain
  }

  /** The software algorithm runs: it may move the PWM. */
  predicate Runs(e: Event) {
    !Torn(e) && !SoftOverflow(e.reading)
  }

  function Counted(s: Clock, e: Event): nat {
    var n := if e.stcl then 0 else s.npcrs;
    if n <= PCRS_HIGH_GAIN then n + 1 else n
  }

  function Limit(npcrs: nat): int {
    if npcrs <= PCRS_HIGH_GAIN then STC_LOAD_PWM_CLAMP else PWM_CLAMP
  }

  function Interrupt(s: Clock, e: Event): Clock
    requires s.pwm < TWO_12
  {
    var r := e.reading;
    var n := Counted(s, e);
    if Torn(e) then s.(inconsistent := s.inconsistent + 1, entered := s.entered + 1)
    else if SoftOverflow(r) then
      if s.prevError then s.(npcrs := 0, prevError := false, errors := s.errors + 1, reloads := s.reloads + 1)
      else s.(npcrs := n, prevError := true, errors := s.errors + 1)
    else
      var pcr, stc := Ticks(r.pcrHigh, r.pcrLow), Ticks(r.stcHigh, r.stcLow);
      var adjust := Clamp(Adjustment(pcr, stc, s.prevPcr, s.prevStc, e.undefined), Limit(n));
      s.(npcrs := n, prevError := false, prevPcr := pcr, prevStc := stc, prevDelta := r.delta,
         threshold := if r.delta < LOW_THRESHOLD && s.prevDelta < LOW_THRESHOLD then HIGH_THRESHOLD else 0,
         pwm := UpdatedPwm(s.pwm, adjust))
  }

  /** One interrupt moves the PWM by no more than its current limit, and only if the algorithm runs. */
  lemma StepBound(s: Clock, e: Event)
    requires Sane(s)
    ensures Sane(Interrupt(s, e))
    ensures var moved := Signed(Interrupt(s, e).pwm, TWO_12) - Signed(s.pwm, TWO_12);
      if Runs(e) then -Limit(Counted(s, e)) <= moved <= Limit(Counted(s, e)) else moved == 0
  {
    hide Signed, UpdatedPwm, Adjustment, Ticks;
    TicksFit(e.reading.pcrHigh, e.reading.pcrLow);
    TicksFit(e.reading.stcHigh, e.reading.stcLow);
    if Runs(e) {
      var r := e.reading;
      var adjust := Clamp(Adjustment(Ticks(r.pcrHigh, r.pcrLow), Ticks(r.stcHigh, r.stcLow), s.prevPcr, s.prevStc, e.undefined),
                          Limit(Counted(s, e)));
      PwmSaturates(s.pwm, adjust);
    }
  }

  /** An STC load is a restart of the count, whatever the count was. */
  lemma LoadRestarts(s: Clock, e: Event)
    requires s.pwm < TWO_12 && e.stcl && !Torn(e)
    ensures Interrupt(s, e) == Interrupt(s.(npcrs := 0), e.(stcl := false))
  {
  }

  /** The result depends on the undefined quotient exactly through a PCR that repeats the last one. */
  lemma DivisionDefined(s: Clock, e: Event, other: int)
    requires s.pwm < TWO_12
    requires Runs(e) ==> Signed(Ticks(e.reading.pcrHigh, e.reading.pcrLow) - s.prevPcr, TWO_32) != 0
    ensures Interrupt(s, e) == Interrupt(s, e.(undefined := other))
  {
    hide Signed, UpdatedPwm, Ticks;
  }

  /** Twice in a row the same PCR, while the STC has moved on: the quotient decides where the PWM goes. */
  lemma DivisionUndefined()
    ensures Adjustment(0, 16, 0, 0, 1600) == -1601 && Adjustment(0, 16, 0, 0, -1600) == 1599
  {
    AdjustmentIs(0, 16, 0, 0, 1600);
    AdjustmentIs(0, 16, 0, 0, -1600);
  }

  // ----- the step that is wanted

  /** The difference of the last two references, divided into the clock's rate; the step is free where that is undefined. */
  function WantedRate(deltaPcr: int, undefined: int): int {
    if deltaPcr == 0 then undefined else Quotient(27000000, deltaPcr)
  }

  /** The step in numbers without a width: the drift between the clocks at their rate, and their offset, each over 16. */
  function WantedStep(pcr: int, stc: int, prevPcr: int, prevStc: int, undefined: int): int {
    ((pcr - prevPcr) - (stc - prevStc)) * WantedRate(pcr - prevPcr, undefined) / 16 + (pcr - stc) / 16
  }

  lemma SignedIs(x: int, m: int) returns (k: int)
    requires m == TWO_32 || m == TWO_16 || m == TWO_12
    ensures Signed(x, m) == x + k * m
  {
    k := if 2 * (x % m) >= m then -(x / m) - 1 else -(x / m);
  }

  /** A number taken off by 2^32 so often leaves the same 16 bits above the lowest four. */
  lemma SixteenthResidue(x: int, k: int)
    ensures Signed((x + k * TWO_32) / 16, TWO_16) == Signed(x / 16, TWO_16)
  {
    assert (x + k * TWO_32) / 16 == x / 16 + (k * 0x1000) * TWO_16;
    SameResidue(x / 16, k * 0x1000);
  }

  /** Cut to 32 bits, the difference of two tick counts has the same quotient: it is zero for a long time apart. */
  lemma RateIsWanted(deltaPcr: int)
    requires -MAX_TICKS <= deltaPcr <= MAX_TICKS && deltaPcr != 0
    ensures Signed(deltaPcr, TWO_32) != 0
    ensures Quotient(27000000, Signed(deltaPcr, TWO_32)) == Quotient(27000000, deltaPcr)
  {
    hide Quotient;
    SignedSmall(deltaPcr, TWO_32);
    if 2 * deltaPcr >= TWO_32 {
      assert deltaPcr % TWO_32 == deltaPcr;
      QuotientIsZero(deltaPcr);
      QuotientIsZero(deltaPcr - TWO_32);
    } else if 2 * deltaPcr < -TWO_32 {
      assert deltaPcr % TWO_32 == deltaPcr + TWO_32;
      QuotientIsZero(deltaPcr);
      QuotientIsZero(deltaPcr + TWO_32);
    }
  }

  lemma QuotientIsZero(y: int)
    requires y > 27000000 || y < -27000000
    ensures Quotient(27000000, y) == 0
  {
    if y > 0 {
      LessThanOnce(27000000, y);
    } else {
      LessThanOnce(27000000, -y);
    }
  }

  lemma LessThanOnce(x: nat, y: nat)
    requires x < y
    ensures x / y == 0
  {
  }

  lemma CutProduct(drift: int, rate: int, a: int, b: int)
    ensures (drift + a * TWO_32) * (rate + b * TWO_32)
         == drift * rate + (a * rate + b * drift + a * b * TWO_32) * TWO_32
  {
  }

  /** The drift, cut to 32 bits each time it is computed, is off by a multiple of 2^32. */
  lemma CutDrift(deltaPcr: int, deltaStc: int) returns (k: int)
    ensures Signed(Signed(deltaPcr, TWO_32) - Signed(deltaStc, TWO_32), TWO_32) == deltaPcr - deltaStc + k * TWO_32
  {
    var i := SignedIs(deltaPcr, TWO_32);
    var j := SignedIs(deltaStc, TWO_32);
    var l := SignedIs(Signed(deltaPcr, TWO_32) - Signed(deltaStc, TWO_32), TWO_32);
    k := i - j + l;
  }

  lemma CutRate(deltaPcr: int, undefined: int) returns (k: int)
    requires -MAX_TICKS <= deltaPcr <= MAX_TICKS
    ensures Signed(deltaPcr, TWO_32) == 0 <==> deltaPcr == 0
    ensures (if deltaPcr == 0 then Signed(undefined, TWO_32) else Quotient(27000000, Signed(deltaPcr, TWO_32)))
         == WantedRate(deltaPcr, undefined) + k * TWO_32
  {
    if deltaPcr == 0 {
      k := SignedIs(undefined, TWO_32);
    } else {
      RateIsWanted(deltaPcr);
      k := 0;
    }
  }

  /** What the driver computes, through all its conversions, is the wanted step cut to 16 bits once. */
  lemma AdjustmentIs(pcr: nat, stc: nat, prevPcr: nat, prevStc: nat, undefined: int)
    requires pcr <= MAX_TICKS && stc <= MAX_TICKS && prevPcr <= MAX_TICKS && prevStc <= MAX_TICKS
    ensures Adjustment(pcr, stc, prevPcr, prevStc, undefined)
         == Signed(WantedStep(pcr, stc, prevPcr, prevStc, undefined), TWO_16)
  {
    hide Signed, Quotient, WantedRate;
    var deltaPcr, deltaStc := pcr - prevPcr, stc - prevStc;
    var drift, rate := deltaPcr - deltaStc, WantedRate(deltaPcr, undefined);
    var a := CutDrift(deltaPcr, deltaStc);
    var b := CutRate(deltaPcr, undefined);
    CutRateAdjust(drift, rate, a, b);
    CutSum(drift * rate / 16, pcr - stc);
  }

  /** Whatever the factors are off by, of the product's sixteenth the right 16 bits are left. */
  lemma CutRateAdjust(drift: int, rate: int, a: int, b: int)
    ensures Signed(Signed((drift + a * TWO_32) * (rate + b * TWO_32), TWO_32) / 16, TWO_16)
         == Signed(drift * rate / 16, TWO_16)
  {
    hide Signed;
    var product := (drift + a * TWO_32) * (rate + b * TWO_32);
    CutProduct(drift, rate, a, b);
    var c := SignedIs(product, TWO_32);
    var off := a * rate + b * drift + a * b * TWO_32;
    OffTwice(product, drift * rate, off, c);
    SixteenthResidue(drift * rate, off + c);
  }

  lemma OffTwice(p: int, q: int, j: int, k: int)
    requires p == q + j * TWO_32
    ensures p + k * TWO_32 == q + (j + k) * TWO_32
  {
  }

  lemma CutSum(x: int, offset: int)
    requires -TWO_32 < offset < TWO_32
    ensures Signed(Signed(x, TWO_16) + offset % TWO_32 / 16, TWO_16) == Signed(x + offset / 16, TWO_16)
  {
    hide Signed;
    var k := SignedIs(x, TWO_16);
    UnsignedShift(offset, Signed(x, TWO_16));
    SameResidue(x + offset / 16, k);
  }

  /** The step x is taken as it is, or what is left of it reaches the same limit. */
  predicate CutHarmless(x: int, c: int) {
    -0x8000 <= x <= 0x7fff || (if x > 0 then Signed(x, TWO_16) >= c else Signed(x, TWO_16) <= -c)
  }

  lemma CutHarmlessIff(x: int, c: int)
    requires 0 < c <= 100
    ensures Clamp(Signed(x, TWO_16), c) == Clamp(x, c) <==> CutHarmless(x, c)
    ensures !CutHarmless(x, c) ==> Clamp(x, c) == if x > 0 then c else -c
  {
    SignedSmall(x, TWO_16);
  }

  /** The step the interrupt wants, from the readings of the registers and of the last run. */
  function Wanted(s: Clock, e: Event): int {
    var r := e.reading;
    WantedStep(Ticks(r.pcrHigh, r.pcrLow), Ticks(r.stcHigh, r.stcLow), s.prevPcr, s.prevStc, e.undefined)
  }

  /** Where the PWM should go: by the wanted step, within the current limit and the range of the register. */
  function Target(s: Clock, e: Event): int {
    Saturated(Signed(s.pwm, TWO_12) + Clamp(Wanted(s, e), Limit(Counted(s, e))))
  }

  /** Even the step that is left takes the PWM to the end of its range that the wanted one points to. */
  predicate AtTheEnd(s: Clock, x: int, c: nat) {
    var moved := Signed(s.pwm, TWO_12) + Clamp(Signed(x, TWO_16), c);
    if x > 0 then moved >= 2047 else moved <= -2048
  }

  /** Where the PWM does go: by the wanted step, cut to 16 bits. */
  lemma PwmMoves(s: Clock, e: Event)
    requires Sane(s) && Runs(e)
    ensures Signed(Interrupt(s, e).pwm, TWO_12)
         == Saturated(Signed(s.pwm, TWO_12) + Clamp(Signed(Wanted(s, e), TWO_16), Limit(Counted(s, e))))
  {
    hide Signed, UpdatedPwm, Adjustment, Ticks, WantedStep;
    var r := e.reading;
    var pcr, stc := Ticks(r.pcrHigh, r.pcrLow), Ticks(r.stcHigh, r.stcLow);
    TicksFit(r.pcrHigh, r.pcrLow);
    TicksFit(r.stcHigh, r.stcLow);
    AdjustmentIs(pcr, stc, s.prevPcr, s.prevStc, e.undefined);
    PwmSaturates(s.pwm, Clamp(Adjustment(pcr, stc, s.prevPcr, s.prevStc, e.undefined), Limit(Counted(s, e))));
  }

  /**
   * The interrupt moves the PWM where it should go exactly when the wanted step fits 16 bits, or
   * what is left of it reaches the same limit, or the PWM comes to the end of its range anyway.
   */
  lemma StepTakenIff(s: Clock, e: Event)
    requires Sane(s) && Runs(e)
    ensures var x, c := Wanted(s, e), Limit(Counted(s, e));
      Signed(Interrupt(s, e).pwm, TWO_12) == Target(s, e) <==> CutHarmless(x, c) || AtTheEnd(s, x, c)
  {
    hide Signed, Interrupt, Wanted, CutHarmless;
    PwmMoves(s, e);
    CutHarmlessIff(Wanted(s, e), Limit(Counted(s, e)));
    SignedPwm(s.pwm);
  }

  /** The end of the register's range is the number of 12 bits nearest to x. */
  lemma SaturatedNearest(x: int, y: int)
    requires -2048 <= y <= 2047
    ensures -2048 <= Saturated(x) <= 2047
    ensures Distance(x, Saturated(x)) < Distance(x, y) || Saturated(x) == y
  {
  }

  lemma SignedPwm(pwm: nat)
    ensures -2048 <= Signed(pwm, TWO_12) <= 2047
  {
  }

  const AT_LOAD := Event(true, Reading(1666, 612, 1666, 612, 0, false, 612), 0)
  const AHEAD := Event(false, Reading(6166, 612, 6066, 612, 60000, false, 612), 0)

  lemma RunKeepsReadings(s: Clock, e: Event)
    requires Sane(s) && Runs(e)
    ensures var s', r := Interrupt(s, e), e.reading;
      Sane(s') && s'.npcrs == Counted(s, e)
      && s'.prevPcr == Ticks(r.pcrHigh, r.pcrLow) && s'.prevStc == Ticks(r.stcHigh, r.stcLow)
  {
    StepBound(s, e);
  }

  lemma SamePwm(p: nat, q: nat)
    requires p < TWO_12 && q < 2048 && Signed(p, TWO_12) == q
    ensures p == q
  {
  }

  lemma TicksAtLoad()
    ensures Ticks(1666, 612) == 1000000
  {
  }

  lemma ReadyAtLoad()
    ensures Sane(Start(200)) && Runs(AT_LOAD) && Limit(Counted(Start(200), AT_LOAD)) == 100
    ensures Signed(0, TWO_16) == 0 && Signed(200, TWO_12) == 200
  {
  }

  lemma WantedAtLoad()
    ensures Wanted(Start(200), AT_LOAD) == 0
  {
    hide Ticks, WantedStep;
    TicksAtLoad();
    NothingWanted(1000000);
  }

  lemma NothingWanted(pcr: nat)
    ensures WantedStep(pcr, pcr, 0, 0, 0) == 0
  {
    var rate := WantedRate(pcr, 0);
    hide WantedRate;
    assert ((pcr - 0) - (pcr - 0)) * rate == 0;
  }

  lemma AfterLoad(e: Event) returns (s: Clock)
    requires e == AT_LOAD
    ensures Sane(Start(200)) && Runs(e) && s == Interrupt(Start(200), e)
    ensures Sane(s) && s.npcrs == 1 && s.prevPcr == s.prevStc == 1000000 && s.pwm == 200
  {
    hide Interrupt, Wanted, WantedStep, Signed, Ticks, Runs;
    ReadyAtLoad();
    TicksAtLoad();
    WantedAtLoad();
    s := Interrupt(Start(200), e);
    RunKeepsReadings(Start(200), e);
    PwmMoves(Start(200), e);
    SamePwm(s.pwm, 200);
  }

  /**
   * A tenth of a second after a load, the reference is 60000 ticks ahead. It asks for 41250 steps
   * up, the limit is 100, and the PWM goes down by 100.
   */
  lemma WrongWay()
    ensures Sane(Start(200)) && Runs(AT_LOAD) && Runs(AHEAD)
    ensures var s := Interrupt(Start(200), AT_LOAD);
      Sane(s) && s.pwm == 200 && Wanted(s, AHEAD) == 41250 && Target(s, AHEAD) == 300 && Interrupt(s, AHEAD).pwm == 100
  {
    hide Interrupt, Wanted, Signed;
    var s := AfterLoad(AT_LOAD);
    WantedAhead(s);
    PwmMoves(s, AHEAD);
    StepBoundPwm(s, AHEAD);
    SamePwm(Interrupt(s, AHEAD).pwm, 100);
  }

  lemma StepBoundPwm(s: Clock, e: Event)
    requires Sane(s)
    ensures Interrupt(s, e).pwm < TWO_12
  {
    StepBound(s, e);
  }

  lemma WantedAhead(s: Clock)
    requires s.prevPcr == s.prevStc == 1000000
    ensures Wanted(s, AHEAD) == 41250 && Signed(41250, TWO_16) == -24286 && Signed(200, TWO_12) == 200
  {
    assert Ticks(6166, 612) == 3700000 && Ticks(6066, 612) == 3640000;
    assert Quotient(27000000, 2700000) == 10;
  }

  // ----- runs

  function Run(s: Clock, es: seq<Event>): Clock
    requires Sane(s)
    decreases |es|
  {
    if es == [] then s
    else
      StepBound(s, es[0]);
      Run(Interrupt(s, es[0]), es[1..])
  }

  function RunCount(es: seq<Event>): nat {
    if es == [] then 0 else (if Runs(es[0]) then 1 else 0) + RunCount(es[1..])
  }

  /** No load of the STC is announced, and none is asked for. */
  predicate NoReload(s: Clock, es: seq<Event>)
    requires Sane(s)
    decreases |es|
  {
    es == [] ||
    (StepBound(s, es[0]);
     !es[0].stcl && Interrupt(s, es[0]).reloads == s.reloads && NoReload(Interrupt(s, es[0]), es[1..]))
  }

  /** The most that n runs can move the PWM when npcrs references have been counted. */
  function Allowance(npcrs: nat, n: nat): int {
    var left := if npcrs >= PCRS_HIGH_GAIN then 0 else PCRS_HIGH_GAIN - npcrs;
    if n <= left then STC_LOAD_PWM_CLAMP * n else STC_LOAD_PWM_CLAMP * left + PWM_CLAMP * (n - left)
  }

  lemma {:induction false} RunMoves(s: Clock, es: seq<Event>)
    requires Sane(s) && NoReload(s, es)
    ensures var moved := Signed(Run(s, es).pwm, TWO_12) - Signed(s.pwm, TWO_12);
      -Allowance(s.npcrs, RunCount(es)) <= moved <= Allowance(s.npcrs, RunCount(es))
    decreases |es|
  {
    if es != [] {
      hide Signed, Interrupt, Runs;
      StepBound(s, es[0]);
      CountMoves(s, es[0]);
      RunMoves(Interrupt(s, es[0]), es[1..]);
      AllowanceStep(s.npcrs, Interrupt(s, es[0]).npcrs, Counted(s, es[0]), RunCount(es[1..]), Runs(es[0]));
    }
  }

  lemma CountMoves(s: Clock, e: Event)
    requires Sane(s) && !e.stcl && Interrupt(s, e).reloads == s.reloads
    ensures Interrupt(s, e).npcrs == if Torn(e) then s.npcrs else Counted(s, e)
    ensures Runs(e) ==> !Torn(e)
  {
  }

  lemma AllowanceStep(npcrs: nat, npcrs': nat, counted: nat, n: nat, runs: bool)
    requires npcrs <= PCRS_HIGH_GAIN + 1 && counted == if npcrs <= PCRS_HIGH_GAIN then npcrs + 1 else npcrs
    requires npcrs' == counted || (npcrs' == npcrs && !runs)
    ensures Allowance(npcrs', n) + (if runs then Limit(counted) else 0) <= Allowance(npcrs, n + if runs then 1 else 0)
  {
  }

  /** Over any n runs since a load of the STC: a hundred steps each for the first ten, fifty each from then on. */
  lemma PwmDrift(s: Clock, es: seq<Event>)
    requires Sane(s) && s.npcrs == 0 && NoReload(s, es)
    ensures var n := RunCount(es);
      var moved := Signed(Run(s, es).pwm, TWO_12) - Signed(s.pwm, TWO_12);
      var most := if n <= 10 then 100 * n else 1000 + 50 * (n - 10);
      -most <= moved <= most
  {
    RunMoves(s, es);
  }

  /** Interrupts that count. */
  function Whole(es: seq<Event>): nat {
    if es == [] then 0 else (if Torn(es[0]) then 0 else 1) + Whole(es[1..])
  }

  lemma {:induction false} CountAfter(s: Clock, es: seq<Event>)
    requires Sane(s) && NoReload(s, es)
    ensures Run(s, es).npcrs == if s.npcrs + Whole(es) <= 11 then s.npcrs + Whole(es) else 11
    decreases |es|
  {
    if es != [] {
      hide Interrupt, Torn, Runs;
      StepBound(s, es[0]);
      CountMoves(s, es[0]);
      CountAfter(Interrupt(s, es[0]), es[1..]);
    }
  }

  /** Every interrupt that finds the registers changed under its hands stays in its critical section. */
  lemma {:induction false} TornNeverLeaves(s: Clock, es: seq<Event>)
    requires Sane(s)
    ensures Run(s, es).entered == s.entered + (|es| - Whole(es))
    ensures Whole(es) <= |es| && (Whole(es) == |es| <==> forall i | 0 <= i < |es| :: !Torn(es[i]))
    decreases |es|
  {
    if es != [] {
      hide Torn, SoftOverflow;
      StepBound(s, es[0]);
      TornNeverLeaves(Interrupt(s, es[0]), es[1..]);
      var rest := es[1..];
      assert (forall i | 0 <= i < |rest| :: !Torn(rest[i])) <==> forall i | 1 <= i < |es| :: !Torn(es[i]) by {
        assert forall i | 1 <= i < |es| :: es[i] == rest[i - 1];
      }
    }
  }

  /** The limit is 100 for the first ten references since a load, the one with the load being the first, and then 50. */
  lemma LimitSinceLoad(s: Clock, es: seq<Event>, e: Event)
    requires Sane(s) && s.npcrs == 0 && NoReload(s, es)
    ensures Limit(Counted(Run(s, es), e)) == if e.stcl || Whole(es) < 10 then 100 else 50
  {
    hide Interrupt, Run, NoReload, Sane, Whole;
    CountAfter(s, es);
  }

  /** Each second error asks for a load; the PWM and the threshold stay as they are through all of them. */
  lemma {:induction false} ErrorsReload(s: Clock, es: seq<Event>)
    requires Sane(s) && forall i | 0 <= i < |es| :: !Torn(es[i]) && SoftOverflow(es[i].reading)
    ensures var s', n := Run(s, es), |es| + if s.prevError then 1 else 0;
      && s'.errors == s.errors + |es| && s'.reloads == s.reloads + n / 2 && (s'.prevError <==> n % 2 == 1)
      && s'.pwm == s.pwm && s'.threshold == s.threshold
    decreases |es|
  {
    if es != [] {
      hide Torn, SoftOverflow;
      StepBound(s, es[0]);
      ErrorsReload(Interrupt(s, es[0]), es[1..]);
    }
  }

  /** Interrupts that do not run the algorithm leave its numbers alone. */
  lemma {:induction false} IdleKeeps(s: Clock, es: seq<Event>)
    requires Sane(s) && forall i | 0 <= i < |es| :: !Runs(es[i])
    ensures var s' := Run(s, es);
      && Sane(s') && s'.pwm == s.pwm && s'.prevPcr == s.prevPcr && s'.prevStc == s.prevStc
      && s'.prevDelta == s.prevDelta && s'.threshold == s.threshold
    decreases |es|
  {
    if es != [] {
      hide Torn, SoftOverflow;
      StepBound(s, es[0]);
      IdleKeeps(Interrupt(s, es[0]), es[1..]);
    }
  }

  /** The threshold is up after two runs, whatever was between them, exactly when both differences were small. */
  lemma ThresholdIff(s: Clock, e: Event, es: seq<Event>, e': Event)
    requires Sane(s) && Runs(e) && Runs(e') && forall i | 0 <= i < |es| :: !Runs(es[i])
    ensures var s1 := Interrupt(s, e);
      Sane(s1) && Sane(Run(s1, es)) &&
      Interrupt(Run(s1, es), e').threshold == if e.reading.delta < 32 && e'.reading.delta < 32 then 256 else 0
  {
    hide Run, Sane, Torn, SoftOverflow, Adjustment, Ticks, UpdatedPwm, Signed;
    PwmInRange(s);
    StepBound(s, e);
    IdleKeeps(Interrupt(s, e), es);
    PwmInRange(Run(Interrupt(s, e), es));
  }

  lemma PwmInRange(s: Clock)
    requires Sane(s)
    ensures s.pwm < TWO_12
  {
  }

  // ----- in place

  class ClockDriver {
    var npcrs: nat
    var prevError: bool
    var prevPcr: nat
    var prevStc: nat
    var prevDelta: nat
    var threshold: nat
    var pwm: nat
    var reloads: nat
    var errors: nat
    var inconsistent: nat
    var entered: nat

    constructor (pwm: nat)
      requires pwm < TWO_12
      ensures State() == Start(pwm)
    {
      npcrs, prevError, prevPcr, prevStc, prevDelta, threshold := PCRS_HIGH_GAIN, false, 0, 0, 0, 0;
      this.pwm, reloads, errors, inconsistent, entered := pwm, 0, 0, 0, 0;
    }

    function State(): Clock
      reads this
    {
      Clock(npcrs, prevError, prevPcr, prevStc, prevDelta, threshold, pwm, reloads, errors, inconsistent, entered)
    }

    /** xp_osi_clk_set_pid: the hardware is to load the next PCR it sees. */
    method SetPid()
      modifies this
      ensures State() == old(State()).(npcrs := 0, reloads := old(reloads) + 1)
    {
      reloads := reloads + 1;
      npcrs := 0;
    }

    /** pcr_interrupt. */
    method PcrInterrupt(e: Event)
      requires pwm < TWO_12
      modifies this
      ensures State() == Interrupt(old(State()), e)
    {
      hide Ticks, Adjustment, UpdatedPwm;
      var r := e.reading;
      entered := entered + 1;
      if r.pcrLow != r.pcrLowAgain {
        inconsistent := inconsistent + 1;
        return;
      }
      entered := entered - 1;
      if e.stcl {
        npcrs := 0;
      }
      if npcrs <= PCRS_HIGH_GAIN {
        npcrs := npcrs + 1;
      }
      if r.overflow || r.stcHigh / 0x40_0000 != r.pcrHigh / 0x40_0000 {
        errors := errors + 1;
        if prevError {
          SetPid();
          prevError := false;
        } else {
          prevError := true;
        }
        return;
      }
      Recover(r, e.undefined);
    }

    /** The software algorithm. */
    method Recover(r: Reading, undefined: int)
      requires pwm < TWO_12 && !SoftOverflow(r) && npcrs > 0
      modifies this
      ensures var s, pcr, stc := old(State()), Ticks(r.pcrHigh, r.pcrLow), Ticks(r.stcHigh, r.stcLow);
        State() == s.(prevError := false, prevPcr := pcr, prevStc := stc, prevDelta := r.delta,
                      threshold := if r.delta < LOW_THRESHOLD && s.prevDelta < LOW_THRESHOLD then HIGH_THRESHOLD else 0,
                      pwm := UpdatedPwm(s.pwm, Clamp(Adjustment(pcr, stc, s.prevPcr, s.prevStc, undefined), Limit(s.npcrs))))
    {
      hide Ticks, Adjustment, UpdatedPwm;
      prevError := false;
      var pcr, stc := Ticks(r.pcrHigh, r.pcrLow), Ticks(r.stcHigh, r.stcLow);
      var adjust := Adjustment(pcr, stc, prevPcr, prevStc, undefined);
      if r.delta < LOW_THRESHOLD && prevDelta < LOW_THRESHOLD {
        threshold := HIGH_THRESHOLD;
      } else if threshold != 0 {
        threshold := 0;
      }
      prevStc, prevPcr, prevDelta := stc, pcr, r.delta;
      if npcrs <= PCRS_HIGH_GAIN {
        if adjust > STC_LOAD_PWM_CLAMP {
          adjust := STC_LOAD_PWM_CLAMP;
        } else if adjust < -STC_LOAD_PWM_CLAMP {
          adjust := -STC_LOAD_PWM_CLAMP;
        }
      } else {
        if adjust > PWM_CLAMP {
          adjust := PWM_CLAMP;
        } else if adjust < -PWM_CLAMP {
          adjust := -PWM_CLAMP;
        }
      }
      pwm := UpdatedPwm(pwm, adjust);
    }
  }
}
