/**
 * The state of one DRAM queue and what each driver operation does to it, on values.
 * The class in DramQueue.dfy performs the same operations in place, and QueueSafety.dfy
 * proves what they keep.
 */
module QueueModel {
  import opened Ring

  datatype Mode = Skip | Lock

  datatype Status = Done | QueueAddressError | RegionSizeError | InternalError

  /** Lock records that fit in the one block of 128 bytes the driver ever allocates. */
  const LOCK_CAPACITY: nat := 16

  datatype Queue = Queue(
    base: nat,            // ulQueueAddr
    size: nat,            // ulQueueSize
    process: nat,         // ppProcessAddr: end of the data processed last
    lockAddr: nat,        // ppLockAddr: 0 until a region is locked
    read: nat,            // ppReadAddr: where the next delivery is read from
    stalled: bool,        // wRpiStatus
    held: seq<Region>,    // pLockData[..wLockInuse]
    writeStart: nat,      // hardware: start of the next delivery
    writeNow: nat,        // hardware: next byte to be written
    readPtr: nat          // hardware: never written past
  )
  {
    function End(): nat { base + size }
  }

  function UpdateReadPointer(q: Queue, a: nat): Queue {
    var i := RoundDown256(a);
    q.(readPtr := if i == q.base then i + q.size else i, stalled := false)
  }

  /** A stretch of unlocked space, with the size the driver computes for it. */
  datatype Gap = Gap(start: nat, end: nat, size: int)

  /** The space from the end of the last lock to the start of the first one. */
  function WrapGap(held: seq<Region>, n: nat): Gap
    requires held != []
  {
    var s, e := held[0].start, held[|held| - 1].end;
    Gap(e, s, if s <= e then n - (e - s) else s - e)
  }

  function InnerGap(held: seq<Region>, i: nat): Gap
    requires i + 1 < |held|
  {
    Gap(held[i].end, held[i + 1].start, held[i + 1].start - held[i].end)
  }

  /** The first of the largest gaps among the wrap gap and the first k inner gaps. */
  function LargestGap(held: seq<Region>, n: nat, k: nat): Gap
    requires k < |held|
  {
    if k == 0 then WrapGap(held, n)
    else
      var g := LargestGap(held, n, k - 1);
      if InnerGap(held, k - 1).size > g.size then InnerGap(held, k - 1) else g
  }

  function PlaceInGap(q: Queue, g: Gap): Queue {
    if g.start < q.base || g.start > q.End() || g.end < q.base || g.end > q.End() || g.size < 256 then q
    else
      var up := RoundUp4(g.start);
      var i := if up == q.End() then q.base else up;
      UpdateReadPointer(q.(writeStart := i, writeNow := i), g.end).(process := i, read := i, lockAddr := g.end)
  }

  function ProcessReadPointer(q: Queue): Queue {
    if q.held == [] then UpdateReadPointer(q, q.process)
    else PlaceInGap(q, LargestGap(q.held, q.size, |q.held| - 1))
  }

  /** Index of the first record whose start or whose end is the given one, or |held|. */
  function FindRecord(held: seq<Region>, r: Region): (i: nat)
    ensures i <= |held|
    ensures i < |held| ==> held[i].start == r.start || held[i].end == r.end
    ensures forall k :: 0 <= k < i ==> held[k].start != r.start && held[k].end != r.end
  {
    if held == [] then 0
    else if held[0].start == r.start || held[0].end == r.end then 0
    else 1 + FindRecord(held[1..], r)
  }

  lemma FirstMatch(held: seq<Region>, r: Region, i: nat)
    requires i <= |held|
    requires forall k :: 0 <= k < i ==> held[k].start != r.start && held[k].end != r.end
    requires i < |held| ==> held[i].start == r.start || held[i].end == r.end
    ensures FindRecord(held, r) == i
  {
    if i > 0 { FirstMatch(held[1..], r, i - 1); }
  }

  /** The list after record i gave up region r: gone, or shortened at the end that matches. */
  function Release(held: seq<Region>, i: nat, r: Region): seq<Region>
    requires i < |held|
  {
    if held[i] == r then held[..i] + held[i + 1..]
    else if held[i].start == r.start then held[i := Region(r.end, held[i].end)]
    else held[i := Region(held[i].start, r.start)]
  }

  function UnlockData(q: Queue, r: Region): (Queue, Status) {
    if q.held == [] then (q, QueueAddressError)
    else
      var i := FindRecord(q.held, r);
      if i == |q.held| then (q, QueueAddressError)
      else
        (MovedOn(q.(held := Release(q.held, i, r)), i, r), Done)
  }

  /** What follows the release of region r from record i. */
  function MovedOn(q: Queue, i: nat, r: Region): Queue {
    if q.lockAddr == r.start then
      if q.held == [] then UpdateReadPointer(q, q.process)
      else
        var next := if i < |q.held| then q.held[i].start else q.held[0].start;
        UpdateReadPointer(q.(lockAddr := next), next)
    else if q.stalled then ProcessReadPointer(q)
    else q
  }

  /** End address of a region given as start and length. */
  function EndOf(q: Queue, start: nat, length: nat): nat {
    if start + length >= q.End() then q.base + (start + length - q.End()) else start + length
  }

  function UnlockLength(q: Queue, start: nat, length: nat): (Queue, Status) {
    if q.held == [] then (q, QueueAddressError)
    else if length == 0 then (q, RegionSizeError)
    else if start < q.base || length > q.size then (q, QueueAddressError)
    else UnlockData(q, Region(start, EndOf(q, start, length)))
  }

  /** Where a region starting at the given address goes in the sorted list. */
  function InsertAt(held: seq<Region>, start: nat): (i: nat)
    ensures i <= |held|
    ensures forall k :: 0 <= k < i ==> held[k].start <= start
    ensures i < |held| ==> start < held[i].start
  {
    if held == [] || start < held[0].start then 0 else 1 + InsertAt(held[1..], start)
  }

  lemma FirstAbove(held: seq<Region>, start: nat, i: nat)
    requires i <= |held|
    requires forall k :: 0 <= k < i ==> held[k].start <= start
    requires i < |held| ==> start < held[i].start
    ensures InsertAt(held, start) == i
  {
    if i > 0 { FirstAbove(held[1..], start, i - 1); }
  }

  function LockData(q: Queue, mode: Mode, r: Region): (Queue, Status) {
    var q' := q.(process := r.end);
    match mode
    case Lock =>
      if |q.held| >= LOCK_CAPACITY then (q', InternalError)
      else
        var i := InsertAt(q.held, r.start);
        (q'.(held := q.held[..i] + [r] + q.held[i..],
             lockAddr := if q.held == [] then r.start else q.lockAddr), Done)
    case Skip =>
      (if q.held == [] then UpdateReadPointer(q', r.end) else q', Done)
  }

  /** What there is to take: from the address read from to where the hardware's next packet starts. */
  predicate HasDelivery(q: Queue) {
    q.base <= q.read && q.writeStart <= q.End() && q.read != q.writeStart
  }

  /** xp_osi_queue_process_data for a stream, apart from the callback: all there is is locked. */
  function StreamData(q: Queue): Queue {
    if !HasDelivery(q) then q
    else LockData(q, Lock, Region(q.read, q.writeStart)).0.(read := q.writeStart)
  }

  /** xp_osi_queue_process_interrupt for a read pointer error. */
  function ReadPointerError(q: Queue): Queue {
    ProcessReadPointer(q.(stalled := true))
  }

  /** The queue after XP_QUEUE_CONTROL_RESET; the hardware moves its own pointers to the bottom. */
  function Reset(q: Queue): Queue {
    q.(process := q.base, read := q.base, held := [], lockAddr := 0,
       writeStart := q.base, writeNow := q.base, readPtr := q.base)
  }
}
