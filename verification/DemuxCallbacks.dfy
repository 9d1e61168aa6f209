/**
 * The notification callbacks: a delivered section or stretch of stream goes into the buffers of
 * the filters it matched, and its part of the transport queue is given back.
 */
module DemuxCallbacks {
  import opened FilterMatch
  import opened TableWalk
  import opened CircularBuffer
  import opened SectionBuffer

  /** XP_CHANNEL_NOTIFY_DATA: where the data begins on the transport queue, and whom it matched. */
  datatype Info = Info(channel: nat, bits: seq<bool>, start: nat, length: nat)

  predicate Matched(channel: nat, matchBits: seq<bool>, info: Info) {
    channel == info.channel
    && forall i | 0 <= i < |matchBits| && matchBits[i] :: i < |info.bits| && info.bits[i]
  }

  /** The bits that two match words have in common. */
  function Common(a: seq<bool>, b: seq<bool>): seq<bool> {
    seq(|a|, i requires 0 <= i < |a| => a[i] && i < |b| && b[i])
  }

  /** The callback's test: what the filter's word and the section's have in common is the filter's word. */
  lemma MatchedIff(channel: nat, matchBits: seq<bool>, info: Info)
    ensures Matched(channel, matchBits, info) <==> channel == info.channel && Common(matchBits, info.bits) == matchBits
  {
    if Common(matchBits, info.bits) == matchBits {
      forall i | 0 <= i < |matchBits| && matchBits[i] ensures i < |info.bits| && info.bits[i] {
        assert Common(matchBits, info.bits)[i];
      }
    }
  }

  predicate OnQueue(info: Info, queue: seq<bv8>) {
    |queue| % 4 == 0 && info.start % 4 == 0 && info.start < |queue| && info.length <= |queue|
  }

  lemma HeaderOnQueue(info: Info, queue: seq<bv8>)
    requires OnQueue(info, queue)
    ensures info.start + 3 < |queue|
  {
  }

  /** The length the section itself states. */
  function Stated(info: Info, queue: seq<bv8>): nat
    requires OnQueue(info, queue)
  {
    HeaderOnQueue(info, queue);
    SectionLength(queue[info.start + 1], queue[info.start + 2]) + 3
  }

  /** Sections the callback does not pass on, to anybody. */
  predicate Unusable(info: Info, queue: seq<bv8>)
    requires OnQueue(info, queue)
  {
    info.length < 3 || Stated(info, queue) == 3 || Stated(info, queue) > info.length
  }

  lemma StatedIsWhole(info: Info, queue: seq<bv8>)
    requires OnQueue(info, queue) && !Unusable(info, queue)
    ensures Stated(info, queue) <= |queue| && Whole(RingBytes(queue, info.start, Stated(info, queue)))
  {
    HeaderOnQueue(info, queue);
    var s := RingBytes(queue, info.start, Stated(info, queue));
    assert Wrap(info.start + 1, |queue|) == info.start + 1 && Wrap(info.start + 2, |queue|) == info.start + 2;
    assert s[1] == queue[info.start + 1] && s[2] == queue[info.start + 2];
  }

  /** What the callback leaves of one filter's sections. */
  function Received(size: nat, sections: seq<seq<bv8>>, matched: bool, info: Info, queue: seq<bv8>): seq<seq<bv8>>
    requires OnQueue(info, queue)
  {
    if matched && !Unusable(info, queue) then
      StatedIsWhole(info, queue);
      Next(size, sections, Arrive(RingBytes(queue, info.start, Stated(info, queue))))
    else sections
  }

  /** The filters do not share buffers. */
  predicate Separate(filters: seq<SectionFilter>) {
    forall i, j | 0 <= i < j < |filters| ::
      filters[i] != filters[j] && filters[i].buffer != filters[j].buffer && filters[i].buffer.data != filters[j].buffer.data
  }

  function Buffers(filters: seq<SectionFilter>): set<Buffer> {
    set f | f in filters :: f.buffer
  }

  function Arrays(filters: seq<SectionFilter>): set<array<bv8>> {
    set f | f in filters :: f.buffer.data
  }

  ghost predicate AllValid(filters: seq<SectionFilter>)
    reads filters, Buffers(filters), Arrays(filters)
  {
    forall i | 0 <= i < |filters| :: filters[i].Valid()
  }

  predicate IsMatch(filters: seq<SectionFilter>, info: Info, i: nat) {
    i < |filters| && Matched(filters[i].channel, filters[i].matchBits, info)
  }

  method FindMatches(filters: seq<SectionFilter>, info: Info) returns (matches: seq<nat>)
    ensures forall k | 0 <= k < |matches| :: IsMatch(filters, info, matches[k])
    ensures forall k, m | 0 <= k < m < |matches| :: matches[k] < matches[m]
    ensures forall i | IsMatch(filters, info, i) :: i in matches
  {
    matches := [];
    var i := 0;
    while i < |filters|
      invariant i <= |filters|
      invariant forall k | 0 <= k < |matches| :: matches[k] < i && IsMatch(filters, info, matches[k])
      invariant forall k, m | 0 <= k < m < |matches| :: matches[k] < matches[m]
      invariant forall k | 0 <= k < i && IsMatch(filters, info, k) :: k in matches
    {
      if Matched(filters[i].channel, filters[i].matchBits, info) {
        matches := matches + [i];
      }
      i := i + 1;
    }
  }

  /** One filter takes a section; the others are not touched. */
  method Give(filters: seq<SectionFilter>, k: nat, queue: seq<bv8>, start: nat, length: nat)
    requires k < |filters| && Separate(filters) && AllValid(filters)
    requires start < |queue| && length <= |queue| && Whole(RingBytes(queue, start, length))
    modifies filters, Buffers(filters), Arrays(filters)
    ensures AllValid(filters)
    ensures filters[k].sections ==
      Next(filters[k].buffer.data.Length, old(filters[k].sections), Arrive(RingBytes(queue, start, length)))
    ensures forall m | 0 <= m < |filters| && m != k :: filters[m].sections == old(filters[m].sections)
  {
    var f := filters[k];
    assert f in filters && f.buffer in Buffers(filters) && f.buffer.data in Arrays(filters);
    f.Accept(queue, start, length);
    forall m | 0 <= m < |filters| ensures filters[m].Valid() {
      assert m != k ==> filters[m] != f && filters[m].buffer != f.buffer && filters[m].buffer.data != f.buffer.data;
    }
  }

  /**
   * DemuxSectionCallback. `unlocks` counts how often the section's region is given back: once, if
   * the section matched a filter, and otherwise never.
   */
  method SectionCallback(filters: seq<SectionFilter>, info: Info, queue: seq<bv8>) returns (unlocks: nat)
    requires Separate(filters) && AllValid(filters) && OnQueue(info, queue)
    modifies filters, Buffers(filters), Arrays(filters)
    ensures AllValid(filters)
    ensures unlocks == if exists i :: IsMatch(filters, info, i) then 1 else 0
    ensures forall i | 0 <= i < |filters| ::
      filters[i].sections == Received(filters[i].buffer.data.Length, old(filters[i].sections), IsMatch(filters, info, i), info, queue)
  {
    hide AllValid, Separate, Received, Whole, Next, Matched;
    var matches := FindMatches(filters, info);
    if matches == [] {
      NotReceived(info, queue);
      return 0;
    }
    assert IsMatch(filters, info, matches[0]);
    unlocks := 1;
    Deliver(filters, matches, info, queue);
  }

  lemma NotReceived(info: Info, queue: seq<bv8>)
    requires OnQueue(info, queue)
    ensures forall size, sections {:trigger Received(size, sections, false, info, queue)} ::
      Received(size, sections, false, info, queue) == sections
    ensures Unusable(info, queue) ==> forall size, sections, m {:trigger Received(size, sections, m, info, queue)} ::
      Received(size, sections, m, info, queue) == sections
  {
  }

  /** The section into every matching filter's buffer; an unusable one into none. */
  method Deliver(filters: seq<SectionFilter>, matches: seq<nat>, info: Info, queue: seq<bv8>)
    requires Separate(filters) && AllValid(filters) && OnQueue(info, queue)
    requires forall k | 0 <= k < |matches| :: matches[k] < |filters|
    requires forall k, m | 0 <= k < m < |matches| :: matches[k] < matches[m]
    modifies filters, Buffers(filters), Arrays(filters)
    ensures AllValid(filters)
    ensures forall i | 0 <= i < |filters| ::
      filters[i].sections == Received(filters[i].buffer.data.Length, old(filters[i].sections), i in matches, info, queue)
  {
    hide AllValid, Separate, Whole, Next, Received, OnQueue;
    HeaderOnQueue(info, queue);
    NotReceived(info, queue);
    var j := 0;
    while j < |matches|
      invariant j <= |matches| && AllValid(filters)
      invariant forall i | 0 <= i < |filters| ::
        filters[i].sections == Received(filters[i].buffer.data.Length, old(filters[i].sections), i in matches[..j], info, queue)
    {
      if info.length < 3 {
        return;
      }
      var length := SectionLength(queue[info.start + 1], queue[info.start + 2]) + 3;
      if length == 3 {
        return;
      }
      if length > info.length {
        return;
      }
      StatedIsWhole(info, queue);
      Give(filters, matches[j], queue, info.start, length);
      NowReceived(info, queue);
      assert matches[..j + 1] == matches[..j] + [matches[j]];
      j := j + 1;
    }
    assert matches[..j] == matches;
  }

  lemma NowReceived(info: Info, queue: seq<bv8>)
    requires OnQueue(info, queue) && !Unusable(info, queue)
    ensures Stated(info, queue) <= |queue|
    ensures forall size, sections {:trigger Received(size, sections, true, info, queue)} ::
      Received(size, sections, true, info, queue) ==
        Next(size, sections, Arrive(RingBytes(queue, info.start, Stated(info, queue))))
  {
    StatedIsWhole(info, queue);
  }

  // ----- streams

  /** A filter for a stream: its channel and its buffer. */
  datatype StreamFilter = StreamFilter(channel: nat, buffer: Buffer)

  predicate SeparateStreams(filters: seq<StreamFilter>) {
    forall i, j | 0 <= i < j < |filters| ::
      filters[i].buffer != filters[j].buffer && filters[i].buffer.data != filters[j].buffer.data
  }

  function StreamBuffers(filters: seq<StreamFilter>): set<Buffer> {
    set f | f in filters :: f.buffer
  }

  function StreamArrays(filters: seq<StreamFilter>): set<array<bv8>> {
    set f | f in filters :: f.buffer.data
  }

  ghost predicate StreamsValid(filters: seq<StreamFilter>)
    reads StreamBuffers(filters), StreamArrays(filters)
  {
    forall i | 0 <= i < |filters| :: filters[i].buffer.Valid()
  }

  ghost predicate StreamsBounded(filters: seq<StreamFilter>)
    reads StreamBuffers(filters), StreamArrays(filters)
  {
    forall i | 0 <= i < |filters| :: filters[i].buffer.Bounded()
  }

  /** Nothing at all arrives, before anything else has, in a buffer whose size does not divide 2^32. */
  predicate EmptyFirst(b: Buffer, info: Info)
    reads b
  {
    info.length == 0 && b.write == BEFORE_FIRST && b.data.Length > 0 && WORD % b.data.Length != 0
  }

  function FirstOn(filters: seq<StreamFilter>, channel: nat): (i: nat)
    ensures i <= |filters| && (i < |filters| ==> filters[i].channel == channel)
    ensures forall k | 0 <= k < i :: filters[k].channel != channel
  {
    if filters == [] then 0
    else if filters[0].channel == channel then 0
    else 1 + FirstOn(filters[1..], channel)
  }

  /**
   * DemuxPESCallback: the first filter on the channel takes the data whole, or not at all when it
   * has too little room. Its part of the queue is given back once, unless no filter is on the channel.
   */
  method StreamCallback(filters: seq<StreamFilter>, info: Info, queue: seq<bv8>) returns (unlocks: nat)
    requires SeparateStreams(filters) && StreamsValid(filters)
    requires info.start < |queue| && info.length <= |queue|
    modifies StreamBuffers(filters), StreamArrays(filters)
    ensures StreamsBounded(filters)
    ensures StreamsValid(filters) <==>
      !(FirstOn(filters, info.channel) < |filters| && old(EmptyFirst(filters[FirstOn(filters, info.channel)].buffer, info)))
    ensures unlocks == if FirstOn(filters, info.channel) < |filters| then 1 else 0
    ensures forall i | 0 <= i < |filters| ::
      filters[i].buffer.Contents() ==
      if i == FirstOn(filters, info.channel) && old(filters[i].buffer.count) + info.length <= filters[i].buffer.data.Length
      then old(filters[i].buffer.Contents()) + RingBytes(queue, info.start, info.length)
      else old(filters[i].buffer.Contents())
  {
    var i := 0;
    while i < |filters| && filters[i].channel != info.channel
      invariant i <= FirstOn(filters, info.channel)
    {
      i := i + 1;
    }
    if i == |filters| {
      return 0;
    }
    var b := filters[i].buffer;
    assert filters[i] in filters;
    var room := b.data.Length - b.count;
    if room < info.length {
      return 1;
    }
    b.CopyFromQueue(queue, info.start, info.length);
    assert forall k | 0 <= k < |filters| && k != i :: filters[k].buffer.Valid();
    return 1;
  }
}
