/**
 * The buffer of a section filter: always a whole number of sections, handed to the reader one by
 * one in the order they arrived.
 */
module SectionBuffer {
  import opened FilterMatch
  import opened TableWalk
  import opened CircularBuffer

  predicate Whole(s: seq<bv8>) {
    |s| > 3 && |s| == 3 + SectionLength(s[1], s[2])
  }

  function Joined(sections: seq<seq<bv8>>): seq<bv8> {
    if sections == [] then [] else sections[0] + Joined(sections[1..])
  }

  predicate AllWhole(sections: seq<seq<bv8>>) {
    forall k | 0 <= k < |sections| :: Whole(sections[k])
  }

  lemma {:induction false} JoinedMore(sections: seq<seq<bv8>>, s: seq<bv8>)
    ensures Joined(sections + [s]) == Joined(sections) + s
  {
    if sections == [] {
      assert [s][1..] == [];
      assert [] + [s] == [s];
      assert s + Joined([]) == s;
    } else {
      JoinedMore(sections[1..], s);
      assert (sections + [s])[1..] == sections[1..] + [s];
      assert sections[0] + (Joined(sections[1..]) + s) == sections[0] + Joined(sections[1..]) + s;
    }
  }

  // ----- runs

  datatype Event = Arrive(section: seq<bv8>) | Ask(room: nat)

  datatype ReadResult = Section(s: seq<bv8>) | TimedOut | RoomTooSmall

  /** A section is dropped when it would leave no byte of the buffer free. */
  predicate Fits(size: nat, sections: seq<seq<bv8>>, s: seq<bv8>) {
    |Joined(sections)| + |s| < size
  }

  function Answer(sections: seq<seq<bv8>>, room: nat): ReadResult {
    if sections == [] then TimedOut
    else if room < |sections[0]| then RoomTooSmall
    else Section(sections[0])
  }

  function Next(size: nat, sections: seq<seq<bv8>>, e: Event): seq<seq<bv8>> {
    match e
    case Arrive(s) => if Fits(size, sections, s) then sections + [s] else sections
    case Ask(room) => if Answer(sections, room).Section? then sections[1..] else sections
  }

  function Run(size: nat, sections: seq<seq<bv8>>, es: seq<Event>): seq<seq<bv8>>
    decreases |es|
  {
    if es == [] then sections else Run(size, Next(size, sections, es[0]), es[1..])
  }

  /** The section that finds room when it arrives, if one does. */
  function KeptBy(size: nat, sections: seq<seq<bv8>>, e: Event): seq<seq<bv8>> {
    match e
    case Arrive(s) => if Fits(size, sections, s) then [s] else []
    case Ask(_) => []
  }

  /** The section a read returns, if it succeeds. */
  function ReadBy(sections: seq<seq<bv8>>, e: Event): seq<seq<bv8>> {
    match e
    case Arrive(_) => []
    case Ask(room) => match Answer(sections, room)
                      case Section(s) => [s]
                      case _ => []
  }

  function Kept(size: nat, sections: seq<seq<bv8>>, es: seq<Event>): seq<seq<bv8>>
    decreases |es|
  {
    if es == [] then [] else KeptBy(size, sections, es[0]) + Kept(size, Next(size, sections, es[0]), es[1..])
  }

  function ReadOut(size: nat, sections: seq<seq<bv8>>, es: seq<Event>): seq<seq<bv8>>
    decreases |es|
  {
    if es == [] then [] else ReadBy(sections, es[0]) + ReadOut(size, Next(size, sections, es[0]), es[1..])
  }

  lemma StepIsFifo(size: nat, sections: seq<seq<bv8>>, e: Event)
    ensures ReadBy(sections, e) + Next(size, sections, e) == sections + KeptBy(size, sections, e)
  {
  }

  lemma Regroup(a: seq<seq<bv8>>, b: seq<seq<bv8>>, c: seq<seq<bv8>>)
    ensures a + b + c == a + (b + c)
  {
  }

  /** Over any run, what was read and what is left is what was there and what arrived, in order. */
  lemma {:induction false} RunIsFifo(size: nat, sections: seq<seq<bv8>>, es: seq<Event>)
    ensures ReadOut(size, sections, es) + Run(size, sections, es) == sections + Kept(size, sections, es)
    decreases |es|
  {
    if es != [] {
      hide Next, KeptBy, ReadBy;
      var next, rest := Next(size, sections, es[0]), es[1..];
      RunIsFifo(size, next, rest);
      StepIsFifo(size, sections, es[0]);
      Regroup(ReadBy(sections, es[0]), ReadOut(size, next, rest), Run(size, next, rest));
      Regroup(ReadBy(sections, es[0]), next, Kept(size, next, rest));
      Regroup(sections, KeptBy(size, sections, es[0]), Kept(size, next, rest));
    }
  }

  /** Over any run a byte of the buffer stays free. */
  lemma {:induction false} NeverFull(size: nat, sections: seq<seq<bv8>>, es: seq<Event>)
    requires |Joined(sections)| < size
    ensures |Joined(Run(size, sections, es))| < size
    decreases |es|
  {
    if es != [] {
      var next := Next(size, sections, es[0]);
      if es[0].Arrive? {
        JoinedMore(sections, es[0].section);
      }
      NeverFull(size, next, es[1..]);
    }
  }

  /** A section is dropped exactly when the buffer would have no byte free with it. */
  lemma KeptIff(size: nat, sections: seq<seq<bv8>>, s: seq<bv8>)
    ensures Next(size, sections, Arrive(s)) == if |Joined(sections + [s])| < size then sections + [s] else sections
  {
    JoinedMore(sections, s);
  }

  /** A read that does not succeed leaves everything for the next one. */
  lemma RefusedReadChangesNothing(size: nat, sections: seq<seq<bv8>>, small: nat, room: nat)
    requires sections != [] && small < |sections[0]| <= room
    ensures Run(size, sections, [Ask(small), Ask(room)]) == sections[1..]
    ensures ReadOut(size, sections, [Ask(small), Ask(room)]) == [sections[0]]
  {
    var es, last := [Ask(small), Ask(room)], [Ask(room)];
    assert es[1..] == last && last[1..] == [];
    assert Next(size, sections, es[0]) == sections && Next(size, sections, last[0]) == sections[1..];
    assert Run(size, sections[1..], []) == sections[1..] && ReadOut(size, sections[1..], []) == [];
    assert ReadOut(size, sections, last) == [sections[0]] + [];
  }

  // ----- in place

  class SectionFilter {
    const channel: nat
    const matchBits: seq<bool>
    const buffer: Buffer
    ghost var sections: seq<seq<bv8>>

    constructor (channel: nat, matchBits: seq<bool>, size: nat)
      requires 0 < size && 2 * size <= WORD
      ensures Valid() && sections == [] && fresh(buffer) && fresh(buffer.data)
      ensures this.channel == channel && this.matchBits == matchBits
    {
      this.channel, this.matchBits := channel, matchBits;
      buffer := new Buffer(size);
      sections := [];
    }

    ghost predicate Valid()
      reads this, buffer, buffer.data
    {
      buffer.Valid() && AllWhole(sections) && buffer.Contents() == Joined(sections)
    }

    /** What the section callback does with one matching filter's buffer. */
    method Accept(queue: seq<bv8>, start: nat, length: nat)
      requires Valid() && start < |queue| && length <= |queue| && Whole(RingBytes(queue, start, length))
      modifies this`sections, buffer`count, buffer`write, buffer.data
      ensures Valid()
      ensures sections == Next(buffer.data.Length, old(sections), Arrive(RingBytes(queue, start, length)))
    {
      if buffer.count + length >= buffer.data.Length {
        return;
      }
      ghost var s := RingBytes(queue, start, length);
      buffer.AppendFromQueue(queue, start, length);
      JoinedMore(sections, s);
      sections := sections + [s];
    }

    method Take(length: nat) returns (bytes: seq<bv8>)
      requires buffer.Valid() && length <= buffer.count
      modifies buffer`count, buffer`read
      ensures buffer.Valid() && bytes == old(buffer.Contents())[..length]
      ensures buffer.Contents() == old(buffer.Contents())[length..]
    {
      bytes := [];
      var i := 0;
      ghost var all := buffer.Contents();
      while i < length
        invariant i <= length <= |all| && buffer.Valid() && bytes == all[..i] && buffer.Contents() == all[i..]
      {
        var one := buffer.ReadBytes(1);
        assert all[i..][..1] == [all[i]] && all[i..][1..] == all[i + 1..];
        bytes := bytes + one;
        i := i + 1;
      }
    }

    /** demux_filter_read on a section filter, once it has stopped waiting. */
    method Read(room: nat) returns (r: ReadResult)
      requires Valid() && buffer.data.Length > 3
      modifies this`sections, buffer`count, buffer`read
      ensures Valid()
      ensures r == Answer(old(sections), room)
      ensures sections == Next(buffer.data.Length, old(sections), Ask(room))
    {
      if buffer.count == 0 {
        NoBytesNoSections(sections);
        return TimedOut;
      }
      assert sections != [];
      ghost var first := sections[0];
      FirstSection(sections);
      var b1 := buffer.Peek(1);
      var b2 := buffer.Peek(2);
      var length := SectionLength(b1, b2) + 3;
      if room < length {
        return RoomTooSmall;
      }
      var bytes := Take(length);
      sections := sections[1..];
      return Section(bytes);
    }
  }

  lemma NoBytesNoSections(sections: seq<seq<bv8>>)
    requires AllWhole(sections)
    ensures Joined(sections) == [] <==> sections == []
  {
  }

  lemma FirstSection(sections: seq<seq<bv8>>)
    requires AllWhole(sections) && sections != []
    ensures var all, first := Joined(sections), sections[0];
      && |first| <= |all| && |first| > 3 && all[..|first|] == first && all[|first|..] == Joined(sections[1..])
      && all[1] == first[1] && all[2] == first[2] && AllWhole(sections[1..])
  {
  }
}
