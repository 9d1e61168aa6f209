/**
 * check_filters: the software's second look at the match word the hardware put in front of a
 * section. Bits whose filter no longer wants the section are cleared.
 */
module FilterCheck {
  import opened FilterGrid
  import opened FilterTables
  import opened FilterSteps
  import opened FilterMoves
  import opened FilterRules
  import opened FilterMatch

  /** XP_FILTER_SHORT: what to do with a section that is shorter than a filter. */
  datatype Short = ShortDefault | ShortMiss | ShortHit

  const BITS: nat := 32

  /** How one set bit of the match word is dealt with. */
  datatype Verdict = Keep | Drop | AsBefore

  /** What the channel currently says of short sections. */
  function ShortRule(channel: Short, fallback: Short): Short {
    if channel.ShortDefault? then fallback else channel
  }

  predicate Usable(fl: seq<Slot>, ch: Channel) {
    && |ch.table| == CHANNELS == BITS && ch.inUse <= ch.count <= BITS
    && (forall s | 0 <= s < ch.count && ch.table[s] != NO_FILTER ::
          IsLive(fl, ch.table[s]) && Filled(fl[ch.table[s]].f))
  }

  /** Two slots never name the same filter. */
  predicate NamedOnce(ch: Channel) {
    forall s, t | 0 <= s < t < ch.count && t < |ch.table| && ch.table[s] != NO_FILTER :: ch.table[s] != ch.table[t]
  }

  function Judge(fl: seq<Slot>, ch: Channel, i: nat, section: seq<bv8>, short: Short): Verdict
    requires Usable(fl, ch) && i < BITS
  {
    if i >= ch.inUse then Drop
    else if ch.table[i] == NO_FILTER then Drop
    else
      var f := fl[ch.table[i]].f;
      if !f.state.Enabled? then Drop
      else if f.length > |section| then (if short.ShortMiss? then Drop else AsBefore)
      else if f.soft then (if SectionHit(f, section) then Keep else Drop)
      else Keep
  }

  // ----- reference definition, on the filters as they were

  /** The decision a bit without one of its own takes over: that of the last earlier set bit with one. */
  predicate Inherited(fl: seq<Slot>, ch: Channel, i: nat, word: seq<bool>, section: seq<bv8>, short: Short)
    requires Usable(fl, ch) && i <= BITS == |word|
  {
    if i == 0 then true
    else if !word[i - 1] || Judge(fl, ch, i - 1, section, short).AsBefore? then
      Inherited(fl, ch, i - 1, word, section, short)
    else Judge(fl, ch, i - 1, section, short).Keep?
  }

  predicate Survives(fl: seq<Slot>, ch: Channel, i: nat, word: seq<bool>, section: seq<bv8>, short: Short)
    requires Usable(fl, ch) && i < BITS == |word|
  {
    word[i] &&
    match Judge(fl, ch, i, section, short)
    case Keep => true
    case Drop => false
    case AsBefore => Inherited(fl, ch, i, word, section, short)
  }

  /** Set bit i confirms the update of filter k. */
  predicate Confirms(fl: seq<Slot>, ch: Channel, word: seq<bool>, section: seq<bv8>, i: nat, k: nat)
    requires Usable(fl, ch) && i < BITS == |word|
  {
    word[i] && i < ch.inUse && ch.table[i] == k && k != NO_FILTER
    && var f := fl[k].f; f.state.Enabled? && f.soft && f.length <= |section| && SectionHit(f, section)
  }

  predicate ConfirmedBy(fl: seq<Slot>, ch: Channel, word: seq<bool>, section: seq<bv8>, n: nat, k: nat)
    requires Usable(fl, ch) && n <= BITS == |word|
  {
    exists i :: 0 <= i < n && Confirms(fl, ch, word, section, i, k)
  }

  /** The filters after the first n bits: a confirmed one no longer asks for the software comparison. */
  predicate After(fl: seq<Slot>, fl': seq<Slot>, ch: Channel, word: seq<bool>, section: seq<bv8>, n: nat)
    requires Usable(fl, ch) && n <= BITS == |word|
  {
    |fl'| == |fl| && forall k | 0 <= k < |fl| :: AfterAt(fl, fl'[k], ch, word, section, n, k)
  }

  predicate AfterAt(fl: seq<Slot>, y: Slot, ch: Channel, word: seq<bool>, section: seq<bv8>, n: nat, k: nat)
    requires Usable(fl, ch) && n <= BITS == |word| && k < |fl|
  {
    if ConfirmedBy(fl, ch, word, section, n, k) && fl[k].Live? then y == Live(fl[k].f.(soft := false))
    else y == fl[k]
  }

  /** A filter whose slot is still to come has not been touched. */
  lemma NotYet(fl: seq<Slot>, fl': seq<Slot>, ch: Channel, word: seq<bool>, section: seq<bv8>, i: nat)
    requires Usable(fl, ch) && i < BITS == |word| && NamedOnce(ch) && After(fl, fl', ch, word, section, i)
    requires i < ch.inUse && ch.table[i] != NO_FILTER
    ensures ch.table[i] < |fl'| && fl'[ch.table[i]] == fl[ch.table[i]]
  {
    var id := ch.table[i];
    assert AfterAt(fl, fl'[id], ch, word, section, i, id);
    forall t | 0 <= t < i ensures !Confirms(fl, ch, word, section, t, id) {
    }
  }

  lemma AfterNext(fl: seq<Slot>, fl': seq<Slot>, fl'': seq<Slot>, ch: Channel, word: seq<bool>, section: seq<bv8>, i: nat)
    requires Usable(fl, ch) && i < BITS == |word| && After(fl, fl', ch, word, section, i)
    requires fl'' == if ch.table[i] != NO_FILTER && Confirms(fl, ch, word, section, i, ch.table[i])
                     then fl'[ch.table[i] := Live(fl[ch.table[i]].f.(soft := false))] else fl'
    ensures After(fl, fl'', ch, word, section, i + 1)
  {
    forall k | 0 <= k < |fl| ensures AfterAt(fl, fl''[k], ch, word, section, i + 1, k) {
      assert AfterAt(fl, fl'[k], ch, word, section, i, k);
      ConfirmedNext(fl, ch, word, section, i, k);
    }
  }

  lemma ConfirmedNext(fl: seq<Slot>, ch: Channel, word: seq<bool>, section: seq<bv8>, i: nat, k: nat)
    requires Usable(fl, ch) && i < BITS == |word|
    ensures ConfirmedBy(fl, ch, word, section, i + 1, k) <==>
      ConfirmedBy(fl, ch, word, section, i, k) || Confirms(fl, ch, word, section, i, k)
  {
    if Confirms(fl, ch, word, section, i, k) {
    } else if ConfirmedBy(fl, ch, word, section, i + 1, k) {
      var t :| 0 <= t < i + 1 && Confirms(fl, ch, word, section, t, k);
      assert 0 <= t < i;
    }
  }

  /** The match word after the first n bits. */
  predicate Checked(fl: seq<Slot>, ch: Channel, word: seq<bool>, word': seq<bool>, section: seq<bv8>, short: Short, n: nat)
    requires Usable(fl, ch) && n <= BITS == |word|
  {
    && |word'| == BITS
    && (forall i | 0 <= i < n :: word'[i] <==> Survives(fl, ch, i, word, section, short))
    && (forall i | n <= i < BITS :: word'[i] == word[i])
  }

  class Checker {
    const slots: array<Slot>

    constructor (slots: array<Slot>)
      ensures this.slots == slots
    {
      this.slots := slots;
    }

    /** check_filters, for the section of the given length that starts at `start` on the ring. */
    method CheckFilters(ch: Channel, word: seq<bool>, mem: seq<bv8>, start: nat, length: nat, short: Short)
        returns (word': seq<bool>)
      requires |word| == BITS && start < |mem| && length <= |mem| && Usable(slots[..], ch) && NamedOnce(ch)
      modifies slots
      ensures Checked(old(slots[..]), ch, word, word', RingBytes(mem, start, length), short, BITS)
      ensures After(old(slots[..]), slots[..], ch, word, RingBytes(mem, start, length), BITS)
    {
      ghost var fl, section := slots[..], RingBytes(mem, start, length);
      hide After, NamedOnce, RingBytes, SectionHit, Survives, Inherited;
      word' := word;
      var i, skip := 0, false;
      CheckStarts(fl, ch, word, section, short);
      while i < BITS
        invariant i <= BITS && slots.Length == |fl| && Checked(fl, ch, word, word', section, short, i)
        invariant After(fl, slots[..], ch, word, section, i)
        invariant skip <==> !Inherited(fl, ch, i, word, section, short)
      {
        if word[i] {
          skip := CheckBit(ch, i, skip, word, mem, start, length, short, fl);
          if skip {
            word' := word'[i := false];
          }
        } else {
          UnsetBit(fl, slots[..], ch, word, section, short, i);
        }
        i := i + 1;
      }
    }

    /** One set bit: the branches of the loop of check_filters. */
    method CheckBit(ch: Channel, i: nat, skip0: bool, ghost word: seq<bool>, mem: seq<bv8>, start: nat, length: nat,
                    short: Short, ghost fl: seq<Slot>) returns (skip: bool)
      requires |word| == BITS && i < BITS && word[i] && start < |mem| && length <= |mem|
      requires slots.Length == |fl| && Usable(fl, ch) && NamedOnce(ch)
      requires After(fl, slots[..], ch, word, RingBytes(mem, start, length), i)
      requires skip0 <==> !Inherited(fl, ch, i, word, RingBytes(mem, start, length), short)
      modifies slots
      ensures After(fl, slots[..], ch, word, RingBytes(mem, start, length), i + 1)
      ensures skip <==> !Survives(fl, ch, i, word, RingBytes(mem, start, length), short)
      ensures skip <==> !Inherited(fl, ch, i + 1, word, RingBytes(mem, start, length), short)
    {
      ghost var fl1, section := slots[..], RingBytes(mem, start, length);
      hide After, NamedOnce, RingBytes, SectionHit;
      skip := skip0;
      if i >= ch.inUse {
        skip := true;
      } else if ch.table[i] == NO_FILTER {
        skip := true;
      } else {
        NotYet(fl, fl1, ch, word, section, i);
        var id := ch.table[i];
        assert slots[id] == fl1[id] == fl[id];
        var f := slots[id].f;
        if !f.state.Enabled? {
          skip := true;
        } else if f.length > length {
          if short.ShortMiss? {
            skip := true;
          }
        } else if f.soft {
          var hit := MatchOnRing(mem, start, length, f);
          if hit {
            slots[id] := Live(f.(soft := false));
            assert slots[..] == fl1[id := Live(f.(soft := false))];
          }
          skip := !hit;
        } else {
          skip := false;
        }
      }
      AfterNext(fl, fl1, slots[..], ch, word, section, i);
    }
  }

  // ----- what the check guarantees, and what it does not

  /** A filter that is enabled, on the channel's table, and has no reason to refuse the section. */
  predicate Wants(fl: seq<Slot>, ch: Channel, i: nat, section: seq<bv8>, short: Short)
    requires Usable(fl, ch) && i < BITS
  {
    i < ch.count && ch.table[i] != NO_FILTER
    && var f := fl[ch.table[i]].f;
      && f.state.Enabled?
      && (f.length > |section| ==> !short.ShortMiss?)
      && (f.length <= |section| && f.soft ==> SectionHit(f, section))
  }

  /** No bit survives for a filter that does not want the section. */
  lemma SurvivorsWanted(fl: seq<Slot>, ch: Channel, i: nat, word: seq<bool>, section: seq<bv8>, short: Short)
    requires Usable(fl, ch) && i < BITS == |word| && Survives(fl, ch, i, word, section, short)
    ensures word[i] && Wants(fl, ch, i, section, short) && i < ch.inUse
  {
  }

  /**
   * A set bit of a filter that wants the section is lost exactly when its slot is not below the
   * number of filters on the channel, or the section is shorter than the filter and the last
   * decision before it was to skip.
   */
  lemma WantedSurvivesIff(fl: seq<Slot>, ch: Channel, i: nat, word: seq<bool>, section: seq<bv8>, short: Short)
    requires Usable(fl, ch) && i < BITS == |word| && word[i] && Wants(fl, ch, i, section, short)
    ensures Survives(fl, ch, i, word, section, short) <==>
      i < ch.inUse && (fl[ch.table[i]].f.length > |section| ==> Inherited(fl, ch, i, word, section, short))
  {
  }

  predicate KeptSince(fl: seq<Slot>, ch: Channel, word: seq<bool>, section: seq<bv8>, short: Short, d: nat, i: nat)
    requires Usable(fl, ch) && i <= BITS == |word|
  {
    exists k :: d < k < i && word[k] && Judge(fl, ch, k, section, short).Keep?
  }

  /** The decision taken over is a skip exactly when some earlier set bit was dropped and none kept since. */
  lemma {:induction false} InheritedIff(fl: seq<Slot>, ch: Channel, i: nat, word: seq<bool>, section: seq<bv8>, short: Short)
    requires Usable(fl, ch) && i <= BITS == |word|
    ensures Inherited(fl, ch, i, word, section, short) <==>
      forall d | 0 <= d < i && word[d] && Judge(fl, ch, d, section, short).Drop? ::
        KeptSince(fl, ch, word, section, short, d, i)
  {
    if i > 0 {
      InheritedIff(fl, ch, i - 1, word, section, short);
      var v := Judge(fl, ch, i - 1, section, short);
      if word[i - 1] && v.Drop? {
        assert !KeptSince(fl, ch, word, section, short, i - 1, i);
      } else if word[i - 1] && v.Keep? {
        assert forall d | 0 <= d < i && word[d] && Judge(fl, ch, d, section, short).Drop? :: d < i - 1;
      } else {
        forall d | 0 <= d < i && word[d] && Judge(fl, ch, d, section, short).Drop?
          ensures KeptSince(fl, ch, word, section, short, d, i) <==> KeptSince(fl, ch, word, section, short, d, i - 1)
        {
        }
      }
    }
  }

  /**
   * What becomes of a section shorter than an enabled filter. The channel's own setting decides, and
   * the default only where the channel has none; a refusal drops the bit, and otherwise the last
   * decision before it is taken over.
   */
  lemma ShortSection(fl: seq<Slot>, ch: Channel, i: nat, word: seq<bool>, section: seq<bv8>, channel: Short, fallback: Short)
    requires Usable(fl, ch) && i < BITS == |word| && word[i] && i < ch.inUse && ch.table[i] != NO_FILTER
    requires fl[ch.table[i]].f.state.Enabled? && fl[ch.table[i]].f.length > |section|
    ensures Survives(fl, ch, i, word, section, ShortRule(channel, fallback)) <==>
      && channel != ShortMiss && (channel == ShortDefault ==> fallback != ShortMiss)
      && Inherited(fl, ch, i, word, section, ShortRule(channel, fallback))
    ensures channel != ShortDefault ==> ShortRule(channel, fallback) == channel
    ensures channel == ShortDefault ==> ShortRule(channel, fallback) == fallback
  {
    hide SectionHit, Inherited;
  }

  /** A filter asks for the software comparison until a section of its channel has matched it. */
  lemma SoftUntilHit(fl: seq<Slot>, fl': seq<Slot>, ch: Channel, word: seq<bool>, section: seq<bv8>, i: nat)
    requires Usable(fl, ch) && |word| == BITS && NamedOnce(ch) && After(fl, fl', ch, word, section, BITS)
    requires i < ch.inUse && ch.table[i] != NO_FILTER
    ensures IsLive(fl', ch.table[i])
    ensures var f, f' := fl[ch.table[i]].f, fl'[ch.table[i]].f;
      && f' == f.(soft := f'.soft)
      && (f'.soft <==> f.soft && !(word[i] && f.state.Enabled? && f.length <= |section| && SectionHit(f, section)))
  {
    hide SectionHit;
    var id := ch.table[i];
    assert AfterAt(fl, fl'[id], ch, word, section, BITS, id);
    if ConfirmedBy(fl, ch, word, section, BITS, id) {
      var t :| 0 <= t < BITS && Confirms(fl, ch, word, section, t, id);
      assert t == i;
    } else {
      assert !Confirms(fl, ch, word, section, i, id);
    }
  }

  /** Two filters in slots 0 and 1; the first is deleted, and the second gets nothing any more. */
  lemma SparseSlotDropped(f: Filter, section: seq<bv8>, short: Short)
    requires f.state.Enabled? && Filled(f) && !f.soft && f.length <= |section|
    ensures var fl, ch := [Live(f)], Channel(1, 32, seq(32, s => if s == 1 then 0 else NO_FILTER), 0, 0);
      var word := seq(32, s => s == 1);
      Usable(fl, ch) && Wants(fl, ch, 1, section, short) && !Survives(fl, ch, 1, word, section, short)
  {
  }

  /** The tables of a sound pool can be checked. */
  lemma PoolUsable(h: seq<Block>, fl: seq<Slot>, chs: seq<Channel>, order: seq<seq<nat>>, owner: seq<int>, c: nat)
    requires c < CHANNELS && |chs| == |order| == CHANNELS && Consistent(h, fl, chs, order, owner)
    requires forall k | 0 <= k < |fl| && fl[k].Live? :: Filled(fl[k].f)
    ensures Usable(fl, chs[c]) && NamedOnce(chs[c])
  {
    ChannelShape(h, fl, chs, order, owner, c);
    ConsistentParts(h, fl, chs, order, owner);
    hide Consistent;
    SlotsHoldAll(fl, chs[c], c, order[c]);
    forall s | 0 <= s < chs[c].count && chs[c].table[s] != NO_FILTER ensures Matches(fl, chs[c].table[s], s) {
    }
  }

  /** A channel never has more filters than its table has slots. */
  lemma SlotsHoldAll(fl: seq<Slot>, ch: Channel, c: nat, ids: seq<nat>)
    requires Tabled(fl, ch, c, ids)
    ensures |ids| <= ch.count
  {
    var slots := set i | 0 <= i < |ids| && IsLive(fl, ids[i]) :: fl[ids[i]].f.matchId;
    forall i | 0 <= i < |ids| ensures Member(fl, ch, c, ids[i]) {
    }
    SlotsDistinct(fl, ch, c, ids, |ids|);
    Subset(slots, Below(ch.count));
  }

  lemma {:induction false} SlotsDistinct(fl: seq<Slot>, ch: Channel, c: nat, ids: seq<nat>, n: nat)
    requires n <= |ids| && forall i | 0 <= i < |ids| :: Member(fl, ch, c, ids[i])
    requires forall i, j | 0 <= i < j < |ids| :: ids[i] != ids[j]
    ensures |set i | 0 <= i < n && IsLive(fl, ids[i]) :: fl[ids[i]].f.matchId| == n
  {
    if n > 0 {
      SlotsDistinct(fl, ch, c, ids, n - 1);
      var fewer := set i | 0 <= i < n - 1 && IsLive(fl, ids[i]) :: fl[ids[i]].f.matchId;
      var last := fl[ids[n - 1]].f.matchId;
      forall i | 0 <= i < n - 1 ensures fl[ids[i]].f.matchId != last {
        assert Member(fl, ch, c, ids[i]) && Member(fl, ch, c, ids[n - 1]);
      }
      assert (set i | 0 <= i < n && IsLive(fl, ids[i]) :: fl[ids[i]].f.matchId) == fewer + {last};
    }
  }

  function Below(n: nat): (b: set<nat>)
    ensures |b| == n && forall s: nat :: s in b <==> s < n
  {
    if n == 0 then {} else Below(n - 1) + {n - 1}
  }

  lemma Subset(a: set<nat>, b: set<nat>)
    requires a <= b
    ensures |a| <= |b|
  {
    assert b == a + (b - a);
  }

  lemma CheckStarts(fl: seq<Slot>, ch: Channel, word: seq<bool>, section: seq<bv8>, short: Short)
    requires Usable(fl, ch) && |word| == BITS
    ensures Checked(fl, ch, word, word, section, short, 0) && After(fl, fl, ch, word, section, 0)
    ensures Inherited(fl, ch, 0, word, section, short)
  {
    hide SectionHit;
  }

  lemma UnsetBit(fl: seq<Slot>, fl': seq<Slot>, ch: Channel, word: seq<bool>, section: seq<bv8>, short: Short, i: nat)
    requires Usable(fl, ch) && i < BITS == |word| && !word[i] && After(fl, fl', ch, word, section, i)
    ensures After(fl, fl', ch, word, section, i + 1) && !Survives(fl, ch, i, word, section, short)
    ensures Inherited(fl, ch, i + 1, word, section, short) == Inherited(fl, ch, i, word, section, short)
  {
    AfterNext(fl, fl', fl', ch, word, section, i);
  }
}
