/**
 * Playback from memory: the user's stream is copied into one half of a buffer while the DMA
 * engine sends the other half to the demultiplexer.
 */
module PvrPlayback {

  const BUFFER_SIZE: nat := 1024 * 320
  const HALF: nat := BUFFER_SIZE / 2

  /** A transfer is counted in words of 4 bytes, or in lines of 32. */
  datatype Mode = WordMode | LineMode

  function Unit(m: Mode): nat {
    if m.WordMode? then 4 else 32
  }

  /** The transfer count register has 16 bits. */
  const COUNT_LIMIT: nat := 0x1_0000

  function Programmed(bytes: nat, m: Mode): nat {
    bytes / Unit(m) % COUNT_LIMIT
  }

  datatype Transfer = Transfer(offset: nat, count: nat)

  /** The bytes a programmed transfer sends. */
  function Sends(memory: seq<bv8>, t: Transfer, m: Mode): seq<bv8>
    requires t.offset + t.count * Unit(m) <= |memory|
  {
    memory[t.offset..t.offset + t.count * Unit(m)]
  }

  /** A transfer programmed for `bytes` bytes sends exactly those, and its count fits the register. */
  lemma ExactCount(bytes: nat, m: Mode)
    requires bytes <= HALF && Aligned(bytes, m)
    ensures Programmed(bytes, m) * Unit(m) == bytes && Programmed(bytes, m) == bytes / Unit(m) < COUNT_LIMIT
    ensures Programmed(bytes, m) * (match m case WordMode => 4 case LineMode => 32) == bytes
  {
  }

  /** A whole number of units. */
  predicate Aligned(bytes: nat, m: Mode) {
    bytes % Unit(m) == 0
  }

  /** The largest piece the driver cuts. */
  function LargestPiece(m: Mode): nat {
    BUFFER_SIZE / 2 / Unit(m) * Unit(m)
  }

  lemma AlignedPiece(bytes: nat, m: Mode)
    requires Aligned(bytes, m)
    ensures Aligned(HALF, m) && Aligned(0, m) && LargestPiece(m) == HALF
    ensures bytes >= HALF ==> Aligned(bytes - HALF, m)
  {
    if m.WordMode? {
      assert HALF == 4 * 40960;
    } else {
      assert HALF == 32 * 5120;
    }
  }

  /** Everything written has been sent, except for the one piece that waits. */
  predicate Flow(memory: seq<bv8>, mode: Mode, primed: bool, offset: nat, count: nat, user: seq<bv8>, sent: seq<bv8>) {
    if primed then
      offset + count <= |memory| && Aligned(count, mode) && user == sent + memory[offset..offset + count]
    else user == [] && sent == []
  }

  lemma FlowNext(memory: seq<bv8>, mode: Mode, offset: nat, piece: seq<bv8>, user: seq<bv8>)
    requires offset + |piece| <= |memory| && Aligned(|piece|, mode) && memory[offset..offset + |piece|] == piece
    ensures Flow(memory, mode, true, offset, |piece|, user + piece, user)
  {
  }

  lemma Longer(before: seq<bv8>, data: seq<bv8>, done: nat, count: nat)
    requires done + count <= |data|
    ensures before + data[..done] + data[done..done + count] == before + data[..done + count]
  {
    assert data[..done + count] == data[..done] + data[done..done + count];
  }

  class Playback {
    const memory: array<bv8>
    var mode: Mode
    var pingPong: nat           // __buf_pingpong
    var lastOffset: nat         // __last_phy_off
    var lastCount: nat          // __last_count
    var primed: bool            // __first_time: a piece is waiting in the buffer
    var programmed: Transfer    // the DMA registers
    ghost var user: seq<bv8>    // written since the last flush
    ghost var sent: seq<bv8>    // sent since the last flush

    constructor ()
      ensures Valid() && !primed && user == [] && sent == [] && mode.WordMode? && fresh(memory)
    {
      memory := new bv8[BUFFER_SIZE](_ => 0);
      mode, pingPong, lastOffset, lastCount, primed := WordMode, 0, HALF, HALF, false;
      programmed := Transfer(0, 0);
      user, sent := [], [];
    }

    ghost predicate Shape()
      reads this
    {
      && memory.Length == BUFFER_SIZE
      && (lastOffset == 0 || lastOffset == HALF) && lastCount <= HALF
      && (primed ==> (pingPong == 0 <==> lastOffset == HALF) && lastCount > 0)
    }

    ghost predicate Valid()
      reads this, memory
    {
      Shape() && Flow(memory[..], mode, primed, lastOffset, lastCount, user, sent)
    }

    /**
     * PVR_SET_MODE. While a piece waits, the new mode must be able to count it, or part of it
     * would never be sent.
     */
    method SetMode(m: Mode)
      requires Valid()
      modifies this`mode
      ensures mode == m
      ensures Valid() <==> !primed || Aligned(lastCount, m)
    {
      mode := m;
    }

    /** PVR_BUFF_FLUSH: a new stream begins, and the piece that waits is given up. */
    method Flush()
      requires Valid()
      modifies this`primed, this`user, this`sent
      ensures Valid() && !primed
      ensures old(user) == old(sent) + if old(primed) then memory[lastOffset..lastOffset + lastCount] else []
    {
      primed := false;
      user, sent := [], [];
    }

    /** pvr_osd_write; the transfer it waits for always completes. */
    method Write(data: seq<bv8>) returns (written: int)
      requires Valid()
      modifies this, memory
      ensures Valid() && mode == old(mode)
      ensures written == if Aligned(|data|, mode) then |data| else -1
      ensures user == if Aligned(|data|, mode) then old(user) + data else old(user)
      ensures old(sent) <= sent && (written < 0 ==> sent == old(sent))
    {
      hide Unit, Aligned, LargestPiece, Flow;
      ghost var before := user;
      if !Aligned(|data|, mode) {
        return -1;
      }
      var half := LargestPiece(mode);
      AlignedPiece(|data|, mode);
      var done := 0;
      assert before + data[..0] == before;
      while done < |data|
        invariant done <= |data| && Valid() && mode == old(mode) && half == HALF
        invariant Aligned(|data| - done, mode)
        invariant user == before + data[..done] && old(sent) <= sent
      {
        var left := |data| - done;
        var count := if left >= half then half else left;
        AlignedPiece(left, mode);
        SentGrows();
        NextPiece(data[done..done + count]);
        Longer(before, data, done, count);
        done := done + count;
      }
      assert data[..done] == data;
      return done;
    }

    lemma SentGrows()
      requires Valid()
      ensures sent <= if primed then user else []
    {
    }

    /** One pass of the loop: program the piece that waits, and fill the other half while it is sent. */
    method NextPiece(piece: seq<bv8>)
      requires Valid() && 0 < |piece| <= HALF && Aligned(|piece|, mode)
      modifies this, memory
      ensures Valid() && primed && mode == old(mode)
      ensures user == old(user) + piece
      ensures sent == if old(primed) then old(user) else []
      ensures old(primed) ==> programmed.offset == old(lastOffset) && programmed.count * Unit(mode) == old(lastCount)
      ensures old(primed) ==> programmed.count < COUNT_LIMIT
      ensures old(primed) ==> lastOffset + |piece| <= programmed.offset || programmed.offset + old(lastCount) <= lastOffset
      ensures lastCount == |piece| && memory[lastOffset..lastOffset + lastCount] == piece
    {
      hide Unit, Aligned;
      ghost var waiting, before := memory[lastOffset..lastOffset + lastCount], user;
      var offset := Turn();
      lastCount, lastOffset := |piece|, offset;
      user := user + piece;
      if !primed {
        primed := true;
        CopyIn(offset, piece);
      } else {
        CopyWhileSending(offset, piece, waiting);
      }
      FlowNext(memory[..], mode, offset, piece, before);
    }

    /** The other half is for the new piece, and the transfer is programmed for the piece that waits. */
    method Turn() returns (offset: nat)
      requires Shape() && (primed ==> Aligned(lastCount, mode))
      modifies this`pingPong, this`programmed
      ensures offset == 0 || offset == HALF
      ensures pingPong == 0 <==> offset == HALF
      ensures programmed.offset == lastOffset
      ensures primed ==> offset != lastOffset && programmed.count * Unit(mode) == lastCount && programmed.count < COUNT_LIMIT
    {
      hide Unit, Programmed, Aligned;
      if pingPong == 0 || !primed {
        pingPong := 1;
        offset := 0;
      } else {
        pingPong := 0;
        offset := HALF;
      }
      programmed := Transfer(lastOffset, Programmed(lastCount, mode));
      if primed { ExactCount(lastCount, mode); }
    }

    /** The copy goes on while the engine reads the other half. */
    method CopyWhileSending(offset: nat, piece: seq<bv8>, ghost waiting: seq<bv8>)
      requires offset + |piece| <= memory.Length && |waiting| == programmed.count * Unit(mode)
      requires programmed.offset + |waiting| <= memory.Length
      requires memory[programmed.offset..programmed.offset + |waiting|] == waiting
      requires offset + |piece| <= programmed.offset || programmed.offset + |waiting| <= offset
      modifies this`sent, memory
      ensures sent == old(sent) + waiting && memory[offset..offset + |piece|] == piece
    {
      hide Unit;
      CopyIn(offset, piece);
      assert memory[programmed.offset..programmed.offset + |waiting|] == waiting;
      DmaComplete();
    }

    method CopyIn(offset: nat, piece: seq<bv8>)
      requires offset + |piece| <= memory.Length
      modifies memory
      ensures memory[offset..offset + |piece|] == piece
      ensures forall b | 0 <= b < memory.Length && !(offset <= b < offset + |piece|) :: memory[b] == old(memory[b])
    {
      var k := 0;
      while k < |piece|
        invariant k <= |piece| && memory[offset..offset + k] == piece[..k]
        invariant forall b | 0 <= b < memory.Length && !(offset <= b < offset + |piece|) :: memory[b] == old(memory[b])
      {
        memory[offset + k] := piece[k];
        k := k + 1;
      }
    }

    /** The end of the transfer; only now does the model read what was sent. */
    ghost method DmaComplete()
      requires programmed.offset + programmed.count * Unit(mode) <= memory.Length
      modifies this`sent
      ensures sent == old(sent) + Sends(memory[..], programmed, mode)
    {
      sent := sent + Sends(memory[..], programmed, mode);
    }
  }
}
