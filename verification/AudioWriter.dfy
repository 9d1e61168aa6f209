/** Writing a user's bytes to the audio decoder: split over the segments of the clip device. */
module AudioWriter {
  import opened ClipPool
  import opened ClipDevice

  lemma ConcatAppend(parts: seq<seq<bv8>>, p: seq<bv8>)
    ensures Concat(parts + [p]) == Concat(parts) + p
  {
    assert (parts + [p])[..|parts|] == parts;
  }

  predicate Pieces(chunks: seq<seq<bv8>>, size: nat) {
    forall k | 0 <= k < |chunks| :: 0 < |chunks[k]| <= size
  }

  /** One more clip is queued, with this end-of-stream flag. */
  predicate Flagged(clips: seq<Clip>, clips': seq<Clip>, last: bool) {
    clips' != [] && clips'[..|clips'| - 1] == clips && clips'[|clips'| - 1].last == last
  }

  class AudioWriter {
    const device: ClipDevice
    var endOfStream: bool

    constructor (device: ClipDevice)
      ensures this.device == device && !endOfStream
    {
      this.device, endOfStream := device, false;
    }

    /** aud_osd_end_stream. */
    method EndStream()
      modifies this
      ensures endOfStream
    {
      endOfStream := true;
    }

    /** aud_osd_buf_fill; the user's memory is readable. */
    method Fill(clip: Clip, bytes: seq<bv8>, room: nat) returns (written: nat)
      requires device.Valid() && clip.bufAt in device.held && clip.bufLen == device.segmentLength
      requires clip.clipAt == clip.bufAt && |bytes| <= clip.bufLen
      modifies device, device.memory
      ensures device.Valid() && written == |bytes|
      ensures device.contents == old(device.contents) + [bytes]
      ensures device.clips == old(device.clips) + [clip.(clipLen := |bytes|)]
      ensures device.free == old(device.free) && device.left == old(device.left) && device.lost == old(device.lost)
    {
      hide Space, Balanced, InOrder, Concat;
      device.Fill(clip, bytes);
      var ok := device.WriteAndStart(clip.(clipLen := |bytes|), room);
      written := 0;
      if ok {
        written := |bytes|;
      }
    }

    lemma LeftCounts()
      requires device.Valid()
      ensures device.left == |device.free|
    {
    }

    /**
     * One pass of the loop of aud_osd_write. The clip takes the first empty segment, behind those
     * that are given back while it waits. It carries the end-of-stream flag when that was asked for
     * and this is the last piece, or when the segment still has it from its last use.
     */
    method WriteNext(rest: seq<bv8>, block: bool, dones: nat, room: nat) returns (written: nat, ok: bool)
      requires device.Valid() && rest != []
      modifies this, device, device.memory
      ensures device.Valid()
      ensures old(device.left) > 0 ==> ok
      ensures !ok ==> device.left == 0 && device.contents == old(device.contents) && endOfStream == old(endOfStream)
      ensures ok ==> written == if |rest| > device.segmentLength then device.segmentLength else |rest|
      ensures ok ==> device.contents == old(device.contents) + [rest[..written]]
      ensures ok ==> endOfStream == (old(endOfStream) && written < |rest|)
      ensures var n := if block then Back(old(device.clips), dones) else 0;
        var all := old(device.free) + old(device.clips)[..n];
        && (ok <==> all != [])
        && (ok ==> device.free == all[1..])
        && (ok ==> Flagged(old(device.clips)[n..], device.clips, all[0].last || (old(endOfStream) && written == |rest|)))
    {
      hide Space, Balanced, InOrder, Concat;
      LeftCounts();
      var clip;
      written := 0;
      if block {
        clip, ok := device.GetBufferWait(dones);
      } else {
        clip, ok := device.GetBufferNoWait();
      }
      if !ok {
        return;
      }
      written, ok := Submit(clip, rest, room);
    }

    /** What is done with a segment once it has been taken. */
    method Submit(clip: Clip, rest: seq<bv8>, room: nat) returns (written: nat, ok: bool)
      requires device.Valid() && rest != [] && clip.bufAt in device.held
      requires clip.bufLen == device.segmentLength && clip.clipAt == clip.bufAt
      modifies this, device, device.memory
      ensures device.Valid() && ok && device.free == old(device.free)
      ensures written == if |rest| > device.segmentLength then device.segmentLength else |rest|
      ensures device.contents == old(device.contents) + [rest[..written]]
      ensures endOfStream == (old(endOfStream) && written < |rest|)
      ensures Flagged(old(device.clips), device.clips, clip.last || (old(endOfStream) && written == |rest|))
    {
      hide Space, Balanced, InOrder, Concat;
      var next, length := clip, clip.bufLen;
      if |rest| <= clip.bufLen {
        length := |rest|;
        if endOfStream {
          next := clip.(last := true);
          endOfStream := false;
        }
      }
      written := Fill(next, rest[..length], room);
      ok := written == length;
    }

    /**
     * aud_osd_write. dones[k] and rooms[k] say what the device does during pass k: how many clips it
     * reports done while the writer waits, and how many it takes afterwards.
     */
    method Write(src: seq<bv8>, block: bool, dones: seq<nat>, rooms: seq<nat>)
        returns (accepted: nat, ghost chunks: seq<seq<bv8>>)
      requires device.Valid() && |dones| == |rooms| == |src|
      modifies this, device, device.memory
      ensures device.Valid() && accepted <= |src|
      ensures device.contents == old(device.contents) + chunks && Pieces(chunks, device.segmentLength)
      ensures Concat(chunks) == src[..accepted]
      ensures accepted < |src| ==> device.left == 0
    {
      accepted := 0;
      chunks := [];
      var rest, k := src, 0;
      while rest != []
        invariant device.Valid() && accepted + |rest| == |src| && rest == src[accepted..] && k <= accepted
        invariant device.contents == old(device.contents) + chunks && Pieces(chunks, device.segmentLength)
        invariant Concat(chunks) == src[..accepted]
        decreases |rest|
      {
        var written, ok := WriteNext(rest, block, dones[k], rooms[k]);
        if !ok {
          return;
        }
        ghost var piece := rest[..written];
        ConcatAppend(chunks, piece);
        assert old(device.contents) + chunks + [piece] == old(device.contents) + (chunks + [piece]);
        assert src[..accepted] + piece == src[..accepted + written];
        chunks := chunks + [piece];
        accepted := accepted + written;
        rest := rest[written..];
        k := k + 1;
      }
    }
  }

  /**
   * The flag outlives the stream: with one segment, a write after an ended stream is marked as
   * its end again, although nobody asked for that.
   */
  method EndFlagReturns(first: seq<bv8>, second: seq<bv8>) returns (clip: Clip)
    requires 0 < |first| <= 16 && 0 < |second| <= 16
    ensures clip.last
  {
    var device := new ClipDevice(16, 1);
    var writer := new AudioWriter(device);
    writer.EndStream();
    var n, ok := writer.WriteNext(first, false, 0, 1);
    assert ok;
    device.ClipDone();
    assert !writer.endOfStream;
    n, ok := writer.WriteNext(second, false, 0, 1);
    assert ok;
    clip := device.clips[|device.clips| - 1];
  }
}
