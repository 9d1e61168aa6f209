/** The queue record of one channel, updated in place. */
module DramQueue {
  import opened Ring
  import Model = QueueModel
  import Safety = QueueSafety
  import Runs = QueueRuns

  class DramQueue {
    var base: nat
    var size: nat
    var process: nat
    var lockAddr: nat
    var read: nat
    var stalled: bool
    var locks: array?<Region>
    var inUse: nat
    // hardware registers of the channel
    var writeStart: nat
    var writeNow: nat
    var readPtr: nat

    ghost predicate Valid()
      reads this, locks
    {
      if locks == null then inUse == 0 else locks.Length == Model.LOCK_CAPACITY && inUse <= locks.Length
    }

    ghost function Held(): seq<Region>
      reads this, locks
      requires Valid()
    {
      if locks == null then [] else locks[..inUse]
    }

    ghost function State(): Model.Queue
      reads this, locks
      requires Valid()
    {
      Model.Queue(base, size, process, lockAddr, read, stalled, Held(), writeStart, writeNow, readPtr)
    }

    method UpdateReadPointer(a: nat)
      requires Valid()
      modifies this`readPtr, this`stalled
      ensures Valid() && State() == Model.UpdateReadPointer(old(State()), a)
    {
      var i := RoundDown256(a);
      if i == base {
        i := i + size;
      }
      readPtr := i;
      if stalled {
        stalled := false;
      }
    }

    /** The largest free stretch, scanned from the one across the wrap. */
    method LargestGap() returns (g: Model.Gap)
      requires Valid() && inUse > 0
      ensures g == Model.LargestGap(Held(), size, |Held()| - 1)
    {
      var first: nat, last: nat := locks[0].start, locks[inUse - 1].end;
      var maxSize: int := if first <= last then size - (last - first) else first - last;
      var freeStart: nat, freeEnd: nat := last, first;
      var i := 0;
      while i < inUse - 1
        invariant 0 <= i <= inUse - 1
        invariant Model.Gap(freeStart, freeEnd, maxSize) == Model.LargestGap(Held(), size, i)
      {
        var free: int := locks[i + 1].start - locks[i].end;
        if free > maxSize {
          maxSize, freeStart, freeEnd := free, locks[i].end, locks[i + 1].start;
        }
        i := i + 1;
      }
      g := Model.Gap(freeStart, freeEnd, maxSize);
    }

    method ProcessReadPointer()
      requires Valid()
      modifies this
      ensures Valid() && locks == old(locks) && State() == Model.ProcessReadPointer(old(State()))
    {
      if inUse == 0 {
        UpdateReadPointer(process);
        return;
      }
      var g := LargestGap();
      PlaceInGap(g);
    }

    /** Restarts the hardware in a gap, if it is large enough. */
    method PlaceInGap(g: Model.Gap)
      requires Valid()
      modifies this
      ensures Valid() && locks == old(locks) && State() == Model.PlaceInGap(old(State()), g)
    {
      if g.start < base || g.start > base + size || g.end < base || g.end > base + size {
        return;
      }
      if g.size >= 256 {
        var at := g.start;
        if at % 4 != 0 {
          at := at + (4 - at % 4);
        }
        if at == base + size {
          at := base;
        }
        writeStart, writeNow := at, at;
        UpdateReadPointer(g.end);
        process, read, lockAddr := at, at, g.end;
      }
    }

    /** Finds the record to release; the search stops at either matching end. */
    method Find(r: Region) returns (index: nat)
      requires Valid() && inUse > 0
      ensures index == Model.FindRecord(Held(), r)
    {
      index := 0;
      while index < inUse && r.start != locks[index].start && r.end != locks[index].end
        invariant index <= inUse
        invariant forall k :: 0 <= k < index ==> Held()[k].start != r.start && Held()[k].end != r.end
      {
        index := index + 1;
      }
      Model.FirstMatch(Held(), r, index);
    }

    /** Closes the hole at index by moving the later records down. */
    method Remove(index: nat)
      requires Valid() && index < inUse
      modifies locks, this`inUse
      ensures Valid() && Held() == old(Held())[..index] + old(Held())[index + 1..]
    {
      var i := index;
      while i + 1 < inUse
        invariant index <= i < inUse == old(inUse) && locks != null && locks.Length == Model.LOCK_CAPACITY
        invariant forall k :: 0 <= k < index ==> locks[k] == old(Held())[k]
        invariant forall k :: index <= k < i ==> locks[k] == old(Held())[k + 1]
        invariant forall k :: i <= k < inUse ==> locks[k] == old(Held())[k]
      {
        locks[i] := locks[i + 1];
        i := i + 1;
      }
      inUse := inUse - 1;
    }

    method UnlockData(r: Region) returns (status: Model.Status)
      requires Valid()
      modifies this, locks
      ensures Valid() && locks == old(locks)
      ensures (State(), status) == Model.UnlockData(old(State()), r)
    {
      if inUse == 0 {
        return Model.QueueAddressError;
      }
      var index := Find(r);
      if index == inUse {
        return Model.QueueAddressError;
      }
      Release(index, r);
      MoveOn(index, r);
      status := Model.Done;
    }

    /** Takes the record away, or shortens it at the end that was released. */
    method Release(index: nat, r: Region)
      requires Valid() && index < inUse
      modifies locks, this`inUse
      ensures Valid() && State() == old(State()).(held := Model.Release(old(Held()), index, r))
    {
      if r.start == locks[index].start && r.end == locks[index].end {
        Remove(index);
      } else if r.start == locks[index].start {
        locks[index] := Region(r.end, locks[index].end);
      } else {
        locks[index] := Region(locks[index].start, r.start);
      }
      assert Held() == Model.Release(old(Held()), index, r);
    }

    /** What follows a release: the read pointer moves to the next lock, or a stalled queue recovers. */
    method MoveOn(index: nat, r: Region)
      requires Valid()
      modifies this
      ensures Valid() && locks == old(locks) && State() == Model.MovedOn(old(State()), index, r)
    {
      if lockAddr == r.start {
        if inUse == 0 {
          UpdateReadPointer(process);
        } else {
          lockAddr := if index < inUse then locks[index].start else locks[0].start;
          UpdateReadPointer(lockAddr);
        }
      } else if stalled {
        ProcessReadPointer();
      }
    }

    method UnlockLength(start: nat, length: nat) returns (status: Model.Status)
      requires Valid()
      modifies this, locks
      ensures Valid() && locks == old(locks)
      ensures (State(), status) == Model.UnlockLength(old(State()), start, length)
    {
      if inUse == 0 {
        return Model.QueueAddressError;
      }
      if length == 0 {
        return Model.RegionSizeError;
      }
      if start < base || length > size {
        return Model.QueueAddressError;
      }
      var end := start + length;
      if end >= base + size {
        end := base + (end - (base + size));
      }
      status := UnlockData(Region(start, end));
    }

    /** The first record that starts above the given address. */
    method Slot(start: nat) returns (index: nat)
      requires Valid() && locks != null
      ensures index == Model.InsertAt(Held(), start)
    {
      index := 0;
      while index < inUse && start >= locks[index].start
        invariant index <= inUse
        invariant forall k :: 0 <= k < index ==> Held()[k].start <= start
      {
        index := index + 1;
      }
      Model.FirstAbove(Held(), start, index);
    }

    /** Moves the records from index on up by one and writes the new one in the hole. */
    method InsertBefore(index: nat, r: Region)
      requires Valid() && locks != null && index <= inUse < locks.Length
      modifies locks, this`inUse
      ensures Valid() && Held() == old(Held())[..index] + [r] + old(Held())[index..]
    {
      var i := inUse;
      while i > index
        invariant index <= i <= inUse == old(inUse)
        invariant forall k :: 0 <= k < i ==> locks[k] == old(Held())[k]
        invariant forall k :: i < k <= inUse ==> locks[k] == old(Held())[k - 1]
      {
        locks[i] := locks[i - 1];
        i := i - 1;
      }
      locks[index] := r;
      inUse := inUse + 1;
    }

    method LockData(mode: Model.Mode, r: Region) returns (status: Model.Status)
      requires Valid()
      modifies this, locks
      ensures Valid() && (locks == old(locks) || fresh(locks))
      ensures (State(), status) == Model.LockData(old(State()), mode, r)
    {
      process := r.end;
      status := Model.Done;
      match mode
      case Lock =>
        if locks == null {
          locks := new Region[Model.LOCK_CAPACITY];
        } else if inUse >= locks.Length {
          return Model.InternalError;
        }
        if inUse == 0 {
          lockAddr := r.start;
        }
        var index := Slot(r.start);
        InsertBefore(index, r);
      case Skip =>
        if inUse == 0 {
          UpdateReadPointer(r.end);
        }
    }

    /** Unlocks record i by its start and length. */
    method UnlockRecord(i: nat) returns (status: Model.Status)
      requires Valid() && Safety.Laid(base, size, Held()) && i < inUse
      modifies this, locks
      ensures Valid() && locks == old(locks) && old(Held())[i] in old(Held())
      ensures (State(), status) == Runs.UnlockRecord(old(State()), i)
    {
      hide Model.UnlockLength, Model.UnlockData, Safety.Laid;
      Runs.RecordBytes(State(), i);
      Runs.UnlockRecordIs(State(), i);
      var r := locks[i];
      var bytes := if r.start <= r.end then r.end - r.start else size - (r.start - r.end);
      status := UnlockLength(r.start, bytes);
    }

    /** Unlocks records last, last - 1, .., first; QueueRuns proves that just those are gone. */
    method UnlockRange(first: nat, last: nat) returns (status: Model.Status)
      requires Valid() && Safety.Laid(base, size, Held()) && first <= last < inUse
      modifies this, locks
      ensures Valid() && locks == old(locks)
      ensures (State(), status) == Runs.UnlockRange(old(State()), first, last)
      ensures Held() == old(Held())[..first] + old(Held())[last + 1..]
    {
      hide Safety.Laid, Safety.Without, Safety.SameRing, Model.UnlockData, Runs.UnlockRecord, Runs.UnlockRange,
        Runs.SpanRecovers, Runs.UnlockRecovers;
      Runs.UnlockRangeRemovesRange(State(), first, last);
      status := Model.Done;
      var i: int := last;
      while i >= first
        invariant Valid() && locks == old(locks) && Safety.Laid(base, size, Held()) && status == Model.Done
        invariant first as int - 1 <= i < |Held()|
        invariant Runs.UnlockRange(State(), first, i) == Runs.UnlockRange(old(State()), first, last)
      {
        ghost var q := Runs.UnlockLast(State(), first, i);
        Runs.UnlockRecordIs(State(), i);
        status := UnlockRecord(i);
        if status != Model.Done {
          return;
        }
        i := i - 1;
      }
      Runs.UnlockNone(State(), first, i);
    }

    /** The part of process_data that finds out what was delivered. */
    method FindDelivery() returns (found: bool, r: Region)
      requires Valid()
      ensures found <==> Model.HasDelivery(State())
      ensures found ==> r == Region(read, writeStart)
    {
      found := read >= base && writeStart <= base + size && read != writeStart;
      r := Region(read, writeStart);
    }

    /** process_data on a stream channel whose queue is enabled, without the callback. */
    method StreamData()
      requires Valid()
      modifies this, locks
      ensures Valid() && (locks == old(locks) || fresh(locks))
      ensures State() == Model.StreamData(old(State()))
    {
      var found, r := FindDelivery();
      if found {
        var status := LockData(Model.Lock, r);
        read := r.end;
      }
    }

    method ReadPointerInterrupt()
      requires Valid()
      modifies this
      ensures Valid() && locks == old(locks) && State() == Model.ReadPointerError(old(State()))
    {
      stalled := true;
      ProcessReadPointer();
    }
  }
}
