/** A fixed-size ring of slots, each AVAILABLE, ALLOCATED or COMMITED,
    written at a write index and read at a read index that both wrap
    around the ring. */
module CircularBuffer {

  datatype Option<A> = None | Some(value: A)

  datatype SlotState = Available | Allocated | Committed

  datatype Entry<T> = Entry(state: SlotState, data: T)

  /** The slot `k` places after `start` on a ring of `size` slots. */
  function RingIndex(start: nat, k: nat, size: nat): (i: nat)
    requires start < size && k <= size
    ensures i < size
    ensures i == (start + k) % size
  {
    if start + k < size then start + k else start + k - size
  }

  /** Distinct offsets below the ring size name distinct slots. */
  lemma RingIndexInjective(start: nat, j: nat, k: nat, size: nat)
    requires start < size && j < size && k < size && j != k
    ensures RingIndex(start, j, size) != RingIndex(start, k, size)
  {
  }

  /** Stepping the start forward by one shifts every offset by one. */
  lemma RingIndexShift(start: nat, k: nat, size: nat)
    requires start < size && k < size
    ensures RingIndex(RingIndex(start, 1, size), k, size) == RingIndex(start, k + 1, size)
  {
  }

  /** Stepping one slot on from offset `k` reaches offset `k + 1`. */
  lemma RingIndexStep(start: nat, k: nat, size: nat)
    requires start < size && k < size
    ensures RingIndex(RingIndex(start, k, size), 1, size) == RingIndex(start, k + 1, size)
  {
  }

  /** The offset of slot `i` from `start`. */
  function OffsetOf(start: nat, i: nat, size: nat): (k: nat)
    requires start < size && i < size
    ensures k < size && RingIndex(start, k, size) == i
  {
    if start <= i then i - start else i + size - start
  }

  /** The `n` entries found walking `n` slots forward from `start`. */
  function Window<T>(s: seq<Entry<T>>, start: nat, n: nat): (w: seq<Entry<T>>)
    requires start < |s| && n <= |s|
    ensures |w| == n
    ensures forall k :: 0 <= k < n ==> w[k] == s[RingIndex(start, k, |s|)]
  {
    seq(n, k requires 0 <= k < n => s[RingIndex(start, k, |s|)])
  }

  /** The occupied slots are exactly the `n` slots from `start` on. */
  predicate Occupied<T>(s: seq<Entry<T>>, start: nat, n: nat)
    requires start < |s| && n <= |s|
  {
    forall k :: 0 <= k < |s| ==> (s[RingIndex(start, k, |s|)].state != Available <==> k < n)
  }

  /** Writing the slot just past the window appends to the window. */
  lemma {:induction false} WindowAppend<T>(s: seq<Entry<T>>, start: nat, n: nat, e: Entry<T>)
    requires start < |s| && n < |s|
    ensures Window(s[RingIndex(start, n, |s|) := e], start, n + 1) == Window(s, start, n) + [e]
  {
    var s' := s[RingIndex(start, n, |s|) := e];
    forall k | 0 <= k < n
      ensures Window(s', start, n + 1)[k] == Window(s, start, n)[k]
    {
      RingIndexInjective(start, k, n, |s|);
    }
  }

  /** Writing a slot inside the window replaces that window entry. */
  lemma {:induction false} WindowUpdate<T>(s: seq<Entry<T>>, start: nat, n: nat, j: nat, e: Entry<T>)
    requires start < |s| && n <= |s| && j < n
    ensures Window(s[RingIndex(start, j, |s|) := e], start, n) == Window(s, start, n)[j := e]
  {
    var s' := s[RingIndex(start, j, |s|) := e];
    forall k | 0 <= k < n && k != j
      ensures Window(s', start, n)[k] == Window(s, start, n)[k]
    {
      RingIndexInjective(start, k, j, |s|);
    }
  }

  /** Freeing the first window slot and stepping past it drops the head
      of the window. */
  lemma {:induction false} WindowPop<T>(s: seq<Entry<T>>, start: nat, n: nat, e: Entry<T>)
    requires start < |s| && 0 < n <= |s|
    ensures Window(s[start := e], RingIndex(start, 1, |s|), n - 1) == Window(s, start, n)[1..]
  {
    var s' := s[start := e];
    forall k | 0 <= k < n - 1
      ensures Window(s', RingIndex(start, 1, |s|), n - 1)[k] == Window(s, start, n)[1..][k]
    {
      RingIndexShift(start, k, |s|);
      RingIndexInjective(start, 0, k + 1, |s|);
    }
  }

  /** Occupying the slot just past the window extends the occupied run. */
  lemma {:induction false} OccupiedAppend<T>(s: seq<Entry<T>>, start: nat, n: nat, e: Entry<T>)
    requires start < |s| && n < |s| && Occupied(s, start, n) && e.state != Available
    ensures Occupied(s[RingIndex(start, n, |s|) := e], start, n + 1)
  {
    var s' := s[RingIndex(start, n, |s|) := e];
    forall k | 0 <= k < |s|
      ensures s'[RingIndex(start, k, |s|)].state != Available <==> k < n + 1
    {
      if k != n {
        RingIndexInjective(start, k, n, |s|);
      }
    }
  }

  /** Changing an occupied slot to another occupied state keeps the run. */
  lemma {:induction false} OccupiedUpdate<T>(s: seq<Entry<T>>, start: nat, n: nat, j: nat, e: Entry<T>)
    requires start < |s| && n <= |s| && j < n && Occupied(s, start, n) && e.state != Available
    ensures Occupied(s[RingIndex(start, j, |s|) := e], start, n)
  {
    var s' := s[RingIndex(start, j, |s|) := e];
    forall k | 0 <= k < |s|
      ensures s'[RingIndex(start, k, |s|)].state != Available <==> k < n
    {
      if k != j {
        RingIndexInjective(start, k, j, |s|);
      }
    }
  }

  /** Freeing the first slot and stepping past it shortens the run. */
  lemma {:induction false} OccupiedPop<T>(s: seq<Entry<T>>, start: nat, n: nat, e: Entry<T>)
    requires start < |s| && 0 < n <= |s| && Occupied(s, start, n) && e.state == Available
    ensures Occupied(s[start := e], RingIndex(start, 1, |s|), n - 1)
  {
    var s' := s[start := e];
    var next := RingIndex(start, 1, |s|);
    forall k | 0 <= k < |s|
      ensures s'[RingIndex(next, k, |s|)].state != Available <==> k < n - 1
    {
      if k + 1 < |s| {
        RingIndexShift(start, k, |s|);
        RingIndexInjective(start, 0, k + 1, |s|);
      } else {
        assert RingIndex(next, k, |s|) == start;
      }
    }
  }

  class CircularBuffer<T> {
    const size: nat
    /** The zero-filled value of `T`. */
    const zero: T
    const slots: array<Entry<T>>
    var readIndex: nat
    var writeIndex: nat
    /** The number of occupied slots from the read index on. */
    ghost var pending: nat
    /** False once a forced push has overwritten the slot under the read
        index, after which the ring no longer reads in write order. */
    ghost var ordered: bool

    ghost predicate Valid()
      reads this, slots
    {
      slots.Length == size && 0 < size
      && readIndex < size && writeIndex < size
      && (ordered ==>
            pending <= size
            && writeIndex == RingIndex(readIndex, pending, size)
            && Occupied(slots[..], readIndex, pending))
    }

    /** The queue of occupied entries, oldest first. */
    ghost function Contents(): seq<Entry<T>>
      reads this, slots
      requires Valid() && ordered
    {
      Window(slots[..], readIndex, pending)
    }

    /** A ring of `size` free slots holding the zero value. */
    constructor (size: nat, zero: T)
      requires 0 < size
      ensures Valid() && ordered && Contents() == []
      ensures this.size == size && this.zero == zero
      ensures readIndex == 0 && writeIndex == 0
      ensures forall i :: 0 <= i < size ==> slots[i] == Entry(Available, zero)
      ensures fresh(slots)
    {
      this.size := size;
      this.zero := zero;
      slots := new Entry<T>[size](_ => Entry(Available, zero));
      readIndex := 0;
      writeIndex := 0;
      pending := 0;
      ordered := true;
    }

    /** `(i + 1) % buffer_size`. */
    function Advance(i: nat): (j: nat)
      reads this
      requires 0 < size && i < size
      ensures j < size && j == RingIndex(i, 1, size)
    {
      (i + 1) % size
    }

    /** In an ordered ring the write slot is free exactly when the ring is
        not full. */
    lemma WriteSlotFreeIffRoom()
      requires Valid() && ordered
      ensures slots[writeIndex].state == Available <==> pending < size
    {
      var s := slots[..];
      if pending == size {
        assert s[RingIndex(readIndex, 0, size)].state != Available;
      } else {
        assert s[RingIndex(readIndex, pending, size)].state == Available;
      }
    }

    /** The shared step of `push` and `allocate`: place `e` in the write
        slot and advance the write index. Overwriting an occupied slot
        (a forced push into a full ring) ends the ordered reading. */
    method WriteSlot(e: Entry<T>)
      requires Valid() && e.state != Available
      modifies this, slots
      ensures Valid() && readIndex == old(readIndex)
      ensures slots[..] == old(slots[..])[old(writeIndex) := e]
      ensures writeIndex == Advance(old(writeIndex))
      ensures ordered <==> old(ordered) && old(slots[writeIndex].state) == Available
      ensures ordered ==> Contents() == old(Contents()) + [e]
    {
      ghost var before := slots[..];
      ghost var w := writeIndex;
      var free := slots[writeIndex].state == Available;
      if ordered {
        WriteSlotFreeIffRoom();
      }
      slots[writeIndex] := e;
      writeIndex := Advance(writeIndex);
      assert slots[..] == before[w := e];
      if !free {
        ordered := false;
      } else if ordered {
        OccupiedAppend(before, readIndex, pending, e);
        WindowAppend(before, readIndex, pending, e);
        RingIndexStep(readIndex, pending, size);
        pending := pending + 1;
      }
    }

    /** Copies `input` into the write slot and commits it when that slot is
        free or `force` is set, and reports whether it stored the item. */
    method Push(input: T, force: bool) returns (stored: bool)
      requires Valid()
      modifies this, slots
      ensures Valid() && readIndex == old(readIndex)
      ensures stored <==> old(slots[writeIndex].state) == Available || force
      ensures stored ==>
        slots[..] == old(slots[..])[old(writeIndex) := Entry(Committed, input)]
        && writeIndex == Advance(old(writeIndex))
      ensures !stored ==> slots[..] == old(slots[..]) && writeIndex == old(writeIndex) && ordered == old(ordered)
      ensures old(ordered) && old(pending) < size ==>
        ordered && stored && Contents() == old(Contents()) + [Entry(Committed, input)]
      ensures old(ordered) && old(pending) == size && !force ==> ordered && Contents() == old(Contents())
    {
      if ordered {
        WriteSlotFreeIffRoom();
      }
      stored := false;
      if slots[writeIndex].state == Available || force {
        WriteSlot(Entry(Committed, input));
        stored := true;
      }
    }

    /** `push` as written: the same effect as `Push`, but the result it
        returns is `false` whether or not the item was stored. */
    method PushAsWritten(input: T, force: bool) returns (result: bool)
      requires Valid()
      modifies this, slots
      ensures Valid() && readIndex == old(readIndex)
      ensures !result
      ensures old(slots[writeIndex].state) == Available || force ==>
        slots[..] == old(slots[..])[old(writeIndex) := Entry(Committed, input)]
        && writeIndex == Advance(old(writeIndex))
      ensures !(old(slots[writeIndex].state) == Available || force) ==>
        slots[..] == old(slots[..]) && writeIndex == old(writeIndex) && ordered == old(ordered)
      ensures old(ordered) && old(pending) < size ==>
        ordered && Contents() == old(Contents()) + [Entry(Committed, input)]
      ensures old(ordered) && old(pending) == size && !force ==> ordered && Contents() == old(Contents())
    {
      var _ := Push(input, force);
      result := false;
    }

    /** Reserves the write slot when it is free and returns its index:
        the caller fills it through `WriteAllocated` and then commits it. */
    method Allocate() returns (slot: Option<nat>)
      requires Valid()
      modifies this, slots
      ensures Valid() && readIndex == old(readIndex) && ordered == old(ordered)
      ensures slot.Some? <==> old(slots[writeIndex].state) == Available
      ensures slot.Some? ==>
        slot.value == old(writeIndex)
        && slots[..] == old(slots[..])[old(writeIndex) := Entry(Allocated, old(slots[writeIndex].data))]
        && writeIndex == Advance(old(writeIndex))
      ensures slot.None? ==> slots[..] == old(slots[..]) && writeIndex == old(writeIndex)
      ensures ordered && slot.Some? ==>
        Contents() == old(Contents()) + [Entry(Allocated, old(slots[writeIndex].data))]
      ensures ordered && slot.None? ==> Contents() == old(Contents()) && old(pending) == size
    {
      if ordered {
        WriteSlotFreeIffRoom();
      }
      if slots[writeIndex].state == Available {
        slot := Some(writeIndex);
        WriteSlot(Entry(Allocated, slots[writeIndex].data));
      } else {
        slot := None;
      }
    }

    /** The caller's write through the pointer `allocate` returned. */
    method WriteAllocated(slot: nat, value: T)
      requires Valid() && slot < size && slots[slot].state == Allocated
      modifies slots
      ensures Valid()
      ensures slots[..] == old(slots[..])[slot := Entry(Allocated, value)]
      ensures ordered ==> Contents() == old(Contents())[OffsetOf(readIndex, slot, size) := Entry(Allocated, value)]
    {
      if ordered {
        var j := OffsetOf(readIndex, slot, size);
        OccupiedUpdate(slots[..], readIndex, pending, j, Entry(Allocated, value));
        WindowUpdate(slots[..], readIndex, pending, j, Entry(Allocated, value));
      }
      slots[slot] := Entry(Allocated, value);
    }

    /** Searches the ring for the allocated slot `slot` and commits it; any
        other slot, or one not allocated, is refused. */
    method Commit(slot: int) returns (ok: bool)
      requires Valid()
      modifies slots
      ensures Valid()
      ensures ok <==> 0 <= slot < size && old(slots[slot].state) == Allocated
      ensures ok ==> slots[..] == old(slots[..])[slot := Entry(Committed, old(slots[slot].data))]
      ensures !ok ==> slots[..] == old(slots[..])
      ensures ordered && ok ==>
        Contents() == old(Contents())[OffsetOf(readIndex, slot, size) := Entry(Committed, old(slots[slot].data))]
      ensures ordered && !ok ==> Contents() == old(Contents())
    {
      ok := false;
      var i := 0;
      while i < size && !ok
        invariant 0 <= i <= size
        invariant !ok ==> slots[..] == old(slots[..])
        invariant !ok ==> !(0 <= slot < i && slots[slot].state == Allocated)
        invariant ok ==> 0 <= slot < size && old(slots[slot].state) == Allocated
        invariant ok ==> slots[..] == old(slots[..])[slot := Entry(Committed, old(slots[slot].data))]
        invariant Valid()
      {
        if i == slot && slots[i].state == Allocated {
          var e := Entry(Committed, slots[i].data);
          if ordered {
            var j := OffsetOf(readIndex, i, size);
            OccupiedUpdate(slots[..], readIndex, pending, j, e);
            WindowUpdate(slots[..], readIndex, pending, j, e);
          }
          slots[i] := e;
          ok := true;
        }
        i := i + 1;
      }
    }

    /** Whether the slot under the read index is committed. */
    predicate IsAvailable()
      reads this, slots
      requires Valid()
    {
      slots[readIndex].state == Committed
    }

    /** In an ordered ring, data is available exactly when the oldest
        queued entry has been committed. */
    lemma AvailableMeansHeadCommitted()
      requires Valid() && ordered
      ensures IsAvailable() <==> |Contents()| > 0 && Contents()[0].state == Committed
    {
      assert RingIndex(readIndex, 0, size) == readIndex;
    }

    /** Returns and frees the committed entry under the read index, or the
        zero value with nothing changed. */
    method Pop() returns (v: T)
      requires Valid()
      modifies this, slots
      ensures Valid() && ordered == old(ordered) && writeIndex == old(writeIndex)
      ensures old(IsAvailable()) ==>
        v == old(slots[readIndex].data)
        && slots[..] == old(slots[..])[old(readIndex) := Entry(Available, zero)]
        && readIndex == Advance(old(readIndex))
      ensures !old(IsAvailable()) ==> v == zero && slots[..] == old(slots[..]) && readIndex == old(readIndex)
      ensures ordered && old(IsAvailable()) ==> v == old(Contents())[0].data && Contents() == old(Contents())[1..]
      ensures ordered && !old(IsAvailable()) ==> Contents() == old(Contents())
    {
      v := zero;
      if slots[readIndex].state == Committed {
        v := slots[readIndex].data;
        Release();
      }
    }

    /** Frees the committed entry under the read index without returning
        it; nothing changes when none is committed. */
    method PopVoid()
      requires Valid()
      modifies this, slots
      ensures Valid() && ordered == old(ordered) && writeIndex == old(writeIndex)
      ensures old(IsAvailable()) ==>
        slots[..] == old(slots[..])[old(readIndex) := Entry(Available, zero)]
        && readIndex == Advance(old(readIndex))
      ensures !old(IsAvailable()) ==> slots[..] == old(slots[..]) && readIndex == old(readIndex)
      ensures ordered && old(IsAvailable()) ==> Contents() == old(Contents())[1..]
      ensures ordered && !old(IsAvailable()) ==> Contents() == old(Contents())
    {
      if slots[readIndex].state == Committed {
        Release();
      }
    }

    /** The shared step of `pop` and `pop_void`: mark the read slot free,
        zero its data and advance the read index. */
    method Release()
      requires Valid() && IsAvailable()
      modifies this, slots
      ensures Valid() && ordered == old(ordered) && writeIndex == old(writeIndex)
      ensures slots[..] == old(slots[..])[old(readIndex) := Entry(Available, zero)]
      ensures readIndex == Advance(old(readIndex))
      ensures ordered ==> |old(Contents())| > 0 && Contents() == old(Contents())[1..]
    {
      if ordered {
        assert RingIndex(readIndex, 0, size) == readIndex;
        OccupiedPop(slots[..], readIndex, pending, Entry(Available, zero));
        WindowPop(slots[..], readIndex, pending, Entry(Available, zero));
        pending := pending - 1;
      }
      slots[readIndex] := Entry(Available, zero);
      readIndex := (readIndex + 1) % size;
    }

    /** The index of the committed entry under the read index, if any. */
    function PeekPtr(): (slot: Option<nat>)
      reads this, slots
      requires Valid()
      ensures slot.Some? <==> IsAvailable()
      ensures slot.Some? ==> slot.value == readIndex
      ensures ordered && slot.Some? ==> slots[slot.value] == Contents()[0]
    {
      if slots[readIndex].state == Committed then
        assert RingIndex(readIndex, 0, size) == readIndex;
        Some(readIndex)
      else
        None
    }

    /** The committed entry under the read index, or the zero value. */
    function Peek(): (v: T)
      reads this, slots
      requires Valid()
      ensures !IsAvailable() ==> v == zero
      ensures ordered && IsAvailable() ==> |Contents()| > 0 && v == Contents()[0].data
    {
      if slots[readIndex].state == Committed then
        assert RingIndex(readIndex, 0, size) == readIndex;
        slots[readIndex].data
      else
        zero
    }
  }

  /** Two unforced pushes into an empty ring pop back in the order they
      were pushed, after which the ring is empty again. */
  method PushPopIsFifo<T>(zero: T, a: T, b: T) returns (first: T, second: T)
    ensures first == a && second == b
  {
    var buffer := new CircularBuffer<T>(2, zero);
    var storedA := buffer.Push(a, false);
    var storedB := buffer.Push(b, false);
    assert buffer.Contents() == [Entry(Committed, a), Entry(Committed, b)];
    buffer.AvailableMeansHeadCommitted();
    first := buffer.Pop();
    buffer.AvailableMeansHeadCommitted();
    second := buffer.Pop();
    assert buffer.Contents() == [];
  }
}
