/** The two channels as objects: the wave channel over free-running 64-bit counters, and the health
    stream over indices that run modulo the capacity.  Their interleavings are in SpscRing. */
module Channels {
  import opened Modular
  import opened SpscRing

  /** The frames at the given indices, oldest first, for indices first .. first + count. */
  function Window<T>(cells: seq<T>, first: nat, count: nat): (w: seq<T>)
    requires 0 < |cells|
    ensures |w| == count
  {
    seq(count, i requires 0 <= i < count => cells[(first + i) % |cells|])
  }

  lemma WindowPush<T>(cells: seq<T>, first: nat, count: nat, x: T)
    requires count < |cells|
    ensures Window(cells[(first + count) % |cells| := x], first, count + 1) == Window(cells, first, count) + [x]
  {
    var at := (first + count) % |cells|;
    var pushed := Window(cells[at := x], first, count + 1);
    forall i | 0 <= i < count ensures pushed[i] == Window(cells, first, count)[i] {
      DistinctSlots(|cells|, first + i, first + count);
    }
    assert pushed == pushed[..count] + [pushed[count]];
    assert pushed[..count] == Window(cells, first, count);
  }

  lemma WindowPop<T>(cells: seq<T>, first: nat, count: nat)
    requires 0 < |cells| && 0 < count
    ensures Window(cells, first, count) == [cells[first % |cells|]] + Window(cells, first + 1, count - 1)
  {
  }

  /** Only the slot of the first index matters. */
  lemma WindowShift<T>(cells: seq<T>, first: nat, other: nat, count: nat)
    requires 0 < |cells| && first % |cells| == other % |cells|
    ensures Window(cells, first, count) == Window(cells, other, count)
  {
    forall i | 0 <= i < count ensures Window(cells, first, count)[i] == Window(cells, other, count)[i] {
      SameSlotAfter(|cells|, first, i);
      SameSlotAfter(|cells|, other, i);
    }
  }

  lemma SameSlotAfter(s: nat, a: nat, i: nat)
    requires 0 < s
    ensures (a + i) % s == (a % s + i) % s
  {
    assert a == (a / s) * s + a % s;
    DropMultiple(a / s, s, a % s + i);
  }

  class WaveChannel<T(0)> {
    const cells: array<T>
    var writeHead: nat
    var readTail: nat

    ghost predicate Valid()
      reads this, cells
    {
      && cells.Length == WAVE_CAPACITY
      && writeHead < WORD && readTail < WORD
      && Sub(WORD, writeHead, readTail) <= WAVE_CAPACITY
    }

    /** The frames held, oldest first. */
    ghost function Contents(): seq<T>
      requires Valid()
      reads this, cells
    {
      Window(cells[..], readTail, Sub(WORD, writeHead, readTail))
    }

    constructor ()
      ensures Valid() && fresh(cells) && Contents() == []
    {
      cells := new T[WAVE_CAPACITY];
      writeHead, readTail := 0, 0;
    }

    /** Refuses exactly when 1024 frames are held, also when the counters have wrapped. */
    method PushFrame(frame: T) returns (ok: bool)
      requires Valid()
      modifies this`writeHead, cells
      ensures Valid()
      ensures ok <==> |old(Contents())| < WAVE_CAPACITY
      ensures Contents() == if ok then old(Contents()) + [frame] else old(Contents())
    {
      var head, tail := writeHead, readTail;
      if (head + WORD - tail) % WORD >= WAVE_CAPACITY {
        return false;
      }
      ghost var held := Sub(WORD, head, tail);
      HeadSlot(head, tail);
      WindowPush(cells[..], tail, held, frame);
      cells[head % WAVE_CAPACITY] := frame;
      writeHead := (head + 1) % WORD;
      HeadAdvance(head, tail);
      return true;
    }

    /** Delivers the oldest frame, or refuses exactly when none is held. */
    method PopFrame() returns (ok: bool, frame: T)
      requires Valid()
      modifies this`readTail
      ensures Valid()
      ensures ok <==> old(Contents()) != []
      ensures ok ==> [frame] + Contents() == old(Contents())
      ensures !ok ==> Contents() == old(Contents())
    {
      var tail, head := readTail, writeHead;
      frame := cells[tail % WAVE_CAPACITY];
      if tail == head {
        EqualMeansNone(head, tail);
        return false, frame;
      }
      TailAdvance(head, tail);
      WindowPop(cells[..], tail, Sub(WORD, head, tail));
      readTail := (tail + 1) % WORD;
      SlotOfIndex(WAVE, tail + 1);
      WindowShift(cells[..], tail + 1, readTail, Sub(WORD, head, readTail));
      return true, frame;
    }

    /** The number of frames held, as long as the head has not wrapped past the tail; then 0. */
    method Size() returns (n: nat)
      requires Valid()
      ensures n == |Contents()| <==> writeHead >= readTail
      ensures writeHead < readTail ==> n == 0 < |Contents()|
    {
      n := if writeHead >= readTail then writeHead - readTail else 0;
      HeldCases(writeHead, readTail);
    }

    method Reset()
      requires Valid()
      modifies this
      ensures Valid() && Contents() == []
    {
      writeHead, readTail := 0, 0;
    }
  }

  lemma HeldCases(head: nat, tail: nat)
    requires head < WORD && tail < WORD
    ensures Sub(WORD, head, tail) == if head >= tail then head - tail else head + WORD - tail
  {
  }

  lemma EqualMeansNone(head: nat, tail: nat)
    requires head < WORD && tail < WORD
    ensures Sub(WORD, head, tail) == 0 <==> head == tail
  {
    HeldCases(head, tail);
  }

  lemma HeadSlot(head: nat, tail: nat)
    requires head < WORD && tail < WORD
    ensures head % WAVE_CAPACITY == (tail + Sub(WORD, head, tail)) % WAVE_CAPACITY
  {
    HeldCases(head, tail);
  }

  lemma HeadAdvance(head: nat, tail: nat)
    requires head < WORD && tail < WORD && Sub(WORD, head, tail) < WAVE_CAPACITY
    ensures Sub(WORD, (head + 1) % WORD, tail) == Sub(WORD, head, tail) + 1
  {
    HeldCases(head, tail);
    HeldCases((head + 1) % WORD, tail);
  }

  lemma TailAdvance(head: nat, tail: nat)
    requires head < WORD && tail < WORD && head != tail
    ensures Sub(WORD, head, (tail + 1) % WORD) == Sub(WORD, head, tail) - 1
  {
    HeldCases(head, tail);
    HeldCases(head, (tail + 1) % WORD);
  }

  class HealthStream<T(0)> {
    const cells: array<T>
    var writeIdx: nat
    var readIdx: nat

    ghost predicate Valid()
      reads this, cells
    {
      writeIdx < cells.Length && readIdx < cells.Length
    }

    /** The snapshots held, oldest first. */
    ghost function Contents(): seq<T>
      requires Valid()
      reads this, cells
    {
      Window(cells[..], readIdx, Sub(cells.Length, writeIdx, readIdx))
    }

    constructor (capacity: nat)
      requires 0 < capacity
      ensures Valid() && fresh(cells) && cells.Length == capacity && Contents() == []
    {
      cells := new T[capacity];
      writeIdx, readIdx := 0, 0;
      new;
      SubOfIndices(capacity, 0, 0);
    }

    /** Drops the snapshot exactly when capacity - 1 are held. */
    method TryPush(snapshot: T) returns (ok: bool)
      requires Valid()
      modifies this`writeIdx, cells
      ensures Valid()
      ensures ok <==> |old(Contents())| < cells.Length - 1
      ensures Contents() == if ok then old(Contents()) + [snapshot] else old(Contents())
    {
      var current := writeIdx;
      var next := (current + 1) % cells.Length;
      ghost var held := Sub(cells.Length, current, readIdx);
      HealthFullTest(cells.Length, current, readIdx);
      HeldBound(cells.Length, current, readIdx);
      if next == readIdx {
        return false;
      }
      IndexOfHeld(cells.Length, current, readIdx);
      WindowPush(cells[..], readIdx, held, snapshot);
      cells[current] := snapshot;
      writeIdx := next;
      return true;
    }

    /** Delivers the oldest snapshot, or refuses exactly when none is held. */
    method TryPop() returns (ok: bool, snapshot: T)
      requires Valid()
      modifies this`readIdx
      ensures Valid()
      ensures ok <==> old(Contents()) != []
      ensures ok ==> [snapshot] + Contents() == old(Contents())
      ensures !ok ==> Contents() == old(Contents())
    {
      var current := readIdx;
      snapshot := cells[current];
      IndexOfHeld(cells.Length, writeIdx, current);
      HeldBound(cells.Length, writeIdx, current);
      if current == writeIdx {
        SubOfIndices(cells.Length, current, current);
        SmallRemainder(current, cells.Length);
        return false, snapshot;
      }
      SmallRemainder(current, cells.Length);
      NonEmptyHeld(cells.Length, writeIdx, current);
      WindowPop(cells[..], current, Sub(cells.Length, writeIdx, current));
      readIdx := (current + 1) % cells.Length;
      SmallRemainder(readIdx, cells.Length);
      WindowShift(cells[..], current + 1, readIdx, Sub(cells.Length, writeIdx, readIdx));
      return true, snapshot;
    }
  }

  lemma HeldBound(capacity: nat, w: nat, r: nat)
    requires w < capacity && r < capacity
    ensures Sub(capacity, w, r) <= capacity - 1
  {
  }

  /** Either index is the other one moved by the number held. */
  lemma IndexOfHeld(capacity: nat, w: nat, r: nat)
    requires w < capacity && r < capacity
    ensures var held := Sub(capacity, w, r);
      && (r + held) % capacity == w
      && (held < capacity - 1 ==> Sub(capacity, (w + 1) % capacity, r) == held + 1)
  {
    SmallRemainder(w, capacity);
    SmallRemainder(r, capacity);
    if r <= w {
      SubOfIndices(capacity, w, r);
      if w - r < capacity - 1 {
        SubOfIndices(capacity, w + 1, r);
      }
    } else {
      AddModulus(w, capacity);
      SubOfIndices(capacity, w + capacity, r);
      AddModulus(w + 1, capacity);
      if w + capacity - r < capacity - 1 {
        SubOfIndices(capacity, w + capacity + 1, r);
      }
    }
  }

  lemma NonEmptyHeld(capacity: nat, w: nat, r: nat)
    requires w < capacity && r < capacity && w != r
    ensures 0 < Sub(capacity, w, r)
    ensures Sub(capacity, w, (r + 1) % capacity) == Sub(capacity, w, r) - 1
  {
    SmallRemainder(w, capacity);
    SmallRemainder(r, capacity);
    if r < w {
      SubOfIndices(capacity, w, r);
      SubOfIndices(capacity, w, r + 1);
    } else {
      AddModulus(w, capacity);
      SubOfIndices(capacity, w + capacity, r);
      SubOfIndices(capacity, w + capacity, r + 1);
    }
  }
}
