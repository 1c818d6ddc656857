/** A single-producer, single-consumer ring, every load, slot access and store one step of a
    schedule.  The wave channel and the health stream are two shapes of it. */
module SpscRing {
  import opened Modular

  /** slots cells, at most limit of them in use, indices counted modulo modulus. */
  datatype Shape = Shape(slots: nat, limit: nat, modulus: nat)

  ghost predicate ShapeOk(p: Shape) {
    0 < p.slots && p.limit <= p.slots && p.limit < p.modulus && p.modulus % p.slots == 0
  }

  const WAVE_CAPACITY: nat := 1024

  /** The wave channel: free-running 64-bit counters, 1024 slots, all of them usable. */
  const WAVE := Shape(WAVE_CAPACITY, WAVE_CAPACITY, WORD)

  /** The health stream: indices run modulo the capacity, one slot stays empty. */
  function Health(capacity: nat): Shape
    requires 0 < capacity
  {
    Shape(capacity, capacity - 1, capacity)
  }

  lemma ShapesOk(capacity: nat)
    requires 0 < capacity
    ensures ShapeOk(WAVE) && ShapeOk(Health(capacity))
  {
  }

  // ---------- Index arithmetic ----------

  lemma SlotOfIndex(p: Shape, n: nat)
    requires ShapeOk(p)
    ensures (n % p.modulus) % p.slots == n % p.slots
  {
    RemainderOfRemainder(n, p.modulus, p.slots);
  }

  // ---------- The transition system ----------

  /** Where the producer stands in one push.  popsSeen is a history variable: how many pops had
      finished when the tail was loaded. */
  datatype Producer<T> =
    | ProducerIdle
    | LoadedHead(frame: T, head: nat)
    | LoadedBoth(frame: T, head: nat, tail: nat, popsSeen: nat)
    | SlotWritten(frame: T, head: nat)

  /** Where the consumer stands in one pop.  pushesSeen is a history variable: how many pushes had
      succeeded when the head was loaded. */
  datatype Consumer<T> =
    | ConsumerIdle
    | TailLoaded(tail: nat)
    | BothLoaded(tail: nat, head: nat, pushesSeen: nat)
    | SlotRead(tail: nat, frame: T)

  /** offered and popped are history variables: every finished push with its result, and every
      frame delivered by a successful pop. */
  datatype Ring<T> = Ring(
    cells: seq<T>, head: nat, tail: nat,
    producer: Producer<T>, consumer: Consumer<T>,
    offered: seq<(T, bool)>, popped: seq<T>)
  {
    function Pushed(): seq<T> { Accepted(offered) }
  }

  datatype Event<T> = Push(frame: T) | Pop

  function Accepted<T>(offered: seq<(T, bool)>): seq<T> {
    if offered == [] then []
    else
      var n := |offered| - 1;
      Accepted(offered[..n]) + if offered[n].1 then [offered[n].0] else []
  }

  function Start<T>(cells: seq<T>): Ring<T> {
    Ring(cells, 0, 0, ProducerIdle, ConsumerIdle, [], [])
  }

  predicate Full(p: Shape, head: nat, tail: nat)
    requires ShapeOk(p)
  {
    head >= p.modulus || tail >= p.modulus || Sub(p.modulus, head, tail) >= p.limit
  }

  function ProducerStep<T>(p: Shape, s: Ring<T>, frame: T): Ring<T>
    requires ShapeOk(p)
  {
    match s.producer
    case ProducerIdle => s.(producer := LoadedHead(frame, s.head))
    case LoadedHead(f, h) => s.(producer := LoadedBoth(f, h, s.tail, |s.popped|))
    case LoadedBoth(f, h, t, _) =>
      if Full(p, h, t) || h % p.slots >= |s.cells| then
        s.(producer := ProducerIdle, offered := s.offered + [(f, false)])
      else s.(producer := SlotWritten(f, h), cells := s.cells[h % p.slots := f])
    case SlotWritten(f, h) =>
      s.(producer := ProducerIdle, head := (h + 1) % p.modulus, offered := s.offered + [(f, true)])
  }

  function ConsumerStep<T>(p: Shape, s: Ring<T>): Ring<T>
    requires ShapeOk(p)
  {
    match s.consumer
    case ConsumerIdle => s.(consumer := TailLoaded(s.tail))
    case TailLoaded(t) => s.(consumer := BothLoaded(t, s.head, |s.Pushed()|))
    case BothLoaded(t, h, _) =>
      if t == h || t % p.slots >= |s.cells| then s.(consumer := ConsumerIdle)
      else s.(consumer := SlotRead(t, s.cells[t % p.slots]))
    case SlotRead(t, f) =>
      s.(consumer := ConsumerIdle, tail := (t + 1) % p.modulus, popped := s.popped + [f])
  }

  function Next<T>(p: Shape, s: Ring<T>, e: Event<T>): Ring<T>
    requires ShapeOk(p)
  {
    match e
    case Push(f) => ProducerStep(p, s, f)
    case Pop => ConsumerStep(p, s)
  }

  function Exec<T>(p: Shape, s: Ring<T>, es: seq<Event<T>>): Ring<T>
    requires ShapeOk(p)
  {
    if es == [] then s else Next(p, Exec(p, s, es[..|es| - 1]), es[|es| - 1])
  }

  // ---------- Invariant ----------

  ghost predicate CellsOk<T>(p: Shape, cells: seq<T>, pushed: seq<T>, pops: nat)
    requires ShapeOk(p)
  {
    && |cells| == p.slots
    && pops <= |pushed| <= pops + p.limit
    && forall k :: pops <= k < |pushed| ==> cells[k % p.slots] == pushed[k]
  }

  ghost predicate ProducerOk<T>(p: Shape, s: Ring<T>, pushes: nat, pops: nat)
    requires ShapeOk(p)
  {
    match s.producer
    case ProducerIdle => true
    case LoadedHead(_, h) => h == s.head
    case LoadedBoth(_, h, t, seen) =>
      h == s.head && t == seen % p.modulus && seen <= pops && seen <= pushes <= seen + p.limit
    case SlotWritten(f, h) =>
      h == s.head && pushes < pops + p.limit && |s.cells| == p.slots && s.cells[pushes % p.slots] == f
  }

  ghost predicate ConsumerOk<T>(p: Shape, s: Ring<T>, pushed: seq<T>, pops: nat)
    requires ShapeOk(p)
  {
    match s.consumer
    case ConsumerIdle => true
    case TailLoaded(t) => t == s.tail
    case BothLoaded(t, h, seen) => t == s.tail && h == seen % p.modulus && pops <= seen <= |pushed|
    case SlotRead(t, f) => t == s.tail && pops < |pushed| && f == pushed[pops]
  }

  ghost predicate RingOk<T>(p: Shape, s: Ring<T>)
    requires ShapeOk(p)
  {
    var pushed, pops := s.Pushed(), |s.popped|;
    && s.head == |pushed| % p.modulus
    && s.tail == pops % p.modulus
    && CellsOk(p, s.cells, pushed, pops)
    && s.popped == pushed[..pops]
    && ProducerOk(p, s, |pushed|, pops)
    && ConsumerOk(p, s, pushed, pops)
  }

  lemma AcceptedSnoc<T>(offered: seq<(T, bool)>, f: T, ok: bool)
    ensures Accepted(offered + [(f, ok)]) == Accepted(offered) + if ok then [f] else []
  {
    assert (offered + [(f, ok)])[..|offered|] == offered;
  }

  lemma StartOk<T>(p: Shape, cells: seq<T>)
    requires ShapeOk(p) && |cells| == p.slots
    ensures RingOk(p, Start(cells))
  {
  }

  /** A push is refused exactly when limit frames were held at the moment the tail was loaded. */
  lemma FullMeansLimit<T>(p: Shape, s: Ring<T>)
    requires ShapeOk(p) && RingOk(p, s) && s.producer.LoadedBoth?
    ensures Full(p, s.producer.head, s.producer.tail) <==> |s.Pushed()| - s.producer.popsSeen == p.limit
    ensures s.producer.head % p.slots == |s.Pushed()| % p.slots < |s.cells|
  {
    SubOfIndices(p.modulus, |s.Pushed()|, s.producer.popsSeen);
    SlotOfIndex(p, |s.Pushed()|);
  }

  lemma SlotWriteOk<T>(p: Shape, cells: seq<T>, pushed: seq<T>, pops: nat, f: T)
    requires ShapeOk(p) && CellsOk(p, cells, pushed, pops) && |pushed| < pops + p.limit
    ensures CellsOk(p, cells[|pushed| % p.slots := f], pushed, pops)
    ensures forall k :: pops <= k < |pushed| ==> k % p.slots != |pushed| % p.slots
  {
    forall k | pops <= k < |pushed| ensures k % p.slots != |pushed| % p.slots {
      DistinctSlots(p.slots, k, |pushed|);
    }
  }

  lemma RefuseOk<T>(p: Shape, s: Ring<T>)
    requires ShapeOk(p) && RingOk(p, s) && s.producer.LoadedBoth?
    ensures RingOk(p, s.(producer := ProducerIdle, offered := s.offered + [(s.producer.frame, false)]))
  {
    AcceptedSnoc(s.offered, s.producer.frame, false);
  }

  lemma WriteOk<T>(p: Shape, s: Ring<T>)
    requires ShapeOk(p) && RingOk(p, s) && s.producer.LoadedBoth?
    requires !Full(p, s.producer.head, s.producer.tail)
    ensures s.producer.head % p.slots < |s.cells|
    ensures RingOk(p, s.(producer := SlotWritten(s.producer.frame, s.producer.head),
                         cells := s.cells[s.producer.head % p.slots := s.producer.frame]))
  {
    FullMeansLimit(p, s);
    SlotWriteOk(p, s.cells, s.Pushed(), |s.popped|, s.producer.frame);
  }

  lemma ProducerStepOk<T>(p: Shape, s: Ring<T>, frame: T)
    requires ShapeOk(p) && RingOk(p, s)
    ensures RingOk(p, ProducerStep(p, s, frame))
  {
    match s.producer
    case ProducerIdle =>
    case LoadedHead(f, h) =>
    case LoadedBoth(f, h, t, seen) =>
      if Full(p, h, t) {
        RefuseOk(p, s);
      } else {
        WriteOk(p, s);
      }
    case SlotWritten(f, h) =>
      AcceptedSnoc(s.offered, f, true);
      NextIndex(p.modulus, |s.Pushed()|);
      PublishOk(p, s, f);
  }

  lemma PublishOk<T>(p: Shape, s: Ring<T>, f: T)
    requires ShapeOk(p) && RingOk(p, s) && s.producer.SlotWritten? && s.producer.frame == f
    ensures var pushed := s.Pushed() + [f];
      && CellsOk(p, s.cells, pushed, |s.popped|)
      && s.popped == pushed[..|s.popped|]
      && ConsumerOk(p, s, pushed, |s.popped|)
  {
  }

  lemma ConsumerStepOk<T>(p: Shape, s: Ring<T>)
    requires ShapeOk(p) && RingOk(p, s)
    ensures RingOk(p, ConsumerStep(p, s))
  {
    var pushed, pops := s.Pushed(), |s.popped|;
    match s.consumer
    case ConsumerIdle =>
    case TailLoaded(t) =>
    case BothLoaded(t, h, seen) =>
      EmptyMeansNone(p, s);
    case SlotRead(t, f) =>
      NextIndex(p.modulus, pops);
      assert pushed[..pops + 1] == pushed[..pops] + [pushed[pops]];
  }

  /** A pop is refused exactly when nothing was held at the moment the head was loaded. */
  lemma EmptyMeansNone<T>(p: Shape, s: Ring<T>)
    requires ShapeOk(p) && RingOk(p, s) && s.consumer.BothLoaded?
    ensures s.consumer.tail == s.consumer.head <==> s.consumer.pushesSeen == |s.popped|
    ensures s.consumer.tail % p.slots == |s.popped| % p.slots < |s.cells|
  {
    SubOfIndices(p.modulus, s.consumer.pushesSeen, |s.popped|);
    SubOfIndices(p.modulus, |s.popped|, |s.popped|);
    SlotOfIndex(p, |s.popped|);
  }

  // ---------- Main results ----------

  lemma {:induction false} ExecOk<T>(p: Shape, s: Ring<T>, es: seq<Event<T>>)
    requires ShapeOk(p) && RingOk(p, s)
    ensures RingOk(p, Exec(p, s, es))
  {
    if es != [] {
      var before := Exec(p, s, es[..|es| - 1]);
      ExecOk(p, s, es[..|es| - 1]);
      match es[|es| - 1]
      case Push(f) => ProducerStepOk(p, before, f);
      case Pop => ConsumerStepOk(p, before);
    }
  }

  /** Under every schedule the frames popped are a prefix of the frames whose push succeeded, and
      at most limit frames are held. */
  lemma Fifo<T>(p: Shape, cells: seq<T>, es: seq<Event<T>>)
    requires ShapeOk(p) && |cells| == p.slots
    ensures var s := Exec(p, Start(cells), es);
      s.popped <= s.Pushed() && |s.Pushed()| - |s.popped| <= p.limit
  {
    StartOk(p, cells);
    ExecOk(p, Start(cells), es);
  }

  /** Under every schedule a producer about to write a slot neither hits a frame that is still to be
      popped nor the slot that the consumer is about to read. */
  lemma NoOverwriteNoRace<T>(p: Shape, cells: seq<T>, es: seq<Event<T>>)
    requires ShapeOk(p) && |cells| == p.slots
    ensures var s := Exec(p, Start(cells), es);
      s.producer.LoadedBoth? && !Full(p, s.producer.head, s.producer.tail) ==>
        var slot := s.producer.head % p.slots;
        && (forall k :: |s.popped| <= k < |s.Pushed()| ==> k % p.slots != slot)
        && (s.consumer.BothLoaded? && s.consumer.tail != s.consumer.head ==> s.consumer.tail % p.slots != slot)
  {
    var s := Exec(p, Start(cells), es);
    StartOk(p, cells);
    ExecOk(p, Start(cells), es);
    if s.producer.LoadedBoth? && !Full(p, s.producer.head, s.producer.tail) {
      FullMeansLimit(p, s);
      SlotWriteOk(p, s.cells, s.Pushed(), |s.popped|, s.producer.frame);
      if s.consumer.BothLoaded? {
        EmptyMeansNone(p, s);
      }
    }
  }

  /** Both channels of the runtime, at the counters they really use. */
  lemma BothChannelsAreFifo<T>(capacity: nat, waveCells: seq<T>, healthCells: seq<T>, es: seq<Event<T>>)
    requires 0 < capacity && |waveCells| == WAVE_CAPACITY && |healthCells| == capacity
    ensures ShapeOk(WAVE) && ShapeOk(Health(capacity))
    ensures var s := Exec(WAVE, Start(waveCells), es);
      s.popped <= s.Pushed() && |s.Pushed()| - |s.popped| <= WAVE_CAPACITY
    ensures var s := Exec(Health(capacity), Start(healthCells), es);
      s.popped <= s.Pushed() && |s.Pushed()| - |s.popped| <= capacity - 1
  {
    ShapesOk(capacity);
    Fifo(WAVE, waveCells, es);
    Fifo(Health(capacity), healthCells, es);
  }

  /** The full test of the health stream is the full test of its shape. */
  lemma HealthFullTest(capacity: nat, w: nat, r: nat)
    requires 0 < capacity && w < capacity && r < capacity
    ensures (w + 1) % capacity == r <==> Sub(capacity, w, r) >= capacity - 1
  {
    SmallRemainder(w, capacity);
    SmallRemainder(r, capacity);
    if w + 1 == capacity {
      DropMultiple(1, capacity, 0);
    } else {
      SmallRemainder(w + 1, capacity);
    }
    if r <= w {
      SubOfIndices(capacity, w, r);
    } else {
      AddModulus(w, capacity);
      SubOfIndices(capacity, w + capacity, r);
    }
  }

  /** Masking with 1023 is the remainder by 1024. */
  lemma MaskIsRemainder(h: bv64)
    ensures h & (1024 - 1) == h % 1024
  {
  }

  // ---------- The size estimate ----------

  /** What size() computes from the head loaded first and the tail loaded second. */
  function SizeEstimate(head: nat, tail: nat): nat { if head >= tail then head - tail else 0 }

  /** With pushes done at the head load and pops done at the tail load, size() reports their
      difference (none when the pops are ahead) unless the two 64-bit counters have wrapped a
      different number of times between the loads in a way that shows. */
  lemma SizeIsExactUnlessWrapShows(pushes: nat, pops: nat)
    requires pushes - pops <= WAVE_CAPACITY
    ensures SizeEstimate(pushes % WORD, pops % WORD) == (if pops <= pushes then pushes - pops else 0) <==>
      pushes / WORD == pops / WORD || (pops / WORD > pushes / WORD && pushes % WORD <= pops % WORD)
  {
    var a, b, h, t := pushes / WORD, pops / WORD, pushes % WORD, pops % WORD;
    assert pushes == a * WORD + h && pops == b * WORD + t;
  }
}
