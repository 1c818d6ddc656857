/** The ring of accepted decisions behind the fallback value.  Its modulus changes at run time; it
    still is a plain bounded queue that forgets its oldest sample. */
module FallbackRing {
  import opened Modular
  import opened RealSums

  const SLOTS := 256

  // ---------- The queue ----------

  /** The newest n entries, or all of them. */
  function Newest(q: seq<real>, n: nat): (r: seq<real>)
    ensures |r| == if |q| <= n then |q| else n
  {
    if |q| <= n then q else q[|q| - n..]
  }

  function Push(q: seq<real>, x: real, window: nat): seq<real> { Newest(q + [x], window) }

  datatype Op = Accept(sample: real) | Resize(window: nat) | Reset

  datatype Queue = Queue(items: seq<real>, window: nat)

  function Apply(q: Queue, op: Op): Queue {
    match op
    case Accept(x) => q.(items := Push(q.items, x, q.window))
    case Resize(w) => Queue(Newest(q.items, w), w)
    case Reset => q.(items := [])
  }

  function Run(window: nat, ops: seq<Op>): Queue {
    if ops == [] then Queue([], window) else Apply(Run(window, ops[..|ops| - 1]), ops[|ops| - 1])
  }

  /** Everything accepted since the last reset. */
  function History(ops: seq<Op>): seq<real> {
    if ops == [] then []
    else
      match ops[|ops| - 1]
      case Accept(x) => History(ops[..|ops| - 1]) + [x]
      case Resize(_) => History(ops[..|ops| - 1])
      case Reset => []
  }

  ghost predicate Suffix(q: seq<real>, h: seq<real>) { |q| <= |h| && q == h[|h| - |q|..] }

  /** The least window in force at any time since the last reset. */
  function LeastWindow(window: nat, ops: seq<Op>): nat {
    if ops == [] then window
    else
      var before := LeastWindow(window, ops[..|ops| - 1]);
      match ops[|ops| - 1]
      case Accept(_) => before
      case Resize(w) => if w < before then w else before
      case Reset => Run(window, ops[..|ops| - 1]).window
  }

  /** q is the newest part of h: at most most entries, and all of h or at least least of them. */
  ghost predicate NewestOf(q: seq<real>, h: seq<real>, least: nat, most: nat) {
    && Suffix(q, h) && |q| <= most
    && (|q| == |h| || least <= |q|)
  }

  /** Over any mix of accepted decisions, window changes and resets the queue holds the newest of
      what was accepted since the last reset, in order: never more than its window, and never fewer
      than the least window since that reset unless it holds everything. */
  lemma {:induction false} QueueIsNewest(window: nat, ops: seq<Op>)
    ensures var q := Run(window, ops);
      LeastWindow(window, ops) <= q.window && NewestOf(q.items, History(ops), LeastWindow(window, ops), q.window)
  {
    if ops != [] {
      var n := |ops| - 1;
      QueueIsNewest(window, ops[..n]);
      var q, h, least := Run(window, ops[..n]), History(ops[..n]), LeastWindow(window, ops[..n]);
      match ops[n]
      case Accept(x) => NewestAfterPush(q.items, h, x, least, q.window);
      case Resize(w) => NewestAfterResize(q.items, h, least, q.window, w);
      case Reset =>
    }
  }

  lemma NewestAfterPush(q: seq<real>, h: seq<real>, x: real, least: nat, window: nat)
    requires least <= window && NewestOf(q, h, least, window)
    ensures NewestOf(Push(q, x, window), h + [x], least, window)
  {
  }

  lemma NewestAfterResize(q: seq<real>, h: seq<real>, least: nat, most: nat, w: nat)
    requires NewestOf(q, h, least, most)
    ensures NewestOf(Newest(q, w), h, if w < least then w else least, w)
  {
  }

  // ---------- The ring ----------

  /** The slots in use, oldest first: from the start while the ring fills, from the head once full. */
  function InAgeOrder(slots: seq<real>, head: nat, count: nat, window: nat): (q: seq<real>)
    requires Shape(|slots|, head, count, window)
    ensures |q| == count
  {
    if count < window then slots[..count] else slots[head..window] + slots[..head]
  }

  predicate Shape(slots: nat, head: nat, count: nat, window: nat) {
    1 <= window <= slots && count <= window && head < window && (count < window ==> head == count)
  }

  /** The sum over the first count slots, in whatever order they were filled, is the sum of the queue. */
  lemma SlotsSum(slots: seq<real>, head: nat, count: nat, window: nat)
    requires Shape(|slots|, head, count, window)
    ensures Sum(slots[..count]) == Sum(InAgeOrder(slots, head, count, window))
  {
    if count == window {
      SumConcat(slots[head..window], slots[..head]);
      SumConcat(slots[..head], slots[head..window]);
      assert slots[..window] == slots[..head] + slots[head..window];
    }
  }

  lemma PushFilling(slots: seq<real>, count: nat, window: nat, x: real)
    requires count < window <= |slots|
    ensures var head' := if count + 1 == window then 0 else count + 1;
      && Shape(|slots|, head', count + 1, window)
      && InAgeOrder(slots[count := x], head', count + 1, window) == slots[..count] + [x]
  {
    assert slots[count := x][..count + 1] == slots[..count] + [x];
  }

  lemma PushFull(slots: seq<real>, head: nat, window: nat, x: real)
    requires Shape(|slots|, head, window, window)
    ensures var head' := if head + 1 == window then 0 else head + 1;
      && Shape(|slots|, head', window, window)
      && InAgeOrder(slots[head := x], head', window, window) == InAgeOrder(slots, head, window, window)[1..] + [x]
  {
    assert InAgeOrder(slots, head, window, window)[1..] == slots[head + 1..window] + slots[..head];
  }

  lemma NextHead(head: nat, window: nat)
    requires head < window
    ensures (head + 1) % window == if head + 1 == window then 0 else head + 1
  {
    if head + 1 == window {
      AddModulus(0, window);
    } else {
      SmallRemainder(head + 1, window);
    }
  }

  /** Writing at the head and moving it on is a push on the queue. */
  lemma PushKeepsOrder(slots: seq<real>, head: nat, count: nat, window: nat, x: real)
    requires Shape(|slots|, head, count, window)
    ensures var count' := if count < window then count + 1 else count;
      && Shape(|slots|, (head + 1) % window, count', window)
      && InAgeOrder(slots[head := x], (head + 1) % window, count', window) ==
           Push(InAgeOrder(slots, head, count, window), x, window)
  {
    var q := InAgeOrder(slots, head, count, window);
    NextHead(head, window);
    if count < window {
      PushFilling(slots, count, window, x);
    } else {
      PushFull(slots, head, window, x);
      assert (q + [x])[1..] == q[1..] + [x];
    }
  }

  lemma OnceAround(n: nat, window: nat, place: nat)
    requires n < 2 * window && place == if n < window then n else n - window
    ensures n % window == place
  {
    SmallRemainder(place, window);
    if window <= n {
      AddModulus(place, window);
    }
  }

  lemma RetainedSlot(slots: seq<real>, head: nat, count: nat, window: nat, retained: nat, i: nat, n: nat, place: nat)
    requires Shape(|slots|, head, count, window) && i < retained <= count
    requires n == head + window - retained + i && place == if n < window then n else n - window
    ensures n < 2 * window && place < |slots|
    ensures slots[place] == Newest(InAgeOrder(slots, head, count, window), retained)[i]
  {
  }

  /** Where the i-th of the retained newest samples lies. */
  lemma RetainedAt(slots: seq<real>, head: nat, count: nat, window: nat, retained: nat, i: nat)
    requires Shape(|slots|, head, count, window) && i < retained <= count
    ensures (head + window - retained + i) % window < |slots|
    ensures slots[(head + window - retained + i) % window] ==
      Newest(InAgeOrder(slots, head, count, window), retained)[i]
  {
    var n := head + window - retained + i;
    var place := if n < window then n else n - window;
    RetainedSlot(slots, head, count, window, retained, i, n, place);
    OnceAround(n, window, place);
  }
}
