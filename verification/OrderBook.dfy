/** The limit order book as a transformation of values: the sweep of an incoming order through the
    opposite queue, the stable insertion of what is left, expiry, and what every run of them keeps.
    The mutable objects that carry it out are in OrderBookObjects. */
module OrderBook {
  import opened Options
  import opened RealSums

  const DUST := 0.000001

  datatype Side = Buy | Sell
  datatype Kind = Limit | Market

  /** arrival is a history variable: how many orders the book had processed before this one. */
  datatype Order = Order(orderId: int, agent: string, side: Side, kind: Kind, price: Option<real>,
                         quantity: real, timestamp: int, filled: real, arrival: nat)
  {
    function Remaining(): real { if quantity - filled < 0.0 then 0.0 else quantity - filled }
    function PriceOrZero(): real { if price.Some? then price.value else 0.0 }
    /** Better prices rank lower on either side. */
    function Rank(): real { if side == Buy then -PriceOrZero() else PriceOrZero() }
  }

  datatype Trade = Trade(tradeId: nat, buyOrder: int, sellOrder: int, buyer: string, seller: string,
                         price: real, quantity: real, timestamp: int)

  datatype Book = Book(tick: real, bids: seq<Order>, asks: seq<Order>, trades: seq<Trade>,
                       counter: nat, last: Option<real>, arrivals: nat)

  function EmptyBook(tick: real): Book { Book(tick, [], [], [], 0, None, 0) }

  // ---------- Validation and price rounding ----------

  predicate Acceptable(o: Order) {
    && o.quantity > 0.0
    && 0.0 <= o.filled <= o.quantity
    && (o.kind == Limit ==> o.price.Some? && o.price.value > 0.0)
  }

  /** Nearest integer, ties to even. */
  function RoundHalfEven(x: real): int {
    var down := x.Floor;
    var rest := x - down as real;
    if rest < 0.5 || (rest == 0.5 && down % 2 == 0) then down else down + 1
  }

  /** No integer is nearer, a tie goes to the even one, and a larger number never rounds lower. */
  lemma RoundingIsNearest(x: real, y: real)
    requires x <= y
    ensures -0.5 <= RoundHalfEven(x) as real - x <= 0.5
    ensures Abs(RoundHalfEven(x) as real - x) == 0.5 ==> RoundHalfEven(x) % 2 == 0
    ensures RoundHalfEven(x) <= RoundHalfEven(y)
  {
    assert x.Floor <= y.Floor;
  }

  function RoundTo4(x: real): real { RoundHalfEven(x * 10000.0) as real / 10000.0 }

  lemma RoundTo4Monotone(x: real, y: real)
    requires x <= y
    ensures RoundTo4(x) <= RoundTo4(y)
  {
    RoundingIsNearest(x * 10000.0, y * 10000.0);
  }

  lemma RoundTo4IsNear(x: real)
    ensures RoundTo4(x) * 10000.0 == RoundHalfEven(x * 10000.0) as real
    ensures Abs(RoundTo4(x) - x) <= 0.00005
  {
    RoundingIsNearest(x * 10000.0, x * 10000.0);
  }

  function NearestMultiple(price: real, tick: real): real
    requires tick > 0.0
  {
    RoundHalfEven(price / tick) as real * tick
  }

  function RoundPrice(price: real, tick: real): real
    requires tick > 0.0
  {
    RoundTo4(NearestMultiple(price, tick))
  }

  /** entered lies on the grid of 0.0001, no further than half a step of it from a multiple of the
      tick, which is no further than half a tick from the submitted price. */
  ghost predicate OnTickGrid(entered: real, submitted: real, tick: real) {
    exists multiple: real, m: int :: GridPoint(entered, submitted, tick, multiple, m)
  }

  ghost predicate GridPoint(entered: real, submitted: real, tick: real, multiple: real, m: int) {
    && entered * 10000.0 == m as real
    && Abs(entered - multiple) <= 0.00005
    && MultipleNear(multiple, submitted, tick)
  }

  ghost predicate MultipleNear(multiple: real, submitted: real, tick: real) {
    Abs(multiple - submitted) <= tick / 2.0 && exists n: int :: Times(n, tick) == multiple
  }

  function Times(n: int, tick: real): real { n as real * tick }

  predicate NearPrice(entered: real, submitted: real, tick: real) {
    Abs(entered - submitted) <= tick / 2.0 + 0.00005
  }

  lemma TickMultiple(price: real, tick: real, q: real, n: int)
    requires tick > 0.0 && q * tick == price && -0.5 <= n as real - q <= 0.5
    ensures Abs(n as real * tick - price) <= tick / 2.0
  {
    var d := n as real - q;
    assert n as real * tick - price == d * tick;
    MulMonotone(-0.5, d, tick);
    MulMonotone(d, 0.5, tick);
  }

  lemma MultipleIsNear(price: real, tick: real)
    requires tick > 0.0
    ensures MultipleNear(NearestMultiple(price, tick), price, tick)
  {
    hide RoundHalfEven;
    var n := RoundHalfEven(price / tick);
    RoundingIsNearest(price / tick, price / tick);
    TickMultiple(price, tick, price / tick, n);
    assert Times(n, tick) == NearestMultiple(price, tick);
  }

  lemma EnteredFrom(price: real, tick: real, x: real)
    requires tick > 0.0 && x == NearestMultiple(price, tick)
    ensures GridPoint(RoundTo4(x), price, tick, x, RoundHalfEven(x * 10000.0))
    ensures NearPrice(RoundTo4(x), price, tick)
  {
    hide RoundHalfEven, RoundTo4, NearestMultiple;
    MultipleIsNear(price, tick);
    RoundTo4IsNear(x);
  }

  lemma QuotientOrder(price: real, other: real, tick: real, x: real, y: real)
    requires tick > 0.0 && price <= other && x * tick == price && y * tick == other
    ensures x <= y
  {
    assert (x - y) * tick == price - other;
  }

  lemma MultiplesKeepOrder(price: real, other: real, tick: real)
    requires tick > 0.0 && price <= other
    ensures NearestMultiple(price, tick) <= NearestMultiple(other, tick)
  {
    hide RoundHalfEven;
    QuotientOrder(price, other, tick, price / tick, other / tick);
    RoundingIsNearest(price / tick, other / tick);
    MulMonotone(RoundHalfEven(price / tick) as real, RoundHalfEven(other / tick) as real, tick);
  }

  /** The entered price is the submitted one to within half a tick and half a grid step, and a larger
      price never enters lower. */
  lemma EnteredPriceIsNear(price: real, other: real, tick: real)
    requires tick > 0.0
    ensures OnTickGrid(RoundPrice(price, tick), price, tick)
    ensures NearPrice(RoundPrice(price, tick), price, tick)
    ensures price <= other ==> RoundPrice(price, tick) <= RoundPrice(other, tick)
  {
    hide RoundHalfEven, RoundTo4, NearestMultiple, GridPoint, NearPrice;
    EnteredFrom(price, tick, NearestMultiple(price, tick));
    if price <= other {
      MultiplesKeepOrder(price, other, tick);
      RoundTo4Monotone(NearestMultiple(price, tick), NearestMultiple(other, tick));
    }
  }

  // ---------- The sweep ----------

  /** A market order takes any price; a limit order stops at the first price beyond its limit. */
  predicate Crosses(o: Order, resting: Order) {
    o.kind == Market || o.Rank() + resting.Rank() <= 0.0
  }

  datatype Swept = Swept(order: Order, queue: seq<Order>, fills: seq<real>)

  function Fill(o: Order, qty: real): Order { o.(filled := o.filled + qty) }

  /** The matching loop: fill against the head of the queue, drop the head when it is used up. */
  function Sweep(o: Order, q: seq<Order>): Swept
    decreases |q|
  {
    if o.Remaining() > DUST && q != [] && Crosses(o, q[0]) then
      var qty := Min(o.Remaining(), q[0].Remaining());
      var best := Fill(q[0], qty);
      if best.Remaining() <= DUST then
        var rest := Sweep(Fill(o, qty), q[1..]);
        Swept(rest.order, rest.queue, [qty] + rest.fills)
      else Swept(Fill(o, qty), [best] + q[1..], [qty])
    else Swept(o, q, [])
  }

  predicate Sound(o: Order) { 0.0 <= o.filled <= o.quantity }
  ghost predicate AllSound(q: seq<Order>) { forall i :: 0 <= i < |q| ==> Sound(q[i]) }

  /** What is left of the queue: a suffix, or a suffix whose head was filled in part. */
  ghost predicate QueueLeft(q: seq<Order>, fills: seq<real>, left: seq<Order>) {
    var n := |fills|;
    && n <= |q|
    && (left == q[n..] ||
        (n > 0 && left == [Fill(q[n - 1], fills[n - 1])] + q[n..] && left[0].Remaining() > DUST))
  }

  ghost predicate FillsOk(o: Order, q: seq<Order>, fills: seq<real>) {
    && |fills| <= |q|
    && (forall i :: 0 <= i < |fills| ==> Crosses(o, q[i]) && 0.0 <= fills[i] <= q[i].Remaining())
    && (forall i :: 0 <= i < |fills| - 1 ==> fills[i] == q[i].Remaining())
  }

  lemma SweepOneStep(o: Order, best: Order)
    requires Sound(o) && Sound(best) && o.Remaining() > DUST
    ensures var qty := Min(o.Remaining(), best.Remaining());
      && 0.0 <= qty && Sound(Fill(o, qty)) && Sound(Fill(best, qty))
      && Fill(o, qty).Remaining() == o.Remaining() - qty
      && Fill(best, qty).Remaining() == best.Remaining() - qty
      && (Fill(o, qty).Remaining() > DUST ==> qty == best.Remaining())
      && (Fill(best, qty).Remaining() > DUST ==> Fill(o, qty).Remaining() == 0.0)
  {
  }

  /** Only a prefix of the queue is touched; all of it but the last order is used up exactly; every
      fill is within what was left and within the limit of the incoming order; the incoming order is
      filled by the sum. */
  lemma {:induction false} SweepShape(o: Order, q: seq<Order>)
    requires Sound(o) && AllSound(q)
    ensures var s := Sweep(o, q);
      && QueueLeft(q, s.fills, s.queue)
      && FillsOk(o, q, s.fills)
      && s.order == Fill(o, Sum(s.fills))
      && 0.0 <= Sum(s.fills) <= o.Remaining()
    decreases |q|
  {
    if o.Remaining() > DUST && q != [] && Crosses(o, q[0]) {
      var qty := Min(o.Remaining(), q[0].Remaining());
      SweepOneStep(o, q[0]);
      if Fill(q[0], qty).Remaining() <= DUST {
        var o' := Fill(o, qty);
        SweepShape(o', q[1..]);
        SweepConsShape(o, q, qty);
      } else {
        SumPrepend(qty, []);
      }
    }
  }

  lemma SweepConsShape(o: Order, q: seq<Order>, qty: real)
    requires q != [] && Crosses(o, q[0]) && 0.0 <= qty <= q[0].Remaining()
    requires Sound(o) && Sound(Fill(o, qty)) && Fill(o, qty).Remaining() == o.Remaining() - qty
    requires Fill(o, qty).Remaining() > DUST ==> qty == q[0].Remaining()
    requires var rest := Sweep(Fill(o, qty), q[1..]);
      && QueueLeft(q[1..], rest.fills, rest.queue)
      && FillsOk(Fill(o, qty), q[1..], rest.fills)
      && rest.order == Fill(Fill(o, qty), Sum(rest.fills))
      && 0.0 <= Sum(rest.fills) <= Fill(o, qty).Remaining()
    ensures var rest := Sweep(Fill(o, qty), q[1..]);
      var fills := [qty] + rest.fills;
      && QueueLeft(q, fills, rest.queue)
      && FillsOk(o, q, fills)
      && rest.order == Fill(o, Sum(fills))
      && 0.0 <= Sum(fills) <= o.Remaining()
  {
    var rest := Sweep(Fill(o, qty), q[1..]);
    var fills := [qty] + rest.fills;
    SumPrepend(qty, rest.fills);
    assert q[1..][|rest.fills|..] == q[|fills|..];
    FillsCons(o, qty, q, rest.fills);
  }

  lemma FillsCons(o: Order, qty: real, q: seq<Order>, fills: seq<real>)
    requires q != [] && Crosses(o, q[0]) && 0.0 <= qty <= q[0].Remaining()
    requires FillsOk(Fill(o, qty), q[1..], fills)
    requires fills != [] ==> qty == q[0].Remaining()
    ensures FillsOk(o, q, [qty] + fills)
  {
    forall i | 0 <= i < |fills| + 1
      ensures Crosses(o, q[i]) && 0.0 <= ([qty] + fills)[i] <= q[i].Remaining()
      ensures i < |fills| ==> ([qty] + fills)[i] == q[i].Remaining()
    {
      if i > 0 {
        assert q[i] == q[1..][i - 1] && ([qty] + fills)[i] == fills[i - 1];
      }
    }
  }

  lemma {:induction false} SweepStops(o: Order, q: seq<Order>)
    requires Sound(o) && AllSound(q)
    ensures var s := Sweep(o, q);
      s.order.Remaining() <= DUST || s.queue == [] || !Crosses(o, s.queue[0])
    decreases |q|
  {
    if o.Remaining() > DUST && q != [] && Crosses(o, q[0]) {
      var qty := Min(o.Remaining(), q[0].Remaining());
      SweepOneStep(o, q[0]);
      if Fill(q[0], qty).Remaining() <= DUST {
        SweepStops(Fill(o, qty), q[1..]);
      }
    }
  }

  /** The opposite orders after a sweep, used up or not: one fill each for the first ones. */
  function Touched(q: seq<Order>, fills: seq<real>): seq<Order> {
    seq(|q|, i requires 0 <= i < |q| => if i < |fills| then Fill(q[i], fills[i]) else q[i])
  }

  function TotalFilled(q: seq<Order>): real { if q == [] then 0.0 else TotalFilled(q[..|q| - 1]) + q[|q| - 1].filled }

  lemma {:induction false} FilledAt(q: seq<Order>, i: nat, o: Order)
    requires i < |q|
    ensures TotalFilled(q[i := o]) == TotalFilled(q) + o.filled - q[i].filled
  {
    var n := |q| - 1;
    if i == n {
      assert q[i := o][..n] == q[..n];
    } else {
      FilledAt(q[..n], i, o);
      assert q[i := o][..n] == q[..n][i := o];
    }
  }

  /** The resting side gains exactly what the incoming order is filled by. */
  lemma {:induction false} TouchedGains(q: seq<Order>, fills: seq<real>)
    requires |fills| <= |q|
    ensures TotalFilled(Touched(q, fills)) == TotalFilled(q) + Sum(fills)
  {
    if fills == [] {
      assert Touched(q, fills) == q;
    } else {
      var n := |fills| - 1;
      var before := Touched(q, fills[..n]);
      TouchedGains(q, fills[..n]);
      assert Touched(q, fills) == before[n := Fill(q[n], fills[n])];
      FilledAt(before, n, Fill(q[n], fills[n]));
    }
  }

  // ---------- Priority order ----------

  /** Price first, then time, then arrival. */
  predicate Before(a: Order, b: Order) {
    || a.Rank() < b.Rank()
    || (a.Rank() == b.Rank() && a.timestamp < b.timestamp)
    || (a.Rank() == b.Rank() && a.timestamp == b.timestamp && a.arrival < b.arrival)
  }

  ghost predicate Prioritised(q: seq<Order>) {
    forall i, j :: 0 <= i < j < |q| ==> Before(q[i], q[j])
  }

  /** The sort key only: price and time. */
  predicate KeyAtMost(a: Order, b: Order) {
    a.Rank() < b.Rank() || (a.Rank() == b.Rank() && a.timestamp <= b.timestamp)
  }

  /** Insertion after everything with a key at most that of o. */
  function InsertStable(q: seq<Order>, o: Order): seq<Order> {
    if q == [] || KeyAtMost(q[|q| - 1], o) then q + [o]
    else InsertStable(q[..|q| - 1], o) + [q[|q| - 1]]
  }

  /** A stable sort by key: equal keys keep their order. */
  function StableSort(q: seq<Order>): seq<Order> {
    if q == [] then [] else InsertStable(StableSort(q[..|q| - 1]), q[|q| - 1])
  }

  lemma {:induction false} InsertStableContents(q: seq<Order>, o: Order)
    ensures multiset(InsertStable(q, o)) == multiset(q) + multiset{o}
    ensures |InsertStable(q, o)| == |q| + 1
  {
    if !(q == [] || KeyAtMost(q[|q| - 1], o)) {
      var n := |q| - 1;
      InsertStableContents(q[..n], o);
      assert q == q[..n] + [q[n]];
    }
  }

  lemma {:induction false} StableSortContents(q: seq<Order>)
    ensures multiset(StableSort(q)) == multiset(q)
  {
    if q != [] {
      var n := |q| - 1;
      StableSortContents(q[..n]);
      InsertStableContents(StableSort(q[..n]), q[n]);
      assert q == q[..n] + [q[n]];
    }
  }

  ghost predicate AllBefore(q: seq<Order>, o: Order) {
    forall i :: 0 <= i < |q| ==> Before(q[i], o)
  }

  lemma {:induction false} InsertKeepsPriority(q: seq<Order>, o: Order)
    requires Prioritised(q) && forall i :: 0 <= i < |q| ==> q[i].arrival < o.arrival
    ensures Prioritised(InsertStable(q, o))
    ensures forall b: Order :: AllBefore(q, b) && Before(o, b) ==> AllBefore(InsertStable(q, o), b)
  {
    if q == [] {
    } else if KeyAtMost(q[|q| - 1], o) {
      var n := |q| - 1;
      forall i | 0 <= i < |q| ensures Before(q[i], o) {
        assert i < n ==> Before(q[i], q[n]);
      }
    } else {
      var n := |q| - 1;
      InsertKeepsPriority(q[..n], o);
      assert Before(o, q[n]);
      assert AllBefore(q[..n], q[n]);
      forall b: Order | AllBefore(q, b) && Before(o, b) ensures AllBefore(InsertStable(q, o), b) {
        assert AllBefore(q[..n], b);
        assert Before(q[n], b);
      }
    }
  }

  /** A queue in priority order is its own stable sort, so sorting after an append is an insertion. */
  lemma {:induction false} SortOfSorted(q: seq<Order>)
    requires Prioritised(q)
    ensures StableSort(q) == q
  {
    if q != [] {
      var n := |q| - 1;
      SortOfSorted(q[..n]);
      if n > 0 {
        assert Before(q[n - 1], q[n]);
      }
      assert q == q[..n] + [q[n]];
    }
  }

  lemma SortAfterAppend(q: seq<Order>, o: Order)
    requires Prioritised(q)
    ensures StableSort(q + [o]) == InsertStable(q, o)
  {
    SortOfSorted(q);
    assert (q + [o])[..|q|] == q;
  }

  // ---------- Crossing liquidity ----------

  /** What the crossing orders of a queue have left, together. */
  function Liquidity(o: Order, q: seq<Order>): real {
    if q == [] then 0.0 else (if Crosses(o, q[0]) then q[0].Remaining() else 0.0) + Liquidity(o, q[1..])
  }

  lemma {:induction false} NoneCrosses(o: Order, q: seq<Order>)
    requires Prioritised(q) && (q == [] || !Crosses(o, q[0]))
    ensures Liquidity(o, q) == 0.0
    ensures forall i :: 0 <= i < |q| ==> !Crosses(o, q[i])
  {
    if q != [] {
      if |q| > 1 {
        assert Before(q[0], q[1]);
      }
      NoneCrosses(o, q[1..]);
      forall i | 0 <= i < |q| ensures !Crosses(o, q[i]) {
        assert i > 0 ==> q[i] == q[1..][i - 1];
      }
    }
  }

  lemma LiquidityOfFilled(o: Order, qty: real, q: seq<Order>)
    ensures Liquidity(Fill(o, qty), q) == Liquidity(o, q)
  {
    if q != [] {
      LiquidityOfFilled(o, qty, q[1..]);
    }
  }

  lemma {:induction false} LiquidityNonNegative(o: Order, q: seq<Order>)
    ensures Liquidity(o, q) >= 0.0
  {
    if q != [] {
      LiquidityNonNegative(o, q[1..]);
    }
  }

  /** The traded volume is the smaller of the incoming quantity and the crossing liquidity, to
      within the dust threshold. */
  lemma {:induction false} SweepIsMaximal(o: Order, q: seq<Order>)
    requires Sound(o) && AllSound(q) && Prioritised(q)
    ensures var most := Min(o.Remaining(), Liquidity(o, q));
      most - DUST <= Sum(Sweep(o, q).fills) <= most
    decreases |q|
  {
    LiquidityNonNegative(o, q);
    if o.Remaining() > DUST && q != [] && Crosses(o, q[0]) {
      var qty := Min(o.Remaining(), q[0].Remaining());
      SweepOneStep(o, q[0]);
      LiquidityNonNegative(o, q[1..]);
      if Fill(q[0], qty).Remaining() <= DUST {
        var rest := Sweep(Fill(o, qty), q[1..]);
        SweepIsMaximal(Fill(o, qty), q[1..]);
        LiquidityOfFilled(o, qty, q[1..]);
        SumPrepend(qty, rest.fills);
        if Fill(o, qty).Remaining() <= DUST {
          assert rest.fills == [];
        }
      } else {
        SumPrepend(qty, []);
      }
    } else if o.Remaining() > DUST {
      NoneCrosses(o, q);
    }
  }
}
