/** One call of the book and whole runs of it: submissions and expiries in any order keep the book
    in priority order, uncrossed and free of dust, and conserve quantity. */
module BookRuns {
  import opened Options
  import opened RealSums
  import opened OrderBook

  /** The trades of one sweep, in order, at the resting prices. */
  function TradesOf(o: Order, q: seq<Order>, fills: seq<real>, counter: nat): seq<Trade>
    requires |fills| <= |q|
  {
    seq(|fills|, i requires 0 <= i < |fills| => TradeOf(o, q[i], fills[i], counter + i + 1))
  }

  function TradeOf(o: Order, resting: Order, qty: real, id: nat): Trade {
    if o.side == Buy then
      Trade(id, o.orderId, resting.orderId, o.agent, resting.agent, resting.PriceOrZero(), qty, o.timestamp)
    else
      Trade(id, resting.orderId, o.orderId, resting.agent, o.agent, resting.PriceOrZero(), qty, o.timestamp)
  }

  function Opposite(b: Book, side: Side): seq<Order> { if side == Buy then b.asks else b.bids }
  function Own(b: Book, side: Side): seq<Order> { if side == Buy then b.bids else b.asks }

  /** The order as the sweep sees it: limit price rounded to the tick. */
  function Entered(b: Book, o: Order): Order
    requires b.tick > 0.0 && Acceptable(o)
  {
    o.(price := if o.kind == Limit then Some(RoundPrice(o.price.value, b.tick)) else o.price, arrival := b.arrivals)
  }

  /** A limit order with more than dust left rests in its own queue. */
  function Rested(q: seq<Order>, o: Order): seq<Order> {
    if o.kind == Limit && o.Remaining() > DUST then StableSort(q + [o]) else q
  }

  /** One accepted submission.  The contract of Sweep bounds the number of fills. */
  function Submit(b: Book, o: Order): Book
    requires b.tick > 0.0 && Acceptable(o)
  {
    var e := Entered(b, o);
    var q := Opposite(b, o.side);
    var s := Sweep(e, q);
    var own := Rested(Own(b, o.side), s.order);
    var trades := if |s.fills| <= |q| then TradesOf(e, q, s.fills, b.counter) else [];
    Book(b.tick,
      if o.side == Buy then own else s.queue,
      if o.side == Buy then s.queue else own,
      b.trades + trades, b.counter + |trades|,
      if trades == [] then b.last else Some(trades[|trades| - 1].price),
      b.arrivals + 1)
  }

  /** The submitted order as it ends, and the opposite orders as they end. */
  function Taken(b: Book, o: Order): Order
    requires b.tick > 0.0 && Acceptable(o)
  {
    Sweep(Entered(b, o), Opposite(b, o.side)).order
  }

  function TouchedBy(b: Book, o: Order): seq<Order>
    requires b.tick > 0.0 && Acceptable(o)
  {
    Touched(Opposite(b, o.side), Sweep(Entered(b, o), Opposite(b, o.side)).fills)
  }

  predicate Keeps(o: Order, maxAge: int, now: int) { now - o.timestamp <= maxAge && o.Remaining() > DUST }

  function Unexpired(q: seq<Order>, maxAge: int, now: int): seq<Order> {
    if q == [] then []
    else
      var n := |q| - 1;
      Unexpired(q[..n], maxAge, now) + if Keeps(q[n], maxAge, now) then [q[n]] else []
  }

  function Expire(b: Book, maxAge: int, now: int): Book {
    b.(bids := Unexpired(b.bids, maxAge, now), asks := Unexpired(b.asks, maxAge, now))
  }

  datatype Event = Submission(order: Order) | Expiry(maxAge: int, now: int)

  /** A refused order raises an error before anything is touched. */
  function Step(b: Book, e: Event): Book
    requires b.tick > 0.0
    ensures Step(b, e).tick == b.tick
  {
    match e
    case Submission(o) => if Acceptable(o) then Submit(b, o) else b
    case Expiry(maxAge, now) => Expire(b, maxAge, now)
  }

  function Run(tick: real, es: seq<Event>): (b: Book)
    requires tick > 0.0
    ensures b.tick == tick
  {
    if es == [] then EmptyBook(tick) else Step(Run(tick, es[..|es| - 1]), es[|es| - 1])
  }

  // ---------- The book invariant ----------

  ghost predicate RestingOk(o: Order, side: Side, arrivals: nat) {
    && o.side == side && o.kind == Limit && o.price.Some?
    && Sound(o) && o.Remaining() > DUST
    && o.arrival < arrivals
  }

  ghost predicate QueueOk(q: seq<Order>, side: Side, arrivals: nat) {
    Prioritised(q) && forall i :: 0 <= i < |q| ==> RestingOk(q[i], side, arrivals)
  }

  ghost predicate Uncrossed(bids: seq<Order>, asks: seq<Order>) {
    forall i, j :: 0 <= i < |bids| && 0 <= j < |asks| ==> bids[i].PriceOrZero() < asks[j].PriceOrZero()
  }

  ghost predicate BookOk(b: Book) {
    && b.tick > 0.0
    && QueueOk(b.bids, Buy, b.arrivals)
    && QueueOk(b.asks, Sell, b.arrivals)
    && Uncrossed(b.bids, b.asks)
  }

  lemma QueueIsSound(q: seq<Order>, side: Side, arrivals: nat)
    requires QueueOk(q, side, arrivals)
    ensures AllSound(q)
  {
    forall i | 0 <= i < |q| ensures Sound(q[i]) {
      assert RestingOk(q[i], side, arrivals);
    }
  }

  lemma LaterQueueOk(q: seq<Order>, side: Side, arrivals: nat, later: nat)
    requires QueueOk(q, side, arrivals) && arrivals <= later
    ensures QueueOk(q, side, later)
  {
    forall i | 0 <= i < |q| ensures RestingOk(q[i], side, later) {
      assert RestingOk(q[i], side, arrivals);
    }
  }

  /** The swept queue is a suffix up to a partial fill of its head, so it stays well-formed. */
  lemma QueueLeftOk(q: seq<Order>, fills: seq<real>, left: seq<Order>, side: Side, arrivals: nat)
    requires QueueOk(q, side, arrivals) && QueueLeft(q, fills, left)
    requires forall i :: 0 <= i < |fills| ==> 0.0 <= fills[i] <= q[i].Remaining()
    ensures QueueOk(left, side, arrivals)
    ensures SamePrices(q, |q| - |left|, left)
  {
    var shift := |q| - |left|;
    forall i | 0 <= i < |left| ensures RestingOk(left[i], side, arrivals) {
      assert RestingOk(q[shift + i], side, arrivals);
    }
    forall i, j | 0 <= i < j < |left| ensures Before(left[i], left[j]) {
      assert Before(q[shift + i], q[shift + j]);
    }
  }

  ghost predicate SamePrices(q: seq<Order>, shift: int, left: seq<Order>) {
    && 0 <= shift && shift + |left| <= |q|
    && forall i :: 0 <= i < |left| ==> left[i].PriceOrZero() == q[shift + i].PriceOrZero()
  }

  lemma InQueue(q: seq<Order>, o: Order, x: Order)
    requires x in InsertStable(q, o)
    ensures x in q || x == o
  {
    InsertStableContents(q, o);
    assert x in multiset(InsertStable(q, o));
  }

  lemma RestedOk(q: seq<Order>, o: Order, side: Side, arrivals: nat)
    requires QueueOk(q, side, arrivals)
    requires o.arrival == arrivals && Sound(o) && (o.kind == Limit ==> o.side == side && o.price.Some?)
    ensures QueueOk(Rested(q, o), side, arrivals + 1)
    ensures forall x :: x in Rested(q, o) ==> x in q || (x == o && o.kind == Limit && o.Remaining() > DUST)
  {
    LaterQueueOk(q, side, arrivals, arrivals + 1);
    if o.kind == Limit && o.Remaining() > DUST {
      var rested := Rested(q, o);
      SortAfterAppend(q, o);
      forall i | 0 <= i < |q| ensures q[i].arrival < o.arrival {
        assert RestingOk(q[i], side, arrivals);
      }
      InsertKeepsPriority(q, o);
      forall x | x in rested ensures x in q || x == o {
        InQueue(q, o, x);
      }
      forall i | 0 <= i < |rested| ensures RestingOk(rested[i], side, arrivals + 1) {
        assert rested[i] in rested;
      }
    }
  }

  ghost predicate NoneCross(o: Order, q: seq<Order>) {
    forall i :: 0 <= i < |q| ==> !Crosses(o, q[i])
  }

  /** What one submission does to the two queues. */
  lemma SubmitQueues(b: Book, o: Order)
    requires BookOk(b) && Acceptable(o)
    ensures var e := Entered(b, o);
      var q := Opposite(b, o.side);
      var s := Sweep(e, q);
      && QueueLeft(q, s.fills, s.queue) && FillsOk(e, q, s.fills)
      && s.order == Fill(e, Sum(s.fills)) && 0.0 <= Sum(s.fills) <= e.Remaining()
      && QueueOk(s.queue, if o.side == Buy then Sell else Buy, b.arrivals)
      && SamePrices(q, |q| - |s.queue|, s.queue)
      && (s.order.Remaining() <= DUST || NoneCross(e, s.queue))
  {
    var e := Entered(b, o);
    var q := Opposite(b, o.side);
    var s := Sweep(e, q);
    var side := if o.side == Buy then Sell else Buy;
    hide Sweep, Sum, RoundPrice;
    QueueIsSound(q, side, b.arrivals);
    SweepShape(e, q);
    QueueLeftOk(q, s.fills, s.queue, side, b.arrivals);
    SweepStops(e, q);
    if s.order.Remaining() > DUST {
      NoneCrosses(e, s.queue);
    }
  }

  ghost predicate Opposed(side: Side, own: seq<Order>, q: seq<Order>) {
    if side == Buy then Uncrossed(own, q) else Uncrossed(q, own)
  }

  /** rested holds nothing new but the limit order o, and that only when nothing left crosses it. */
  ghost predicate OnlyAdds(rested: seq<Order>, own: seq<Order>, o: Order, e: Order, left: seq<Order>) {
    forall x :: x in rested ==> x in own || (x == o && e.kind == Limit && NoneCross(e, left))
  }

  /** No resting order crosses the ones opposite after a submission. */
  lemma UncrossedAfter(own: seq<Order>, rested: seq<Order>, q: seq<Order>, left: seq<Order>, e: Order, o: Order)
    requires Opposed(e.side, own, q)
    requires SamePrices(q, |q| - |left|, left)
    requires o.Rank() == e.Rank() && o.side == e.side
    requires OnlyAdds(rested, own, o, e, left)
    requires forall i :: 0 <= i < |left| ==> left[i].side != e.side
    ensures Opposed(e.side, rested, left)
  {
    var shift := |q| - |left|;
    forall i, j | 0 <= i < |rested| && 0 <= j < |left|
      ensures e.side == Buy ==> rested[i].PriceOrZero() < left[j].PriceOrZero()
      ensures e.side == Sell ==> left[j].PriceOrZero() < rested[i].PriceOrZero()
    {
      assert rested[i] in rested;
      if rested[i] in own {
        var k :| 0 <= k < |own| && own[k] == rested[i];
        assert left[j].PriceOrZero() == q[shift + j].PriceOrZero();
      } else {
        assert !Crosses(e, left[j]);
      }
    }
  }

  lemma RestedMembers(b: Book, o: Order)
    requires BookOk(b) && Acceptable(o)
    ensures var e := Entered(b, o);
      var s := Sweep(e, Opposite(b, o.side));
      OnlyAdds(Rested(Own(b, o.side), s.order), Own(b, o.side), s.order, e, s.queue)
  {
    SubmitQueues(b, o);
    RestedOk(Own(b, o.side), Sweep(Entered(b, o), Opposite(b, o.side)).order, o.side, b.arrivals);
  }

  lemma SidesDiffer(q: seq<Order>, side: Side, other: Side, arrivals: nat)
    requires QueueOk(q, side, arrivals) && side != other
    ensures forall i :: 0 <= i < |q| ==> q[i].side != other
  {
    forall i | 0 <= i < |q| ensures q[i].side != other {
      assert RestingOk(q[i], side, arrivals);
    }
  }

  lemma SweptSides(b: Book, o: Order)
    requires BookOk(b) && Acceptable(o)
    ensures var s := Sweep(Entered(b, o), Opposite(b, o.side));
      && SamePrices(Opposite(b, o.side), |Opposite(b, o.side)| - |s.queue|, s.queue)
      && (forall i :: 0 <= i < |s.queue| ==> s.queue[i].side != o.side)
      && s.order.Rank() == Entered(b, o).Rank() && s.order.side == o.side
  {
    var s := Sweep(Entered(b, o), Opposite(b, o.side));
    SubmitQueues(b, o);
    SidesDiffer(s.queue, if o.side == Buy then Sell else Buy, o.side, b.arrivals);
  }

  lemma SubmitUncrossed(b: Book, o: Order)
    requires BookOk(b) && Acceptable(o)
    ensures var s := Sweep(Entered(b, o), Opposite(b, o.side));
      Opposed(o.side, Rested(Own(b, o.side), s.order), s.queue)
  {
    var e := Entered(b, o);
    var q, own := Opposite(b, o.side), Own(b, o.side);
    var s := Sweep(e, q);
    var rested := Rested(own, s.order);
    assert OnlyAdds(rested, own, s.order, e, s.queue) by {
      RestedMembers(b, o);
    }
    SweptSides(b, o);
    UncrossedAfter(own, rested, q, s.queue, e, s.order);
  }

  lemma SubmitOk(b: Book, o: Order)
    requires BookOk(b) && Acceptable(o)
    ensures BookOk(Submit(b, o))
  {
    var s := Sweep(Entered(b, o), Opposite(b, o.side));
    SubmitQueues(b, o);
    RestedOk(Own(b, o.side), s.order, o.side, b.arrivals);
    LaterQueueOk(s.queue, if o.side == Buy then Sell else Buy, b.arrivals, b.arrivals + 1);
    SubmitUncrossed(b, o);
  }

  lemma {:induction false} UnexpiredOk(q: seq<Order>, side: Side, arrivals: nat, maxAge: int, now: int)
    requires QueueOk(q, side, arrivals)
    ensures QueueOk(Unexpired(q, maxAge, now), side, arrivals)
    ensures forall x :: x in Unexpired(q, maxAge, now) <==>
      x in q && now - x.timestamp <= maxAge && x.Remaining() > 0.000001
  {
    if q != [] {
      var n := |q| - 1;
      var u := Unexpired(q[..n], maxAge, now);
      UnexpiredOk(q[..n], side, arrivals, maxAge, now);
      assert q == q[..n] + [q[n]];
      if Keeps(q[n], maxAge, now) {
        forall i | 0 <= i < |u| ensures Before(u[i], q[n]) {
          assert u[i] in u;
          var k :| 0 <= k < n && q[k] == u[i];
        }
        assert RestingOk(q[n], side, arrivals);
      }
    }
  }

  lemma ExpireOk(b: Book, maxAge: int, now: int)
    requires BookOk(b)
    ensures BookOk(Expire(b, maxAge, now))
  {
    UnexpiredOk(b.bids, Buy, b.arrivals, maxAge, now);
    UnexpiredOk(b.asks, Sell, b.arrivals, maxAge, now);
    var bids, asks := Unexpired(b.bids, maxAge, now), Unexpired(b.asks, maxAge, now);
    forall i, j | 0 <= i < |bids| && 0 <= j < |asks| ensures bids[i].PriceOrZero() < asks[j].PriceOrZero() {
      assert bids[i] in bids && asks[j] in asks;
      var k :| 0 <= k < |b.bids| && b.bids[k] == bids[i];
      var l :| 0 <= l < |b.asks| && b.asks[l] == asks[j];
    }
  }

  /** Every run of fresh submissions and expiries leaves both queues in price-time-arrival order, no
      bid at or above an ask, no resting dust, overfill or market order. */
  lemma {:induction false} EveryRunKeepsTheBook(tick: real, es: seq<Event>)
    requires tick > 0.0
    ensures BookOk(Run(tick, es))
  {
    if es != [] {
      var n := |es| - 1;
      EveryRunKeepsTheBook(tick, es[..n]);
      match es[n]
      case Submission(o) =>
        if Acceptable(o) {
          SubmitOk(Run(tick, es[..n]), o);
        }
      case Expiry(maxAge, now) => ExpireOk(Run(tick, es[..n]), maxAge, now);
    }
  }

  /** Best price first on either side, then the earlier timestamp, then the earlier arrival. */
  ghost predicate InPriceTimeOrder(q: seq<Order>, highestFirst: bool) {
    forall i, j :: 0 <= i < j < |q| ==> Precedes(q[i], q[j], highestFirst)
  }

  predicate Precedes(x: Order, y: Order, highestFirst: bool) {
    && x.price.Some? && y.price.Some?
    && if x.price == y.price then x.timestamp < y.timestamp || (x.timestamp == y.timestamp && x.arrival < y.arrival)
       else (x.price.value > y.price.value) == highestFirst
  }

  /** So in every state of every run the bids are in falling and the asks in rising order of price,
      and equal prices in order of time. */
  lemma EveryRunOrdersTheQueues(tick: real, es: seq<Event>)
    requires tick > 0.0
    ensures InPriceTimeOrder(Run(tick, es).bids, true) && InPriceTimeOrder(Run(tick, es).asks, false)
  {
    EveryRunKeepsTheBook(tick, es);
    QueueInOrder(Run(tick, es).bids, Buy, Run(tick, es).arrivals);
    QueueInOrder(Run(tick, es).asks, Sell, Run(tick, es).arrivals);
  }

  lemma QueueInOrder(q: seq<Order>, side: Side, arrivals: nat)
    requires QueueOk(q, side, arrivals)
    ensures InPriceTimeOrder(q, side == Buy)
  {
    forall i, j | 0 <= i < j < |q| ensures Precedes(q[i], q[j], side == Buy) {
      assert RestingOk(q[i], side, arrivals) && RestingOk(q[j], side, arrivals);
      assert Before(q[i], q[j]);
    }
  }

  ghost predicate Numbered(ts: seq<Trade>, before: nat) {
    forall i :: 0 <= i < |ts| ==> ts[i].tradeId == before + i + 1
  }

  /** The trade log: numbered from one without a gap, and the last traded price is that of its end. */
  ghost predicate LogOk(b: Book) {
    && b.counter == |b.trades| && Numbered(b.trades, 0)
    && b.last == if b.trades == [] then None else Some(b.trades[|b.trades| - 1].price)
  }

  lemma NumberedAppend(log: seq<Trade>, more: seq<Trade>)
    requires Numbered(log, 0) && Numbered(more, |log|)
    ensures Numbered(log + more, 0)
  {
  }

  lemma LogGrows(b: Book, more: seq<Trade>, after: Book)
    requires LogOk(b) && Numbered(more, b.counter)
    requires after.trades == b.trades + more && after.counter == b.counter + |more|
    requires after.last == if more == [] then b.last else Some(more[|more| - 1].price)
    ensures LogOk(after)
  {
    NumberedAppend(b.trades, more);
  }

  lemma TradesNumbered(o: Order, q: seq<Order>, fills: seq<real>, counter: nat)
    requires |fills| <= |q|
    ensures Numbered(TradesOf(o, q, fills, counter), counter)
  {
  }

  lemma SubmitLogs(b: Book, o: Order)
    requires b.tick > 0.0 && Acceptable(o) && LogOk(b)
    ensures LogOk(Submit(b, o))
  {
    var e, q := Entered(b, o), Opposite(b, o.side);
    var s := Sweep(e, q);
    if |s.fills| <= |q| {
      TradesNumbered(e, q, s.fills, b.counter);
      LogGrows(b, TradesOf(e, q, s.fills, b.counter), Submit(b, o));
    } else {
      LogGrows(b, [], Submit(b, o));
    }
  }

  lemma {:induction false} EveryRunNumbersTrades(tick: real, es: seq<Event>)
    requires tick > 0.0
    ensures LogOk(Run(tick, es))
  {
    if es != [] {
      var n := |es| - 1;
      EveryRunNumbersTrades(tick, es[..n]);
      match es[n]
      case Submission(o) =>
        if Acceptable(o) {
          SubmitLogs(Run(tick, es[..n]), o);
        }
      case Expiry(_, _) =>
    }
  }

  // ---------- What one submission trades ----------

  /** The parties of a trade. */
  ghost predicate Between(t: Trade, buy: Order, sell: Order) {
    t.buyOrder == buy.orderId && t.buyer == buy.agent && t.sellOrder == sell.orderId && t.seller == sell.agent
  }

  ghost predicate WithinLimits(t: Trade, o: Order, resting: Order) {
    && t.price == resting.PriceOrZero()
    && Between(t, if o.side == Buy then o else resting, if o.side == Buy then resting else o)
    && t.timestamp == o.timestamp
    && (o.kind == Limit && o.side == Buy ==> t.price <= o.PriceOrZero())
    && (o.kind == Limit && o.side == Sell ==> t.price >= o.PriceOrZero())
  }

  function Quantities(ts: seq<Trade>): (q: seq<real>)
    ensures |q| == |ts|
  {
    seq(|ts|, i requires 0 <= i < |ts| => ts[i].quantity)
  }

  function Volume(ts: seq<Trade>): real { Sum(Quantities(ts)) }

  lemma QuantitiesAreFills(o: Order, q: seq<Order>, fills: seq<real>, counter: nat)
    requires |fills| <= |q|
    ensures Quantities(TradesOf(o, q, fills, counter)) == fills
  {
    var ts := TradesOf(o, q, fills, counter);
    forall i | 0 <= i < |fills| ensures Quantities(ts)[i] == fills[i] {
      assert ts[i] == TradeOf(o, q[i], fills[i], counter + i + 1);
    }
  }

  lemma VolumeOfFills(o: Order, q: seq<Order>, fills: seq<real>, counter: nat)
    requires |fills| <= |q|
    ensures Volume(TradesOf(o, q, fills, counter)) == Sum(fills)
  {
    QuantitiesAreFills(o, q, fills, counter);
  }

  lemma VolumeConcat(a: seq<Trade>, b: seq<Trade>)
    ensures Volume(a + b) == Volume(a) + Volume(b)
  {
    assert Quantities(a + b) == Quantities(a) + Quantities(b);
    SumConcat(Quantities(a), Quantities(b));
  }

  ghost predicate TradesOk(trades: seq<Trade>, e: Order, q: seq<Order>, fills: seq<real>) {
    && |trades| == |fills| <= |q|
    && forall i :: 0 <= i < |trades| ==> WithinLimits(trades[i], e, q[i]) && trades[i].quantity == fills[i]
  }

  lemma TradesOfOk(e: Order, q: seq<Order>, fills: seq<real>, counter: nat, side: Side, arrivals: nat)
    requires QueueOk(q, side, arrivals) && side != e.side && FillsOk(e, q, fills)
    ensures TradesOk(TradesOf(e, q, fills, counter), e, q, fills)
  {
    forall i | 0 <= i < |fills| ensures WithinLimits(TradeOf(e, q[i], fills[i], counter + i + 1), e, q[i]) {
      assert RestingOk(q[i], side, arrivals);
      assert Crosses(e, q[i]);
    }
  }

  function NewTrades(b: Book, o: Order): seq<Trade>
    requires b.tick > 0.0 && Acceptable(o)
  {
    Submit(b, o).trades[|b.trades|..]
  }

  lemma NewTradesAre(b: Book, o: Order)
    requires b.tick > 0.0 && Acceptable(o)
    requires |Sweep(Entered(b, o), Opposite(b, o.side)).fills| <= |Opposite(b, o.side)|
    ensures NewTrades(b, o) ==
      TradesOf(Entered(b, o), Opposite(b, o.side), Sweep(Entered(b, o), Opposite(b, o.side)).fills, b.counter)
  {
  }

  /** On a book in order, a submission trades with a prefix of the opposite queue, in priority
      order, each trade at the resting price and within both limits; what is left of that queue is
      the rest, its head at most filled in part. */
  lemma SubmissionTrades(b: Book, o: Order)
    requires BookOk(b) && Acceptable(o)
    ensures var s := Sweep(Entered(b, o), Opposite(b, o.side));
      && TradesOk(NewTrades(b, o), Entered(b, o), Opposite(b, o.side), s.fills)
      && QueueLeft(Opposite(b, o.side), s.fills, s.queue)
      && Opposite(Submit(b, o), o.side) == s.queue
  {
    var e := Entered(b, o);
    var q := Opposite(b, o.side);
    SubmitQueues(b, o);
    NewTradesAre(b, o);
    TradesOfOk(e, q, Sweep(e, q).fills, b.counter, if o.side == Buy then Sell else Buy, b.arrivals);
  }

  /** What is left of a limit order, if more than dust, joins its own queue; nothing else joins or
      leaves it, and a market order never rests. */
  lemma SubmissionRests(b: Book, o: Order)
    requires BookOk(b) && Acceptable(o)
    ensures var left := Taken(b, o);
      && left == o.(price := left.price, filled := left.filled, arrival := b.arrivals)
      && multiset(Own(Submit(b, o), o.side)) == multiset(Own(b, o.side)) +
           if o.kind == Limit && left.Remaining() > 0.000001 then multiset{left} else multiset{}
  {
    SubmitQueues(b, o);
    var own, left := Own(b, o.side), Taken(b, o);
    StableSortContents(own + [left]);
  }

  /** The traded volume is what the incoming order gains and what the opposite side gains, and it is
      the smaller of its remaining quantity and the crossing liquidity of the book, to within the
      dust threshold. */
  lemma SubmissionVolume(b: Book, o: Order)
    requires BookOk(b) && Acceptable(o)
    ensures var e := Entered(b, o);
      var most := Min(o.Remaining(), Liquidity(e, Opposite(b, o.side)));
      var volume := Volume(NewTrades(b, o));
      && volume == Taken(b, o).filled - o.filled
      && volume == TotalFilled(TouchedBy(b, o)) - TotalFilled(Opposite(b, o.side))
      && most - DUST <= volume <= most
  {
    var e := Entered(b, o);
    var q := Opposite(b, o.side);
    SubmitQueues(b, o);
    NewTradesAre(b, o);
    VolumeOfFills(e, q, Sweep(e, q).fills, b.counter);
    TouchedGains(q, Sweep(e, q).fills);
    QueueIsSound(q, if o.side == Buy then Sell else Buy, b.arrivals);
    SweepIsMaximal(e, q);
  }

  /** What the orders of one side are filled by in a step, those that leave the book included. */
  function Gain(b: Book, e: Event, side: Side): real
    requires b.tick > 0.0
  {
    if e.Expiry? || !Acceptable(e.order) then 0.0
    else if e.order.side == side then Taken(b, e.order).filled - e.order.filled
    else TotalFilled(TouchedBy(b, e.order)) - TotalFilled(Opposite(b, e.order.side))
  }

  function Gained(tick: real, es: seq<Event>, side: Side): real
    requires tick > 0.0
  {
    if es == [] then 0.0
    else
      var n := |es| - 1;
      Gained(tick, es[..n], side) + Gain(Run(tick, es[..n]), es[n], side)
  }

  lemma StepVolume(b: Book, e: Event)
    requires BookOk(b)
    ensures Gain(b, e, Buy) == Gain(b, e, Sell) == Volume(Step(b, e).trades) - Volume(b.trades)
  {
    if e.Submission? && Acceptable(e.order) {
      SubmissionVolume(b, e.order);
      VolumeConcat(b.trades, NewTrades(b, e.order));
      assert Submit(b, e.order).trades == b.trades + NewTrades(b, e.order);
    }
  }

  /** Over every run from an empty book the buy orders and the sell orders are filled by the same
      total, which is the volume of all trades. */
  lemma {:induction false} EveryRunConservesFills(tick: real, es: seq<Event>)
    requires tick > 0.0
    ensures Gained(tick, es, Buy) == Gained(tick, es, Sell) == Volume(Run(tick, es).trades)
  {
    if es != [] {
      var n := |es| - 1;
      EveryRunConservesFills(tick, es[..n]);
      EveryRunKeepsTheBook(tick, es[..n]);
      StepVolume(Run(tick, es[..n]), es[n]);
    }
  }
}
