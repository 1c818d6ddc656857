/** What the parties of a trade submitted: over every run of the book each trade joins a submitted
    buy order and a submitted sell order and honours the limits as they were submitted, to within
    what rounding a price to the tick may move it. */
module BookLimits {
  import opened Options
  import opened RealSums
  import opened OrderBook
  import opened BookRuns

  /** r is what rests of the submitted limit order o. */
  ghost predicate RestsFrom(r: Order, o: Order, tick: real) {
    && r == o.(price := r.price, filled := r.filled, arrival := r.arrival)
    && r.kind == Limit && r.price.Some? && o.price.Some?
    && NearPrice(r.price.value, o.price.value, tick)
  }

  ghost predicate WasSubmitted(r: Order, tick: real, es: seq<Event>) {
    exists o :: Submission(o) in es && RestsFrom(r, o, tick)
  }

  ghost predicate AllSubmitted(q: seq<Order>, tick: real, es: seq<Event>) {
    forall i :: 0 <= i < |q| ==> WasSubmitted(q[i], tick, es)
  }

  /** The trade is between these two orders and within the limits they were submitted with. */
  ghost predicate Honours(t: Trade, buy: Order, sell: Order, tick: real) {
    && buy.side == Buy && sell.side == Sell && Between(t, buy, sell)
    && (buy.kind == Limit ==> buy.price.Some? && t.price <= buy.price.value + tick / 2.0 + 0.00005)
    && (sell.kind == Limit ==> sell.price.Some? && t.price >= sell.price.value - tick / 2.0 - 0.00005)
  }

  ghost predicate HonoursSome(t: Trade, tick: real, es: seq<Event>) {
    exists buy, sell :: Submission(buy) in es && Submission(sell) in es && Honours(t, buy, sell, tick)
  }

  ghost predicate AllHonoured(ts: seq<Trade>, tick: real, es: seq<Event>) {
    forall i :: 0 <= i < |ts| ==> HonoursSome(ts[i], tick, es)
  }

  // ---------- More events keep what was submitted ----------

  lemma SubmittedLater(q: seq<Order>, tick: real, es: seq<Event>, e: Event)
    requires AllSubmitted(q, tick, es)
    ensures AllSubmitted(q, tick, es + [e])
  {
    forall i | 0 <= i < |q| ensures WasSubmitted(q[i], tick, es + [e]) {
      assert WasSubmitted(q[i], tick, es);
      var o :| Submission(o) in es && RestsFrom(q[i], o, tick);
      assert Submission(o) in es + [e];
    }
  }

  lemma HonouredLater(ts: seq<Trade>, tick: real, es: seq<Event>, e: Event)
    requires AllHonoured(ts, tick, es)
    ensures AllHonoured(ts, tick, es + [e])
  {
    forall i | 0 <= i < |ts| ensures HonoursSome(ts[i], tick, es + [e]) {
      assert HonoursSome(ts[i], tick, es);
      var buy, sell :| Submission(buy) in es && Submission(sell) in es && Honours(ts[i], buy, sell, tick);
      assert Submission(buy) in es + [e] && Submission(sell) in es + [e];
    }
  }

  // ---------- One submission ----------

  /** The incoming order as it enters and as it ends. */
  lemma EntersAs(b: Book, o: Order, left: Order)
    requires b.tick > 0.0 && Acceptable(o) && o.kind == Limit
    requires left == Entered(b, o).(filled := left.filled)
    ensures RestsFrom(left, o, b.tick)
  {
    EnteredPriceIsNear(o.price.value, o.price.value, b.tick);
  }

  /** Resting orders keep what they were submitted with, touched or not. */
  lemma LeftSubmitted(q: seq<Order>, fills: seq<real>, left: seq<Order>, tick: real, es: seq<Event>)
    requires AllSubmitted(q, tick, es) && QueueLeft(q, fills, left)
    ensures AllSubmitted(left, tick, es)
  {
    var shift := |q| - |left|;
    forall i | 0 <= i < |left| ensures WasSubmitted(left[i], tick, es) {
      var r := q[shift + i];
      assert WasSubmitted(r, tick, es);
      assert left[i] == r.(filled := left[i].filled);
      var o :| Submission(o) in es && RestsFrom(r, o, tick);
      assert RestsFrom(left[i], o, tick);
    }
  }

  lemma RestedSubmitted(own: seq<Order>, rested: seq<Order>, left: Order, tick: real, es: seq<Event>)
    requires AllSubmitted(own, tick, es) && (forall x :: x in rested ==> x in own || x == left)
    requires left in rested ==> left in own || WasSubmitted(left, tick, es)
    ensures AllSubmitted(rested, tick, es)
  {
    forall i | 0 <= i < |rested| ensures WasSubmitted(rested[i], tick, es) {
      assert rested[i] in rested;
      if rested[i] in own {
        var k :| 0 <= k < |own| && own[k] == rested[i];
        assert WasSubmitted(own[k], tick, es);
      }
    }
  }

  lemma TradeHonours(t: Trade, b: Book, o: Order, resting: Order, es: seq<Event>)
    requires b.tick > 0.0 && Acceptable(o) && WithinLimits(t, Entered(b, o), resting)
    requires resting.side != o.side && WasSubmitted(resting, b.tick, es)
    ensures HonoursSome(t, b.tick, es + [Submission(o)])
  {
    var all := es + [Submission(o)];
    var r :| Submission(r) in es && RestsFrom(resting, r, b.tick);
    if o.kind == Limit {
      EnteredPriceIsNear(o.price.value, o.price.value, b.tick);
    }
    assert Submission(o) in all && Submission(r) in all;
    if o.side == Buy {
      assert Honours(t, o, r, b.tick);
    } else {
      assert Honours(t, r, o, b.tick);
    }
  }

  lemma NewTradesHonour(b: Book, o: Order, es: seq<Event>)
    requires BookOk(b) && Acceptable(o) && AllSubmitted(Opposite(b, o.side), b.tick, es)
    ensures AllHonoured(NewTrades(b, o), b.tick, es + [Submission(o)])
  {
    var q := Opposite(b, o.side);
    var ts := NewTrades(b, o);
    SubmissionTrades(b, o);
    SidesDiffer(q, if o.side == Buy then Sell else Buy, o.side, b.arrivals);
    forall i | 0 <= i < |ts| ensures HonoursSome(ts[i], b.tick, es + [Submission(o)]) {
      assert WasSubmitted(q[i], b.tick, es);
      TradeHonours(ts[i], b, o, q[i], es);
    }
  }

  /** Every trade is within the limit the order was submitted with. */
  ghost predicate WithinSubmitted(ts: seq<Trade>, o: Order, tick: real) {
    o.kind == Limit && o.price.Some? ==> forall i :: 0 <= i < |ts| ==>
      if o.side == Buy then ts[i].price <= o.price.value + tick / 2.0 + 0.00005
      else ts[i].price >= o.price.value - tick / 2.0 - 0.00005
  }

  lemma SubmissionWithinSubmitted(b: Book, o: Order)
    requires BookOk(b) && Acceptable(o)
    ensures WithinSubmitted(NewTrades(b, o), o, b.tick)
  {
    var q, ts := Opposite(b, o.side), NewTrades(b, o);
    SubmissionTrades(b, o);
    if o.kind == Limit {
      EnteredPriceIsNear(o.price.value, o.price.value, b.tick);
      forall i | 0 <= i < |ts| ensures WithinLimits(ts[i], Entered(b, o), q[i]) {
      }
    }
  }

  ghost predicate Explained(b: Book, es: seq<Event>) {
    && AllSubmitted(b.bids, b.tick, es) && AllSubmitted(b.asks, b.tick, es)
    && AllHonoured(b.trades, b.tick, es)
  }

  lemma OwnAfter(b: Book, o: Order, es: seq<Event>)
    requires BookOk(b) && Acceptable(o) && AllSubmitted(Own(b, o.side), b.tick, es)
    ensures AllSubmitted(Own(Submit(b, o), o.side), b.tick, es + [Submission(o)])
  {
    var all := es + [Submission(o)];
    var s := Sweep(Entered(b, o), Opposite(b, o.side));
    var rested := Rested(Own(b, o.side), s.order);
    SubmittedLater(Own(b, o.side), b.tick, es, Submission(o));
    RestedMembers(b, o);
    SubmitQueues(b, o);
    if o.kind == Limit {
      EntersAs(b, o, s.order);
      assert Submission(o) in all;
      assert WasSubmitted(s.order, b.tick, all);
    }
    RestedSubmitted(Own(b, o.side), rested, s.order, b.tick, all);
  }

  lemma SubmitExplained(b: Book, o: Order, es: seq<Event>)
    requires BookOk(b) && Acceptable(o) && Explained(b, es)
    ensures Explained(Submit(b, o), es + [Submission(o)])
  {
    var q := Opposite(b, o.side);
    var s := Sweep(Entered(b, o), q);
    SubmitQueues(b, o);
    LeftSubmitted(q, s.fills, s.queue, b.tick, es);
    SubmittedLater(s.queue, b.tick, es, Submission(o));
    OwnAfter(b, o, es);
    NewTradesHonour(b, o, es);
    HonouredLater(b.trades, b.tick, es, Submission(o));
    assert Submit(b, o).trades == b.trades + NewTrades(b, o);
  }

  lemma ExpireExplained(b: Book, maxAge: int, now: int, es: seq<Event>)
    requires BookOk(b) && Explained(b, es)
    ensures Explained(Expire(b, maxAge, now), es + [Expiry(maxAge, now)])
  {
    SubmittedLater(b.bids, b.tick, es, Expiry(maxAge, now));
    SubmittedLater(b.asks, b.tick, es, Expiry(maxAge, now));
    HonouredLater(b.trades, b.tick, es, Expiry(maxAge, now));
    UnexpiredOk(b.bids, Buy, b.arrivals, maxAge, now);
    UnexpiredOk(b.asks, Sell, b.arrivals, maxAge, now);
    KeptSubmitted(b.bids, Unexpired(b.bids, maxAge, now), b.tick, es + [Expiry(maxAge, now)]);
    KeptSubmitted(b.asks, Unexpired(b.asks, maxAge, now), b.tick, es + [Expiry(maxAge, now)]);
  }

  lemma KeptSubmitted(q: seq<Order>, kept: seq<Order>, tick: real, es: seq<Event>)
    requires AllSubmitted(q, tick, es) && forall x :: x in kept ==> x in q
    ensures AllSubmitted(kept, tick, es)
  {
    forall i | 0 <= i < |kept| ensures WasSubmitted(kept[i], tick, es) {
      assert kept[i] in kept;
      var k :| 0 <= k < |q| && q[k] == kept[i];
      assert WasSubmitted(q[k], tick, es);
    }
  }

  /** Over every run from an empty book, every order that rests is what is left of a submitted limit
      order, and every trade ever made joins a submitted buy order and a submitted sell order by
      number and agent: never above the buyer's submitted limit and never below the seller's, but
      for half a tick and half a grid step. */
  lemma {:induction false} EveryTradeHonoursLimits(tick: real, es: seq<Event>)
    requires tick > 0.0
    ensures Explained(Run(tick, es), es)
  {
    if es != [] {
      var n := |es| - 1;
      var b := Run(tick, es[..n]);
      EveryTradeHonoursLimits(tick, es[..n]);
      EveryRunKeepsTheBook(tick, es[..n]);
      assert es == es[..n] + [es[n]];
      match es[n]
      case Submission(o) =>
        if Acceptable(o) {
          SubmitExplained(b, o, es[..n]);
        } else {
          SubmittedLater(b.bids, tick, es[..n], es[n]);
          SubmittedLater(b.asks, tick, es[..n], es[n]);
          HonouredLater(b.trades, tick, es[..n], es[n]);
        }
      case Expiry(maxAge, now) => ExpireExplained(b, maxAge, now, es[..n]);
    }
  }
}
