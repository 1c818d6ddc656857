/** The order book over mutable orders: the objects handed in are the objects that rest in the
    queues, and fills are written into them.  Every method is tied to the value model of OrderBook
    and BookRuns. */
module OrderBookObjects {
  import opened Options
  import opened RealSums
  import opened OrderBook
  import opened BookRuns
  import opened BookLimits

  class OrderObject {
    const orderId: int
    const agent: string
    const side: Side
    const kind: Kind
    const quantity: real
    const timestamp: int
    var price: Option<real>
    var filled: real
    ghost var arrival: nat

    constructor (orderId: int, agent: string, side: Side, kind: Kind, price: Option<real>, quantity: real,
                 timestamp: int, filled: real)
      ensures View() == Order(orderId, agent, side, kind, price, quantity, timestamp, filled, 0)
    {
      this.orderId, this.agent, this.side, this.kind := orderId, agent, side, kind;
      this.price, this.quantity, this.timestamp, this.filled := price, quantity, timestamp, filled;
      this.arrival := 0;
    }

    ghost function View(): Order
      reads this
    {
      Order(orderId, agent, side, kind, price, quantity, timestamp, filled, arrival)
    }

    function Remaining(): (r: real)
      reads this
      ensures r == View().Remaining()
    {
      if quantity - filled < 0.0 then 0.0 else quantity - filled
    }

    function PriceOrZero(): (r: real)
      reads this
      ensures r == View().PriceOrZero()
    {
      if price.Some? then price.value else 0.0
    }

    method AddFill(qty: real)
      modifies this`filled
      ensures View() == Fill(old(View()), qty)
    {
      filled := filled + qty;
    }
  }

  ghost function Views(os: seq<OrderObject>): (vs: seq<Order>)
    reads os
    ensures |vs| == |os|
  {
    seq(|os|, i requires 0 <= i < |os| reads os => os[i].View())
  }

  ghost predicate Distinct(os: seq<OrderObject>) {
    forall i, j :: 0 <= i < j < |os| ==> os[i] != os[j]
  }

  // ---------- Sorting object queues ----------

  predicate KeyAtMostObject(a: OrderObject, b: OrderObject)
    reads a, b
    ensures KeyAtMostObject(a, b) <==> KeyAtMost(a.View(), b.View())
  {
    var ra := if a.side == Buy then -a.PriceOrZero() else a.PriceOrZero();
    var rb := if b.side == Buy then -b.PriceOrZero() else b.PriceOrZero();
    ra < rb || (ra == rb && a.timestamp <= b.timestamp)
  }

  function InsertObject(os: seq<OrderObject>, o: OrderObject): (r: seq<OrderObject>)
    reads os, o
    ensures forall i :: 0 <= i < |r| ==> r[i] in os || r[i] == o
  {
    if os == [] || KeyAtMostObject(os[|os| - 1], o) then os + [o]
    else
      assert os == os[..|os| - 1] + [os[|os| - 1]];
      InsertObject(os[..|os| - 1], o) + [os[|os| - 1]]
  }

  function SortObjects(os: seq<OrderObject>): (r: seq<OrderObject>)
    reads os
    ensures forall i :: 0 <= i < |r| ==> r[i] in os
  {
    if os == [] then []
    else
      assert os == os[..|os| - 1] + [os[|os| - 1]];
      InsertObject(SortObjects(os[..|os| - 1]), os[|os| - 1])
  }

  lemma ViewsSnoc(os: seq<OrderObject>)
    requires os != []
    ensures Views(os) == Views(os[..|os| - 1]) + [os[|os| - 1].View()]
  {
  }

  lemma DistinctSnoc(os: seq<OrderObject>, o: OrderObject)
    requires Distinct(os) && o !in os
    ensures Distinct(os + [o])
  {
  }

  lemma {:induction false} InsertObjectViews(os: seq<OrderObject>, o: OrderObject)
    ensures Views(InsertObject(os, o)) == InsertStable(Views(os), o.View())
  {
    if os == [] || KeyAtMostObject(os[|os| - 1], o) {
      ViewsSnoc(os + [o]);
      assert (os + [o])[..|os|] == os;
    } else {
      var n := |os| - 1;
      var front := InsertObject(os[..n], o);
      InsertObjectViews(os[..n], o);
      ViewsSnoc(os);
      ViewsSnoc(front + [os[n]]);
      assert (front + [os[n]])[..|front|] == front;
      assert Views(os)[..n] == Views(os[..n]);
    }
  }

  lemma {:induction false} InsertObjectDistinct(os: seq<OrderObject>, o: OrderObject)
    requires Distinct(os) && o !in os
    ensures Distinct(InsertObject(os, o))
  {
    if os == [] || KeyAtMostObject(os[|os| - 1], o) {
      DistinctSnoc(os, o);
    } else {
      var n := |os| - 1;
      assert os == os[..n] + [os[n]];
      InsertObjectDistinct(os[..n], o);
      DistinctSnoc(InsertObject(os[..n], o), os[n]);
    }
  }

  lemma {:induction false} SortObjectsViews(os: seq<OrderObject>)
    ensures Views(SortObjects(os)) == StableSort(Views(os))
  {
    if os != [] {
      var n := |os| - 1;
      SortObjectsViews(os[..n]);
      InsertObjectViews(SortObjects(os[..n]), os[n]);
      ViewsSnoc(os);
      assert Views(os)[..n] == Views(os[..n]);
    }
  }

  lemma {:induction false} SortObjectsDistinct(os: seq<OrderObject>)
    requires Distinct(os)
    ensures Distinct(SortObjects(os))
  {
    if os != [] {
      var n := |os| - 1;
      SortObjectsDistinct(os[..n]);
      assert os[n] !in os[..n];
      InsertObjectDistinct(SortObjects(os[..n]), os[n]);
    }
  }

  // ---------- The sweep over objects ----------

  /** Where the matching loop stands: what the value sweep still has to do from here completes to
      the value sweep from the start. */
  ghost predicate Midway(all: Swept, now: Swept, done: seq<real>) {
    all.order == now.order && all.queue == now.queue && all.fills == done + now.fills
  }

  /** One match moves the sweep on, whether or not it uses up the head. */
  lemma MatchMoves(all: Swept, o: Order, q: seq<Order>, done: seq<real>)
    requires Midway(all, Sweep(o, q), done)
    requires Sound(o) && q != [] && Sound(q[0]) && o.Remaining() > DUST && Crosses(o, q[0])
    ensures var qty := Min(o.Remaining(), q[0].Remaining());
      var best := Fill(q[0], qty);
      && Sound(Fill(o, qty)) && Sound(best)
      && (best.Remaining() <= DUST ==> Midway(all, Sweep(Fill(o, qty), q[1..]), done + [qty]))
      && (best.Remaining() > DUST ==>
            && Fill(o, qty).Remaining() <= DUST
            && Midway(all, Sweep(Fill(o, qty), q[0 := best]), done + [qty]))
  {
    SweepOneStep(o, q[0]);
    var qty := Min(o.Remaining(), q[0].Remaining());
    assert q[0 := Fill(q[0], qty)] == [Fill(q[0], qty)] + q[1..];
  }

  /** Sweeping writes nothing but fills. */
  predicate SameButFilled(now: Order, before: Order) { now == before.(filled := now.filled) }

  ghost predicate TradesSoFar(ts: seq<Trade>, o: Order, q: seq<Order>, done: seq<real>, counter: nat) {
    && |ts| == |done| <= |q|
    && forall i :: 0 <= i < |ts| ==> ts[i] == TradeOf(o, q[i], done[i], counter + i + 1)
  }

  method MatchBest(order: OrderObject, best: OrderObject, id: nat) returns (qty: real, trade: Trade)
    requires order != best && order.side != best.side
    modifies order`filled, best`filled
    ensures qty == Min(old(order.Remaining()), old(best.Remaining()))
    ensures order.View() == Fill(old(order.View()), qty)
    ensures best.View() == Fill(old(best.View()), qty)
    ensures trade == TradeOf(old(order.View()), old(best.View()), qty, id)
  {
    var price := best.PriceOrZero();
    qty := Min(order.Remaining(), best.Remaining());
    order.AddFill(qty);
    best.AddFill(qty);
    trade := if order.side == Buy then
      Trade(id, order.orderId, best.orderId, order.agent, best.agent, price, qty, order.timestamp)
    else
      Trade(id, best.orderId, order.orderId, best.agent, order.agent, price, qty, order.timestamp);
  }

  lemma TradeSnoc(ts: seq<Trade>, o0: Order, q0: seq<Order>, done: seq<real>, counter: nat, o: Order, r: Order,
                  qty: real)
    requires TradesSoFar(ts, o0, q0, done, counter) && |done| < |q0|
    requires SameButFilled(o, o0) && SameButFilled(r, q0[|done|])
    ensures TradesSoFar(ts + [TradeOf(o, r, qty, counter + |ts| + 1)], o0, q0, done + [qty], counter)
  {
  }

  /** The resting orders so far: one fill for each trade made. */
  ghost predicate FilledSoFar(qv: seq<Order>, q0: seq<Order>, done: seq<real>) {
    && |qv| == |q0|
    && forall i :: 0 <= i < |qv| ==> qv[i] == if i < |done| then Fill(q0[i], done[i]) else q0[i]
  }

  /** What the matching loop has done so far to the incoming order and to the queue it started with,
      and what the value sweep still has to do from position k. */
  ghost predicate Sweeping(o: Order, qv: seq<Order>, k: nat, o0: Order, q0: seq<Order>,
                           executed: seq<Trade>, done: seq<real>, counter: nat)
  {
    && k <= |qv| == |q0|
    && SameButFilled(o, o0) && Sound(o)
    && (forall i :: k <= i < |qv| ==> SameButFilled(qv[i], q0[i]) && Sound(qv[i]))
    && Midway(Sweep(o0, q0), Sweep(o, qv[k..]), done)
    && TradesSoFar(executed, o0, q0, done, counter)
    && (|done| == k || (|done| == k + 1 && o.Remaining() <= DUST))
    && FilledSoFar(qv, q0, done)
  }

  function AfterMatch(best: Order, k: nat): nat { if best.Remaining() <= DUST then k + 1 else k }

  lemma HeadUpdated(qv: seq<Order>, k: nat, best: Order)
    requires k < |qv|
    ensures qv[k := best][k..] == qv[k..][0 := best] && qv[k := best][k + 1..] == qv[k..][1..]
  {
  }

  lemma SweepMoves(o: Order, qv: seq<Order>, k: nat, o0: Order, q0: seq<Order>, executed: seq<Trade>,
                   done: seq<real>, counter: nat, qty: real, best: Order)
    requires Sweeping(o, qv, k, o0, q0, executed, done, counter)
    requires k < |qv| && o.Remaining() > DUST && Crosses(o, qv[k])
    requires qty == Min(o.Remaining(), qv[k].Remaining()) && best == Fill(qv[k], qty)
    ensures Sweeping(Fill(o, qty), qv[k := best], AfterMatch(best, k), o0, q0,
      executed + [TradeOf(o, qv[k], qty, counter + |executed| + 1)], done + [qty], counter)
    ensures AfterMatch(best, k) == k + 1 || Fill(o, qty).Remaining() <= DUST
  {
    TradeSnoc(executed, o0, q0, done, counter, o, qv[k], qty);
    MatchMoves(Sweep(o0, q0), o, qv[k..], done);
    HeadUpdated(qv, k, best);
  }

  /** The match with the head, on the objects. */
  method MatchHead(order: OrderObject, queue: seq<OrderObject>, k: nat, id: nat) returns (qty: real, trade: Trade)
    requires Distinct(queue) && order !in queue && k < |queue| && queue[k].side != order.side
    modifies order`filled, queue`filled
    ensures qty == Min(old(order.Remaining()), old(queue[k].Remaining()))
    ensures order.View() == Fill(old(order.View()), qty)
    ensures Views(queue) == old(Views(queue))[k := Fill(old(queue[k].View()), qty)]
    ensures trade == TradeOf(old(order.View()), old(queue[k].View()), qty, id)
  {
    qty, trade := MatchBest(order, queue[k], id);
  }

  /** One pass of the loop past its price test: match the head, drop it when it is used up. */
  method SweepOnce(order: OrderObject, queue: seq<OrderObject>, k: nat, ghost o0: Order, ghost q0: seq<Order>,
                   executed: seq<Trade>, ghost done: seq<real>, ghost counter: nat, id: nat)
    returns (k': nat, trade: Trade, ghost qty: real)
    requires Distinct(queue) && order !in queue
    requires forall i :: 0 <= i < |queue| ==> queue[i].side != order.side
    requires Sweeping(order.View(), Views(queue), k, o0, q0, executed, done, counter)
    requires k < |queue| && order.Remaining() > DUST && Crosses(order.View(), queue[k].View())
    requires id == counter + |executed| + 1
    modifies order`filled, queue`filled
    ensures Sweeping(order.View(), Views(queue), k', o0, q0, executed + [trade], done + [qty], counter)
    ensures k' == k + 1 || (k' == k && order.Remaining() <= DUST)
  {
    ghost var o, qv := order.View(), Views(queue);
    ghost var fill := Min(o.Remaining(), qv[k].Remaining());
    SweepMoves(o, qv, k, o0, q0, executed, done, counter, fill, Fill(qv[k], fill));
    var moved;
    moved, trade := MatchHead(order, queue, k, id);
    qty := moved;
    assert queue[k].View() == Views(queue)[k];
    k' := if queue[k].Remaining() <= DUST then k + 1 else k;
  }

  /** The price test of the loop: a limit order stops at a price beyond its limit. */
  predicate PriceBeyond(order: OrderObject, best: OrderObject)
    reads order, best
    requires order.side != best.side && (order.kind == Limit ==> order.price.Some?)
    ensures PriceBeyond(order, best) <==> !Crosses(order.View(), best.View())
  {
    order.kind == Limit && order.price.Some? &&
    if order.side == Buy then order.PriceOrZero() < best.PriceOrZero() else order.PriceOrZero() > best.PriceOrZero()
  }

  lemma TradesSoFarAre(ts: seq<Trade>, o0: Order, q0: seq<Order>, done: seq<real>, counter: nat)
    requires TradesSoFar(ts, o0, q0, done, counter)
    ensures ts == TradesOf(o0, q0, done, counter)
  {
  }

  lemma SweepDone(all: Swept, o: Order, q: seq<Order>, done: seq<real>)
    requires Midway(all, Sweep(o, q), done)
    requires o.Remaining() <= DUST || q == [] || !Crosses(o, q[0])
    ensures all == Swept(o, q, done)
  {
    assert done + [] == done;
  }

  lemma SweepBegins(o: Order, qv: seq<Order>, counter: nat)
    requires Sound(o) && AllSound(qv)
    ensures Sweeping(o, qv, 0, o, qv, [], [], counter)
  {
    assert qv[0..] == qv;
  }

  /** The queue and trades that sweeping o leaves behind, o as it ends, and the opposite orders as
      they end, whether or not they still rest. */
  ghost predicate SweptTo(o: Order, q: seq<Order>, counter: nat, left: seq<Order>, executed: seq<Trade>,
                          taken: Order, touched: seq<Order>)
  {
    var s := Sweep(o, q);
    && left == s.queue && taken == s.order
    && |s.fills| <= |q|
    && executed == TradesOf(o, q, s.fills, counter)
    && touched == Touched(q, s.fills)
  }

  lemma SweepEnds(o: Order, qv: seq<Order>, k: nat, o0: Order, q0: seq<Order>, executed: seq<Trade>,
                  done: seq<real>, counter: nat)
    requires Sweeping(o, qv, k, o0, q0, executed, done, counter)
    requires o.Remaining() <= DUST || k == |qv| || !Crosses(o, qv[k])
    ensures SweptTo(o0, q0, counter, qv[k..], executed, o, qv)
  {
    TradesSoFarAre(executed, o0, q0, done, counter);
    SweepDone(Sweep(o0, q0), o, qv[k..], done);
    assert qv == Touched(q0, done);
  }

  method SweepObjects(order: OrderObject, queue: seq<OrderObject>, counter: nat)
    returns (left: seq<OrderObject>, executed: seq<Trade>)
    requires Distinct(queue) && order !in queue
    requires forall i :: 0 <= i < |queue| ==> queue[i].side != order.side
    requires Sound(order.View()) && AllSound(Views(queue))
    requires order.kind == Limit ==> order.price.Some?
    modifies order`filled, queue`filled
    ensures SweptTo(old(order.View()), old(Views(queue)), counter, Views(left), executed, order.View(), Views(queue))
    ensures |left| <= |queue| && left == queue[|queue| - |left|..]
  {
    ghost var o0, q0 := order.View(), Views(queue);
    ghost var done: seq<real> := [];
    executed := [];
    var k := 0;
    SweepBegins(o0, q0, counter);
    while order.Remaining() > DUST && k < |queue| && !PriceBeyond(order, queue[k])
      invariant Sweeping(order.View(), Views(queue), k, o0, q0, executed, done, counter)
      decreases |queue| - k, order.Remaining() > DUST
    {
      ghost var qty;
      var trade;
      k, trade, qty := SweepOnce(order, queue, k, o0, q0, executed, done, counter, counter + |executed| + 1);
      executed, done := executed + [trade], done + [qty];
    }
    left := queue[k..];
    SweepEnds(order.View(), Views(queue), k, o0, q0, executed, done, counter);
    assert Views(left) == Views(queue)[k..];
  }

  /** Appends a limit order with more than dust left to its own queue and sorts; otherwise nothing. */
  method RestOrder(queue: seq<OrderObject>, order: OrderObject) returns (rested: seq<OrderObject>)
    requires Distinct(queue) && order !in queue
    ensures Views(rested) == Rested(Views(queue), order.View())
    ensures Distinct(rested) && forall i :: 0 <= i < |rested| ==> rested[i] in queue || rested[i] == order
  {
    rested := queue;
    if order.kind == Limit && order.Remaining() > DUST {
      rested := rested + [order];
      DistinctSnoc(queue, order);
      SortObjectsViews(rested);
      SortObjectsDistinct(rested);
      ViewsSnoc(rested);
      assert rested[..|queue|] == queue;
      rested := SortObjects(rested);
    }
  }

  method Unexpire(queue: seq<OrderObject>, maxAge: int, now: int) returns (kept: seq<OrderObject>)
    requires Distinct(queue)
    ensures Views(kept) == Unexpired(Views(queue), maxAge, now)
    ensures Distinct(kept) && forall i :: 0 <= i < |kept| ==> kept[i] in queue
  {
    kept := [];
    for k := 0 to |queue|
      invariant Views(kept) == Unexpired(Views(queue[..k]), maxAge, now)
      invariant Distinct(kept) && forall i :: 0 <= i < |kept| ==> kept[i] in queue[..k]
    {
      assert queue[..k + 1][..k] == queue[..k];
      ViewsSnoc(queue[..k + 1]);
      assert Views(queue[..k + 1])[..k] == Views(queue[..k]);
      if now - queue[k].timestamp <= maxAge && queue[k].Remaining() > DUST {
        assert (kept + [queue[k]])[..|kept|] == kept;
        ViewsSnoc(kept + [queue[k]]);
        kept := kept + [queue[k]];
      }
    }
    assert queue[..|queue|] == queue;
  }

  /** The matching of one branch: sweep the opposite queue, rest the remainder in the own queue. */
  method MatchAgainst(order: OrderObject, opposite: seq<OrderObject>, own: seq<OrderObject>, counter: nat)
    returns (left: seq<OrderObject>, rested: seq<OrderObject>, executed: seq<Trade>)
    requires Apart(own, opposite) && order !in opposite && order !in own
    requires forall i :: 0 <= i < |opposite| ==> opposite[i].side != order.side
    requires Sound(order.View()) && AllSound(Views(opposite)) && (order.kind == Limit ==> order.price.Some?)
    modifies order`filled, opposite`filled
    ensures Apart(rested, left)
    ensures Matched(old(order.View()), old(Views(opposite)), old(Views(own)), counter, Views(left), Views(rested),
                    executed, order.View(), Views(opposite))
  {
    ghost var views := Views(own);
    left, executed := SweepObjects(order, opposite, counter);
    assert Views(own) == views;
    rested := RestOrder(own, order);
    SuffixApart(own, opposite, left, rested, order);
  }

  /** The same for both queues: what is left of o rests in its own. */
  ghost predicate Matched(o: Order, q: seq<Order>, own: seq<Order>, counter: nat, left: seq<Order>, rested: seq<Order>,
                          executed: seq<Trade>, taken: Order, touched: seq<Order>)
  {
    SweptTo(o, q, counter, left, executed, taken, touched) && rested == Rested(own, taken)
  }

  /** No object stands twice in the two queues. */
  ghost predicate Apart(own: seq<OrderObject>, opposite: seq<OrderObject>) {
    && Distinct(own) && Distinct(opposite)
    && forall i :: 0 <= i < |own| ==> own[i] !in opposite
  }

  lemma SuffixApart(own: seq<OrderObject>, opposite: seq<OrderObject>, left: seq<OrderObject>,
                    rested: seq<OrderObject>, order: OrderObject)
    requires Apart(own, opposite) && order !in opposite
    requires |left| <= |opposite| && left == opposite[|opposite| - |left|..]
    requires Distinct(rested) && forall i :: 0 <= i < |rested| ==> rested[i] in own || rested[i] == order
    ensures Apart(rested, left)
  {
  }

  class LimitOrderBook {
    const tick: real
    var bids: seq<OrderObject>
    var asks: seq<OrderObject>
    var trades: seq<Trade>
    var counter: nat
    var last: Option<real>
    ghost var arrivals: nat

    ghost function View(): Book
      reads this, bids, asks
    {
      Book(tick, Views(bids), Views(asks), trades, counter, last, arrivals)
    }

    /** No object rests twice, and the queues show a book in order. */
    ghost predicate Valid()
      reads this, bids, asks
    {
      Apart(bids, asks) && BookOk(View())
    }

    constructor (tick: real)
      requires tick > 0.0
      ensures Valid() && View() == EmptyBook(tick)
    {
      this.tick := tick;
      bids, asks, trades, counter, last, arrivals := [], [], [], 0, None, 0;
    }

    /** One incoming order.  A malformed one is refused with nothing changed; otherwise book and
        order end exactly as the value model says, and the order object itself may now rest. */
    method ProcessOrder(order: OrderObject) returns (accepted: bool, executed: seq<Trade>)
      requires Valid() && order !in bids && order !in asks
      modifies this, order, bids, asks
      ensures Valid()
      ensures accepted <==> Acceptable(old(order.View()))
      ensures !accepted ==> View() == old(View()) && order.View() == old(order.View()) && executed == []
      ensures accepted ==> View() == Submit(old(View()), old(order.View()))
      ensures accepted ==> executed == NewTrades(old(View()), old(order.View()))
      ensures accepted ==> WithinSubmitted(executed, old(order.View()), tick)
      ensures accepted ==> order.View() == Taken(old(View()), old(order.View()))
      ensures accepted ==>
        Views(old(if order.side == Buy then asks else bids)) == TouchedBy(old(View()), old(order.View()))
    {
      hide BookOk;
      if order.quantity <= 0.0 || order.filled < 0.0 || order.filled > order.quantity {
        return false, [];
      }
      if order.kind == Limit && (order.price.None? || order.price.value <= 0.0) {
        return false, [];
      }
      SubmitOk(View(), order.View());
      SubmissionWithinSubmitted(View(), order.View());
      BookOfObjects(View(), bids, asks);
      executed := Accept(order);
      accepted := true;
    }

    /** What the accepted part of a call may rely on. */
    ghost predicate Ready(order: OrderObject)
      reads this, bids, asks, order
    {
      && Apart(bids, asks) && order !in bids && order !in asks
      && (forall i :: 0 <= i < |bids| ==> bids[i].side == Buy)
      && (forall i :: 0 <= i < |asks| ==> asks[i].side == Sell)
      && AllSound(Views(bids)) && AllSound(Views(asks))
      && Sound(order.View()) && (order.kind == Limit ==> order.price.Some?)
    }

    /** The accepted part: round the limit, match, rest, keep the counters. */
    method Accept(order: OrderObject) returns (executed: seq<Trade>)
      requires tick > 0.0 && Ready(order) && Acceptable(order.View())
      modifies this, order, bids, asks
      ensures Apart(bids, asks)
      ensures View() == Submit(old(View()), old(order.View()))
      ensures executed == NewTrades(old(View()), old(order.View()))
      ensures order.View() == Taken(old(View()), old(order.View()))
      ensures Views(old(if order.side == Buy then asks else bids)) == TouchedBy(old(View()), old(order.View()))
    {
      hide Matched;
      ghost var b, o := View(), order.View();
      ghost var opposite := if order.side == Buy then asks else bids;
      EnterPrice(order, tick, arrivals);
      assert order.View() == Entered(b, o);
      executed := MatchSides(order, b, Entered(b, o));
      ghost var bidsLeft, asksLeft := Views(bids), Views(asks);
      Record(executed);
      assert Views(bids) == bidsLeft && Views(asks) == asksLeft;
      SubmitAssembled(b, o, View(), executed, order.View(), Views(opposite));
    }

    method Record(executed: seq<Trade>)
      modifies this`trades, this`counter, this`last, this`arrivals
      ensures trades == old(trades) + executed && counter == old(counter) + |executed|
      ensures last == if executed == [] then old(last) else Some(executed[|executed| - 1].price)
      ensures arrivals == old(arrivals) + 1
    {
      trades := trades + executed;
      counter := counter + |executed|;
      if executed != [] {
        last := Some(executed[|executed| - 1].price);
      }
      arrivals := arrivals + 1;
    }

    /** The BUY branch and the SELL branch. */
    method MatchSides(order: OrderObject, ghost b: Book, ghost e: Order) returns (executed: seq<Trade>)
      requires Ready(order) && order.View() == e
      requires b.bids == Views(bids) && b.asks == Views(asks) && b.counter == counter
      modifies this`bids, this`asks, order`filled, bids`filled, asks`filled
      ensures Apart(bids, asks)
      ensures Matched(e, Opposite(b, e.side), Own(b, e.side), counter,
        if e.side == Buy then Views(asks) else Views(bids), if e.side == Buy then Views(bids) else Views(asks),
        executed, order.View(), Views(old(if order.side == Buy then asks else bids)))
    {
      hide Matched;
      var left, rested;
      if order.side == Buy {
        left, rested, executed := MatchAgainst(order, asks, bids, counter);
      } else {
        left, rested, executed := MatchAgainst(order, bids, asks, counter);
      }
      ghost var opposite := if order.side == Buy then asks else bids;
      ghost var l, r, o, t := Views(left), Views(rested), order.View(), Views(opposite);
      assert Matched(e, Opposite(b, e.side), Own(b, e.side), counter, l, r, executed, o, t);
      if order.side == Buy {
        asks, bids := left, rested;
      } else {
        bids, asks := left, rested;
      }
      assert Views(left) == l && Views(rested) == r && order.View() == o && Views(opposite) == t;
    }

    method ClearExpiredOrders(maxAge: int, now: int)
      requires Valid()
      modifies this
      ensures Valid()
      ensures View() == Expire(old(View()), maxAge, now)
    {
      hide BookOk;
      ghost var b := View();
      ExpireOk(b, maxAge, now);
      var keptBids := Unexpire(bids, maxAge, now);
      var keptAsks := Unexpire(asks, maxAge, now);
      assert Apart(keptBids, keptAsks);
      ExpireAssembled(b, Book(tick, Views(keptBids), Views(keptAsks), trades, counter, last, arrivals), maxAge, now);
      bids, asks := keptBids, keptAsks;
    }
  }

  method EnterPrice(order: OrderObject, tick: real, ghost arrival: nat)
    requires tick > 0.0 && (order.kind == Limit ==> order.price.Some?)
    modifies order`price, order`arrival
    ensures order.View() == old(order.View()).(
      price := if order.kind == Limit then Some(RoundPrice(old(order.price.value), tick)) else old(order.price),
      arrival := arrival)
  {
    if order.kind == Limit {
      order.price := Some(RoundPrice(order.price.value, tick));
    }
    order.arrival := arrival;
  }

  /** The parts of a book after a submission, put together. */
  lemma SubmitAssembled(b: Book, o: Order, after: Book, executed: seq<Trade>, taken: Order, touched: seq<Order>)
    requires b.tick > 0.0 && Acceptable(o)
    requires Matched(Entered(b, o), Opposite(b, o.side), Own(b, o.side), b.counter,
      Opposite(after, o.side), Own(after, o.side), executed, taken, touched)
    requires after.tick == b.tick && after.arrivals == b.arrivals + 1
    requires after.trades == b.trades + executed && after.counter == b.counter + |executed|
    requires after.last == if executed == [] then b.last else Some(executed[|executed| - 1].price)
    ensures after == Submit(b, o) && executed == NewTrades(b, o)
    ensures taken == Taken(b, o) && touched == TouchedBy(b, o)
  {
    assert after.trades[|b.trades|..] == executed;
  }

  lemma ExpireAssembled(b: Book, after: Book, maxAge: int, now: int)
    requires after.tick == b.tick && after.arrivals == b.arrivals && after.last == b.last
    requires after.trades == b.trades && after.counter == b.counter
    requires after.bids == Unexpired(b.bids, maxAge, now) && after.asks == Unexpired(b.asks, maxAge, now)
    ensures after == Expire(b, maxAge, now)
  {
  }

  lemma BookOfObjects(b: Book, bids: seq<OrderObject>, asks: seq<OrderObject>)
    requires BookOk(b) && b.bids == Views(bids) && b.asks == Views(asks)
    ensures b.tick > 0.0
    ensures forall i :: 0 <= i < |bids| ==> bids[i].side == Buy
    ensures forall i :: 0 <= i < |asks| ==> asks[i].side == Sell
    ensures AllSound(b.bids) && AllSound(b.asks)
  {
    SidesOfObjects(bids, Buy, b.arrivals);
    SidesOfObjects(asks, Sell, b.arrivals);
  }

  lemma SidesOfObjects(queue: seq<OrderObject>, side: Side, arrivals: nat)
    requires QueueOk(Views(queue), side, arrivals)
    ensures forall i :: 0 <= i < |queue| ==> queue[i].side == side
    ensures AllSound(Views(queue))
  {
    forall i | 0 <= i < |queue| ensures queue[i].side == side && Sound(Views(queue)[i]) {
      assert RestingOk(Views(queue)[i], side, arrivals);
    }
  }
}
