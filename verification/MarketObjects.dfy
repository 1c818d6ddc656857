/** The impact market and the settlement loop over mutable objects. */
module MarketObjects {
  import opened RealSums
  import opened OrderBook
  import opened OrderBookObjects
  import opened ImpactMatcher
  import opened Settlement

  // ---------- Settlement ----------

  ghost predicate Injective(agents: map<string, Agent>) {
    forall a, b :: a in agents && b in agents && a != b ==> agents[a] != agents[b]
  }

  ghost function Balances(agents: map<string, Agent>): Accounts
    reads agents.Values
  {
    map id | id in agents :: agents[id].View()
  }

  method SettleOne(agents: map<string, Agent>, id: string, side: Side, price: real, qty: real)
    requires Injective(agents)
    modifies agents.Values
    ensures Balances(agents) == SettleSide(old(Balances(agents)), id, side, price, qty)
  {
    if id in agents {
      agents[id].OnTradeExecution(side, price, qty);
    }
  }

  /** The settlement loop of a simulation step. */
  method SettleTrades(agents: map<string, Agent>, trades: seq<Trade>)
    requires Injective(agents)
    modifies agents.Values
    ensures Balances(agents) == Settle(old(Balances(agents)), trades)
  {
    ghost var before := Balances(agents);
    for k := 0 to |trades|
      invariant Balances(agents) == Settle(before, trades[..k])
    {
      assert trades[..k + 1][..k] == trades[..k];
      SettleOne(agents, trades[k].buyer, Buy, trades[k].price, trades[k].quantity);
      SettleOne(agents, trades[k].seller, Sell, trades[k].price, trades[k].quantity);
    }
    assert trades[..|trades|] == trades;
  }

  // ---------- The impact market ----------

  lemma PickedSnoc(orders: seq<Order>, o: Order, side: Side)
    ensures Picked(orders + [o], side) ==
      Picked(orders, side) + if o.side == side && o.Remaining() > DUST then [o] else []
    ensures SideTotal(orders + [o], side) == SideTotal(orders, side) + if o.side == side then o.Remaining() else 0.0
  {
    assert (orders + [o])[..|orders|] == orders;
  }

  /** The objects of one side that still wait, in submission order. */
  ghost function Waiting(orders: seq<OrderObject>, side: Side): (w: seq<OrderObject>)
    reads orders
    ensures forall i :: 0 <= i < |w| ==> w[i] in orders && w[i].side == side
  {
    if orders == [] then []
    else
      var n := |orders| - 1;
      assert orders == orders[..n] + [orders[n]];
      Waiting(orders[..n], side) +
      if orders[n].side == side && orders[n].Remaining() > DUST then [orders[n]] else []
  }

  lemma {:induction false} WaitingViews(orders: seq<OrderObject>, side: Side)
    ensures Views(Waiting(orders, side)) == Picked(Views(orders), side)
  {
    if orders != [] {
      var n := |orders| - 1;
      WaitingViews(orders[..n], side);
      ViewsSnoc(orders);
      PickedSnoc(Views(orders[..n]), orders[n].View(), side);
      var w := Waiting(orders[..n], side);
      if orders[n].side == side && orders[n].Remaining() > DUST {
        assert (w + [orders[n]])[..|w|] == w;
        ViewsSnoc(w + [orders[n]]);
      }
    }
  }

  lemma {:induction false} WaitingDistinct(orders: seq<OrderObject>, side: Side)
    requires Distinct(orders)
    ensures Distinct(Waiting(orders, side))
  {
    if orders != [] {
      var n := |orders| - 1;
      WaitingDistinct(orders[..n], side);
      assert orders[n] !in orders[..n];
    }
  }

  lemma WaitingSnoc(orders: seq<OrderObject>, k: nat, side: Side)
    requires k < |orders|
    ensures Waiting(orders[..k + 1], side) ==
      Waiting(orders[..k], side) + if orders[k].side == side && orders[k].Remaining() > DUST then [orders[k]] else []
    ensures SideTotal(Views(orders[..k + 1]), side) ==
      SideTotal(Views(orders[..k]), side) + if orders[k].side == side then orders[k].Remaining() else 0.0
  {
    assert orders[..k + 1][..k] == orders[..k];
    ViewsSnoc(orders[..k + 1]);
    PickedSnoc(Views(orders[..k]), orders[k].View(), side);
  }

  /** The waiting orders of one side, and the side's volume. */
  method PickSide(orders: seq<OrderObject>, side: Side) returns (picked: seq<OrderObject>, total: real)
    ensures picked == Waiting(orders, side)
    ensures total == SideTotal(Views(orders), side)
  {
    picked, total := [], 0.0;
    for k := 0 to |orders|
      invariant picked == Waiting(orders[..k], side)
      invariant total == SideTotal(Views(orders[..k]), side)
    {
      WaitingSnoc(orders, k, side);
      if orders[k].side == side {
        total := total + orders[k].Remaining();
        if orders[k].Remaining() > DUST {
          picked := picked + [orders[k]];
        }
      }
    }
    assert orders[..|orders|] == orders;
  }

  ghost predicate AllSubmittable(orders: seq<Order>) {
    forall i :: 0 <= i < |orders| ==> Submittable(orders[i])
  }

  method CheckOrders(orders: seq<OrderObject>) returns (ok: bool)
    ensures ok <==> AllSubmittable(Views(orders))
  {
    ok := true;
    for k := 0 to |orders|
      invariant ok <==> forall i :: 0 <= i < k ==> Submittable(orders[i].View())
    {
      var o := orders[k];
      if o.quantity <= 0.0 || o.filled < 0.0 || o.filled > o.quantity {
        assert !Submittable(orders[k].View());
        ok := false;
      }
    }
    assert forall i :: 0 <= i < |orders| ==> Views(orders)[i] == orders[i].View();
  }

  // ---------- The matching loop ----------

  /** What the walk still has to do from here completes to the walk from the start. */
  ghost predicate WalkMidway(all: Walked, now: Walked, done: seq<Deal>) {
    all.buys == now.buys && all.sells == now.sells && all.deals == done + now.deals
  }

  ghost predicate OnlyFilled(q: seq<Order>, q0: seq<Order>) {
    |q| == |q0| && forall k :: 0 <= k < |q| ==> SameButFilled(q[k], q0[k])
  }

  /** Where the matching loop stands, on the orders as they are now and as they were. */
  ghost predicate Walking(bv: seq<Order>, sv: seq<Order>, i: nat, j: nat, b0: seq<Order>, s0: seq<Order>,
                          done: seq<Deal>)
  {
    && i <= |bv| && j <= |sv| && OnlyFilled(bv, b0) && OnlyFilled(sv, s0)
    && WalkMidway(Walk(b0, s0, 0, 0), Walk(bv, sv, i, j), done)
  }

  ghost predicate DealsPrinted(ts: seq<Trade>, done: seq<Deal>, buys: seq<Order>, sells: seq<Order>,
                               price: real, counter: nat, timestamp: int)
  {
    && |ts| == |done|
    && forall k :: 0 <= k < |ts| ==>
         && done[k].buy < |buys| && done[k].sell < |sells|
         && ts[k] == ImpactTrade(done[k], buys, sells, price, counter + k + 1, timestamp)
  }

  lemma WalkUnfolds(all: Walked, bv: seq<Order>, sv: seq<Order>, i: nat, j: nat, done: seq<Deal>)
    requires i < |bv| && j < |sv| && WalkMidway(all, Walk(bv, sv, i, j), done)
    ensures var qty := PairFill(bv[i], sv[j]);
      var b, s := AfterPair(bv[i], qty), AfterPair(sv[j], qty);
      WalkMidway(all,
        Walk(bv[i := b], sv[j := s],
             if b.Remaining() <= DUST then i + 1 else i, if s.Remaining() <= DUST then j + 1 else j),
        done + if qty > DUST then [Deal(i, j, qty)] else [])
  {
  }

  lemma WalkMoves(bv: seq<Order>, sv: seq<Order>, i: nat, j: nat, b0: seq<Order>, s0: seq<Order>, done: seq<Deal>)
    requires Walking(bv, sv, i, j, b0, s0, done) && i < |bv| && j < |sv|
    ensures var qty := PairFill(bv[i], sv[j]);
      var b, s := AfterPair(bv[i], qty), AfterPair(sv[j], qty);
      && (b.Remaining() <= DUST || s.Remaining() <= DUST)
      && Walking(bv[i := b], sv[j := s],
           if b.Remaining() <= DUST then i + 1 else i, if s.Remaining() <= DUST then j + 1 else j,
           b0, s0, done + if qty > DUST then [Deal(i, j, qty)] else [])
  {
    PairAdvances(bv[i], sv[j]);
    WalkUnfolds(Walk(b0, s0, 0, 0), bv, sv, i, j, done);
  }

  lemma WalkEnds(bv: seq<Order>, sv: seq<Order>, i: nat, j: nat, b0: seq<Order>, s0: seq<Order>, done: seq<Deal>)
    requires Walking(bv, sv, i, j, b0, s0, done) && (i == |bv| || j == |sv|)
    ensures Walk(b0, s0, 0, 0) == Walked(bv, sv, done)
  {
    assert done + [] == done;
  }

  lemma PrintedSnoc(ts: seq<Trade>, done: seq<Deal>, b0: seq<Order>, s0: seq<Order>, price: real, counter: nat,
                    timestamp: int, d: Deal, b: Order, s: Order)
    requires DealsPrinted(ts, done, b0, s0, price, counter, timestamp)
    requires d.buy < |b0| && SameButFilled(b, b0[d.buy]) && d.sell < |s0| && SameButFilled(s, s0[d.sell])
    ensures DealsPrinted(
      ts + [Trade(counter + |ts| + 1, b.orderId, s.orderId, b.agent, s.agent, price, d.qty, timestamp)],
      done + [d], b0, s0, price, counter, timestamp)
  {
  }

  lemma NothingPrinted(b0: seq<Order>, s0: seq<Order>, price: real, counter: nat, timestamp: int)
    ensures DealsPrinted([], [], b0, s0, price, counter, timestamp)
  {
  }

  /** The two orders of one pass. */
  method FillPair(bo: OrderObject, so: OrderObject) returns (qty: real)
    requires bo != so
    modifies bo`filled, so`filled
    ensures qty == PairFill(old(bo.View()), old(so.View()))
    ensures bo.View() == AfterPair(old(bo.View()), qty)
    ensures so.View() == AfterPair(old(so.View()), qty)
  {
    qty := Min(bo.Remaining(), so.Remaining());
    if qty > DUST {
      bo.AddFill(qty);
      so.AddFill(qty);
    }
  }

  /** No order stands twice among the waiting ones. */
  ghost predicate Separate(buys: seq<OrderObject>, sells: seq<OrderObject>) {
    Distinct(buys) && Distinct(sells) && forall k, l :: 0 <= k < |buys| && 0 <= l < |sells| ==> buys[k] != sells[l]
  }

  method FillAt(buys: seq<OrderObject>, sells: seq<OrderObject>, i: nat, j: nat) returns (qty: real)
    requires Separate(buys, sells) && i < |buys| && j < |sells|
    modifies buys`filled, sells`filled
    ensures qty == PairFill(old(buys[i].View()), old(sells[j].View()))
    ensures Views(buys) == old(Views(buys))[i := AfterPair(old(buys[i].View()), qty)]
    ensures Views(sells) == old(Views(sells))[j := AfterPair(old(sells[j].View()), qty)]
  {
    qty := FillPair(buys[i], sells[j]);
  }

  method NextPosition(o: OrderObject, i: nat) returns (i': nat)
    ensures i' == if o.View().Remaining() <= DUST then i + 1 else i
  {
    i' := i;
    if o.Remaining() <= DUST {
      i' := i + 1;
    }
  }

  /** One pass of the matching loop. */
  method WalkOnce(buys: seq<OrderObject>, sells: seq<OrderObject>, i: nat, j: nat,
                  ghost b0: seq<Order>, ghost s0: seq<Order>, ghost done: seq<Deal>)
    returns (i': nat, j': nat, qty: real)
    requires Separate(buys, sells) && i < |buys| && j < |sells|
    requires Walking(Views(buys), Views(sells), i, j, b0, s0, done)
    modifies buys`filled, sells`filled
    ensures i <= i' <= |buys| && j <= j' <= |sells| && i + j < i' + j'
    ensures Walking(Views(buys), Views(sells), i', j', b0, s0, done + if qty > DUST then [Deal(i, j, qty)] else [])
  {
    hide Walking;
    ghost var bv, sv := Views(buys), Views(sells);
    WalkMoves(bv, sv, i, j, b0, s0, done);
    qty := FillAt(buys, sells, i, j);
    assert buys[i].View() == Views(buys)[i] && sells[j].View() == Views(sells)[j];
    i' := NextPosition(buys[i], i);
    j' := NextPosition(sells[j], j);
  }

  /** The matching loop over the waiting orders of both sides. */
  method MatchWaiting(buys: seq<OrderObject>, sells: seq<OrderObject>, price: real, counter: nat, timestamp: int)
    returns (executed: seq<Trade>)
    requires Separate(buys, sells)
    modifies buys`filled, sells`filled
    ensures MatchedAll(old(Views(buys)), old(Views(sells)), Views(buys), Views(sells), executed,
                       price, counter, timestamp)
  {
    hide DealsPrinted;
    ghost var b0, s0 := Views(buys), Views(sells);
    ghost var done: seq<Deal> := [];
    executed := [];
    var i, j := 0, 0;
    NothingPrinted(b0, s0, price, counter, timestamp);
    while i < |buys| && j < |sells|
      invariant Walking(Views(buys), Views(sells), i, j, b0, s0, done)
      invariant DealsPrinted(executed, done, b0, s0, price, counter, timestamp)
      decreases |buys| - i + |sells| - j
    {
      var bo, so := buys[i], sells[j];
      ghost var b, s := Views(buys)[i], Views(sells)[j];
      ghost var was := done;
      var k, l, qty := WalkOnce(buys, sells, i, j, b0, s0, done);
      if qty > DUST {
        PrintedSnoc(executed, was, b0, s0, price, counter, timestamp, Deal(i, j, qty), b, s);
        executed := executed +
          [Trade(counter + |executed| + 1, bo.orderId, so.orderId, bo.agent, so.agent, price, qty, timestamp)];
        done := was + [Deal(i, j, qty)];
      } else {
        assert was + [] == was;
      }
      i, j := k, l;
    }
    WalkEnds(Views(buys), Views(sells), i, j, b0, s0, done);
  }

  /** The orders before and after, and the trades printed, of one full matching. */
  ghost predicate MatchedAll(b0: seq<Order>, s0: seq<Order>, bv: seq<Order>, sv: seq<Order>, executed: seq<Trade>,
                             price: real, counter: nat, timestamp: int)
  {
    var w := Walk(b0, s0, 0, 0);
    bv == w.buys && sv == w.sells && DealsPrinted(executed, w.deals, b0, s0, price, counter, timestamp)
  }

  // ---------- The market ----------

  /** The price moves by the imbalance of the orders as they came in. */
  ghost predicate PriceMoved(orders: seq<Order>, coefficient: real, before: real, after: real) {
    && SideTotal(orders, Buy) >= 0.0 && SideTotal(orders, Sell) >= 0.0
    && after == ImpactPrice(before, coefficient, SideTotal(orders, Buy), SideTotal(orders, Sell))
  }

  /** The waiting orders of both sides, matched. */
  ghost predicate StepMatched(orders: seq<Order>, bv: seq<Order>, sv: seq<Order>, executed: seq<Trade>,
                              price: real, counter: nat, timestamp: int)
  {
    MatchedAll(Picked(orders, Buy), Picked(orders, Sell), bv, sv, executed, price, counter, timestamp)
  }

  lemma NothingToWalk(orders: seq<Order>, price: real, counter: nat, timestamp: int)
    requires Min(SideTotal(orders, Buy), SideTotal(orders, Sell)) <= 0.0
    ensures var b0, s0 := Picked(orders, Buy), Picked(orders, Sell);
      MatchedAll(b0, s0, b0, s0, [], price, counter, timestamp)
  {
    if SideTotal(orders, Buy) <= 0.0 {
      NoVolumeNoneWaiting(orders, Buy);
    } else {
      NoVolumeNoneWaiting(orders, Sell);
    }
  }

  /** The matching of one step at a price that is already set. */
  method MatchStep(orders: seq<OrderObject>, buys: seq<OrderObject>, sells: seq<OrderObject>, volume: real,
                   price: real, counter: nat, timestamp: int)
    returns (executed: seq<Trade>)
    requires Distinct(orders) && buys == Waiting(orders, Buy) && sells == Waiting(orders, Sell)
    requires volume == Min(SideTotal(Views(orders), Buy), SideTotal(Views(orders), Sell))
    modifies buys`filled, sells`filled
    ensures StepMatched(old(Views(orders)), Views(buys), Views(sells), executed, price, counter, timestamp)
  {
    WaitingViews(orders, Buy);
    WaitingViews(orders, Sell);
    executed := [];
    if volume > 0.0 {
      WaitingDistinct(orders, Buy);
      WaitingDistinct(orders, Sell);
      executed := MatchWaiting(buys, sells, price, counter, timestamp);
    } else {
      NothingToWalk(Views(orders), price, counter, timestamp);
    }
  }

  method MovePrice(orders: seq<OrderObject>, buyQty: real, sellQty: real, coefficient: real, before: real)
    returns (after: real)
    requires buyQty == SideTotal(Views(orders), Buy) && sellQty == SideTotal(Views(orders), Sell)
    ensures PriceMoved(Views(orders), coefficient, before, after)
  {
    SideTotalNonNegative(Views(orders), Buy);
    SideTotalNonNegative(Views(orders), Sell);
    after := ImpactPrice(before, coefficient, buyQty, sellQty);
  }

  /** The accepted part of a step: the new price, and the matching at it. */
  method Accept(orders: seq<OrderObject>, before: real, coefficient: real, counter: nat, timestamp: int)
    returns (price: real, executed: seq<Trade>, ghost buys: seq<OrderObject>, ghost sells: seq<OrderObject>)
    requires Distinct(orders)
    modifies orders`filled
    ensures PriceMoved(old(Views(orders)), coefficient, before, price)
    ensures buys == old(Waiting(orders, Buy)) && sells == old(Waiting(orders, Sell))
    ensures StepMatched(old(Views(orders)), Views(buys), Views(sells), executed, price, counter, timestamp)
    ensures forall k :: 0 <= k < |orders| && orders[k] !in buys && orders[k] !in sells ==>
      orders[k].filled == old(orders[k].filled)
  {
    var bs, buyQty := PickSide(orders, Buy);
    var ss, sellQty := PickSide(orders, Sell);
    buys, sells := bs, ss;
    price := MovePrice(orders, buyQty, sellQty, coefficient, before);
    executed := MatchStep(orders, bs, ss, Min(buyQty, sellQty), price, counter, timestamp);
  }

  class ImpactMarketModel {
    var currentPrice: real
    const impactCoefficient: real
    var trades: seq<Trade>
    var counter: nat

    constructor (initialPrice: real, impactCoefficient: real)
      requires initialPrice > 0.0 && impactCoefficient >= 0.0
      ensures currentPrice == initialPrice && this.impactCoefficient == impactCoefficient
      ensures trades == [] && counter == 0
    {
      currentPrice, this.impactCoefficient, trades, counter := initialPrice, impactCoefficient, [], 0;
    }

    /** One step: refuse malformed orders before anything changes, move the price by the imbalance,
        match what waits on both sides; orders that do not wait keep their fills.  buys and sells
        name the matched objects. */
    method ProcessOrders(orders: seq<OrderObject>, timestamp: int)
      returns (accepted: bool, executed: seq<Trade>, ghost buys: seq<OrderObject>, ghost sells: seq<OrderObject>)
      requires Distinct(orders)
      modifies this, orders`filled
      ensures accepted <==> AllSubmittable(old(Views(orders)))
      ensures !accepted ==> unchanged(this) && unchanged(orders) && executed == []
      ensures accepted ==> PriceMoved(old(Views(orders)), impactCoefficient, old(currentPrice), currentPrice)
      ensures trades == old(trades) + executed && counter == old(counter) + |executed|
      ensures accepted ==> buys == old(Waiting(orders, Buy)) && sells == old(Waiting(orders, Sell))
      ensures accepted ==>
        StepMatched(old(Views(orders)), Views(buys), Views(sells), executed, currentPrice, old(counter), timestamp)
      ensures forall k :: 0 <= k < |orders| && orders[k] !in buys && orders[k] !in sells ==>
        orders[k].filled == old(orders[k].filled)
    {
      hide StepMatched, PriceMoved, Distinct;
      executed, buys, sells := [], [], [];
      accepted := CheckOrders(orders);
      if accepted {
        var price;
        price, executed, buys, sells := Accept(orders, currentPrice, impactCoefficient, counter, timestamp);
        currentPrice := price;
        trades := trades + executed;
        counter := counter + |executed|;
      }
    }
  }
}
