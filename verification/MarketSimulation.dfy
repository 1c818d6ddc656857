/** The simulation loop: each step expires stale orders, trades the step's orders on one of the two
    engines and settles the trades on the agents.  Whatever the orders, cash and inventory only
    change hands. */
module MarketSimulation {
  import opened Options
  import opened RealSums
  import opened OrderBook
  import opened BookRuns
  import opened ImpactMatcher
  import opened Settlement

  datatype Market =
    | BookMarket(book: Book)
    | ImpactMarket(price: real, coefficient: real, counter: nat)

  datatype World = World(market: Market, accounts: Accounts)

  datatype Traded = Traded(market: Market, trades: seq<Trade>)

  const MAX_AGE := 10

  predicate MarketOk(m: Market) {
    match m
    case BookMarket(b) => b.tick > 0.0
    case ImpactMarket(p, c, _) => p > 0.0 && c >= 0.0
  }

  /** A book takes the orders one by one. */
  function SubmitAll(b: Book, orders: seq<Order>): (r: (Book, seq<Trade>))
    requires b.tick > 0.0 && forall k :: 0 <= k < |orders| ==> Acceptable(orders[k])
    ensures r.0.tick == b.tick
  {
    if orders == [] then (b, [])
    else
      var n := |orders| - 1;
      var before := SubmitAll(b, orders[..n]);
      (Submit(before.0, orders[n]), before.1 + NewTrades(before.0, orders[n]))
  }

  function ImpactTrades(deals: seq<Deal>, buys: seq<Order>, sells: seq<Order>, price: real, counter: nat, t: int)
    : (ts: seq<Trade>)
    requires forall k :: 0 <= k < |deals| ==> deals[k].buy < |buys| && deals[k].sell < |sells|
  {
    seq(|deals|, k requires 0 <= k < |deals| => ImpactTrade(deals[k], buys, sells, price, counter + k + 1, t))
  }

  /** No market takes a malformed order: the step raises an error and the run is over. */
  predicate Refused(m: Market, orders: seq<Order>) {
    match m
    case BookMarket(_) => exists k :: 0 <= k < |orders| && !Acceptable(orders[k])
    case ImpactMarket(_, _, _) => exists k :: 0 <= k < |orders| && !Submittable(orders[k])
  }

  function TradeStep(m: Market, orders: seq<Order>, t: int): Traded
    requires MarketOk(m) && !Refused(m, orders)
  {
    match m
    case BookMarket(b) =>
      var r := SubmitAll(Expire(b, MAX_AGE, t), orders);
      Traded(BookMarket(r.0), r.1)
    case ImpactMarket(p, c, n) =>
      SideTotalNonNegative(orders, Buy);
      SideTotalNonNegative(orders, Sell);
      var price := ImpactPrice(p, c, SideTotal(orders, Buy), SideTotal(orders, Sell));
      var buys, sells := Picked(orders, Buy), Picked(orders, Sell);
      WalkOfOrders(orders);
      var ts := ImpactTrades(Walk(buys, sells, 0, 0).deals, buys, sells, price, n, t);
      Traded(ImpactMarket(price, c, n + |ts|), ts)
  }

  lemma WalkOfOrders(orders: seq<Order>)
    requires forall k :: 0 <= k < |orders| ==> Submittable(orders[k])
    ensures WalkOk(Picked(orders, Buy), Picked(orders, Sell), Walk(Picked(orders, Buy), Picked(orders, Sell), 0, 0))
  {
    PickedOk(orders, Buy);
    PickedOk(orders, Sell);
    WalkConserves(Picked(orders, Buy), Picked(orders, Sell), 0, 0);
  }

  function Step(w: World, orders: seq<Order>, t: int): Option<World>
    requires MarketOk(w.market)
    ensures Step(w, orders, t).Some? ==> MarketOk(Step(w, orders, t).value.market)
  {
    if Refused(w.market, orders) then None
    else
      var r := TradeStep(w.market, orders, t);
      Some(World(r.market, Settle(w.accounts, r.trades)))
  }

  /** Steps 1, 2, ...; steps[k] are the orders the agents decided on in step k + 1. */
  function Simulate(w: World, steps: seq<seq<Order>>): (r: Option<World>)
    requires MarketOk(w.market)
    ensures r.Some? ==> MarketOk(r.value.market)
  {
    if steps == [] then Some(w)
    else
      match Simulate(w, steps[..|steps| - 1])
      case None => None
      case Some(before) => Step(before, steps[|steps| - 1], |steps|)
  }

  // ---------- Everybody who trades is an agent ----------

  ghost predicate OwnersKnown(q: seq<Order>, m: Accounts) {
    forall k :: 0 <= k < |q| ==> q[k].agent in m
  }

  ghost predicate MarketKnown(m: Market, accounts: Accounts) {
    m.BookMarket? ==> OwnersKnown(m.book.bids, accounts) && OwnersKnown(m.book.asks, accounts)
  }

  ghost predicate MarketSound(m: Market) {
    MarketOk(m) && (m.BookMarket? ==> BookOk(m.book))
  }

  lemma SameOwners(q: seq<Order>, fills: seq<real>, left: seq<Order>, m: Accounts)
    requires OwnersKnown(q, m) && QueueLeft(q, fills, left)
    ensures OwnersKnown(left, m)
  {
    var shift := |q| - |left|;
    forall k | 0 <= k < |left| ensures left[k].agent in m {
      assert left[k].agent == q[shift + k].agent;
    }
  }

  lemma RestedOwners(q: seq<Order>, o: Order, m: Accounts)
    requires OwnersKnown(q, m) && o.agent in m
    ensures OwnersKnown(Rested(q, o), m)
  {
    if o.kind == Limit && o.Remaining() > DUST {
      StableSortContents(q + [o]);
      var r := StableSort(q + [o]);
      forall k | 0 <= k < |r| ensures r[k].agent in m {
        assert r[k] in multiset(r);
        assert r[k] in q + [o];
      }
    }
  }

  lemma TradesKnown(o: Order, q: seq<Order>, fills: seq<real>, counter: nat, m: Accounts)
    requires |fills| <= |q| && OwnersKnown(q, m) && o.agent in m
    ensures PartiesKnown(m, TradesOf(o, q, fills, counter))
  {
  }

  lemma SubmitKnown(b: Book, o: Order, m: Accounts)
    requires BookOk(b) && Acceptable(o) && o.agent in m
    requires OwnersKnown(b.bids, m) && OwnersKnown(b.asks, m)
    ensures OwnersKnown(Submit(b, o).bids, m) && OwnersKnown(Submit(b, o).asks, m)
    ensures PartiesKnown(m, NewTrades(b, o))
  {
    var e, q := Entered(b, o), Opposite(b, o.side);
    var s := Sweep(e, q);
    assert QueueLeft(q, s.fills, s.queue) && s.order.agent == o.agent by {
      SubmitQueues(b, o);
    }
    SameOwners(q, s.fills, s.queue, m);
    RestedOwners(Own(b, o.side), s.order, m);
    NewTradesAre(b, o);
    TradesKnown(e, q, s.fills, b.counter, m);
  }

  ghost predicate BookKnown(b: Book, m: Accounts) {
    BookOk(b) && OwnersKnown(b.bids, m) && OwnersKnown(b.asks, m)
  }

  lemma SubmitKeepsKnown(b: Book, o: Order, m: Accounts)
    requires BookKnown(b, m) && Acceptable(o) && o.agent in m
    ensures BookKnown(Submit(b, o), m)
    ensures PartiesKnown(m, NewTrades(b, o))
  {
    SubmitKnown(b, o, m);
    SubmitOk(b, o);
  }

  lemma {:induction false} SubmitAllKnown(b: Book, orders: seq<Order>, m: Accounts)
    requires BookKnown(b, m) && OwnersKnown(orders, m)
    requires forall k :: 0 <= k < |orders| ==> Acceptable(orders[k])
    ensures BookKnown(SubmitAll(b, orders).0, m)
    ensures PartiesKnown(m, SubmitAll(b, orders).1)
  {
    if orders != [] {
      var n := |orders| - 1;
      SubmitAllKnown(b, orders[..n], m);
      SubmitKeepsKnown(SubmitAll(b, orders[..n]).0, orders[n], m);
    }
  }

  lemma ExpireKnown(b: Book, t: int, m: Accounts)
    requires BookKnown(b, m)
    ensures BookKnown(Expire(b, MAX_AGE, t), m)
  {
    ExpireOk(b, MAX_AGE, t);
    UnexpiredOwners(b.bids, t, m);
    UnexpiredOwners(b.asks, t, m);
  }

  lemma {:induction false} UnexpiredOwners(q: seq<Order>, t: int, m: Accounts)
    requires OwnersKnown(q, m)
    ensures OwnersKnown(Unexpired(q, MAX_AGE, t), m)
  {
    if q != [] {
      UnexpiredOwners(q[..|q| - 1], t, m);
    }
  }

  lemma {:induction false} PickedOwners(orders: seq<Order>, side: Side, m: Accounts)
    requires OwnersKnown(orders, m)
    ensures OwnersKnown(Picked(orders, side), m)
  {
    if orders != [] {
      PickedOwners(orders[..|orders| - 1], side, m);
    }
  }

  ghost predicate DealsWithin(deals: seq<Deal>, buys: seq<Order>, sells: seq<Order>) {
    forall k :: 0 <= k < |deals| ==> deals[k].buy < |buys| && deals[k].sell < |sells|
  }

  lemma DealsKnown(deals: seq<Deal>, buys: seq<Order>, sells: seq<Order>, price: real, counter: nat, t: int,
                   m: Accounts)
    requires OwnersKnown(buys, m) && OwnersKnown(sells, m) && DealsWithin(deals, buys, sells)
    ensures PartiesKnown(m, ImpactTrades(deals, buys, sells, price, counter, t))
  {
  }

  lemma ImpactKnown(orders: seq<Order>, price: real, counter: nat, t: int, m: Accounts)
    requires OwnersKnown(orders, m) && forall k :: 0 <= k < |orders| ==> Submittable(orders[k])
    ensures var buys, sells := Picked(orders, Buy), Picked(orders, Sell);
      var deals := Walk(buys, sells, 0, 0).deals;
      DealsWithin(deals, buys, sells) && PartiesKnown(m, ImpactTrades(deals, buys, sells, price, counter, t))
  {
    var buys, sells := Picked(orders, Buy), Picked(orders, Sell);
    var deals := Walk(buys, sells, 0, 0).deals;
    PickedOwners(orders, Buy, m);
    PickedOwners(orders, Sell, m);
    assert DealsWithin(deals, buys, sells) by {
      WalkOfOrders(orders);
    }
    DealsKnown(deals, buys, sells, price, counter, t, m);
  }

  lemma TradeStepKnown(m: Market, orders: seq<Order>, t: int, accounts: Accounts)
    requires MarketSound(m) && MarketKnown(m, accounts) && OwnersKnown(orders, accounts) && !Refused(m, orders)
    ensures var r := TradeStep(m, orders, t);
      MarketSound(r.market) && MarketKnown(r.market, accounts) && PartiesKnown(accounts, r.trades)
  {
    match m
    case BookMarket(b) =>
      ExpireKnown(b, t, accounts);
      SubmitAllKnown(Expire(b, MAX_AGE, t), orders, accounts);
    case ImpactMarket(p, c, n) =>
      SideTotalNonNegative(orders, Buy);
      SideTotalNonNegative(orders, Sell);
      ImpactKnown(orders, ImpactPrice(p, c, SideTotal(orders, Buy), SideTotal(orders, Sell)), n, t, accounts);
  }

  // ---------- Conservation over whole simulations ----------

  ghost predicate Begun(w: World, ids: seq<string>) {
    MarketSound(w.market) && MarketKnown(w.market, w.accounts) && Listed(ids, w.accounts)
  }

  /** w' has the agents of w and the same cash and inventory among them all. */
  ghost predicate SameWealth(w: World, w': World, ids: seq<string>) {
    && w'.accounts.Keys == w.accounts.Keys && Listed(ids, w.accounts) && Listed(ids, w'.accounts)
    && TotalCash(ids, w'.accounts) == TotalCash(ids, w.accounts)
    && TotalInventory(ids, w'.accounts) == TotalInventory(ids, w.accounts)
  }

  lemma StepConserves(w: World, orders: seq<Order>, t: int, ids: seq<string>)
    requires Begun(w, ids) && OwnersKnown(orders, w.accounts)
    ensures var r := Step(w, orders, t);
      r.Some? ==> Begun(r.value, ids) && SameWealth(w, r.value, ids)
  {
    if !Refused(w.market, orders) {
      TradeStepKnown(w.market, orders, t, w.accounts);
      SettlementConserves(ids, w.accounts, TradeStep(w.market, orders, t).trades);
    }
  }

  /** In every simulation whose orders come from its agents, on either engine, the agents together
      hold the cash and the inventory they started with. */
  lemma {:induction false} SimulationConserves(w: World, steps: seq<seq<Order>>, ids: seq<string>)
    requires Begun(w, ids) && forall k :: 0 <= k < |steps| ==> OwnersKnown(steps[k], w.accounts)
    ensures var r := Simulate(w, steps);
      r.Some? ==> Begun(r.value, ids) && SameWealth(w, r.value, ids)
  {
    if steps != [] {
      var n := |steps| - 1;
      SimulationConserves(w, steps[..n], ids);
      var before := Simulate(w, steps[..n]);
      if before.Some? {
        StepConserves(before.value, steps[n], n + 1, ids);
      }
    }
  }

  lemma FreshMarketsBegin(tick: real, price: real, coefficient: real, accounts: Accounts, ids: seq<string>)
    requires tick > 0.0 && price > 0.0 && coefficient >= 0.0 && Listed(ids, accounts)
    ensures Begun(World(BookMarket(EmptyBook(tick)), accounts), ids)
    ensures Begun(World(ImpactMarket(price, coefficient, 0), accounts), ids)
  {
  }

  // ---------- Each agent's book wealth ----------

  /** In every step no seller parts with more than it holds. */
  ghost predicate NoOverselling(w: World, steps: seq<seq<Order>>)
    requires MarketOk(w.market)
  {
    steps == [] ||
    (var n := |steps| - 1;
     && NoOverselling(w, steps[..n])
     && match Simulate(w, steps[..n])
        case None => true
        case Some(before) =>
          !Refused(before.market, steps[n]) ==>
            SalesCovered(before.accounts, TradeStep(before.market, steps[n], |steps|).trades))
  }

  ghost predicate WealthKept(w: World, w': World, who: string)
    requires who in w.accounts
  {
    && who in w'.accounts && w'.accounts[who].costBasis >= 0.0
    && BookWealth(w'.accounts[who]) == BookWealth(w.accounts[who])
  }

  /** Without overselling, an agent's cash plus cost basis less realised profit never moves. */
  lemma {:induction false} SimulationKeepsBookWealth(w: World, steps: seq<seq<Order>>, who: string)
    requires MarketOk(w.market) && who in w.accounts && w.accounts[who].costBasis >= 0.0
    requires NoOverselling(w, steps)
    ensures var r := Simulate(w, steps);
      r.Some? ==> WealthKept(w, r.value, who)
  {
    if steps != [] {
      var n := |steps| - 1;
      SimulationKeepsBookWealth(w, steps[..n], who);
      var before := Simulate(w, steps[..n]);
      if before.Some? && !Refused(before.value.market, steps[n]) {
        WealthConstant(before.value.accounts, TradeStep(before.value.market, steps[n], n + 1).trades, who);
      }
    }
  }

  // ---------- Trades of the impact engine ----------

  /** A buy order and a sell order of the step, by number and agent, at the step's price. */
  ghost predicate FromStep(t: Trade, orders: seq<Order>, price: real) {
    && t.price == price && t.quantity > DUST
    && exists buy, sell ::
         buy in orders && sell in orders && buy.side == Buy && sell.side == Sell && Between(t, buy, sell)
  }

  lemma DealExplained(d: Deal, buys: seq<Order>, sells: seq<Order>, orders: seq<Order>, price: real, id: nat, t: int)
    requires d.buy < |buys| && d.sell < |sells| && d.qty > DUST
    requires buys[d.buy] in orders && buys[d.buy].side == Buy && sells[d.sell] in orders && sells[d.sell].side == Sell
    ensures FromStep(ImpactTrade(d, buys, sells, price, id, t), orders, price)
  {
    assert Between(ImpactTrade(d, buys, sells, price, id, t), buys[d.buy], sells[d.sell]);
  }

  lemma DealsExplained(deals: seq<Deal>, buys: seq<Order>, sells: seq<Order>, orders: seq<Order>, price: real,
                       counter: nat, t: int)
    requires DealsWithin(deals, buys, sells) && forall k :: 0 <= k < |deals| ==> deals[k].qty > DUST
    requires forall k :: 0 <= k < |buys| ==> buys[k] in orders && buys[k].side == Buy
    requires forall k :: 0 <= k < |sells| ==> sells[k] in orders && sells[k].side == Sell
    ensures forall x :: x in ImpactTrades(deals, buys, sells, price, counter, t) ==> FromStep(x, orders, price)
  {
    forall k | 0 <= k < |deals|
      ensures FromStep(ImpactTrades(deals, buys, sells, price, counter, t)[k], orders, price)
    {
      DealExplained(deals[k], buys, sells, orders, price, counter + k + 1, t);
    }
  }

  /** On the impact engine every trade of a step is between two orders of that step, of more than
      dust, at the price the step moved to. */
  lemma ImpactTradesExplained(p: real, c: real, n: nat, orders: seq<Order>, t: int)
    requires MarketOk(ImpactMarket(p, c, n)) && !Refused(ImpactMarket(p, c, n), orders)
    ensures var r := TradeStep(ImpactMarket(p, c, n), orders, t);
      forall x :: x in r.trades ==> FromStep(x, orders, r.market.price)
  {
    hide FromStep, ImpactTrade, Walk;
    PickedOk(orders, Buy);
    PickedOk(orders, Sell);
    WalkOfOrders(orders);
    var buys, sells := Picked(orders, Buy), Picked(orders, Sell);
    DealsExplained(Walk(buys, sells, 0, 0).deals, buys, sells, orders,
      TradeStep(ImpactMarket(p, c, n), orders, t).market.price, n, t);
  }

  // ---------- Volumes of the impact engine ----------

  lemma {:induction false} VolumeOfDeals(deals: seq<Deal>, buys: seq<Order>, sells: seq<Order>, price: real,
                                         counter: nat, t: int)
    requires forall k :: 0 <= k < |deals| ==> deals[k].buy < |buys| && deals[k].sell < |sells|
    ensures Volume(ImpactTrades(deals, buys, sells, price, counter, t)) == DealVolume(deals)
  {
    if deals != [] {
      var ts := ImpactTrades(deals, buys, sells, price, counter, t);
      assert ts[1..] == ImpactTrades(deals[1..], buys, sells, price, counter + 1, t);
      assert Quantities(ts) == [deals[0].qty] + Quantities(ts[1..]);
      SumPrepend(deals[0].qty, Quantities(ts[1..]));
      VolumeOfDeals(deals[1..], buys, sells, price, counter + 1, t);
    }
  }

  /** On the impact engine the fills of the buys, the fills of the sells and the printed trades add
      up to the same volume. */
  lemma ImpactVolumes(p: real, c: real, n: nat, orders: seq<Order>, t: int)
    requires MarketOk(ImpactMarket(p, c, n)) && !Refused(ImpactMarket(p, c, n), orders)
    ensures var w := Walk(Picked(orders, Buy), Picked(orders, Sell), 0, 0);
      var volume := Volume(TradeStep(ImpactMarket(p, c, n), orders, t).trades);
      && TotalFilled(w.buys) - TotalFilled(Picked(orders, Buy)) == volume
      && TotalFilled(w.sells) - TotalFilled(Picked(orders, Sell)) == volume
  {
    SideTotalNonNegative(orders, Buy);
    SideTotalNonNegative(orders, Sell);
    var buys, sells := Picked(orders, Buy), Picked(orders, Sell);
    WalkOfOrders(orders);
    VolumeOfDeals(Walk(buys, sells, 0, 0).deals, buys, sells,
      ImpactPrice(p, c, SideTotal(orders, Buy), SideTotal(orders, Sell)), n, t);
  }
}
