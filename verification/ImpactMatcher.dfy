/** The impact market: all orders of a step are matched against each other at one price, by two
    positions walking down the buys and the sells. */
module ImpactMatcher {
  import opened RealSums
  import opened OrderBook

  /** A fill of the buy and the sell at these positions. */
  datatype Deal = Deal(buy: nat, sell: nat, qty: real)
  datatype Walked = Walked(buys: seq<Order>, sells: seq<Order>, deals: seq<Deal>)

  function Total(q: seq<Order>): real { if q == [] then 0.0 else Total(q[..|q| - 1]) + q[|q| - 1].Remaining() }

  function DealVolume(ds: seq<Deal>): real { if ds == [] then 0.0 else ds[0].qty + DealVolume(ds[1..]) }

  /** One pass of the loop: the two orders after it, and whether a trade was printed. */
  function PairFill(b: Order, s: Order): real { Min(b.Remaining(), s.Remaining()) }

  function AfterPair(o: Order, qty: real): Order { if qty > DUST then Fill(o, qty) else o }

  lemma PairAdvances(b: Order, s: Order)
    ensures var qty := PairFill(b, s);
      AfterPair(b, qty).Remaining() <= DUST || AfterPair(s, qty).Remaining() <= DUST
  {
  }

  /** The matching loop from positions i and j. */
  function Walk(buys: seq<Order>, sells: seq<Order>, i: nat, j: nat): Walked
    requires i <= |buys| && j <= |sells|
    decreases |buys| - i + |sells| - j
  {
    if i == |buys| || j == |sells| then Walked(buys, sells, [])
    else
      var qty := PairFill(buys[i], sells[j]);
      var b, s := AfterPair(buys[i], qty), AfterPair(sells[j], qty);
      PairAdvances(buys[i], sells[j]);
      var rest := Walk(buys[i := b], sells[j := s],
                       if b.Remaining() <= DUST then i + 1 else i, if s.Remaining() <= DUST then j + 1 else j);
      rest.(deals := (if qty > DUST then [Deal(i, j, qty)] else []) + rest.deals)
  }

  /** Everything before the position is used up to dust. */
  ghost predicate UsedUp(q: seq<Order>, n: nat) {
    n <= |q| && forall k :: 0 <= k < n ==> q[k].Remaining() <= DUST
  }

  ghost predicate SameBook(q: seq<Order>, q0: seq<Order>) {
    && |q| == |q0|
    && forall k :: 0 <= k < |q| ==> q[k] == q0[k].(filled := q[k].filled) && q[k].filled >= q0[k].filled
  }

  lemma PairStep(b: Order, s: Order)
    requires Sound(b) && Sound(s)
    ensures var qty := PairFill(b, s);
      && 0.0 <= qty
      && Sound(AfterPair(b, qty)) && Sound(AfterPair(s, qty))
      && AfterPair(b, qty).filled == b.filled + (if qty > DUST then qty else 0.0)
      && AfterPair(s, qty).filled == s.filled + (if qty > DUST then qty else 0.0)
  {
  }

  ghost predicate WalkOk(buys: seq<Order>, sells: seq<Order>, w: Walked) {
    && SameBook(w.buys, buys) && SameBook(w.sells, sells)
    && AllSound(w.buys) && AllSound(w.sells)
    && (UsedUp(w.buys, |buys|) || UsedUp(w.sells, |sells|))
    && (forall k :: 0 <= k < |w.deals| ==>
          w.deals[k].qty > DUST && w.deals[k].buy < |buys| && w.deals[k].sell < |sells|)
    && TotalFilled(w.buys) == TotalFilled(buys) + DealVolume(w.deals)
    && TotalFilled(w.sells) == TotalFilled(sells) + DealVolume(w.deals)
  }

  lemma SameBookStep(q: seq<Order>, q0: seq<Order>, i: nat, o: Order)
    requires i < |q0| && SameBook(q, q0[i := o])
    requires o == q0[i].(filled := o.filled) && o.filled >= q0[i].filled
    ensures SameBook(q, q0)
  {
    forall k | 0 <= k < |q| ensures q[k] == q0[k].(filled := q[k].filled) && q[k].filled >= q0[k].filled {
      assert q[k] == q0[i := o][k].(filled := q[k].filled);
    }
  }

  lemma UsedUpStep(q: seq<Order>, i: nat, o: Order)
    requires UsedUp(q, i) && i < |q|
    ensures UsedUp(q[i := o], i) && (o.Remaining() <= DUST ==> UsedUp(q[i := o], i + 1))
  {
  }

  lemma WalkConsOk(buys: seq<Order>, sells: seq<Order>, i: nat, j: nat, b: Order, s: Order, qty: real, rest: Walked)
    requires i < |buys| && j < |sells| && 0.0 <= qty
    requires b == AfterPair(buys[i], qty) && s == AfterPair(sells[j], qty)
    requires WalkOk(buys[i := b], sells[j := s], rest)
    ensures WalkOk(buys, sells, rest.(deals := (if qty > DUST then [Deal(i, j, qty)] else []) + rest.deals))
  {
    SameBookStep(rest.buys, buys, i, b);
    SameBookStep(rest.sells, sells, j, s);
    FilledAt(buys, i, b);
    FilledAt(sells, j, s);
    var first := if qty > DUST then [Deal(i, j, qty)] else [];
    if qty > DUST {
      assert ([Deal(i, j, qty)] + rest.deals)[1..] == rest.deals;
    } else {
      assert [] + rest.deals == rest.deals;
    }
  }

  /** The loop ends with one side used up to within dust, nothing overfilled, and with the buy fills,
      the sell fills and the printed trades adding up to the same volume. */
  lemma {:induction false} WalkConserves(buys: seq<Order>, sells: seq<Order>, i: nat, j: nat)
    requires AllSound(buys) && AllSound(sells) && UsedUp(buys, i) && UsedUp(sells, j)
    ensures WalkOk(buys, sells, Walk(buys, sells, i, j))
    decreases |buys| - i + |sells| - j
  {
    if i < |buys| && j < |sells| {
      var qty := PairFill(buys[i], sells[j]);
      var b, s := AfterPair(buys[i], qty), AfterPair(sells[j], qty);
      PairStep(buys[i], sells[j]);
      PairAdvances(buys[i], sells[j]);
      UsedUpStep(buys, i, b);
      UsedUpStep(sells, j, s);
      var i' := if b.Remaining() <= DUST then i + 1 else i;
      var j' := if s.Remaining() <= DUST then j + 1 else j;
      WalkConserves(buys[i := b], sells[j := s], i', j');
      WalkConsOk(buys, sells, i, j, b, s, qty, Walk(buys[i := b], sells[j := s], i', j'));
    }
  }

  // ---------- The step as a whole ----------

  function Picked(orders: seq<Order>, side: Side): seq<Order> {
    if orders == [] then []
    else
      var n := |orders| - 1;
      Picked(orders[..n], side) + if orders[n].side == side && orders[n].Remaining() > DUST then [orders[n]] else []
  }

  function SideTotal(orders: seq<Order>, side: Side): real {
    if orders == [] then 0.0
    else
      var n := |orders| - 1;
      SideTotal(orders[..n], side) + if orders[n].side == side then orders[n].Remaining() else 0.0
  }

  predicate Submittable(o: Order) { o.quantity > 0.0 && 0.0 <= o.filled <= o.quantity }

  /** The price after the step's order-flow imbalance. */
  function ImpactPrice(price: real, coefficient: real, buyQty: real, sellQty: real): (p: real)
    requires buyQty >= 0.0 && sellQty >= 0.0
    ensures p >= 0.01
  {
    var change := if buyQty + sellQty > 0.0
                  then price * coefficient * ((buyQty - sellQty) / (buyQty + sellQty + 100.0)) else 0.0;
    var rounded := RoundTo4(price + change);
    if rounded < 0.01 then 0.01 else rounded
  }

  lemma MoveHasSign(price: real, coefficient: real, imbalance: real, total: real)
    requires price > 0.0 && coefficient >= 0.0 && total > 0.0
    ensures imbalance >= 0.0 ==> price * coefficient * (imbalance / total) >= 0.0
    ensures imbalance <= 0.0 ==> price * coefficient * (imbalance / total) <= 0.0
  {
    var strength, share := price * coefficient, imbalance / total;
    assert strength >= 0.0;
    assert share * total == imbalance;
    if imbalance >= 0.0 {
      assert share >= 0.0;
      assert strength * share >= 0.0;
    } else {
      assert share <= 0.0;
      assert strength * -share >= 0.0;
    }
  }

  function AtLeastACent(x: real): real { if x < 0.01 then 0.01 else x }

  /** More buying than selling never lowers the rounded price, more selling never raises it. */
  lemma ImpactFollowsImbalance(price: real, coefficient: real, buyQty: real, sellQty: real)
    requires price > 0.0 && coefficient >= 0.0 && buyQty >= 0.0 && sellQty >= 0.0
    ensures buyQty >= sellQty ==> ImpactPrice(price, coefficient, buyQty, sellQty) >= AtLeastACent(RoundTo4(price))
    ensures buyQty <= sellQty ==> ImpactPrice(price, coefficient, buyQty, sellQty) <= AtLeastACent(RoundTo4(price))
  {
    MoveHasSign(price, coefficient, buyQty - sellQty, buyQty + sellQty + 100.0);
    var change := if buyQty + sellQty > 0.0
                  then price * coefficient * ((buyQty - sellQty) / (buyQty + sellQty + 100.0)) else 0.0;
    if buyQty >= sellQty {
      RoundTo4Monotone(price, price + change);
    }
    if buyQty <= sellQty {
      RoundTo4Monotone(price + change, price);
    }
  }

  /** (p - price) * total is the move, unless p is the floor and the move goes below it. */
  ghost predicate MovesBy(p: real, price: real, move: real, total: real) {
    if p > 0.01 then Abs((p - price) * total - move) <= 0.00005 * total
    else p == 0.01 && (p - price) * total >= move - 0.00005 * total
  }

  lemma OffTimes(off: real, total: real, x: real)
    requires total > 0.0 && x == off * total && -0.00005 <= off
    ensures -0.00005 * total <= x && (off <= 0.00005 ==> x <= 0.00005 * total)
  {
    MulMonotone(-0.00005, off, total);
    if off <= 0.00005 {
      MulMonotone(off, 0.00005, total);
    }
  }

  lemma MoveWithin(price: real, change: real, total: real, move: real, rounded: real)
    requires total > 0.0 && change * total == move && Abs(rounded - (price + change)) <= 0.00005
    ensures MovesBy(AtLeastACent(rounded), price, move, total)
  {
    var p := AtLeastACent(rounded);
    var off := p - price - change;
    OffTimes(off, total, off * total);
    assert (p - price) * total == off * total + change * total;
  }

  lemma ShareOfTotal(strength: real, imbalance: real, total: real, change: real, move: real)
    requires total > 0.0 && change == strength * (imbalance / total) && move == strength * imbalance
    ensures change * total == move
  {
    var share := imbalance / total;
    assert share * total == imbalance;
    assert change * total == strength * (share * total);
  }

  lemma ImpactPriceIs(price: real, coefficient: real, buyQty: real, sellQty: real, change: real)
    requires buyQty >= 0.0 && sellQty >= 0.0
    requires change == if buyQty + sellQty > 0.0
                       then price * coefficient * ((buyQty - sellQty) / (buyQty + sellQty + 100.0)) else 0.0
    ensures ImpactPrice(price, coefficient, buyQty, sellQty) == AtLeastACent(RoundTo4(price + change))
  {
    hide RoundTo4;
  }

  /** The move is the imbalance's share of the volume, scaled by price and coefficient, to within the
      rounding and above the floor. */
  lemma ImpactMovesByShare(price: real, coefficient: real, buyQty: real, sellQty: real, move: real)
    requires buyQty >= 0.0 && sellQty >= 0.0 && move == price * coefficient * (buyQty - sellQty)
    ensures MovesBy(ImpactPrice(price, coefficient, buyQty, sellQty), price, move, buyQty + sellQty + 100.0)
  {
    hide RoundTo4, ImpactPrice, MovesBy;
    var strength, total := price * coefficient, buyQty + sellQty + 100.0;
    var change := if buyQty + sellQty > 0.0 then strength * ((buyQty - sellQty) / total) else 0.0;
    ImpactPriceIs(price, coefficient, buyQty, sellQty, change);
    RoundTo4IsNear(price + change);
    if buyQty + sellQty > 0.0 {
      ShareOfTotal(strength, buyQty - sellQty, total, change, move);
    }
    MoveWithin(price, change, total, move, RoundTo4(price + change));
  }

  function ImpactTrade(d: Deal, buys: seq<Order>, sells: seq<Order>, price: real, id: nat, timestamp: int): Trade
    requires d.buy < |buys| && d.sell < |sells|
  {
    var b, s := buys[d.buy], sells[d.sell];
    Trade(id, b.orderId, s.orderId, b.agent, s.agent, price, d.qty, timestamp)
  }

  lemma {:induction false} SideTotalNonNegative(orders: seq<Order>, side: Side)
    ensures SideTotal(orders, side) >= 0.0
  {
    if orders != [] {
      SideTotalNonNegative(orders[..|orders| - 1], side);
    }
  }

  /** The guard on the matched volume loses nothing: with no volume on one side that side has
      nothing to walk. */
  lemma {:induction false} NoVolumeNoneWaiting(orders: seq<Order>, side: Side)
    requires SideTotal(orders, side) <= 0.0
    ensures Picked(orders, side) == []
  {
    if orders != [] {
      SideTotalNonNegative(orders[..|orders| - 1], side);
      NoVolumeNoneWaiting(orders[..|orders| - 1], side);
    }
  }

  lemma {:induction false} PickedOk(orders: seq<Order>, side: Side)
    requires forall k :: 0 <= k < |orders| ==> Submittable(orders[k])
    ensures AllSound(Picked(orders, side))
    ensures forall k :: 0 <= k < |Picked(orders, side)| ==>
      Picked(orders, side)[k] in orders && Picked(orders, side)[k].side == side
  {
    if orders != [] {
      PickedOk(orders[..|orders| - 1], side);
      assert orders == orders[..|orders| - 1] + [orders[|orders| - 1]];
    }
  }
}
