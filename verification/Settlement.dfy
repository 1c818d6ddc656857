/** Settlement of trades on the agents' accounts, and what it conserves. */
module Settlement {
  import opened RealSums
  import opened OrderBook

  const TINY := 0.000001

  datatype Account = Account(cash: real, inventory: real, costBasis: real, realizedPnl: real)

  function AverageCost(a: Account, price: real): real {
    if a.inventory > 0.0 then a.costBasis / (if a.inventory < TINY then TINY else a.inventory) else price
  }

  function CostOfSold(a: Account, price: real, qty: real): real { AverageCost(a, price) * qty }

  function Bought(a: Account, price: real, qty: real): Account {
    a.(cash := a.cash - price * qty, inventory := a.inventory + qty, costBasis := a.costBasis + price * qty)
  }

  function Sold(a: Account, price: real, qty: real): Account {
    var left := a.costBasis - CostOfSold(a, price, qty);
    Account(a.cash + price * qty, a.inventory - qty, if left < 0.0 then 0.0 else left,
            a.realizedPnl + (price - AverageCost(a, price)) * qty)
  }

  function Executed(a: Account, side: Side, price: real, qty: real): Account {
    if side == Buy then Bought(a, price, qty) else Sold(a, price, qty)
  }

  /** The agent object whose balances a trade updates in place. */
  class Agent {
    const id: string
    var cash: real
    var inventory: real
    var costBasis: real
    var realizedPnl: real

    constructor (id: string, initialCash: real, initialInventory: real, referencePrice: real)
      ensures this.id == id
      ensures View() == Account(initialCash, initialInventory, initialInventory * referencePrice, 0.0)
    {
      this.id := id;
      cash, inventory, costBasis, realizedPnl := initialCash, initialInventory, initialInventory * referencePrice, 0.0;
    }

    ghost function View(): Account
      reads this
    {
      Account(cash, inventory, costBasis, realizedPnl)
    }

    method OnTradeExecution(side: Side, price: real, qty: real)
      modifies this
      ensures View() == Executed(old(View()), side, price, qty)
    {
      if side == Buy {
        cash := cash - price * qty;
        inventory := inventory + qty;
        costBasis := costBasis + price * qty;
      } else {
        var average := if inventory > 0.0 then costBasis / (if inventory < TINY then TINY else inventory) else price;
        assert average == AverageCost(View(), price);
        var cost := average * qty;
        assert cost == CostOfSold(View(), price, qty);
        cash := cash + price * qty;
        inventory := inventory - qty;
        costBasis := if costBasis - cost < 0.0 then 0.0 else costBasis - cost;
        realizedPnl := realizedPnl + (price - average) * qty;
      }
    }
  }

  // ---------- One agent ----------

  /** Cash plus cost basis less realised profit. */
  function BookWealth(a: Account): real { a.cash + a.costBasis - a.realizedPnl }

  lemma PnlSplits(price: real, average: real, qty: real)
    ensures (price - average) * qty == price * qty - average * qty
  {
  }

  /** A purchase keeps the book wealth; a sale keeps it exactly when the cost it writes off does not
      exceed the cost basis. */
  lemma WealthKeptIff(a: Account, price: real, qty: real)
    ensures BookWealth(Bought(a, price, qty)) == BookWealth(a)
    ensures BookWealth(Sold(a, price, qty)) == BookWealth(a) <==> CostOfSold(a, price, qty) <= a.costBasis
  {
    PnlSplits(price, AverageCost(a, price), qty);
  }

  /** A sale of no more than the inventory held is within the cost basis. */
  lemma CoveredSale(a: Account, price: real, qty: real)
    requires a.costBasis >= 0.0 && 0.0 <= qty <= a.inventory && 0.0 < a.inventory
    ensures CostOfSold(a, price, qty) <= a.costBasis
    ensures Sold(a, price, qty).costBasis >= 0.0
  {
    var n := if a.inventory < TINY then TINY else a.inventory;
    ShareAtMost(a.costBasis, n, qty);
  }

  lemma ShareAtMost(basis: real, n: real, qty: real)
    requires 0.0 <= basis && 0.0 <= qty <= n && 0.0 < n
    ensures basis / n * qty <= basis
  {
    var share := basis / n;
    assert share * n == basis;
    assert share >= 0.0;
    MulMonotone(qty, n, share);
  }

  /** An uncovered sale: twice the inventory at half the average cost loses book wealth. */
  lemma OversoldLosesTrack()
    ensures var a := Account(0.0, 1.0, 100.0, 0.0);
      BookWealth(Sold(a, 50.0, 2.0)) != BookWealth(a)
  {
    var a := Account(0.0, 1.0, 100.0, 0.0);
    assert CostOfSold(a, 50.0, 2.0) == 200.0;
    WealthKeptIff(a, 50.0, 2.0);
  }

  /** A covered sale keeps the average cost of what is left: basis and inventory shrink alike. */
  lemma SaleKeepsAverage(a: Account, price: real, qty: real)
    requires a.costBasis >= 0.0 && 0.0 <= qty <= a.inventory && TINY <= a.inventory
    ensures Sold(a, price, qty).costBasis * a.inventory == a.costBasis * Sold(a, price, qty).inventory
  {
    var average := a.costBasis / a.inventory;
    assert average * a.inventory == a.costBasis;
    CoveredSale(a, price, qty);
    assert Sold(a, price, qty).costBasis == a.costBasis - average * qty;
    BasisShrinks(a.costBasis, a.inventory, average, qty, a.costBasis - average * qty);
  }

  lemma BasisShrinks(basis: real, n: real, average: real, qty: real, left: real)
    requires average * n == basis && left == basis - average * qty
    ensures left * n == basis * (n - qty)
  {
    assert left == average * (n - qty);
    assert left * n == (average * n) * (n - qty);
  }

  // ---------- All agents ----------

  type Accounts = map<string, Account>

  /** One trade: the buyer first, then the seller, each if it is a known agent. */
  function SettleSide(m: Accounts, id: string, side: Side, price: real, qty: real): (m': Accounts)
    ensures m'.Keys == m.Keys
  {
    if id in m then m[id := Executed(m[id], side, price, qty)] else m
  }

  function SettleTrade(m: Accounts, t: Trade): (m': Accounts)
    ensures m'.Keys == m.Keys
  {
    SettleSide(SettleSide(m, t.buyer, Buy, t.price, t.quantity), t.seller, Sell, t.price, t.quantity)
  }

  function Settle(m: Accounts, ts: seq<Trade>): (m': Accounts)
    ensures m'.Keys == m.Keys
  {
    if ts == [] then m else SettleTrade(Settle(m, ts[..|ts| - 1]), ts[|ts| - 1])
  }

  /** Sums over a list of distinct agents. */
  ghost predicate Listed(ids: seq<string>, m: Accounts) {
    && (forall i, j :: 0 <= i < j < |ids| ==> ids[i] != ids[j])
    && (forall i :: 0 <= i < |ids| ==> ids[i] in m)
    && (forall id :: id in m ==> id in ids)
  }

  function TotalCash(ids: seq<string>, m: Accounts): real
    requires forall i :: 0 <= i < |ids| ==> ids[i] in m
  {
    if ids == [] then 0.0 else TotalCash(ids[..|ids| - 1], m) + m[ids[|ids| - 1]].cash
  }

  function TotalInventory(ids: seq<string>, m: Accounts): real
    requires forall i :: 0 <= i < |ids| ==> ids[i] in m
  {
    if ids == [] then 0.0 else TotalInventory(ids[..|ids| - 1], m) + m[ids[|ids| - 1]].inventory
  }

  lemma {:induction false} TotalsFrame(ids: seq<string>, m: Accounts, id: string, a: Account)
    requires (forall i :: 0 <= i < |ids| ==> ids[i] in m) && id !in ids
    ensures forall i :: 0 <= i < |ids| ==> ids[i] in m[id := a]
    ensures TotalCash(ids, m[id := a]) == TotalCash(ids, m)
    ensures TotalInventory(ids, m[id := a]) == TotalInventory(ids, m)
  {
    if ids != [] {
      TotalsFrame(ids[..|ids| - 1], m, id, a);
    }
  }

  lemma {:induction false} TotalsUpdate(ids: seq<string>, m: Accounts, id: string, a: Account)
    requires forall i, j :: 0 <= i < j < |ids| ==> ids[i] != ids[j]
    requires (forall i :: 0 <= i < |ids| ==> ids[i] in m) && id in ids && id in m
    ensures forall i :: 0 <= i < |ids| ==> ids[i] in m[id := a]
    ensures TotalCash(ids, m[id := a]) == TotalCash(ids, m) + a.cash - m[id].cash
    ensures TotalInventory(ids, m[id := a]) == TotalInventory(ids, m) + a.inventory - m[id].inventory
  {
    var n := |ids| - 1;
    assert ids == ids[..n] + [ids[n]];
    if ids[n] == id {
      forall i | 0 <= i < n ensures ids[..n][i] != id {
      }
      TotalsFrame(ids[..n], m, id, a);
    } else {
      TotalsUpdate(ids[..n], m, id, a);
    }
  }

  /** x with the sign of the side, nothing for an unknown agent. */
  function Signed(m: Accounts, id: string, side: Side, x: real): real {
    if id !in m then 0.0 else if side == Buy then x else -x
  }

  lemma ExecutedMoves(a: Account, side: Side, price: real, qty: real, amount: real)
    requires amount == price * qty
    ensures Executed(a, side, price, qty).cash == a.cash - (if side == Buy then amount else -amount)
    ensures Executed(a, side, price, qty).inventory == a.inventory + (if side == Buy then qty else -qty)
  {
  }

  lemma SettleSideTotals(ids: seq<string>, m: Accounts, id: string, side: Side, price: real, qty: real, amount: real)
    requires Listed(ids, m) && amount == price * qty
    ensures TotalsMoved(ids, m, SettleSide(m, id, side, price, qty),
      Signed(m, id, side, amount), -Signed(m, id, side, qty))
  {
    if id in m {
      ExecutedMoves(m[id], side, price, qty, amount);
      TotalsUpdate(ids, m, id, Executed(m[id], side, price, qty));
    }
  }

  /** What one trade takes away from the known agents: its amount if only the buyer is known, minus
      its amount if only the seller is, nothing otherwise. */
  function CashOut(m: Accounts, t: Trade): real {
    Signed(m, t.buyer, Buy, t.price * t.quantity) + Signed(m, t.seller, Sell, t.price * t.quantity)
  }

  function InventoryOut(m: Accounts, t: Trade): real {
    -Signed(m, t.buyer, Buy, t.quantity) - Signed(m, t.seller, Sell, t.quantity)
  }

  function CashLeak(m: Accounts, ts: seq<Trade>): real {
    if ts == [] then 0.0 else CashLeak(m, ts[..|ts| - 1]) + CashOut(m, ts[|ts| - 1])
  }

  function InventoryLeak(m: Accounts, ts: seq<Trade>): real {
    if ts == [] then 0.0 else InventoryLeak(m, ts[..|ts| - 1]) + InventoryOut(m, ts[|ts| - 1])
  }

  ghost predicate TotalsMoved(ids: seq<string>, m: Accounts, m': Accounts, cash: real, inventory: real) {
    && Listed(ids, m) && Listed(ids, m')
    && TotalCash(ids, m') == TotalCash(ids, m) - cash
    && TotalInventory(ids, m') == TotalInventory(ids, m) - inventory
  }

  lemma SettleTradeTotals(ids: seq<string>, m: Accounts, t: Trade)
    requires Listed(ids, m)
    ensures TotalsMoved(ids, m, SettleTrade(m, t), CashOut(m, t), InventoryOut(m, t))
  {
    var mid := SettleSide(m, t.buyer, Buy, t.price, t.quantity);
    SettleSideTotals(ids, m, t.buyer, Buy, t.price, t.quantity, t.price * t.quantity);
    SettleSideTotals(ids, mid, t.seller, Sell, t.price, t.quantity, t.price * t.quantity);
    assert t.seller in mid <==> t.seller in m;
  }

  lemma SameKeysSameOut(m: Accounts, m': Accounts, t: Trade)
    requires m.Keys == m'.Keys
    ensures CashOut(m, t) == CashOut(m', t) && InventoryOut(m, t) == InventoryOut(m', t)
  {
    assert t.buyer in m <==> t.buyer in m';
    assert t.seller in m <==> t.seller in m';
  }

  lemma MovesAdd(ids: seq<string>, a: Accounts, b: Accounts, c: Accounts, x: real, y: real, x': real, y': real)
    requires TotalsMoved(ids, a, b, x, y) && TotalsMoved(ids, b, c, x', y')
    ensures TotalsMoved(ids, a, c, x + x', y + y')
  {
  }

  /** Settling any trades moves the totals by exactly what the unknown parties take or bring. */
  lemma {:induction false} SettleTotals(ids: seq<string>, m: Accounts, ts: seq<Trade>)
    requires Listed(ids, m)
    ensures TotalsMoved(ids, m, Settle(m, ts), CashLeak(m, ts), InventoryLeak(m, ts))
  {
    if ts != [] {
      var n := |ts| - 1;
      var before := Settle(m, ts[..n]);
      SettleTotals(ids, m, ts[..n]);
      SettleTradeTotals(ids, before, ts[n]);
      SameKeysSameOut(m, before, ts[n]);
      MovesAdd(ids, m, before, Settle(m, ts), CashLeak(m, ts[..n]), InventoryLeak(m, ts[..n]),
        CashOut(m, ts[n]), InventoryOut(m, ts[n]));
    }
  }

  ghost predicate PartiesKnown(m: Accounts, ts: seq<Trade>) {
    forall k :: 0 <= k < |ts| ==> ts[k].buyer in m && ts[k].seller in m
  }

  lemma {:induction false} NoLeak(m: Accounts, ts: seq<Trade>)
    requires PartiesKnown(m, ts)
    ensures CashLeak(m, ts) == 0.0 && InventoryLeak(m, ts) == 0.0
  {
    if ts != [] {
      NoLeak(m, ts[..|ts| - 1]);
    }
  }

  /** Settling trades between known agents moves cash and inventory between them and creates none. */
  lemma SettlementConserves(ids: seq<string>, m: Accounts, ts: seq<Trade>)
    requires Listed(ids, m) && PartiesKnown(m, ts)
    ensures Listed(ids, Settle(m, ts))
    ensures TotalCash(ids, Settle(m, ts)) == TotalCash(ids, m)
    ensures TotalInventory(ids, Settle(m, ts)) == TotalInventory(ids, m)
  {
    SettleTotals(ids, m, ts);
    NoLeak(m, ts);
  }

  // ---------- Each agent's ledger ----------

  function PaidIn(who: string): Trade -> real {
    (t: Trade) => (if t.seller == who then t.price * t.quantity else 0.0)
      - (if t.buyer == who then t.price * t.quantity else 0.0)
  }

  function TakenIn(who: string): Trade -> real {
    (t: Trade) => (if t.buyer == who then t.quantity else 0.0) - (if t.seller == who then t.quantity else 0.0)
  }

  function Each(ts: seq<Trade>, f: Trade -> real): (s: seq<real>)
    ensures |s| == |ts|
  {
    seq(|ts|, i requires 0 <= i < |ts| => f(ts[i]))
  }

  lemma EachSnoc(ts: seq<Trade>, f: Trade -> real)
    requires ts != []
    ensures Sum(Each(ts, f)) == Sum(Each(ts[..|ts| - 1], f)) + f(ts[|ts| - 1])
  {
    assert Each(ts, f)[..|ts| - 1] == Each(ts[..|ts| - 1], f);
  }

  lemma SettleSideMoves(m: Accounts, id: string, side: Side, price: real, qty: real, amount: real, who: string)
    requires who in m && amount == price * qty
    ensures var m' := SettleSide(m, id, side, price, qty);
      && m'[who].cash == m[who].cash + (if id != who then 0.0 else if side == Buy then -amount else amount)
      && m'[who].inventory == m[who].inventory + (if id != who then 0.0 else if side == Buy then qty else -qty)
  {
    if id == who {
      ExecutedMoves(m[who], side, price, qty, amount);
    }
  }

  lemma SettleTradeMoves(m: Accounts, t: Trade, who: string)
    requires who in m
    ensures SettleTrade(m, t)[who].cash == m[who].cash + PaidIn(who)(t)
    ensures SettleTrade(m, t)[who].inventory == m[who].inventory + TakenIn(who)(t)
  {
    hide SettleSide;
    var amount := t.price * t.quantity;
    var mid := SettleSide(m, t.buyer, Buy, t.price, t.quantity);
    SettleSideMoves(m, t.buyer, Buy, t.price, t.quantity, amount, who);
    SettleSideMoves(mid, t.seller, Sell, t.price, t.quantity, amount, who);
  }

  /** What an agent holds is explained by its own trades: cash by the amounts it sold for less those
      it bought for, inventory by what it bought less what it sold. */
  lemma {:induction false} LedgerExplains(m: Accounts, ts: seq<Trade>, who: string)
    requires who in m
    ensures Settle(m, ts)[who].cash == m[who].cash + Sum(Each(ts, PaidIn(who)))
    ensures Settle(m, ts)[who].inventory == m[who].inventory + Sum(Each(ts, TakenIn(who)))
  {
    if ts != [] {
      var n := |ts| - 1;
      var before := Settle(m, ts[..n]);
      LedgerExplains(m, ts[..n], who);
      SettleTradeMoves(before, ts[n], who);
      hide Each, SettleTrade, PaidIn, TakenIn;
      EachSnoc(ts, PaidIn(who));
      EachSnoc(ts, TakenIn(who));
    }
  }

  // ---------- Book wealth along a settlement ----------

  /** No sale of the trades exceeds what its seller holds when it is settled. */
  ghost predicate SalesCovered(m: Accounts, ts: seq<Trade>) {
    ts == [] ||
    (var t := ts[|ts| - 1];
     var before := Settle(m, ts[..|ts| - 1]);
     && SalesCovered(m, ts[..|ts| - 1])
     && t.quantity >= 0.0 && t.price >= 0.0
     && (t.seller in m ==>
           var seller := SettleSide(before, t.buyer, Buy, t.price, t.quantity)[t.seller];
           0.0 < seller.inventory && t.quantity <= seller.inventory))
  }

  lemma SettleSideWealth(m: Accounts, id: string, side: Side, price: real, qty: real, who: string)
    requires who in m && price >= 0.0 && qty >= 0.0
    requires m[who].costBasis >= 0.0
    requires side == Sell && id == who ==> 0.0 < m[who].inventory && qty <= m[who].inventory
    ensures var m' := SettleSide(m, id, side, price, qty);
      m'[who].costBasis >= 0.0 && BookWealth(m'[who]) == BookWealth(m[who])
  {
    if id == who {
      WealthKeptIff(m[who], price, qty);
      if side == Sell {
        CoveredSale(m[who], price, qty);
      } else {
        assert price * qty >= 0.0;
      }
    }
  }

  /** With every sale covered, each agent's cash plus cost basis less realised profit never moves. */
  lemma {:induction false} WealthConstant(m: Accounts, ts: seq<Trade>, who: string)
    requires who in m && m[who].costBasis >= 0.0 && SalesCovered(m, ts)
    ensures Settle(m, ts)[who].costBasis >= 0.0
    ensures BookWealth(Settle(m, ts)[who]) == BookWealth(m[who])
  {
    if ts != [] {
      var n := |ts| - 1;
      var before := Settle(m, ts[..n]);
      WealthConstant(m, ts[..n], who);
      var mid := SettleSide(before, ts[n].buyer, Buy, ts[n].price, ts[n].quantity);
      SettleSideWealth(before, ts[n].buyer, Buy, ts[n].price, ts[n].quantity, who);
      SettleSideWealth(mid, ts[n].seller, Sell, ts[n].price, ts[n].quantity, who);
    }
  }
}
