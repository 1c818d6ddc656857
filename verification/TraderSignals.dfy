/** What the daemon does with every tick, in terms of what the ticks carried and of what it did
    before: when a tick asks to buy, when an order or a flatten goes out, and of what size. */
module TraderSignals {
  import opened Options
  import opened RealSums
  import opened TraderDaemon

  /** The advisory's reasons to buy. */
  predicate WantsBuy(a: Advisory) { a.contrarianBuy || (a.growthFavorable && !a.riskElevated) }

  predicate EquityRead(t: Tick) { t.equity.Some? && t.equity.value > 0.0 }

  /** The tick gets as far as the signal: good evidence, no broker outcome pending, equity read and a
      usable advisory. */
  predicate Reaches(d: Daemon, t: Tick) {
    GoodEvidence(t.evidence) && !d.pending && EquityRead(t) && t.advisory.weight >= 0.0
  }

  /** The broker is locked when the signal is translated: from before, by a safety fault, by the
      drawdown from the highest equity, or from outside. */
  predicate LockedAtSignal(g: Config, d: Daemon, t: Tick)
    requires EquityRead(t)
  {
    var highest := Max(d.peak, t.equity.value);
    d.locked || t.safetyFault || t.lockedOutside || highest - t.equity.value >= g.maxDrawdown * highest
  }

  lemma DrawdownReached(peak: real, equity: real, limit: real)
    requires 0.0 < equity <= peak
    ensures Drawdown(peak, equity) >= limit <==> peak - equity >= limit * peak
  {
    var share := (peak - equity) / peak;
    assert share * peak == peak - equity;
    if share >= limit {
      MulMonotone(limit, share, peak);
    } else {
      assert (limit - share) * peak > 0.0;
    }
  }

  /** A tick asks for something exactly when it reaches the signal, and it asks to buy exactly when,
      besides, the broker is not locked and the advisory has a reason to buy. */
  lemma AsksIff(g: Config, d: Daemon, t: Tick)
    ensures Step(g, d, t).1.desired.Some? <==> Reaches(d, t)
    ensures var buys := Reaches(d, t) && !LockedAtSignal(g, d, t) && WantsBuy(t.advisory);
      Step(g, d, t).1.desired == Some(Buy) <==> buys
  {
    if EquityRead(t) {
      DrawdownReached(Max(d.peak, t.equity.value), t.equity.value, g.maxDrawdown);
    }
  }

  predicate GoodEvidence(e: Evidence) {
    && e.price > 0.0 && e.volume >= 0.0 && e.average >= 0.0 && e.ratio >= 0.0
    && e.mass > 0.0 && -1 <= e.contrarianOverride <= 1
  }

  /** Why a tick locks the broker. */
  predicate Locks(g: Config, d: Daemon, t: Tick, a: Action) {
    || !GoodEvidence(t.evidence) || t.safetyFault
    || (!d.pending && (!EquityRead(t) || LockedAtSignal(g, d, t) || t.advisory.weight < 0.0))
    || (a.Order? && !a.accepted && t.lockedAfter)
  }

  /** A daemon starts locked exactly when its account equity cannot be read, and otherwise at its peak. */
  lemma StartIs(equity: Option<real>)
    ensures Start(equity).locked <==> !(equity.Some? && equity.value > 0.0)
    ensures !Start(equity).locked ==> Start(equity).peak == equity.value && !Start(equity).pending
  {
  }

  /** A real broker was asked, and its outcome is not known. */
  predicate Unresolved(g: Config, after: Daemon, a: Action) {
    !g.mock && (a.Flatten? || (a.Order? && (a.accepted || after.locked)))
  }

  /** The lock and the pending outcome each last, and are set for these reasons and no other. */
  lemma LocksIff(g: Config, d: Daemon, t: Tick)
    ensures var (d', o) := Step(g, d, t);
      && (d'.locked <==> d.locked || Locks(g, d, t, o.action))
      && (d'.pending <==> d.pending || Unresolved(g, d', o.action))
  {
    if EquityRead(t) {
      DrawdownReached(Max(d.peak, t.equity.value), t.equity.value, g.maxDrawdown);
    }
  }

  // ---------- Every order of every run ----------

  ghost predicate AllWantBuy(ticks: seq<Tick>, n: nat) {
    n <= |ticks| && forall k :: |ticks| - n <= k < |ticks| ==> WantsBuy(ticks[k].advisory)
  }

  /** Every one of the hysteresis_bars ticks before an order, the order's own included, carried a
      reason to buy, came with good evidence and found the broker unlocked. */
  lemma OrderFollowsSignals(g: Config, equity: Option<real>, ticks: seq<Tick>)
    requires g.hysteresisBars > 0 && ticks != [] && At(g, equity, ticks, |ticks| - 1).action.Order?
    ensures AllWantBuy(ticks, g.hysteresisBars)
    ensures forall k :: |ticks| - g.hysteresisBars <= k < |ticks| ==>
      var d := Run(g, equity, ticks[..k]); Reaches(d, ticks[k]) && !LockedAtSignal(g, d, ticks[k])
  {
    OrderIsDebounced(g, equity, ticks);
    forall k | |ticks| - g.hysteresisBars <= k < |ticks|
      ensures WantsBuy(ticks[k].advisory)
      ensures Reaches(Run(g, equity, ticks[..k]), ticks[k])
      ensures !LockedAtSignal(g, Run(g, equity, ticks[..k]), ticks[k])
    {
      assert At(g, equity, ticks, k).desired == Some(Buy);
      AsksIff(g, Run(g, equity, ticks[..k]), ticks[k]);
    }
  }

  // ---------- What goes out ----------

  /** What the ticks that reached the signal asked for, in order. */
  function Asked(g: Config, equity: Option<real>, ticks: seq<Tick>): seq<Side> {
    if ticks == [] then []
    else
      var n := |ticks| - 1;
      var x := At(g, equity, ticks, n).desired;
      Asked(g, equity, ticks[..n]) + if x.Some? then [x.value] else []
  }

  /** The last n of them were all for this side. */
  predicate Trailing(asked: seq<Side>, n: int, side: Side) {
    n <= |asked| && forall k :: 0 <= k < |asked| && |asked| - n <= k ==> asked[k] == side
  }

  /** The debounce counter is the length of the trailing run of equal requests, up to its limit. */
  ghost predicate Counts(g: Config, d: Daemon, asked: seq<Side>) {
    && (asked == [] ==> d.bars == 0 && d.wanted == Flat)
    && (asked != [] ==> d.wanted == asked[|asked| - 1])
    && d.bars <= g.hysteresisBars && Trailing(asked, d.bars, d.wanted)
    && (d.bars == g.hysteresisBars || d.bars == |asked| || asked[|asked| - d.bars - 1] != d.wanted)
  }

  lemma StepDebounces(g: Config, d: Daemon, t: Tick)
    ensures var (d', o) := Step(g, d, t);
      && (o.desired.None? ==> d'.wanted == d.wanted && d'.bars == d.bars)
      && (o.desired.Some? ==>
           && d'.wanted == o.desired.value
           && d'.bars == if o.desired.value != d.wanted then 1
                         else if d.bars < g.hysteresisBars then d.bars + 1 else d.bars)
  {
  }

  lemma CountsStep(g: Config, d: Daemon, d': Daemon, asked: seq<Side>, x: Side)
    requires g.hysteresisBars > 0 && Counts(g, d, asked) && d'.wanted == x
    requires d'.bars == if x != d.wanted then 1 else if d.bars < g.hysteresisBars then d.bars + 1 else d.bars
    ensures Counts(g, d', asked + [x])
  {
    assert forall k :: 0 <= k < |asked| ==> (asked + [x])[k] == asked[k];
  }

  lemma {:induction false} CountsRun(g: Config, equity: Option<real>, ticks: seq<Tick>)
    requires g.hysteresisBars > 0
    ensures Counts(g, Run(g, equity, ticks), Asked(g, equity, ticks))
  {
    if ticks != [] {
      var n := |ticks| - 1;
      var d, asked := Run(g, equity, ticks[..n]), Asked(g, equity, ticks[..n]);
      CountsRun(g, equity, ticks[..n]);
      RunSnoc(g, equity, ticks);
      StepDebounces(g, d, ticks[n]);
      var (d', o) := Step(g, d, ticks[n]);
      if o.desired.Some? {
        CountsStep(g, d, d', asked, o.desired.value);
      } else {
        assert asked + [] == asked;
      }
    }
  }

  lemma ShortCount(g: Config, d: Daemon, asked: seq<Side>, side: Side)
    requires g.hysteresisBars > 0 && Counts(g, d, asked) && (d.bars < g.hysteresisBars || d.wanted != side)
    ensures !Trailing(asked, g.hysteresisBars, side)
  {
    if d.bars < |asked| && d.bars < g.hysteresisBars {
      assert asked[|asked| - d.bars - 1] != d.wanted && asked[|asked| - 1] == d.wanted;
    }
  }

  lemma FullCount(g: Config, d: Daemon, asked: seq<Side>, side: Side)
    requires g.hysteresisBars > 0 && Counts(g, d, asked)
    ensures d.bars >= g.hysteresisBars && d.wanted == side <==> Trailing(asked, g.hysteresisBars, side)
  {
    if d.bars < g.hysteresisBars || d.wanted != side {
      ShortCount(g, d, asked, side);
    }
  }

  /** The dollars an order may spend: the position limit, scaled by the advisory's weight up to one
      and, at elevated risk, by the reduction factor. */
  predicate IsBudget(g: Config, a: Advisory, budget: real) {
    budget == g.maxPosition * Min(1.0, a.weight) * if a.riskElevated then g.reduceFactor else 1.0
  }

  lemma BudgetIsAllocation(g: Config, a: Advisory, budget: real)
    requires IsBudget(g, a, budget)
    ensures Allocation(g, a) == budget
  {
  }

  /** The largest whole number of shares that the budget buys. */
  ghost predicate WholeShares(qty: real, price: real, budget: real) {
    qty == qty.Floor as real && qty * price <= budget < qty * price + price
  }

  lemma SharesFit(q: real, qty: real, price: real, spent: real, total: real)
    requires price > 0.0 && qty <= q < qty + 1.0 && spent == qty * price && total == q * price
    ensures spent <= total < spent + price
  {
    var part := q - qty;
    assert total - spent == part * price;
    MulMonotone(0.0, part, price);
    assert (1.0 - part) * price > 0.0;
    assert (1.0 - part) * price == price - part * price;
  }

  lemma AtLeastOne(q: real, price: real, alloc: real)
    requires price > 0.0 && q * price == alloc
    ensures q >= 1.0 <==> alloc >= price
  {
    assert (q - 1.0) * price == alloc - price;
  }

  lemma QuantityIsWhole(alloc: real, price: real, qty: real)
    requires price > 0.0 && qty == (alloc / price).Floor as real
    ensures WholeShares(qty, price, alloc)
    ensures qty > 0.0 <==> alloc >= price
  {
    var q := alloc / price;
    assert q * price == alloc;
    SharesFit(q, qty, price, qty * price, alloc);
    AtLeastOne(q, price, alloc);
  }

  /** What a daemon at this position does about what was asked. */
  ghost predicate ActsOn(g: Config, t: Tick, position: Side, asked: seq<Side>, x: Option<Side>, a: Action) {
    && (a.Order? <==>
         && x == Some(Buy) && g.autoExecute && position == Flat && Trailing(asked, g.hysteresisBars, Buy)
         && exists budget :: IsBudget(g, t.advisory, budget) && budget >= t.evidence.price)
    && (a.Order? ==>
         && a.price == t.evidence.price && a.accepted == t.accepted
         && forall budget :: IsBudget(g, t.advisory, budget) ==> WholeShares(a.qty, a.price, budget))
    && (a.Flatten? <==>
         x == Some(Flat) && g.autoExecute && position == Buy && Trailing(asked, g.hysteresisBars, Flat))
  }

  lemma StepActs(g: Config, d: Daemon, t: Tick)
    ensures var (d', o) := Step(g, d, t);
      && (o.action.Order? <==>
           o.desired == Some(Buy) && g.autoExecute && d.position == Flat && d'.bars >= g.hysteresisBars
           && Quantity(g, t.advisory, t.evidence.price) > 0.0)
      && (o.action.Order? ==>
           o.action == Order(Quantity(g, t.advisory, t.evidence.price), t.evidence.price, t.accepted))
      && (o.action.Flatten? <==>
           o.desired == Some(Flat) && g.autoExecute && d.position == Buy && d'.bars >= g.hysteresisBars)
      && (o.desired.Some? ==> d'.wanted == o.desired.value && t.evidence.price > 0.0)
  {
  }

  lemma BudgetReaches(g: Config, t: Tick)
    requires t.evidence.price > 0.0
    ensures var price := t.evidence.price; var qty := Quantity(g, t.advisory, price);
      && (qty > 0.0 <==> exists budget :: IsBudget(g, t.advisory, budget) && budget >= price)
      && (forall budget :: IsBudget(g, t.advisory, budget) ==> WholeShares(qty, price, budget))
  {
    hide WholeShares, IsBudget;
    var budget := TheBudget(g, t.advisory);
    QuantityIsWhole(budget, t.evidence.price, Quantity(g, t.advisory, t.evidence.price));
    forall other | IsBudget(g, t.advisory, other) ensures other == budget {
      BudgetIsAllocation(g, t.advisory, other);
    }
  }

  lemma TheBudget(g: Config, a: Advisory) returns (budget: real)
    ensures IsBudget(g, a, budget) && budget == Allocation(g, a)
  {
    budget := g.maxPosition * Min(1.0, a.weight) * if a.riskElevated then g.reduceFactor else 1.0;
    BudgetIsAllocation(g, a, budget);
  }

  /** Where the daemon stands after what it did: holding after an accepted buy in mock mode until a
      flatten goes through, and never in a real one, where the first outcome stays pending. */
  function Standing(g: Config, done: seq<Side>): Side {
    if g.mock && |done| % 2 == 1 then Buy else Flat
  }

  lemma StandingIs(g: Config, equity: Option<real>, ticks: seq<Tick>)
    ensures Run(g, equity, ticks).position == Standing(g, Done(g, equity, ticks))
  {
    if g.mock {
      MockTradesAlternate(g, equity, ticks);
    } else {
      AtMostOneRealOrder(g, equity, ticks);
    }
  }

  /** Every tick of every run: an order goes out exactly when the tick and the ones before it asked to
      buy hysteresis_bars times in a row, execution is on, nothing is held and the budget buys a
      share; it is for the most whole shares the budget buys, at the tick's price.  A flatten goes out
      exactly when as many in a row asked for nothing, execution is on and something is held. */
  lemma EveryTickActs(g: Config, equity: Option<real>, ticks: seq<Tick>)
    requires g.hysteresisBars > 0 && ticks != []
    ensures var n := |ticks| - 1; var o := At(g, equity, ticks, n);
      ActsOn(g, ticks[n], Standing(g, Done(g, equity, ticks[..n])), Asked(g, equity, ticks), o.desired, o.action)
  {
    hide Quantity, Step, WholeShares, IsBudget, Counts, Trailing, Standing;
    var n := |ticks| - 1;
    var d, o := Run(g, equity, ticks[..n]), At(g, equity, ticks, n);
    StandingIs(g, equity, ticks[..n]);
    RunSnoc(g, equity, ticks);
    StepActs(g, d, ticks[n]);
    CountsRun(g, equity, ticks);
    FullCount(g, Run(g, equity, ticks), Asked(g, equity, ticks), Buy);
    FullCount(g, Run(g, equity, ticks), Asked(g, equity, ticks), Flat);
    if o.desired.Some? {
      BudgetReaches(g, ticks[n]);
    }
  }
}
