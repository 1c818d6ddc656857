/** The trading daemon as a state machine over ticks.  What the broker and the advisory answer is
    arbitrary; only the broker's lockout is taken to last once it is triggered. */
module TraderDaemon {
  import opened Options
  import opened RealSums

  datatype Side = Flat | Buy

  datatype Config = Config(autoExecute: bool, mock: bool, maxPosition: real, maxDrawdown: real, reduceFactor: real,
                           hysteresisBars: int, frequency: int, symbol: string, biasOk: bool)

  predicate SymbolChar(c: char) { 'A' <= c <= 'Z' || '0' <= c <= '9' || c == '.' || c == '-' || c == '_' }

  predicate HasTwoDots(s: string) { exists i :: 0 <= i < |s| - 1 && s[i] == '.' && s[i + 1] == '.' }

  /** biasOk stands for the checks on the bias settings. */
  predicate ValidConfig(g: Config) {
    && g.biasOk && g.maxPosition > 0.0 && 0.0 < g.maxDrawdown <= 1.0 && 0.0 <= g.reduceFactor <= 1.0
    && g.hysteresisBars > 0 && 1 <= g.frequency <= 1000
    && 0 < |g.symbol| <= 32 && (forall i :: 0 <= i < |g.symbol| ==> SymbolChar(g.symbol[i])) && !HasTwoDots(g.symbol)
  }

  datatype Evidence = Evidence(volume: real, average: real, ratio: real, mass: real,
                               contrarianOverride: int, price: real)

  datatype Advisory = Advisory(weight: real, contrarianBuy: bool, growthFavorable: bool, riskElevated: bool)

  /** One tick and everything its environment answers: the safety flags, the account equity if it
      could be read, whether the broker had locked itself by the time the signal is translated, the
      advisory, whether an order would be given an identifier, whether the broker is locked after a
      refused order, and whether a flatten request succeeds. */
  datatype Tick = Tick(evidence: Evidence, safetyFault: bool, equity: Option<real>, lockedOutside: bool,
                       advisory: Advisory, accepted: bool, lockedAfter: bool, flattened: bool)

  /** pending: a broker outcome is unresolved.  wanted and bars: the debounced signal. */
  datatype Daemon = Daemon(pending: bool, position: Side, wanted: Side, bars: nat, peak: real, equity: real,
                           locked: bool)

  datatype Action = Nothing | Order(qty: real, price: real, accepted: bool) | Flatten(ok: bool)

  /** desired: the side the tick asked for, if it was evaluated that far. */
  datatype Outcome = Outcome(desired: Option<Side>, action: Action)

  predicate EvidenceOk(e: Evidence) {
    && e.price > 0.0 && e.volume >= 0.0 && e.average >= 0.0 && e.ratio >= 0.0 && e.mass > 0.0
    && -1 <= e.contrarianOverride <= 1
  }

  function Start(equity: Option<real>): Daemon {
    if equity.None? || equity.value <= 0.0 then Daemon(false, Flat, Flat, 0, 0.0, 0.0, true)
    else Daemon(false, Flat, Flat, 0, equity.value, equity.value, false)
  }

  function Drawdown(peak: real, equity: real): real { if peak > 0.0 then (peak - equity) / peak else 0.0 }

  function Locked(d: Daemon): Daemon { d.(locked := true) }

  /** The equity reading: a new peak, and a lockout at the drawdown limit. */
  function Measured(g: Config, d: Daemon, equity: real): Daemon {
    var peak := Max(d.peak, equity);
    d.(equity := equity, peak := peak, locked := d.locked || Drawdown(peak, equity) >= g.maxDrawdown)
  }

  function Desired(locked: bool, a: Advisory): Side {
    if locked then Flat
    else if a.contrarianBuy then Buy
    else if a.growthFavorable && !a.riskElevated then Buy
    else Flat
  }

  function Debounced(g: Config, d: Daemon, desired: Side): Daemon {
    if desired == d.wanted then d.(bars := if d.bars < g.hysteresisBars then d.bars + 1 else d.bars)
    else d.(wanted := desired, bars := 1)
  }

  function Allocation(g: Config, a: Advisory): real {
    var alloc := g.maxPosition * (if a.weight < 1.0 then a.weight else 1.0);
    if a.riskElevated then alloc * g.reduceFactor else alloc
  }

  function Quantity(g: Config, a: Advisory, price: real): real
    requires price > 0.0
  {
    (Allocation(g, a) / price).Floor as real
  }

  function Submitted(g: Config, d: Daemon, t: Tick): (Daemon, Action)
    requires t.evidence.price > 0.0
  {
    var qty := Quantity(g, t.advisory, t.evidence.price);
    if qty <= 0.0 then (d, Nothing)
    else
      var locked := d.locked || (!t.accepted && t.lockedAfter);
      (d.(locked := locked,
          position := if t.accepted && g.mock then Buy else d.position,
          pending := d.pending || (!g.mock && (t.accepted || locked))),
       Order(qty, t.evidence.price, t.accepted))
  }

  function Executed(g: Config, d: Daemon, desired: Side, t: Tick): (Daemon, Action)
    requires t.evidence.price > 0.0
  {
    if d.bars < g.hysteresisBars then (d, Nothing)
    else if desired == d.position && desired != Flat then (d, Nothing)
    else if !g.autoExecute then (d, Nothing)
    else if desired == Flat then
      if d.position == Flat then (d, Nothing)
      else (d.(position := if t.flattened && g.mock then Flat else d.position, pending := d.pending || !g.mock),
            Flatten(t.flattened))
    else Submitted(g, d, t)
  }

  /** From the safety check on. */
  function Evaluated(g: Config, d: Daemon, t: Tick): (Daemon, Outcome)
    requires t.evidence.price > 0.0
  {
    var d1 := d.(locked := d.locked || t.safetyFault);
    if t.equity.None? || t.equity.value <= 0.0 then (Locked(d1), Outcome(None, Nothing))
    else
      var d2 := Measured(g, d1, t.equity.value);
      var d3 := d2.(locked := d2.locked || t.lockedOutside);
      if t.advisory.weight < 0.0 then (Locked(d3), Outcome(None, Nothing))
      else
        var desired := Desired(d3.locked, t.advisory);
        var (d4, action) := Executed(g, Debounced(g, d3, desired), desired, t);
        (d4, Outcome(Some(desired), action))
  }

  function Step(g: Config, d: Daemon, t: Tick): (Daemon, Outcome) {
    if !EvidenceOk(t.evidence) then (Locked(d), Outcome(None, Nothing))
    else if d.pending then (d.(locked := d.locked || t.safetyFault), Outcome(None, Nothing))
    else Evaluated(g, d, t)
  }

  function Run(g: Config, equity: Option<real>, ticks: seq<Tick>): Daemon {
    if ticks == [] then Start(equity) else Step(g, Run(g, equity, ticks[..|ticks| - 1]), ticks[|ticks| - 1]).0
  }

  /** What tick k did. */
  function At(g: Config, equity: Option<real>, ticks: seq<Tick>, k: nat): Outcome
    requires k < |ticks|
  {
    Step(g, Run(g, equity, ticks[..k]), ticks[k]).1
  }

  lemma RunSnoc(g: Config, equity: Option<real>, ticks: seq<Tick>)
    requires ticks != []
    ensures Run(g, equity, ticks) == Step(g, Run(g, equity, ticks[..|ticks| - 1]), ticks[|ticks| - 1]).0
    ensures At(g, equity, ticks, |ticks| - 1) == Step(g, Run(g, equity, ticks[..|ticks| - 1]), ticks[|ticks| - 1]).1
  {
  }

  // ---------- Debouncing ----------

  /** The last n ticks were all evaluated and all asked for the side. */
  ghost predicate Streak(g: Config, equity: Option<real>, ticks: seq<Tick>, n: nat, side: Side) {
    n <= |ticks| && forall k :: |ticks| - n <= k < |ticks| ==> At(g, equity, ticks, k).desired == Some(side)
  }

  /** A daemon that may still act. */
  predicate Active(d: Daemon) { !d.locked && !d.pending }

  /** A tick either stops the daemon for good or extends or restarts the streak. */
  lemma StepKeepsCount(g: Config, d: Daemon, t: Tick)
    requires g.hysteresisBars > 0
    ensures var (d', o) := Step(g, d, t);
      && (Active(d') ==> Active(d) && o.desired.Some?)
      && (o.desired.Some? ==> d'.wanted == o.desired.value)
      && (o.desired.Some? && d'.bars != 1 ==> d.wanted == o.desired.value && 1 < d'.bars <= d.bars + 1)
      && (o.action.Order? ==> d'.bars >= g.hysteresisBars && o.desired == Some(Buy) && Active(d))
  {
  }

  lemma AtPrefix(g: Config, equity: Option<real>, ticks: seq<Tick>, n: nat, k: nat)
    requires k < n <= |ticks|
    ensures At(g, equity, ticks[..n], k) == At(g, equity, ticks, k)
  {
    assert ticks[..n][..k] == ticks[..k];
  }

  lemma StreakGrows(g: Config, equity: Option<real>, ticks: seq<Tick>, b: nat, n: nat, side: Side)
    requires ticks != [] && Streak(g, equity, ticks[..|ticks| - 1], b, side) && n <= b + 1
    requires At(g, equity, ticks, |ticks| - 1).desired == Some(side)
    ensures Streak(g, equity, ticks, n, side)
  {
    forall k | |ticks| - n <= k < |ticks| ensures At(g, equity, ticks, k).desired == Some(side) {
      if k < |ticks| - 1 {
        AtPrefix(g, equity, ticks, |ticks| - 1, k);
      }
    }
  }

  lemma {:induction false} CountIsStreak(g: Config, equity: Option<real>, ticks: seq<Tick>)
    requires g.hysteresisBars > 0
    ensures var d := Run(g, equity, ticks);
      (Active(d) ==> Streak(g, equity, ticks, d.bars, d.wanted)) &&
      (ticks != [] && At(g, equity, ticks, |ticks| - 1).action.Order? ==> Streak(g, equity, ticks, d.bars, d.wanted))
  {
    if ticks != [] {
      var n := |ticks| - 1;
      var d := Run(g, equity, ticks[..n]);
      CountIsStreak(g, equity, ticks[..n]);
      StepKeepsCount(g, d, ticks[n]);
      RunSnoc(g, equity, ticks);
      var (d', o) := Step(g, d, ticks[n]);
      if Active(d') || o.action.Order? {
        if d'.bars == 1 {
          assert Streak(g, equity, ticks[..n], 0, d'.wanted);
          StreakGrows(g, equity, ticks, 0, 1, d'.wanted);
        } else {
          StreakGrows(g, equity, ticks, d.bars, d'.bars, d'.wanted);
        }
      }
    }
  }

  lemma ShorterStreak(g: Config, equity: Option<real>, ticks: seq<Tick>, n: nat, m: nat, side: Side)
    requires Streak(g, equity, ticks, n, side) && m <= n
    ensures Streak(g, equity, ticks, m, side)
  {
  }

  /** Every order sent to the broker comes at the end of hysteresis_bars ticks in a row that were all
      evaluated and all asked to buy: no skipped tick in between. */
  lemma OrderIsDebounced(g: Config, equity: Option<real>, ticks: seq<Tick>)
    requires g.hysteresisBars > 0 && ticks != [] && At(g, equity, ticks, |ticks| - 1).action.Order?
    ensures Streak(g, equity, ticks, g.hysteresisBars, Buy)
  {
    var n := |ticks| - 1;
    CountIsStreak(g, equity, ticks);
    StepKeepsCount(g, Run(g, equity, ticks[..n]), ticks[n]);
    RunSnoc(g, equity, ticks);
    ShorterStreak(g, equity, ticks, Run(g, equity, ticks).bars, g.hysteresisBars, Buy);
  }

  // ---------- Notional and drawdown ----------

  lemma ProductBelow(x: real, f: real, y: real)
    requires 0.0 <= x && f <= 1.0 && y == x * f
    ensures y <= x
  {
    assert x * (1.0 - f) >= 0.0;
  }

  lemma AllocationWithin(g: Config, a: Advisory)
    requires ValidConfig(g) && a.weight >= 0.0
    ensures Allocation(g, a) <= g.maxPosition
  {
    var w := if a.weight < 1.0 then a.weight else 1.0;
    var alloc := g.maxPosition * w;
    ProductBelow(g.maxPosition, w, alloc);
    assert alloc >= 0.0;
    if a.riskElevated {
      ProductBelow(alloc, g.reduceFactor, alloc * g.reduceFactor);
    }
  }

  lemma FloorTimes(alloc: real, price: real)
    requires price > 0.0
    ensures (alloc / price).Floor as real * price <= alloc
  {
    var q := alloc / price;
    assert q * price == alloc;
    assert (q - q.Floor as real) * price >= 0.0;
  }

  /** What an order may cost, and the drawdown it is sent at. */
  lemma OrderWithin(g: Config, d: Daemon, t: Tick)
    requires ValidConfig(g) && Step(g, d, t).1.action.Order?
    ensures var (d', o) := Step(g, d, t);
      && o.action.qty > 0.0 && o.action.price == t.evidence.price
      && o.action.qty * o.action.price <= g.maxPosition
      && d'.peak == Max(d.peak, d'.equity) && t.equity == Some(d'.equity)
      && Drawdown(d'.peak, d'.equity) < g.maxDrawdown
  {
    AllocationWithin(g, t.advisory);
    FloorTimes(Allocation(g, t.advisory), t.evidence.price);
  }

  /** The highest equity from the start to now. */
  function HighWater(equity: Option<real>, ticks: seq<Tick>): real {
    if ticks == [] then (if equity.Some? then equity.value else 0.0)
    else
      var t := ticks[|ticks| - 1];
      var before := HighWater(equity, ticks[..|ticks| - 1]);
      if t.equity.Some? then Max(before, t.equity.value) else before
  }

  lemma StepTracksPeak(g: Config, d: Daemon, t: Tick)
    requires Active(Step(g, d, t).0) || Step(g, d, t).1.action.Order?
    ensures Active(d) && t.equity.Some? && Step(g, d, t).0.peak == Max(d.peak, t.equity.value)
  {
  }

  lemma {:induction false} PeakIsHighWater(g: Config, equity: Option<real>, ticks: seq<Tick>)
    ensures Active(Run(g, equity, ticks)) ==> Run(g, equity, ticks).peak == HighWater(equity, ticks)
    ensures ticks != [] && At(g, equity, ticks, |ticks| - 1).action.Order? ==>
      Run(g, equity, ticks).peak == HighWater(equity, ticks)
  {
    if ticks != [] {
      var n := |ticks| - 1;
      PeakIsHighWater(g, equity, ticks[..n]);
      RunSnoc(g, equity, ticks);
      if Active(Run(g, equity, ticks)) || At(g, equity, ticks, n).action.Order? {
        StepTracksPeak(g, Run(g, equity, ticks[..n]), ticks[n]);
      }
    }
  }

  /** What is promised of an order sent at this tick with this highest equity. */
  ghost predicate SafeOrder(g: Config, a: Action, t: Tick, highest: real) {
    && a.Order? && 0.0 < a.qty && a.qty * a.price <= g.maxPosition && a.price == t.evidence.price
    && t.equity.Some? && Drawdown(highest, t.equity.value) < g.maxDrawdown
  }

  lemma OrderAtPeak(g: Config, d: Daemon, t: Tick)
    requires ValidConfig(g) && Step(g, d, t).1.action.Order?
    ensures SafeOrder(g, Step(g, d, t).1.action, t, Step(g, d, t).0.peak)
  {
    OrderWithin(g, d, t);
  }

  /** Every order costs at most the position limit and is sent while the drawdown of the current
      equity from the highest equity ever seen is below the limit. */
  lemma OrderIsSafe(g: Config, equity: Option<real>, ticks: seq<Tick>)
    requires ValidConfig(g) && ticks != [] && At(g, equity, ticks, |ticks| - 1).action.Order?
    ensures SafeOrder(g, At(g, equity, ticks, |ticks| - 1).action, ticks[|ticks| - 1], HighWater(equity, ticks))
  {
    var n := |ticks| - 1;
    RunSnoc(g, equity, ticks);
    PeakIsHighWater(g, equity, ticks);
    OrderAtPeak(g, Run(g, equity, ticks[..n]), ticks[n]);
  }

  // ---------- What gets executed ----------

  /** The accepted orders and the flattens that went through, in order. */
  function Done(g: Config, equity: Option<real>, ticks: seq<Tick>): seq<Side> {
    if ticks == [] then []
    else Done(g, equity, ticks[..|ticks| - 1]) + Effect(At(g, equity, ticks, |ticks| - 1).action)
  }

  function Effect(a: Action): seq<Side> {
    match a
    case Nothing => []
    case Order(_, _, accepted) => if accepted then [Buy] else []
    case Flatten(ok) => if ok then [Flat] else []
  }

  lemma RealStep(g: Config, d: Daemon, t: Tick)
    requires !g.mock && d.position == Flat
    ensures var (d', o) := Step(g, d, t);
      && d'.position == Flat && !o.action.Flatten?
      && (d.pending ==> d'.pending && o.action.Nothing?)
      && (o.action.Order? && o.action.accepted ==> !d.pending && d'.pending)
  {
  }

  /** Trading for real, a daemon gets at most one order accepted in its life, and after it stays
      pending; it never flattens. */
  lemma {:induction false} AtMostOneRealOrder(g: Config, equity: Option<real>, ticks: seq<Tick>)
    requires !g.mock
    ensures Run(g, equity, ticks).position == Flat
    ensures Done(g, equity, ticks) == [] || (Done(g, equity, ticks) == [Buy] && Run(g, equity, ticks).pending)
  {
    if ticks != [] {
      var n := |ticks| - 1;
      AtMostOneRealOrder(g, equity, ticks[..n]);
      RunSnoc(g, equity, ticks);
      RealStep(g, Run(g, equity, ticks[..n]), ticks[n]);
    }
  }

  /** Buy, flatten, buy, flatten, ... */
  ghost predicate Alternates(done: seq<Side>) {
    forall k :: 0 <= k < |done| ==> done[k] == if k % 2 == 0 then Buy else Flat
  }

  predicate PositionAfter(position: Side, done: seq<Side>) {
    position == if |done| % 2 == 1 then Buy else Flat
  }

  lemma MockStep(g: Config, d: Daemon, t: Tick, done: seq<Side>)
    requires g.mock && !d.pending && Alternates(done) && PositionAfter(d.position, done)
    ensures var (d', o) := Step(g, d, t);
      !d'.pending && Alternates(done + Effect(o.action)) && PositionAfter(d'.position, done + Effect(o.action))
  {
    assert done + [] == done;
  }

  /** Trading on paper, accepted buys and completed flattens strictly alternate, starting with a buy,
      and the position is what the last of them left. */
  lemma {:induction false} MockTradesAlternate(g: Config, equity: Option<real>, ticks: seq<Tick>)
    requires g.mock
    ensures Alternates(Done(g, equity, ticks)) && !Run(g, equity, ticks).pending
    ensures PositionAfter(Run(g, equity, ticks).position, Done(g, equity, ticks))
  {
    if ticks != [] {
      var n := |ticks| - 1;
      MockTradesAlternate(g, equity, ticks[..n]);
      RunSnoc(g, equity, ticks);
      MockStep(g, Run(g, equity, ticks[..n]), ticks[n], Done(g, equity, ticks[..n]));
    }
  }
}
