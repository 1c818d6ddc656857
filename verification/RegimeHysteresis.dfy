/** The three hysteresis machines of the chart-intelligence layer: volatility, liquidity and
    correlation regime.  Each one is shown to be an instance of one three-level trigger, and the
    stability results are proved about the trigger and carried over to the machines. */
module RegimeHysteresis {
  import opened Options
  import opened RealSums

  /** The three levels of each machine, in enumerator order: Low/Medium/High, Thin/Normal/Deep,
      Stable/Transitional/Unstable. */
  datatype Level = Low | Mid | High {
    function Rank(): int {
      match this case Low => 0 case Mid => 1 case High => 2
    }
  }

  datatype RegimeModifier = RegimeModifier(
    volatility: Level, liquidity: Level, correlation: Level,
    volatilityFactor: real, liquidityFactor: real, correlationFactor: real)

  /** The fields of the anomaly state and of the baseline state that the computation reads. */
  datatype AnomalyState = AnomalyState(
    ewmaVolatility: real, baselineVolatility: real,
    bidSize: real, askSize: real, baselineDepth: real,
    rollingCorrelation: real, expectedCorrelation: real)
  datatype BaselineState = BaselineState(vol30d: real, liq30d: real, volCorr30d: real)

  const TINY := 0.000001

  // ---------- The code's own machines ----------

  function VolatilityRatio(a: AnomalyState, b: BaselineState): real {
    var base := if b.vol30d > TINY then b.vol30d else a.baselineVolatility;
    if base > TINY then a.ewmaVolatility / base else 1.0
  }

  function NextVolatility(prev: Level, ratio: real): Level {
    match prev
    case Low => if ratio >= 0.75 then (if ratio >= 1.85 then High else Mid) else Low
    case High => if ratio <= 1.70 then (if ratio <= 0.65 then Low else Mid) else High
    case Mid => if ratio >= 1.85 then High else if ratio <= 0.65 then Low else Mid
  }

  function DepthRatio(a: AnomalyState, b: BaselineState): real {
    var base := if b.liq30d > TINY then b.liq30d else a.baselineDepth;
    if base > TINY then (a.bidSize + a.askSize) / base else 1.0
  }

  function NextLiquidity(prev: Level, ratio: real): Level {
    match prev
    case Low => if ratio >= 0.55 then (if ratio >= 1.55 then High else Mid) else Low
    case High => if ratio <= 1.40 then (if ratio <= 0.45 then Low else Mid) else High
    case Mid => if ratio <= 0.45 then Low else if ratio >= 1.55 then High else Mid
  }

  function RollingCorrelation(a: AnomalyState): real { Clamp(a.rollingCorrelation, -1.0, 1.0) }

  function CorrelationDrop(a: AnomalyState, b: BaselineState): real {
    var expected := Clamp(if b.volCorr30d < 1.0 then b.volCorr30d else a.expectedCorrelation, -1.0, 1.0);
    Max(0.0, expected - RollingCorrelation(a))
  }

  function NextCorrelation(prev: Level, drop: real, roll: real): Level {
    match prev
    case Low =>
      if drop >= 0.28 || roll <= 0.0 then (if drop >= 0.53 || roll <= 0.0 then High else Mid) else Low
    case High =>
      if drop <= 0.47 && roll > 0.0 then (if drop <= 0.22 then Low else Mid) else High
    case Mid =>
      if drop >= 0.53 || roll <= 0.0 then High else if drop <= 0.22 then Low else Mid
  }

  function ComputeRegimeModifier(a: AnomalyState, b: BaselineState, prev: Option<RegimeModifier>): RegimeModifier {
    var v := NextVolatility(if prev.Some? then prev.value.volatility else Mid, VolatilityRatio(a, b));
    var l := NextLiquidity(if prev.Some? then prev.value.liquidity else Mid, DepthRatio(a, b));
    var c := NextCorrelation(if prev.Some? then prev.value.correlation else Low,
                             CorrelationDrop(a, b), RollingCorrelation(a));
    RegimeModifier(v, l, c,
      match v case High => 1.30 case Low => 0.85 case Mid => 1.00,
      match l case Low => 1.25 case High => 0.85 case Mid => 1.00,
      match c case High => 1.30 case Mid => 1.15 case Low => 1.00)
  }

  // ---------- One three-level trigger ----------

  /** Entering thresholds upLow < upHigh, leaving thresholds downLow < downHigh. */
  datatype Thresholds = Thresholds(downLow: real, upLow: real, downHigh: real, upHigh: real)

  ghost predicate WellSpaced(t: Thresholds, gap: real) {
    0.0 < gap && t.downLow + gap <= t.upLow && t.downHigh + gap <= t.upHigh
    && t.upLow < t.downHigh && t.downLow < t.downHigh
  }

  function Trigger(t: Thresholds, prev: Level, x: real): Level {
    if x >= t.upHigh then High
    else if x <= t.downLow then Low
    else match prev
      case Low => if x >= t.upLow then Mid else Low
      case Mid => Mid
      case High => if x <= t.downHigh then Mid else High
  }

  const VOLATILITY := Thresholds(0.65, 0.75, 1.70, 1.85)
  const LIQUIDITY := Thresholds(0.45, 0.55, 1.40, 1.55)
  const CORRELATION := Thresholds(0.22, 0.28, 0.47, 0.53)

  /** All three machines are the trigger; the correlation machine is, while the rolling correlation
      is positive, and otherwise reports Unstable whatever came before. */
  lemma MachinesAreTriggers(prev: Level, x: real, roll: real)
    ensures NextVolatility(prev, x) == Trigger(VOLATILITY, prev, x)
    ensures NextLiquidity(prev, x) == Trigger(LIQUIDITY, prev, x)
    ensures NextCorrelation(prev, x, roll) == if roll > 0.0 then Trigger(CORRELATION, prev, x) else High
    ensures WellSpaced(VOLATILITY, 0.10) && WellSpaced(LIQUIDITY, 0.10) && WellSpaced(CORRELATION, 0.06)
  {
    match prev case Low => case Mid => case High =>
  }

  /** A repeated input changes nothing the second time. */
  lemma Idempotent(prev: Level, x: real, roll: real)
    ensures NextVolatility(NextVolatility(prev, x), x) == NextVolatility(prev, x)
    ensures NextLiquidity(NextLiquidity(prev, x), x) == NextLiquidity(prev, x)
    ensures NextCorrelation(NextCorrelation(prev, x, roll), x, roll) == NextCorrelation(prev, x, roll)
  {
    match prev case Low => case Mid => case High =>
  }

  /** A larger input, from a level at least as high, never gives a lower level.  For correlation
      the order on inputs is: larger drop, smaller rolling correlation. */
  lemma OrderPreserving(p: Level, q: Level, x: real, y: real, rollX: real, rollY: real)
    requires p.Rank() <= q.Rank() && x <= y && rollY <= rollX
    ensures NextVolatility(p, x).Rank() <= NextVolatility(q, y).Rank()
    ensures NextLiquidity(p, x).Rank() <= NextLiquidity(q, y).Rank()
    ensures NextCorrelation(p, x, rollX).Rank() <= NextCorrelation(q, y, rollY).Rank()
  {
    match p case Low => case Mid => case High =>
  }

  // ---------- The factors ----------

  /** Each factor is read off its own level: risk is raised by volatile, thin and unstable markets and
      lowered by quiet and deep ones. */
  predicate FactorsFit(m: RegimeModifier) {
    && m.volatilityFactor == [0.85, 1.0, 1.3][m.volatility.Rank()]
    && m.liquidityFactor == [1.25, 1.0, 0.85][m.liquidity.Rank()]
    && m.correlationFactor == [1.0, 1.15, 1.3][m.correlation.Rank()]
  }

  /** a' is at least as volatile, at most as deep and at most as correlated as a. */
  predicate AtLeastAsStressed(a': AnomalyState, a: AnomalyState) {
    && a'.ewmaVolatility >= a.ewmaVolatility && a'.bidSize + a'.askSize <= a.bidSize + a.askSize
    && a'.rollingCorrelation <= a.rollingCorrelation
    && a'.baselineVolatility == a.baselineVolatility && a'.baselineDepth == a.baselineDepth
    && a'.expectedCorrelation == a.expectedCorrelation
  }

  lemma RatiosOrdered(x: real, y: real, base: real)
    requires x <= y && base > 0.0
    ensures x / base <= y / base
  {
    assert y / base - x / base == (y - x) / base;
  }

  lemma InputsOrdered(a: AnomalyState, a': AnomalyState, b: BaselineState)
    requires AtLeastAsStressed(a', a)
    ensures VolatilityRatio(a, b) <= VolatilityRatio(a', b) && DepthRatio(a', b) <= DepthRatio(a, b)
    ensures CorrelationDrop(a, b) <= CorrelationDrop(a', b) && RollingCorrelation(a') <= RollingCorrelation(a)
  {
    var v := if b.vol30d > TINY then b.vol30d else a.baselineVolatility;
    var l := if b.liq30d > TINY then b.liq30d else a.baselineDepth;
    if v > TINY {
      RatiosOrdered(a.ewmaVolatility, a'.ewmaVolatility, v);
    }
    if l > TINY {
      RatiosOrdered(a'.bidSize + a'.askSize, a.bidSize + a.askSize, l);
    }
  }

  /** The inputs of the machines: volatility and depth against their baselines, the 30-day ones where
      there are any, and how far the correlation fell below the expected one. */
  lemma RatiosAre(a: AnomalyState, b: BaselineState, v: real, l: real)
    requires v == if b.vol30d > 0.000001 then b.vol30d else a.baselineVolatility
    requires l == if b.liq30d > 0.000001 then b.liq30d else a.baselineDepth
    ensures if v > 0.000001 then VolatilityRatio(a, b) * v == a.ewmaVolatility else VolatilityRatio(a, b) == 1.0
    ensures if l > 0.000001 then DepthRatio(a, b) * l == a.bidSize + a.askSize else DepthRatio(a, b) == 1.0
    ensures MovedInto(RollingCorrelation(a), a.rollingCorrelation, -1.0, 1.0) && CorrelationDrop(a, b) >= 0.0
    ensures CorrelationDrop(a, b) > 0.0 ==>
      MovedInto(RollingCorrelation(a) + CorrelationDrop(a, b),
                if b.volCorr30d < 1.0 then b.volCorr30d else a.expectedCorrelation, -1.0, 1.0)
  {
  }

  /** The whole computation: every factor fits its level, a first computation starts from Medium,
      Normal and Stable, and more stress from the same levels never lowers any factor. */
  lemma MoreStressMoreCaution(a: AnomalyState, a': AnomalyState, b: BaselineState, prev: Option<RegimeModifier>)
    requires AtLeastAsStressed(a', a)
    ensures var m, m' := ComputeRegimeModifier(a, b, prev), ComputeRegimeModifier(a', b, prev);
      && FactorsFit(m) && FactorsFit(m')
      && m.volatilityFactor <= m'.volatilityFactor && m.liquidityFactor <= m'.liquidityFactor
      && m.correlationFactor <= m'.correlationFactor
    ensures ComputeRegimeModifier(a, b, None) ==
      ComputeRegimeModifier(a, b, Some(RegimeModifier(Mid, Mid, Low, 1.0, 1.0, 1.0)))
  {
    hide VolatilityRatio, DepthRatio, CorrelationDrop, RollingCorrelation;
    var v := if prev.Some? then prev.value.volatility else Mid;
    var l := if prev.Some? then prev.value.liquidity else Mid;
    var c := if prev.Some? then prev.value.correlation else Low;
    InputsOrdered(a, a', b);
    OrderPreserving(v, v, VolatilityRatio(a, b), VolatilityRatio(a', b), 0.0, 0.0);
    OrderPreserving(l, l, DepthRatio(a', b), DepthRatio(a, b), 0.0, 0.0);
    OrderPreserving(c, c, CorrelationDrop(a, b), CorrelationDrop(a', b), RollingCorrelation(a), RollingCorrelation(a'));
  }

  // ---------- Runs ----------

  /** The levels shown along a run, the starting level first. */
  function Levels(t: Thresholds, start: Level, xs: seq<real>): (ls: seq<Level>)
    ensures |ls| == |xs| + 1
  {
    if xs == [] then [start]
    else
      var before := Levels(t, start, xs[..|xs| - 1]);
      before + [Trigger(t, before[|xs| - 1], xs[|xs| - 1])]
  }

  datatype Direction = Still | Up | Down

  /** The direction of the last change of level. */
  function LastMove(ls: seq<Level>): Direction {
    if |ls| < 2 then Still
    else
      var n := |ls| - 1;
      if ls[n].Rank() > ls[n - 1].Rank() then Up
      else if ls[n].Rank() < ls[n - 1].Rank() then Down
      else LastMove(ls[..n])
  }

  /** How often a change of level goes against the previous change. */
  function Reversals(ls: seq<Level>): nat {
    if |ls| < 2 then 0
    else
      var n := |ls| - 1;
      var here := LastMove(ls);
      var before := LastMove(ls[..n]);
      Reversals(ls[..n]) + (if before != Still && here != before then 1 else 0)
  }

  function Variation(xs: seq<real>): real {
    if |xs| < 2 then 0.0
    else Variation(xs[..|xs| - 1]) + Abs(xs[|xs| - 1] - xs[|xs| - 2])
  }

  /** Where the input stood at the last move, given the level the move left behind. */
  ghost predicate MoveExplained(t: Thresholds, level: Level, move: Direction, a: real) {
    match move
    case Still => true
    case Up => (level == Mid && a >= t.upLow) || (level == High && a >= t.upHigh)
    case Down => (level == Mid && a <= t.downHigh) || (level == Low && a <= t.downLow)
  }

  function MoveOf(before: Level, after: Level, otherwise: Direction): Direction {
    if after.Rank() > before.Rank() then Up else if after.Rank() < before.Rank() then Down else otherwise
  }

  lemma TriggerStep(t: Thresholds, gap: real, level: Level, move: Direction, a: real, x: real)
    requires WellSpaced(t, gap) && MoveExplained(t, level, move, a)
    ensures var after := Trigger(t, level, x);
      var move' := MoveOf(level, after, move);
      && MoveExplained(t, after, move', if after != level then x else a)
      && (move != Still && move' != move ==> Abs(x - a) >= gap)
  {
    match level case Low => case Mid => case High =>
  }

  /** What a run has paid for: the variation covers the cost of the reversals and the distance
      between the latest input and the input of the last move. */
  ghost predicate Paid(t: Thresholds, level: Level, move: Direction, cost: real,
                       variation: real, latest: real, a: real)
  {
    && MoveExplained(t, level, move, a)
    && variation >= 0.0
    && (move == Still ==> cost == 0.0)
    && (move != Still ==> variation >= cost + Abs(latest - a))
  }

  lemma Triangle(x: real, y: real, z: real)
    ensures Abs(x - z) <= Abs(x - y) + Abs(y - z)
  {
  }

  lemma PaidStep(t: Thresholds, gap: real, level: Level, move: Direction, cost: real,
                 variation: real, latest: real, a: real, x: real)
    requires WellSpaced(t, gap) && Paid(t, level, move, cost, variation, latest, a)
    ensures var after := Trigger(t, level, x);
      var move' := MoveOf(level, after, move);
      Paid(t, after, move', cost + if move != Still && move' != move then gap else 0.0,
        variation + Abs(x - latest), x, if after != level then x else a)
  {
    TriggerStep(t, gap, level, move, a, x);
    Triangle(x, latest, a);
  }

  /** n times the gap. */
  function Cost(gap: real, n: nat): real { if n == 0 then 0.0 else Cost(gap, n - 1) + gap }

  lemma {:induction false} CostIsProduct(gap: real, n: nat)
    ensures Cost(gap, n) == gap * n as real
  {
    if n > 0 {
      CostIsProduct(gap, n - 1);
      assert gap * n as real == gap * (n - 1) as real + gap;
    }
  }

  lemma VariationSnoc(xs: seq<real>, x: real)
    ensures Variation(xs + [x]) == Variation(xs) + if xs == [] then 0.0 else Abs(x - xs[|xs| - 1])
  {
    assert (xs + [x])[..|xs|] == xs;
  }

  lemma ReversalsSnoc(ls: seq<Level>, after: Level)
    requires ls != []
    ensures LastMove(ls + [after]) == MoveOf(ls[|ls| - 1], after, LastMove(ls))
    ensures Reversals(ls + [after]) == Reversals(ls) +
      if LastMove(ls) != Still && LastMove(ls + [after]) != LastMove(ls) then 1 else 0
  {
    assert (ls + [after])[..|ls|] == ls;
  }

  ghost predicate RunPaid(t: Thresholds, gap: real, ls: seq<Level>, xs: seq<real>, a: real) {
    && |ls| == |xs| + 1
    && Paid(t, ls[|xs|], LastMove(ls), Cost(gap, Reversals(ls)), Variation(xs),
            if xs == [] then 0.0 else xs[|xs| - 1], a)
  }

  lemma RunStep(t: Thresholds, gap: real, ls: seq<Level>, xs: seq<real>, a: real, x: real)
    requires WellSpaced(t, gap) && RunPaid(t, gap, ls, xs, a)
    requires xs == [] ==> LastMove(ls) == Still
    ensures var after := Trigger(t, ls[|xs|], x);
      RunPaid(t, gap, ls + [after], xs + [x], if after != ls[|xs|] then x else a)
  {
    var after := Trigger(t, ls[|xs|], x);
    var latest := if xs == [] then x else xs[|xs| - 1];
    VariationSnoc(xs, x);
    ReversalsSnoc(ls, after);
    PaidStep(t, gap, ls[|xs|], LastMove(ls), Cost(gap, Reversals(ls)), Variation(xs), latest, a, x);
  }

  /** Along every run there is an input, that of the last move, up to which the reversals are paid. */
  lemma {:induction false} RunPotential(t: Thresholds, gap: real, start: Level, xs: seq<real>) returns (a: real)
    requires WellSpaced(t, gap)
    ensures RunPaid(t, gap, Levels(t, start, xs), xs, a)
  {
    if xs == [] {
      a := 0.0;
    } else {
      var n := |xs| - 1;
      var ls := Levels(t, start, xs[..n]);
      var before := RunPotential(t, gap, start, xs[..n]);
      RunStep(t, gap, ls, xs[..n], before, xs[n]);
      assert xs == xs[..n] + [xs[n]];
      a := if Trigger(t, ls[n], xs[n]) != ls[n] then xs[n] else before;
    }
  }

  lemma RunCost(t: Thresholds, gap: real, start: Level, xs: seq<real>)
    requires WellSpaced(t, gap)
    ensures Cost(gap, Reversals(Levels(t, start, xs))) <= Variation(xs)
  {
    var a := RunPotential(t, gap, start, xs);
  }

  /** Every reversal of direction costs the input at least one hysteresis gap of movement. */
  lemma TriggerCannotChatter(t: Thresholds, gap: real, start: Level, xs: seq<real>)
    requires WellSpaced(t, gap)
    ensures gap * Reversals(Levels(t, start, xs)) as real <= Variation(xs)
  {
    RunCost(t, gap, start, xs);
    CostIsProduct(gap, Reversals(Levels(t, start, xs)));
  }

  // ---------- Runs of the whole computation ----------

  /** The modifiers computed along a run, each fed to the next call. */
  function Modifiers(first: RegimeModifier, ins: seq<(AnomalyState, BaselineState)>): (ms: seq<RegimeModifier>)
    ensures |ms| == |ins| + 1
  {
    if ins == [] then [first]
    else
      var n := |ins| - 1;
      var before := Modifiers(first, ins[..n]);
      before + [ComputeRegimeModifier(ins[n].0, ins[n].1, Some(before[n]))]
  }

  function VolatilityRatios(ins: seq<(AnomalyState, BaselineState)>): seq<real> {
    seq(|ins|, i requires 0 <= i < |ins| => VolatilityRatio(ins[i].0, ins[i].1))
  }

  function DepthRatios(ins: seq<(AnomalyState, BaselineState)>): seq<real> {
    seq(|ins|, i requires 0 <= i < |ins| => DepthRatio(ins[i].0, ins[i].1))
  }

  function Drops(ins: seq<(AnomalyState, BaselineState)>): seq<real> {
    seq(|ins|, i requires 0 <= i < |ins| => CorrelationDrop(ins[i].0, ins[i].1))
  }

  function VolatilityLevels(ms: seq<RegimeModifier>): seq<Level> {
    seq(|ms|, i requires 0 <= i < |ms| => ms[i].volatility)
  }

  function LiquidityLevels(ms: seq<RegimeModifier>): seq<Level> {
    seq(|ms|, i requires 0 <= i < |ms| => ms[i].liquidity)
  }

  function CorrelationLevels(ms: seq<RegimeModifier>): seq<Level> {
    seq(|ms|, i requires 0 <= i < |ms| => ms[i].correlation)
  }

  ghost predicate CorrelationStaysPositive(ins: seq<(AnomalyState, BaselineState)>) {
    forall i :: 0 <= i < |ins| ==> RollingCorrelation(ins[i].0) > 0.0
  }

  lemma {:induction false} RunsAreTriggerRuns(first: RegimeModifier, ins: seq<(AnomalyState, BaselineState)>)
    ensures VolatilityLevels(Modifiers(first, ins)) == Levels(VOLATILITY, first.volatility, VolatilityRatios(ins))
    ensures LiquidityLevels(Modifiers(first, ins)) == Levels(LIQUIDITY, first.liquidity, DepthRatios(ins))
    ensures CorrelationStaysPositive(ins) ==>
      CorrelationLevels(Modifiers(first, ins)) == Levels(CORRELATION, first.correlation, Drops(ins))
  {
    if ins != [] {
      var n := |ins| - 1;
      RunsAreTriggerRuns(first, ins[..n]);
      assert VolatilityRatios(ins)[..n] == VolatilityRatios(ins[..n]);
      assert DepthRatios(ins)[..n] == DepthRatios(ins[..n]);
      assert Drops(ins)[..n] == Drops(ins[..n]);
      var m := Modifiers(first, ins[..n])[n];
      MachinesAreTriggers(m.volatility, VolatilityRatio(ins[n].0, ins[n].1), 1.0);
      MachinesAreTriggers(m.liquidity, DepthRatio(ins[n].0, ins[n].1), 1.0);
      MachinesAreTriggers(m.correlation, CorrelationDrop(ins[n].0, ins[n].1), RollingCorrelation(ins[n].0));
      assert VolatilityLevels(Modifiers(first, ins[..n]))[n] == m.volatility;
      assert LiquidityLevels(Modifiers(first, ins[..n]))[n] == m.liquidity;
      assert CorrelationLevels(Modifiers(first, ins[..n]))[n] == m.correlation;
    }
  }

  /** Over any run of the computation each machine's direction reversals, times its hysteresis gap,
      are at most the total variation of its input. */
  lemma RegimesCannotChatter(first: RegimeModifier, ins: seq<(AnomalyState, BaselineState)>)
    ensures 0.10 * Reversals(VolatilityLevels(Modifiers(first, ins))) as real <= Variation(VolatilityRatios(ins))
    ensures 0.10 * Reversals(LiquidityLevels(Modifiers(first, ins))) as real <= Variation(DepthRatios(ins))
    ensures CorrelationStaysPositive(ins) ==>
      0.06 * Reversals(CorrelationLevels(Modifiers(first, ins))) as real <= Variation(Drops(ins))
  {
    assert WellSpaced(VOLATILITY, 0.10) && WellSpaced(LIQUIDITY, 0.10) && WellSpaced(CORRELATION, 0.06);
    RunsAreTriggerRuns(first, ins);
    TriggerCannotChatter(VOLATILITY, 0.10, first.volatility, VolatilityRatios(ins));
    TriggerCannotChatter(LIQUIDITY, 0.10, first.liquidity, DepthRatios(ins));
    TriggerCannotChatter(CORRELATION, 0.06, first.correlation, Drops(ins));
  }
}
