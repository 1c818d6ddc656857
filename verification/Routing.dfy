/** Liquidity routing as a function of its input: what each asset may send, where it goes under the
    inflow caps, and the two scalings that bound the shock.  The loops and tables that carry it out
    are in RoutingTables. */
module Routing {
  import opened Options
  import opened RealSums

  type AssetId = nat

  datatype Decision = Decision(asset: AssetId, target: real)
  datatype State = State(asset: AssetId, flags: nat, liquidity: real, ratio: real)
  datatype Cap = Cap(asset: AssetId, stress: nat, maxOut: real, maxIn: real)
  datatype Route = Route(source: AssetId, primary: AssetId, fallback: AssetId, stress: nat, ratio: real)

  datatype Problem = Problem(decisions: seq<Decision>, stress: nat, states: seq<State>, caps: seq<Cap>,
                             table: seq<Route>, maxPortfolio: real, maxAsset: real)

  /** state is the position of the sending state, a history variable. */
  datatype Flow = Flow(state: nat, source: AssetId, target: AssetId, amount: real)

  /** What the validation at the top lets through. */
  ghost predicate Valid(p: Problem) {
    && |p.decisions| <= 16 && |p.states| <= 16 && |p.caps| <= 16 && |p.table| <= 32
    && Unit(p.maxPortfolio) && Unit(p.maxAsset)
    && (forall k :: 0 <= k < |p.states| ==> p.states[k].liquidity >= 0.0 && Unit(p.states[k].ratio))
    && (forall k :: 0 <= k < |p.decisions| ==> Unit(p.decisions[k].target))
    && (forall k :: 0 <= k < |p.caps| ==> Unit(p.caps[k].maxOut) && Unit(p.caps[k].maxIn))
    && (forall k :: 0 <= k < |p.table| ==> Unit(p.table[k].ratio))
  }

  // ---------- Look-ups: the first entry that matches ----------

  function TargetOf(ds: seq<Decision>, asset: AssetId, current: real): real {
    if ds == [] then current else if ds[0].asset == asset then ds[0].target else TargetOf(ds[1..], asset, current)
  }

  function CapOf(caps: seq<Cap>, asset: AssetId, stress: nat): Option<Cap> {
    if caps == [] then None
    else if caps[0].asset == asset && caps[0].stress == stress then Some(caps[0])
    else CapOf(caps[1..], asset, stress)
  }

  function RouteOf(table: seq<Route>, asset: AssetId, stress: nat): Option<Route> {
    if table == [] then None
    else if table[0].source == asset && table[0].stress == stress then Some(table[0])
    else RouteOf(table[1..], asset, stress)
  }

  function StateOf(states: seq<State>, asset: AssetId): Option<State> {
    if states == [] then None else if states[0].asset == asset then Some(states[0]) else StateOf(states[1..], asset)
  }

  lemma {:induction false} StateFound(states: seq<State>, asset: AssetId)
    ensures StateOf(states, asset).Some? <==> exists k :: 0 <= k < |states| && states[k].asset == asset
    ensures StateOf(states, asset).Some? ==> StateOf(states, asset).value in states
  {
    if states != [] {
      StateFound(states[1..], asset);
      assert forall k :: 1 <= k < |states| ==> states[k] == states[1..][k - 1];
      if exists k :: 0 <= k < |states[1..]| && states[1..][k].asset == asset {
        var k :| 0 <= k < |states[1..]| && states[1..][k].asset == asset;
        assert states[k + 1].asset == asset;
      }
    }
  }

  lemma {:induction false} CapFound(caps: seq<Cap>, asset: AssetId, stress: nat)
    ensures CapOf(caps, asset, stress).Some? ==> CapOf(caps, asset, stress).value in caps
  {
    if caps != [] {
      CapFound(caps[1..], asset, stress);
    }
  }

  lemma {:induction false} RouteFound(table: seq<Route>, asset: AssetId, stress: nat)
    ensures var r := RouteOf(table, asset, stress);
      r.Some? ==> r.value in table && r.value.source == asset && r.value.stress == stress
  {
    if table != [] {
      RouteFound(table[1..], asset, stress);
    }
  }

  // ---------- What a state may send ----------

  function Liquidities(states: seq<State>): (s: seq<real>) {
    seq(|states|, k requires 0 <= k < |states| => states[k].liquidity)
  }

  function TotalValue(p: Problem): real { Sum(Liquidities(p.states)) }

  function SurplusRatio(p: Problem, i: nat): real
    requires i < |p.states|
  {
    var surplus := p.states[i].ratio - TargetOf(p.decisions, p.states[i].asset, p.states[i].ratio);
    if surplus < 0.0 then 0.0 else surplus
  }

  function Surplus(p: Problem, i: nat): real
    requires i < |p.states|
  {
    SurplusRatio(p, i) * TotalValue(p)
  }

  function MaxOut(p: Problem, asset: AssetId): real {
    match CapOf(p.caps, asset, p.stress) case None => 1.0 case Some(c) => c.maxOut
  }

  function MaxIn(p: Problem, asset: AssetId): real {
    match CapOf(p.caps, asset, p.stress) case None => 1.0 case Some(c) => c.maxIn
  }

  function OutflowCap(p: Problem, i: nat): real
    requires i < |p.states|
  {
    p.states[i].liquidity * MaxOut(p, p.states[i].asset)
  }

  function Movable(p: Problem, i: nat): real
    requires i < |p.states|
  {
    Min(Surplus(p, i), OutflowCap(p, i))
  }

  // ---------- Sums over flows ----------

  function Sends(flows: seq<Flow>, asset: AssetId): (s: seq<real>)
    ensures |s| == |flows|
  {
    seq(|flows|, k requires 0 <= k < |flows| => if flows[k].source == asset then flows[k].amount else 0.0)
  }

  function Receives(flows: seq<Flow>, asset: AssetId): (s: seq<real>)
    ensures |s| == |flows|
  {
    seq(|flows|, k requires 0 <= k < |flows| => if flows[k].target == asset then flows[k].amount else 0.0)
  }

  function Amounts(flows: seq<Flow>): (s: seq<real>)
    ensures |s| == |flows|
  {
    seq(|flows|, k requires 0 <= k < |flows| => flows[k].amount)
  }

  function Outflow(flows: seq<Flow>, asset: AssetId): real { Sum(Sends(flows, asset)) }
  function Inflow(flows: seq<Flow>, asset: AssetId): real { Sum(Receives(flows, asset)) }
  function Net(flows: seq<Flow>, asset: AssetId): real { Inflow(flows, asset) - Outflow(flows, asset) }
  function TotalShift(flows: seq<Flow>): real { Sum(Amounts(flows)) }

  lemma FlowSnoc(flows: seq<Flow>, f: Flow, asset: AssetId)
    ensures Outflow(flows + [f], asset) == Outflow(flows, asset) + if f.source == asset then f.amount else 0.0
    ensures Inflow(flows + [f], asset) == Inflow(flows, asset) + if f.target == asset then f.amount else 0.0
    ensures TotalShift(flows + [f]) == TotalShift(flows) + f.amount
  {
    SumSnoc(Sends(flows, asset), if f.source == asset then f.amount else 0.0);
    SumSnoc(Receives(flows, asset), if f.target == asset then f.amount else 0.0);
    SumSnoc(Amounts(flows), f.amount);
    assert Sends(flows + [f], asset) == Sends(flows, asset) + [if f.source == asset then f.amount else 0.0];
    assert Receives(flows + [f], asset) == Receives(flows, asset) + [if f.target == asset then f.amount else 0.0];
    assert Amounts(flows + [f]) == Amounts(flows) + [f.amount];
  }

  // ---------- Step 1: proposals under the inflow caps ----------

  /** What the asset's first state and first cap let it take in; nothing for an unknown asset. */
  function InflowCap(p: Problem, asset: AssetId): real {
    match StateOf(p.states, asset) case None => 0.0 case Some(s) => s.liquidity * MaxIn(p, asset)
  }

  predicate Blocked(p: Problem, flows: seq<Flow>, target: AssetId, amount: real) {
    match StateOf(p.states, target)
    case None => true
    case Some(s) => s.flags % 2 == 1 || Inflow(flows, target) + amount > InflowCap(p, target)
  }

  function ChosenTarget(p: Problem, flows: seq<Flow>, r: Route, amount: real): AssetId {
    if !Blocked(p, flows, r.primary, amount) then r.primary
    else if !Blocked(p, flows, r.fallback, amount) then r.fallback
    else r.source
  }

  function Desired(p: Problem, i: nat, r: Route): real
    requires i < |p.states|
  {
    Movable(p, i) * r.ratio
  }

  /** What state i proposes after the flows of the states before it. */
  function ProposalOf(p: Problem, flows: seq<Flow>, i: nat): Option<Flow>
    requires i < |p.states|
  {
    var asset := p.states[i].asset;
    if Movable(p, i) <= 0.0 then None
    else
      match RouteOf(p.table, asset, p.stress)
      case None => None
      case Some(r) =>
        var desired := Desired(p, i, r);
        if desired <= 0.0 then None
        else
          var target := ChosenTarget(p, flows, r, desired);
          if target == asset then None else Some(Flow(i, asset, target, desired))
  }

  function With(flows: seq<Flow>, more: Option<Flow>): seq<Flow> {
    if more.None? then flows else flows + [more.value]
  }

  function Proposed(p: Problem, n: nat): seq<Flow>
    requires n <= |p.states|
  {
    if n == 0 then [] else With(Proposed(p, n - 1), ProposalOf(p, Proposed(p, n - 1), n - 1))
  }

  /** A flow leaves a state of its source for another, known and unfrozen asset, within what that
      state may send. */
  ghost predicate FlowOk(p: Problem, f: Flow) {
    && f.state < |p.states| && f.source == p.states[f.state].asset && f.target != f.source
    && 0.0 < f.amount <= Surplus(p, f.state) && f.amount <= OutflowCap(p, f.state)
    && StateOf(p.states, f.target).Some? && StateOf(p.states, f.target).value.flags % 2 == 0
  }

  ghost predicate AllFlowsOk(p: Problem, flows: seq<Flow>) {
    forall k :: 0 <= k < |flows| ==> FlowOk(p, flows[k])
  }

  /** One flow a state at most, in the order of the states. */
  ghost predicate StatesAscend(flows: seq<Flow>) {
    forall j, k :: 0 <= j < k < |flows| ==> flows[j].state < flows[k].state
  }

  ghost predicate InflowsWithin(p: Problem, flows: seq<Flow>) {
    forall asset: AssetId :: Inflow(flows, asset) <= InflowCap(p, asset)
  }

  ghost predicate ProposedOk(p: Problem, flows: seq<Flow>, n: nat) {
    && |flows| <= n && AllFlowsOk(p, flows) && StatesAscend(flows) && InflowsWithin(p, flows)
    && forall k :: 0 <= k < |flows| ==> flows[k].state < n
  }

  lemma ShareOf(x: real, f: real, share: real)
    requires 0.0 <= x && Unit(f) && share == x * f
    ensures 0.0 <= share <= x
  {
    MulMonotone(0.0, x, f);
    assert x * (1.0 - f) >= 0.0;
    assert x * (1.0 - f) == x - x * f;
  }

  lemma RatioUnit(p: Problem, asset: AssetId)
    requires Valid(p)
    ensures RouteOf(p.table, asset, p.stress).Some? ==>
      Unit(RouteOf(p.table, asset, p.stress).value.ratio) && RouteOf(p.table, asset, p.stress).value.source == asset
  {
    RouteFound(p.table, asset, p.stress);
  }

  lemma ChosenNotBlocked(p: Problem, flows: seq<Flow>, r: Route, amount: real)
    ensures var t := ChosenTarget(p, flows, r, amount);
      t != r.source ==> !Blocked(p, flows, t, amount)
  {
  }

  lemma DesiredWithin(p: Problem, i: nat, r: Route)
    requires i < |p.states| && Movable(p, i) >= 0.0 && Unit(r.ratio)
    ensures Desired(p, i, r) <= Surplus(p, i) && Desired(p, i, r) <= OutflowCap(p, i)
  {
    ShareOf(Movable(p, i), r.ratio, Desired(p, i, r));
  }

  lemma ProposalOk(p: Problem, flows: seq<Flow>, i: nat)
    requires Valid(p) && i < |p.states| && ProposalOf(p, flows, i).Some?
    ensures var f := ProposalOf(p, flows, i).value;
      FlowOk(p, f) && f.state == i && !Blocked(p, flows, f.target, f.amount)
  {
    var r := RouteOf(p.table, p.states[i].asset, p.stress).value;
    RatioUnit(p, p.states[i].asset);
    DesiredWithin(p, i, r);
    ChosenNotBlocked(p, flows, r, Desired(p, i, r));
    assert ProposalOf(p, flows, i).value ==
      Flow(i, p.states[i].asset, ChosenTarget(p, flows, r, Desired(p, i, r)), Desired(p, i, r));
  }

  lemma InflowCapNonNegative(p: Problem, asset: AssetId)
    requires Valid(p)
    ensures InflowCap(p, asset) >= 0.0
  {
    StateFound(p.states, asset);
    CapFound(p.caps, asset, p.stress);
    if StateOf(p.states, asset).Some? {
      ShareOf(StateOf(p.states, asset).value.liquidity, MaxIn(p, asset), InflowCap(p, asset));
    }
  }

  lemma InflowsAfter(p: Problem, flows: seq<Flow>, f: Flow)
    requires InflowsWithin(p, flows) && !Blocked(p, flows, f.target, f.amount)
    ensures InflowsWithin(p, flows + [f])
  {
    forall asset: AssetId ensures Inflow(flows + [f], asset) <= InflowCap(p, asset) {
      FlowSnoc(flows, f, asset);
    }
  }

  lemma ProposedStep(p: Problem, before: seq<Flow>, f: Flow, i: nat)
    requires ProposedOk(p, before, i) && FlowOk(p, f) && f.state == i && !Blocked(p, before, f.target, f.amount)
    ensures ProposedOk(p, before + [f], i + 1)
  {
    InflowsAfter(p, before, f);
  }

  lemma NothingProposed(p: Problem)
    requires Valid(p)
    ensures ProposedOk(p, [], 0)
  {
    forall asset: AssetId ensures Inflow([], asset) <= InflowCap(p, asset) {
      InflowCapNonNegative(p, asset);
    }
  }

  lemma {:induction false} ProposedIsOk(p: Problem, n: nat)
    requires Valid(p) && n <= |p.states|
    ensures ProposedOk(p, Proposed(p, n), n)
  {
    if n == 0 {
      NothingProposed(p);
    } else {
      var before := Proposed(p, n - 1);
      ProposedIsOk(p, n - 1);
      var more := ProposalOf(p, before, n - 1);
      if more.Some? {
        ProposalOk(p, before, n - 1);
        ProposedStep(p, before, more.value, n - 1);
      } else {
        assert Proposed(p, n) == before;
      }
    }
  }

  // ---------- Step 4: the shock bounds ----------

  function AssetBound(p: Problem, k: nat): real
    requires k < |p.states|
  {
    p.maxAsset * p.states[k].liquidity
  }

  /** How far the flows of the asset of state k must shrink. */
  function ShiftFactor(p: Problem, flows: seq<Flow>, k: nat): real
    requires k < |p.states|
  {
    var net := Abs(Net(flows, p.states[k].asset));
    if net > AssetBound(p, k) && net > 0.0 then AssetBound(p, k) / net else 1.0
  }

  predicate Touches(f: Flow, asset: AssetId) { f.source == asset || f.target == asset }

  /** The least factor among the first n states of either end of the flow. */
  function MinFactor(p: Problem, flows: seq<Flow>, f: Flow, n: nat): real
    requires n <= |p.states|
  {
    if n == 0 then 1.0
    else
      var least := MinFactor(p, flows, f, n - 1);
      if Touches(f, p.states[n - 1].asset) && ShiftFactor(p, flows, n - 1) < least
      then ShiftFactor(p, flows, n - 1) else least
  }

  function AssetScaled(p: Problem, flows: seq<Flow>): (r: seq<Flow>)
    ensures |r| == |flows|
  {
    seq(|flows|, k requires 0 <= k < |flows| =>
      ScaledFlow(flows[k], MinFactor(p, flows, flows[k], |p.states|)))
  }

  function ScaledFlow(f: Flow, factor: real): Flow { f.(amount := f.amount * factor) }

  function PortfolioFactor(p: Problem, flows: seq<Flow>): real {
    var bound := p.maxPortfolio * TotalValue(p);
    if TotalShift(flows) > bound && TotalShift(flows) > 0.0 then bound / TotalShift(flows) else 1.0
  }

  function AllScaled(flows: seq<Flow>, factor: real): (r: seq<Flow>)
    ensures |r| == |flows|
  {
    seq(|flows|, k requires 0 <= k < |flows| => ScaledFlow(flows[k], factor))
  }

  /** Flows that came out as nothing are dropped. */
  function Positive(flows: seq<Flow>): seq<Flow> {
    if flows == [] then []
    else Positive(flows[..|flows| - 1]) + if flows[|flows| - 1].amount > 0.0 then [flows[|flows| - 1]] else []
  }

  function Bounded(p: Problem, flows: seq<Flow>): seq<Flow> {
    var scaled := AssetScaled(p, flows);
    AllScaled(scaled, PortfolioFactor(p, scaled))
  }

  function Routed(p: Problem): seq<Flow> {
    if TotalValue(p) <= 0.0 then [] else Positive(Bounded(p, Proposed(p, |p.states|)))
  }

  /** now is before with every amount scaled by some factor between zero and one. */
  ghost predicate Reduced(now: seq<Flow>, before: seq<Flow>) {
    && |now| == |before|
    && forall k :: 0 <= k < |now| ==> ReducedFlow(now[k], before[k])
  }

  ghost predicate ReducedFlow(now: Flow, before: Flow) {
    now == before.(amount := now.amount) && 0.0 <= now.amount <= before.amount
  }

  lemma ShiftFactorUnit(p: Problem, flows: seq<Flow>, k: nat)
    requires Valid(p) && k < |p.states|
    ensures Unit(ShiftFactor(p, flows, k))
    ensures ShiftFactor(p, flows, k) * Abs(Net(flows, p.states[k].asset)) <= AssetBound(p, k)
  {
    MulMonotone(0.0, p.states[k].liquidity, p.maxAsset);
    FactorMeetsBound(AssetBound(p, k), Abs(Net(flows, p.states[k].asset)), ShiftFactor(p, flows, k));
  }

  lemma FactorMeetsBound(bound: real, net: real, factor: real)
    requires 0.0 <= bound && factor == if net > bound && net > 0.0 then bound / net else 1.0
    ensures Unit(factor) && factor * net <= bound
  {
    if net > bound {
      FactorInUnit(bound, net);
    }
  }

  lemma {:induction false} MinFactorLeast(p: Problem, flows: seq<Flow>, f: Flow, n: nat)
    requires Valid(p) && n <= |p.states|
    ensures Unit(MinFactor(p, flows, f, n))
    ensures forall k :: 0 <= k < n && Touches(f, p.states[k].asset) ==>
      MinFactor(p, flows, f, n) <= ShiftFactor(p, flows, k)
  {
    if n > 0 {
      MinFactorLeast(p, flows, f, n - 1);
      ShiftFactorUnit(p, flows, n - 1);
    }
  }

  lemma ScaledFlowReduced(f: Flow, factor: real)
    requires Unit(factor) && f.amount >= 0.0
    ensures ReducedFlow(ScaledFlow(f, factor), f)
  {
    ShareOf(f.amount, factor, ScaledFlow(f, factor).amount);
  }

  lemma AssetScaledReduces(p: Problem, flows: seq<Flow>)
    requires Valid(p) && forall k :: 0 <= k < |flows| ==> flows[k].amount >= 0.0
    ensures Reduced(AssetScaled(p, flows), flows)
  {
    forall k | 0 <= k < |flows| ensures ReducedFlow(AssetScaled(p, flows)[k], flows[k]) {
      MinFactorLeast(p, flows, flows[k], |p.states|);
      ScaledFlowReduced(flows[k], MinFactor(p, flows, flows[k], |p.states|));
    }
  }

  lemma PortfolioBoundNonNegative(p: Problem)
    requires Valid(p)
    ensures TotalValue(p) >= 0.0 && p.maxPortfolio * TotalValue(p) >= 0.0
  {
    SumNonNegative(Liquidities(p.states));
    MulMonotone(0.0, TotalValue(p), p.maxPortfolio);
  }

  lemma AllScaledReduces(flows: seq<Flow>, factor: real)
    requires Unit(factor) && forall k :: 0 <= k < |flows| ==> flows[k].amount >= 0.0
    ensures Reduced(AllScaled(flows, factor), flows)
  {
    forall k | 0 <= k < |flows| ensures ReducedFlow(AllScaled(flows, factor)[k], flows[k]) {
      ScaledFlowReduced(flows[k], factor);
    }
  }

  lemma ScaledAmounts(flows: seq<Flow>, factor: real)
    ensures Image(Amounts(AllScaled(flows, factor)), Amounts(flows), (x: real) => factor * x)
  {
  }

  lemma ShiftScales(flows: seq<Flow>, factor: real)
    ensures TotalShift(AllScaled(flows, factor)) == factor * TotalShift(flows)
  {
    ScalingIsAdditive(factor);
    ScaledAmounts(flows, factor);
    SumOfImage(Amounts(AllScaled(flows, factor)), Amounts(flows), (x: real) => factor * x);
  }

  lemma PortfolioFactorMeets(p: Problem, flows: seq<Flow>)
    requires Valid(p)
    ensures Unit(PortfolioFactor(p, flows))
    ensures PortfolioFactor(p, flows) * TotalShift(flows) <= p.maxPortfolio * TotalValue(p)
  {
    PortfolioBoundNonNegative(p);
    FactorMeetsBound(p.maxPortfolio * TotalValue(p), TotalShift(flows), PortfolioFactor(p, flows));
  }

  lemma ReducedTwice(a: seq<Flow>, b: seq<Flow>, c: seq<Flow>)
    requires Reduced(a, b) && Reduced(b, c)
    ensures Reduced(a, c)
  {
    forall k | 0 <= k < |a| ensures ReducedFlow(a[k], c[k]) {
      assert ReducedFlow(a[k], b[k]) && ReducedFlow(b[k], c[k]);
    }
  }

  lemma BoundedOk(p: Problem, flows: seq<Flow>)
    requires Valid(p) && forall k :: 0 <= k < |flows| ==> flows[k].amount >= 0.0
    ensures Reduced(Bounded(p, flows), flows)
    ensures Reduced(Bounded(p, flows), AssetScaled(p, flows))
    ensures TotalShift(Bounded(p, flows)) <= p.maxPortfolio * TotalValue(p)
  {
    var scaled := AssetScaled(p, flows);
    AssetScaledReduces(p, flows);
    PortfolioFactorMeets(p, scaled);
    assert forall k :: 0 <= k < |flows| ==> ReducedFlow(scaled[k], flows[k]);
    AllScaledReduces(scaled, PortfolioFactor(p, scaled));
    ReducedTwice(Bounded(p, flows), scaled, flows);
    ShiftScales(scaled, PortfolioFactor(p, scaled));
  }

  lemma ScaledByOne(f: Flow)
    ensures ScaledFlow(f, 1.0) == f
  {
  }

  lemma AllScaledByOne(flows: seq<Flow>)
    ensures AllScaled(flows, 1.0) == flows
  {
    forall k | 0 <= k < |flows| ensures AllScaled(flows, 1.0)[k] == flows[k] {
      ScaledByOne(flows[k]);
    }
  }

  lemma {:induction false} MinFactorOne(p: Problem, flows: seq<Flow>, f: Flow, n: nat)
    requires n <= |p.states| && forall k :: 0 <= k < n ==> ShiftFactor(p, flows, k) == 1.0
    ensures MinFactor(p, flows, f, n) == 1.0
  {
    if n > 0 {
      MinFactorOne(p, flows, f, n - 1);
    }
  }

  ghost predicate MeetsBounds(p: Problem, flows: seq<Flow>) {
    && (forall k :: 0 <= k < |p.states| ==> Abs(Net(flows, p.states[k].asset)) <= AssetBound(p, k))
    && TotalShift(flows) <= p.maxPortfolio * TotalValue(p)
  }

  /** Flows that already meet every bound are not scaled. */
  lemma WithinBoundsUnscaled(p: Problem, flows: seq<Flow>)
    requires MeetsBounds(p, flows)
    ensures Bounded(p, flows) == flows
  {
    assert forall k :: 0 <= k < |p.states| ==> ShiftFactor(p, flows, k) == 1.0;
    forall k | 0 <= k < |flows| ensures AssetScaled(p, flows)[k] == flows[k] {
      MinFactorOne(p, flows, flows[k], |p.states|);
      ScaledByOne(flows[k]);
    }
    assert AssetScaled(p, flows) == flows;
    assert PortfolioFactor(p, flows) == 1.0;
    AllScaledByOne(flows);
  }

  /** Where the portfolio bound was exceeded the total ends exactly at it. */
  lemma PortfolioBoundExact(p: Problem, flows: seq<Flow>)
    requires Valid(p) && TotalShift(AssetScaled(p, flows)) > p.maxPortfolio * TotalValue(p)
    ensures TotalShift(Bounded(p, flows)) == p.maxPortfolio * TotalValue(p)
  {
    var scaled := AssetScaled(p, flows);
    PortfolioBoundNonNegative(p);
    FactorInUnit(p.maxPortfolio * TotalValue(p), TotalShift(scaled));
    ShiftScales(scaled, PortfolioFactor(p, scaled));
  }

  // ---------- What survives to the end ----------

  lemma PositiveSnoc(flows: seq<Flow>, f: Flow)
    ensures Positive(flows + [f]) == if f.amount > 0.0 then Positive(flows) + [f] else Positive(flows)
  {
    assert (flows + [f])[..|flows|] == flows;
    assert Positive(flows) + [] == Positive(flows);
  }

  ghost predicate SameSums(a: seq<Flow>, b: seq<Flow>, asset: AssetId) {
    Inflow(a, asset) == Inflow(b, asset) && Outflow(a, asset) == Outflow(b, asset) && TotalShift(a) == TotalShift(b)
  }

  lemma SameSumsSnoc(a: seq<Flow>, b: seq<Flow>, f: Flow, asset: AssetId)
    requires SameSums(a, b, asset) && f.amount >= 0.0
    ensures SameSums(if f.amount > 0.0 then a + [f] else a, b + [f], asset)
  {
    FlowSnoc(a, f, asset);
    FlowSnoc(b, f, asset);
  }

  lemma {:induction false} PositiveKeepsSums(flows: seq<Flow>, asset: AssetId)
    requires forall k :: 0 <= k < |flows| ==> flows[k].amount >= 0.0
    ensures SameSums(Positive(flows), flows, asset)
  {
    if flows != [] {
      var n := |flows| - 1;
      PositiveKeepsSums(flows[..n], asset);
      PositiveSnoc(flows[..n], flows[n]);
      SameSumsSnoc(Positive(flows[..n]), flows[..n], flows[n], asset);
      assert flows == flows[..n] + [flows[n]];
    }
  }

  /** Every kept flow is a reduction of some proposed one, in the same order. */
  ghost predicate KeptFrom(kept: seq<Flow>, flows: seq<Flow>, n: nat) {
    && StatesAscend(kept)
    && forall k :: 0 <= k < |kept| ==> kept[k].state < n && kept[k] in flows && kept[k].amount > 0.0
  }

  lemma KeptSnoc(kept: seq<Flow>, flows: seq<Flow>, f: Flow, n: nat)
    requires KeptFrom(kept, flows, f.state) && f.state < n
    ensures KeptFrom(if f.amount > 0.0 then kept + [f] else kept, flows + [f], n)
  {
  }

  lemma PositiveKeptStep(front: seq<Flow>, f: Flow, n: nat)
    requires KeptFrom(Positive(front), front, f.state) && f.state < n
    ensures KeptFrom(Positive(front + [f]), front + [f], n)
  {
    KeptSnoc(Positive(front), front, f, n);
    PositiveSnoc(front, f);
  }

  lemma {:induction false} PositiveKept(flows: seq<Flow>, n: nat)
    requires StatesAscend(flows) && forall k :: 0 <= k < |flows| ==> flows[k].state < n
    ensures KeptFrom(Positive(flows), flows, n)
  {
    if flows != [] {
      var m := |flows| - 1;
      PositiveKept(flows[..m], flows[m].state);
      PositiveKeptStep(flows[..m], flows[m], n);
      assert flows == flows[..m] + [flows[m]];
    }
  }

  lemma ReducedInflow(now: seq<Flow>, before: seq<Flow>, asset: AssetId)
    requires Reduced(now, before)
    ensures Inflow(now, asset) <= Inflow(before, asset)
  {
    forall k | 0 <= k < |now| ensures Receives(now, asset)[k] <= Receives(before, asset)[k] {
      assert ReducedFlow(now[k], before[k]);
    }
    SumAtMost(Receives(now, asset), Receives(before, asset));
  }

  ghost predicate RouteWithin(p: Problem, flows: seq<Flow>) {
    && AllFlowsOk(p, flows) && StatesAscend(flows) && InflowsWithin(p, flows)
    && TotalShift(flows) <= p.maxPortfolio * TotalValue(p)
  }

  lemma KeptOk(p: Problem, kept: seq<Flow>, bounded: seq<Flow>, proposed: seq<Flow>, n: nat)
    requires AllFlowsOk(p, proposed) && Reduced(bounded, proposed) && KeptFrom(kept, bounded, n)
    ensures AllFlowsOk(p, kept)
  {
    forall k | 0 <= k < |kept| ensures FlowOk(p, kept[k]) {
      var j :| 0 <= j < |bounded| && bounded[j] == kept[k];
      assert FlowOk(p, proposed[j]) && ReducedFlow(bounded[j], proposed[j]);
    }
  }

  lemma ReducedStates(now: seq<Flow>, before: seq<Flow>, n: nat)
    requires Reduced(now, before) && StatesAscend(before) && forall k :: 0 <= k < |before| ==> before[k].state < n
    ensures StatesAscend(now) && forall k :: 0 <= k < |now| ==> now[k].state < n && now[k].amount >= 0.0
  {
    forall k | 0 <= k < |now| ensures now[k].state == before[k].state && now[k].amount >= 0.0 {
      assert ReducedFlow(now[k], before[k]);
    }
  }

  lemma KeptInflows(p: Problem, bounded: seq<Flow>, proposed: seq<Flow>)
    requires Reduced(bounded, proposed) && InflowsWithin(p, proposed)
    requires forall k :: 0 <= k < |bounded| ==> bounded[k].amount >= 0.0
    ensures InflowsWithin(p, Positive(bounded))
  {
    forall asset: AssetId ensures Inflow(Positive(bounded), asset) <= InflowCap(p, asset) {
      PositiveKeepsSums(bounded, asset);
      ReducedInflow(bounded, proposed, asset);
    }
  }

  /** Both scalings keep what step 1 established: every state sends at most its surplus and its
      outflow cap and only to known unfrozen assets, every asset takes in at most its cap, and all
      flows together stay within the portfolio bound. */
  lemma RoutingBounds(p: Problem)
    requires Valid(p)
    ensures RouteWithin(p, Routed(p))
  {
    PortfolioBoundNonNegative(p);
    if TotalValue(p) <= 0.0 {
      forall asset: AssetId ensures Inflow([], asset) <= InflowCap(p, asset) {
        InflowCapNonNegative(p, asset);
      }
    } else {
      var n := |p.states|;
      var proposed := Proposed(p, n);
      var bounded := Bounded(p, proposed);
      ProposedIsOk(p, n);
      assert forall k :: 0 <= k < |proposed| ==> FlowOk(p, proposed[k]);
      BoundedOk(p, proposed);
      ReducedStates(bounded, proposed, n);
      PositiveKept(bounded, n);
      KeptOk(p, Positive(bounded), bounded, proposed, n);
      KeptInflows(p, bounded, proposed);
      PositiveKeepsSums(bounded, 0);
    }
  }

  lemma {:induction false} AllPositive(flows: seq<Flow>)
    requires forall k :: 0 <= k < |flows| ==> flows[k].amount > 0.0
    ensures Positive(flows) == flows
  {
    if flows != [] {
      AllPositive(flows[..|flows| - 1]);
      assert flows == flows[..|flows| - 1] + [flows[|flows| - 1]];
    }
  }

  /** Proposals that meet every bound are routed in full. */
  lemma RoutedInFull(p: Problem)
    requires Valid(p) && TotalValue(p) > 0.0 && MeetsBounds(p, Proposed(p, |p.states|))
    ensures Routed(p) == Proposed(p, |p.states|)
  {
    var flows := Proposed(p, |p.states|);
    WithinBoundsUnscaled(p, flows);
    ProposedIsOk(p, |p.states|);
    assert forall k :: 0 <= k < |flows| ==> FlowOk(p, flows[k]);
    AllPositive(flows);
  }

  // ---------- The bound on a single asset ----------

  /** The asset is on one side of the flows only. */
  ghost predicate OneWay(flows: seq<Flow>, asset: AssetId) {
    (forall k :: 0 <= k < |flows| ==> flows[k].source != asset) ||
    (forall k :: 0 <= k < |flows| ==> flows[k].target != asset)
  }

  function Times(s: seq<real>, f: real): (r: seq<real>)
    ensures |r| == |s|
  {
    seq(|s|, k requires 0 <= k < |s| => f * s[k])
  }

  lemma SumTimes(s: seq<real>, f: real)
    ensures Sum(Times(s, f)) == f * Sum(s)
  {
    ScalingIsAdditive(f);
    SumOfImage(Times(s, f), s, (x: real) => f * x);
  }

  ghost predicate ShrunkBy(now: seq<Flow>, before: seq<Flow>, asset: AssetId, f: real) {
    && Reduced(now, before)
    && forall k :: 0 <= k < |now| && Touches(before[k], asset) ==> now[k].amount <= f * before[k].amount
  }

  lemma ScaledAtMost(f: Flow, now: Flow, scaled: Flow, least: real, factor: real)
    requires scaled == ScaledFlow(f, least) && ReducedFlow(now, scaled) && least <= factor && f.amount >= 0.0
    ensures now.amount <= factor * f.amount
  {
    MulMonotone(least, factor, f.amount);
  }

  lemma TouchingFlowsShrink(p: Problem, flows: seq<Flow>, k: nat)
    requires Valid(p) && k < |p.states| && forall j :: 0 <= j < |flows| ==> flows[j].amount >= 0.0
    ensures ShrunkBy(Bounded(p, flows), flows, p.states[k].asset, ShiftFactor(p, flows, k))
  {
    var now, scaled := Bounded(p, flows), AssetScaled(p, flows);
    var factor := ShiftFactor(p, flows, k);
    BoundedOk(p, flows);
    forall j | 0 <= j < |now| && Touches(flows[j], p.states[k].asset)
      ensures now[j].amount <= factor * flows[j].amount
    {
      assert ReducedFlow(now[j], scaled[j]);
      MinFactorLeast(p, flows, flows[j], |p.states|);
      ScaledAtMost(flows[j], now[j], scaled[j], MinFactor(p, flows, flows[j], |p.states|), factor);
    }
  }

  lemma SendsBelow(now: seq<Flow>, before: seq<Flow>, asset: AssetId, f: real)
    requires ShrunkBy(now, before, asset, f)
    ensures NonNegative(Sends(now, asset)) && AtMost(Sends(now, asset), Times(Sends(before, asset), f))
  {
    forall k | 0 <= k < |now| ensures 0.0 <= Sends(now, asset)[k] <= Times(Sends(before, asset), f)[k] {
      assert ReducedFlow(now[k], before[k]);
      if !Touches(before[k], asset) {
        assert f * 0.0 == 0.0;
      }
    }
  }

  lemma ShrunkSends(now: seq<Flow>, before: seq<Flow>, asset: AssetId, f: real)
    requires ShrunkBy(now, before, asset, f)
    ensures 0.0 <= Outflow(now, asset) <= f * Outflow(before, asset)
  {
    SendsBelow(now, before, asset, f);
    SumNonNegative(Sends(now, asset));
    SumAtMost(Sends(now, asset), Times(Sends(before, asset), f));
    SumTimes(Sends(before, asset), f);
  }

  lemma ReceivesBelow(now: seq<Flow>, before: seq<Flow>, asset: AssetId, f: real)
    requires ShrunkBy(now, before, asset, f)
    ensures NonNegative(Receives(now, asset)) && AtMost(Receives(now, asset), Times(Receives(before, asset), f))
  {
    forall k | 0 <= k < |now| ensures 0.0 <= Receives(now, asset)[k] <= Times(Receives(before, asset), f)[k] {
      assert ReducedFlow(now[k], before[k]);
      if !Touches(before[k], asset) {
        assert f * 0.0 == 0.0;
      }
    }
  }

  lemma ShrunkReceives(now: seq<Flow>, before: seq<Flow>, asset: AssetId, f: real)
    requires ShrunkBy(now, before, asset, f)
    ensures 0.0 <= Inflow(now, asset) <= f * Inflow(before, asset)
  {
    ReceivesBelow(now, before, asset, f);
    SumNonNegative(Receives(now, asset));
    SumAtMost(Receives(now, asset), Times(Receives(before, asset), f));
    SumTimes(Receives(before, asset), f);
  }

  lemma RoutedNet(p: Problem, asset: AssetId)
    requires Valid(p) && TotalValue(p) > 0.0
    ensures Net(Routed(p), asset) == Net(Bounded(p, Proposed(p, |p.states|)), asset)
  {
    var proposed := Proposed(p, |p.states|);
    ProposedAmounts(p);
    BoundedOk(p, proposed);
    assert forall j :: 0 <= j < |proposed| ==> ReducedFlow(Bounded(p, proposed)[j], proposed[j]);
    PositiveKeepsSums(Bounded(p, proposed), asset);
  }

  lemma ProposedAmounts(p: Problem)
    requires Valid(p)
    ensures forall k :: 0 <= k < |Proposed(p, |p.states|)| ==> Proposed(p, |p.states|)[k].amount >= 0.0
  {
    ProposedIsOk(p, |p.states|);
    assert forall k :: 0 <= k < |Proposed(p, |p.states|)| ==> FlowOk(p, Proposed(p, |p.states|)[k]);
  }

  /** The most that an asset's proposals can still move after its own scaling, whichever way. */
  function MostMoved(p: Problem, flows: seq<Flow>, k: nat): real
    requires k < |p.states|
  {
    ShiftFactor(p, flows, k) * Max(Inflow(flows, p.states[k].asset), Outflow(flows, p.states[k].asset))
  }

  lemma ShrunkNet(now: seq<Flow>, before: seq<Flow>, asset: AssetId, f: real, most: real)
    requires ShrunkBy(now, before, asset, f) && 0.0 <= f
    requires most == f * Max(Inflow(before, asset), Outflow(before, asset))
    ensures Abs(Net(now, asset)) <= most
  {
    ShrunkSends(now, before, asset, f);
    ShrunkReceives(now, before, asset, f);
    ScaledUpTo(f, Inflow(before, asset), Outflow(before, asset), Inflow(now, asset), Outflow(now, asset), most);
  }

  lemma ScaledUpTo(f: real, x: real, y: real, x': real, y': real, most: real)
    requires 0.0 <= f && x' <= f * x && y' <= f * y && most == f * Max(x, y)
    ensures x' <= most && y' <= most
  {
    MulMonotone(x, Max(x, y), f);
    MulMonotone(y, Max(x, y), f);
  }

  lemma FlowsNonNegative(flows: seq<Flow>, asset: AssetId)
    requires forall k :: 0 <= k < |flows| ==> flows[k].amount >= 0.0
    ensures Inflow(flows, asset) >= 0.0 && Outflow(flows, asset) >= 0.0
  {
    SumNonNegative(Receives(flows, asset));
    SumNonNegative(Sends(flows, asset));
  }

  lemma BoundedMoves(p: Problem, flows: seq<Flow>, k: nat, f: real, most: real)
    requires Valid(p) && k < |p.states| && forall j :: 0 <= j < |flows| ==> flows[j].amount >= 0.0
    requires f == ShiftFactor(p, flows, k) && most == MostMoved(p, flows, k)
    ensures 0.0 <= Abs(Net(Bounded(p, flows), p.states[k].asset)) <= most
  {
    hide ShrunkBy;
    assert 0.0 <= f by {
      ShiftFactorUnit(p, flows, k);
    }
    TouchingFlowsShrink(p, flows, k);
    ShrunkNet(Bounded(p, flows), flows, p.states[k].asset, f, most);
  }

  /** Any asset, sending and receiving included, moves by at most its shift factor times the larger
      of what was proposed to reach it and what was proposed to leave it. */
  lemma AssetMovesAtMost(p: Problem, k: nat)
    requires Valid(p) && k < |p.states|
    ensures Abs(Net(Routed(p), p.states[k].asset)) <= MostMoved(p, Proposed(p, |p.states|), k)
  {
    ProposedAmounts(p);
    var flows := Proposed(p, |p.states|);
    BoundedMoves(p, flows, k, ShiftFactor(p, flows, k), MostMoved(p, flows, k));
    if TotalValue(p) > 0.0 {
      RoutedNet(p, p.states[k].asset);
    }
  }

  /** So its bound, its share of each of its states' liquidity, holds whenever that is within it. */
  lemma AssetWithin(p: Problem, k: nat)
    requires Valid(p) && k < |p.states| && MostMoved(p, Proposed(p, |p.states|), k) <= AssetBound(p, k)
    ensures Abs(Net(Routed(p), p.states[k].asset)) <= AssetBound(p, k)
  {
    AssetMovesAtMost(p, k);
  }

  lemma OneWayNet(flows: seq<Flow>, asset: AssetId)
    requires OneWay(flows, asset) && forall k :: 0 <= k < |flows| ==> flows[k].amount >= 0.0
    ensures Max(Inflow(flows, asset), Outflow(flows, asset)) == Abs(Net(flows, asset))
  {
    FlowsNonNegative(flows, asset);
    if forall k :: 0 <= k < |flows| ==> flows[k].source != asset {
      SumOfZeros(Sends(flows, asset));
    } else {
      SumOfZeros(Receives(flows, asset));
    }
  }

  /** In particular for an asset that only sends or only receives. */
  lemma OneWayAssetWithin(p: Problem, k: nat)
    requires Valid(p) && k < |p.states| && OneWay(Proposed(p, |p.states|), p.states[k].asset)
    ensures Abs(Net(Routed(p), p.states[k].asset)) <= AssetBound(p, k)
  {
    var flows := Proposed(p, |p.states|);
    ProposedAmounts(p);
    OneWayNet(flows, p.states[k].asset);
    ShiftFactorUnit(p, flows, k);
    AssetWithin(p, k);
  }

  /** The routing table can settle beforehand that an asset goes one way: it is no source, or no
      target, of the rules for this stress level. */
  ghost predicate OneWayByTable(p: Problem, asset: AssetId) {
    (forall k :: 0 <= k < |p.table| && p.table[k].stress == p.stress ==> p.table[k].source != asset) ||
    (forall k :: 0 <= k < |p.table| && p.table[k].stress == p.stress ==>
       p.table[k].primary != asset && p.table[k].fallback != asset)
  }

  lemma {:induction false} TableDecides(p: Problem, n: nat, asset: AssetId)
    requires n <= |p.states| && OneWayByTable(p, asset)
    ensures forall k :: 0 <= k < |Proposed(p, n)| ==> FromTable(p, Proposed(p, n)[k])
    ensures OneWay(Proposed(p, n), asset)
  {
    if n > 0 {
      TableDecides(p, n - 1, asset);
      RouteFound(p.table, p.states[n - 1].asset, p.stress);
    }
    forall k | 0 <= k < |Proposed(p, n)| ensures FromTable(p, Proposed(p, n)[k]) {
    }
  }

  ghost predicate FromTable(p: Problem, f: Flow) {
    exists r :: r in p.table && r.stress == p.stress && r.source == f.source &&
      (r.primary == f.target || r.fallback == f.target)
  }

  // ---------- Nothing appears or disappears ----------

  function NetSum(flows: seq<Flow>, assets: seq<AssetId>): real {
    if assets == [] then 0.0 else NetSum(flows, assets[..|assets| - 1]) + Net(flows, assets[|assets| - 1])
  }

  function OneIf(b: bool, x: real): real { if b then x else 0.0 }

  lemma {:induction false} NetSumSnoc(flows: seq<Flow>, f: Flow, assets: seq<AssetId>)
    requires forall i, j :: 0 <= i < j < |assets| ==> assets[i] != assets[j]
    ensures NetSum(flows + [f], assets) ==
      NetSum(flows, assets) + OneIf(f.target in assets, f.amount) - OneIf(f.source in assets, f.amount)
  {
    if assets != [] {
      var n := |assets| - 1;
      NetSumSnoc(flows, f, assets[..n]);
      FlowSnoc(flows, f, assets[n]);
      assert assets == assets[..n] + [assets[n]];
    }
  }

  lemma {:induction false} NoFlowsNoNet(assets: seq<AssetId>)
    ensures NetSum([], assets) == 0.0
  {
    if assets != [] {
      NoFlowsNoNet(assets[..|assets| - 1]);
    }
  }

  /** Over any assets that cover both ends of every flow, the net flows sum to zero. */
  lemma {:induction false} NetsCancel(flows: seq<Flow>, assets: seq<AssetId>)
    requires forall i, j :: 0 <= i < j < |assets| ==> assets[i] != assets[j]
    requires forall k :: 0 <= k < |flows| ==> flows[k].source in assets && flows[k].target in assets
    ensures NetSum(flows, assets) == 0.0
  {
    if flows == [] {
      NoFlowsNoNet(assets);
    } else {
      var n := |flows| - 1;
      NetsCancel(flows[..n], assets);
      NetSumSnoc(flows[..n], flows[n], assets);
      assert flows == flows[..n] + [flows[n]];
    }
  }

  lemma EndsAreStates(p: Problem, f: Flow)
    requires FlowOk(p, f)
    ensures exists k :: 0 <= k < |p.states| && p.states[k].asset == f.source
    ensures exists k :: 0 <= k < |p.states| && p.states[k].asset == f.target
  {
    assert p.states[f.state].asset == f.source;
    StateFound(p.states, f.target);
  }

  lemma RoutedNetsCancel(p: Problem, assets: seq<AssetId>)
    requires Valid(p) && forall i, j :: 0 <= i < j < |assets| ==> assets[i] != assets[j]
    requires forall k :: 0 <= k < |p.states| ==> p.states[k].asset in assets
    ensures NetSum(Routed(p), assets) == 0.0
  {
    var flows := Routed(p);
    assert AllFlowsOk(p, flows) by {
      RoutingBounds(p);
    }
    forall k | 0 <= k < |flows| ensures flows[k].source in assets && flows[k].target in assets {
      EndsAreStates(p, flows[k]);
    }
    NetsCancel(flows, assets);
  }

  // ---------- An asset that does both ----------

  /** 0 may send its ten to 1, and 1 its ten to 2; three tenths of the liquidity may move. */
  function Relay(): Problem {
    Problem([Decision(0, 0.0), Decision(1, 0.0)], 0,
      [State(0, 0, 10.0, 1.0), State(1, 0, 10.0, 1.0), State(2, 0, 100.0, 1.0)], [],
      [Route(0, 1, 1, 0, 1.0), Route(1, 2, 2, 0, 1.0)], 1.0, 0.3)
  }

  lemma SumOfTwo(x: real, y: real)
    ensures Sum([x, y]) == x + y && Sum([x]) == x
  {
    SumSnoc([], x);
    SumSnoc([x], y);
    assert [] + [x] == [x] && [x] + [y] == [x, y];
  }

  lemma RelayTotal()
    ensures TotalValue(Relay()) == 120.0
  {
    SumOfTwo(10.0, 10.0);
    SumSnoc([10.0, 10.0], 100.0);
    assert Liquidities(Relay().states) == [10.0, 10.0] + [100.0];
  }

  lemma {:induction false} RelayMovable()
    ensures var p := Relay();
      Movable(p, 0) == 10.0 && Movable(p, 1) == 10.0 && Movable(p, 2) == 0.0
  {
    var p := Relay();
    RelayTotal();
    assert p.decisions[1..] == [Decision(1, 0.0)] && p.decisions[1..][1..] == [];
    assert TargetOf(p.decisions, 0, 1.0) == 0.0;
    assert TargetOf(p.decisions, 1, 1.0) == 0.0;
    assert TargetOf(p.decisions[1..], 2, 1.0) == 1.0;
    assert MaxOut(p, 0) == 1.0 && MaxOut(p, 1) == 1.0 && MaxOut(p, 2) == 1.0;
  }

  const HOP_ONE := Flow(0, 0, 1, 10.0)
  const HOP_TWO := Flow(1, 1, 2, 10.0)

  lemma {:induction false} RelayFirst()
    ensures ProposalOf(Relay(), [], 0) == Some(HOP_ONE)
  {
    var p := Relay();
    RelayMovable();
    assert p.states[1..][0] == State(1, 0, 10.0, 1.0);
    assert StateOf(p.states, 1) == StateOf(p.states[1..], 1) == Some(State(1, 0, 10.0, 1.0));
    assert InflowCap(p, 1) == 10.0;
    assert Desired(p, 0, p.table[0]) == 10.0;
    assert !Blocked(p, [], 1, 10.0);
  }

  lemma {:induction false} RelaySecond()
    ensures ProposalOf(Relay(), [HOP_ONE], 1) == Some(HOP_TWO)
  {
    var p := Relay();
    RelayMovable();
    assert p.states[1..][1..][0] == State(2, 0, 100.0, 1.0);
    assert StateOf(p.states, 2) == StateOf(p.states[1..], 2) == StateOf(p.states[1..][1..], 2)
        == Some(State(2, 0, 100.0, 1.0));
    assert InflowCap(p, 2) == 100.0;
    assert p.table[1..][0] == Route(1, 2, 2, 0, 1.0);
    assert RouteOf(p.table, 1, 0) == RouteOf(p.table[1..], 1, 0) == Some(Route(1, 2, 2, 0, 1.0));
    assert Desired(p, 1, p.table[1]) == 10.0;
    assert Receives([HOP_ONE], 2) == [0.0];
    SumOfTwo(0.0, 0.0);
    assert !Blocked(p, [HOP_ONE], 2, 10.0);
  }

  lemma {:induction false} RelayProposed()
    ensures Proposed(Relay(), 3) == [HOP_ONE, HOP_TWO]
  {
    var p := Relay();
    RelayFirst();
    RelaySecond();
    RelayMovable();
    assert Proposed(p, 0) == [];
    assert Proposed(p, 1) == [HOP_ONE];
    assert Proposed(p, 2) == [HOP_ONE, HOP_TWO];
  }

  lemma RelayNets(flows: seq<Flow>, x: real, y: real)
    requires flows == [HOP_ONE.(amount := x), HOP_TWO.(amount := y)]
    ensures Net(flows, 0) == -x && Net(flows, 1) == x - y && Net(flows, 2) == y && TotalShift(flows) == x + y
  {
    assert Sends(flows, 0) == [x, 0.0] && Receives(flows, 0) == [0.0, 0.0];
    assert Sends(flows, 1) == [0.0, y] && Receives(flows, 1) == [x, 0.0];
    assert Sends(flows, 2) == [0.0, 0.0] && Receives(flows, 2) == [0.0, y];
    assert Amounts(flows) == [x, y];
    SumOfTwo(x, 0.0);
    SumOfTwo(0.0, y);
    SumOfTwo(0.0, 0.0);
    SumOfTwo(x, y);
  }

  lemma {:induction false} RelayFactors()
    ensures var p, flows := Relay(), [HOP_ONE, HOP_TWO];
      MinFactor(p, flows, HOP_ONE, 3) == 0.3 && MinFactor(p, flows, HOP_TWO, 3) == 1.0
  {
    var p, flows := Relay(), [HOP_ONE, HOP_TWO];
    RelayNets(flows, 10.0, 10.0);
    assert ShiftFactor(p, flows, 0) == 0.3 && ShiftFactor(p, flows, 1) == 1.0 && ShiftFactor(p, flows, 2) == 1.0;
    assert MinFactor(p, flows, HOP_ONE, 0) == 1.0 && MinFactor(p, flows, HOP_TWO, 0) == 1.0;
    assert MinFactor(p, flows, HOP_ONE, 1) == 0.3 && MinFactor(p, flows, HOP_TWO, 1) == 1.0;
    assert MinFactor(p, flows, HOP_ONE, 2) == 0.3 && MinFactor(p, flows, HOP_TWO, 2) == 1.0;
  }

  lemma {:induction false} RelayScaled()
    ensures AssetScaled(Relay(), [HOP_ONE, HOP_TWO]) == [HOP_ONE.(amount := 3.0), HOP_TWO]
  {
    RelayFactors();
  }

  lemma {:induction false} RelayBounded(scaled: seq<Flow>)
    requires scaled == [HOP_ONE.(amount := 3.0), HOP_TWO]
    ensures AllScaled(scaled, PortfolioFactor(Relay(), scaled)) == scaled
  {
    RelayTotal();
    RelayNets(scaled, 3.0, 10.0);
    assert PortfolioFactor(Relay(), scaled) == 1.0;
  }

  lemma {:induction false} PositiveTwo(a: Flow, b: Flow)
    requires a.amount > 0.0 && b.amount > 0.0
    ensures Positive([a, b]) == [a, b]
  {
    assert [a, b][..1] == [a] && [a][..0] == [];
    assert Positive([a]) == [a];
  }

  lemma {:induction false} RelayRouted()
    ensures Routed(Relay()) == [HOP_ONE.(amount := 3.0), HOP_TWO]
  {
    RelayProposed();
    RelayTotal();
    RelayScaled();
    RelayBounded([HOP_ONE.(amount := 3.0), HOP_TWO]);
    PositiveTwo(HOP_ONE.(amount := 3.0), HOP_TWO);
  }

  lemma RelayValid()
    ensures Valid(Relay())
  {
  }

  /** An asset that receives and sends can end beyond its bound: its inflow is scaled down for the
      sender's sake while its outflow is not. */
  lemma BothWaysEscapes()
    ensures Valid(Relay()) && !OneWay(Proposed(Relay(), 3), 1)
    ensures Net(Routed(Relay()), 1) == -7.0 && AssetBound(Relay(), 1) == 3.0
  {
    RelayValid();
    assert !OneWay(Proposed(Relay(), 3), 1) by {
      RelayProposed();
      assert [HOP_ONE, HOP_TWO][1].source == 1 && [HOP_ONE, HOP_TWO][0].target == 1;
    }
    assert Net(Routed(Relay()), 1) == -7.0 by {
      RelayRouted();
      RelayNets(Routed(Relay()), 3.0, 10.0);
    }
  }
}
