/** What the routing does with each single state, in terms of the input alone: which table entries
    count, how much is proposed, where it goes, and how far each proposal is scaled. */
module RoutingChoice {
  import opened Options
  import opened RealSums
  import opened Routing

  // ---------- Which entry counts ----------

  /** k is the first position that matches, or the length if none does. */
  ghost predicate FirstOf<T>(s: seq<T>, match_: T -> bool, k: nat) {
    k <= |s| && (forall j :: 0 <= j < k ==> !match_(s[j])) && (k < |s| ==> match_(s[k]))
  }

  lemma FirstOfTail<T>(s: seq<T>, match_: T -> bool, k: nat)
    requires FirstOf(s, match_, k) && k > 0
    ensures FirstOf(s[1..], match_, k - 1)
  {
    assert forall j :: 0 <= j < |s| - 1 ==> s[1..][j] == s[j + 1];
  }

  function RuleFor(asset: AssetId, stress: nat): Route -> bool { (r: Route) => r.source == asset && r.stress == stress }
  function CapFor(asset: AssetId, stress: nat): Cap -> bool { (c: Cap) => c.asset == asset && c.stress == stress }
  function StateFor(asset: AssetId): State -> bool { (s: State) => s.asset == asset }
  function DecisionFor(asset: AssetId): Decision -> bool { (d: Decision) => d.asset == asset }

  lemma {:induction false} RouteIsFirst(table: seq<Route>, asset: AssetId, stress: nat, k: nat)
    requires FirstOf(table, RuleFor(asset, stress), k)
    ensures RouteOf(table, asset, stress) == if k < |table| then Some(table[k]) else None
  {
    if k > 0 {
      FirstOfTail(table, RuleFor(asset, stress), k);
      RouteIsFirst(table[1..], asset, stress, k - 1);
    }
  }

  lemma {:induction false} CapIsFirst(caps: seq<Cap>, asset: AssetId, stress: nat, k: nat)
    requires FirstOf(caps, CapFor(asset, stress), k)
    ensures CapOf(caps, asset, stress) == if k < |caps| then Some(caps[k]) else None
  {
    if k > 0 {
      FirstOfTail(caps, CapFor(asset, stress), k);
      CapIsFirst(caps[1..], asset, stress, k - 1);
    }
  }

  lemma {:induction false} StateIsFirst(states: seq<State>, asset: AssetId, k: nat)
    requires FirstOf(states, StateFor(asset), k)
    ensures StateOf(states, asset) == if k < |states| then Some(states[k]) else None
  {
    if k > 0 {
      FirstOfTail(states, StateFor(asset), k);
      StateIsFirst(states[1..], asset, k - 1);
    }
  }

  lemma {:induction false} TargetIsFirst(ds: seq<Decision>, asset: AssetId, current: real, k: nat)
    requires FirstOf(ds, DecisionFor(asset), k)
    ensures TargetOf(ds, asset, current) == if k < |ds| then ds[k].target else current
  {
    if k > 0 {
      FirstOfTail(ds, DecisionFor(asset), k);
      TargetIsFirst(ds[1..], asset, current, k - 1);
    }
  }

  /** What an asset may take in and a state may send: the liquidity times the ratio of the first cap
      for the asset at this stress level, in its own direction, or all of it without one. */
  lemma CapsCount(p: Problem, i: nat, j: nat, k: nat)
    requires i < |p.states| && FirstOf(p.caps, CapFor(p.states[i].asset, p.stress), k)
    requires FirstOf(p.states, StateFor(p.states[i].asset), j)
    ensures j < |p.states|
    ensures OutflowCap(p, i) == p.states[i].liquidity * (if k < |p.caps| then p.caps[k].maxOut else 1.0)
    ensures InflowCap(p, p.states[i].asset) == p.states[j].liquidity * (if k < |p.caps| then p.caps[k].maxIn else 1.0)
  {
    CapIsFirst(p.caps, p.states[i].asset, p.stress, k);
    StateIsFirst(p.states, p.states[i].asset, j);
    assert StateFor(p.states[i].asset)(p.states[i]);
  }

  // ---------- Which target wins ----------

  /** Known, not frozen, and with room for the amount after the flows of earlier states. */
  predicate Fits(p: Problem, earlier: seq<Flow>, target: AssetId, amount: real) {
    && StateOf(p.states, target).Some? && StateOf(p.states, target).value.flags % 2 == 0
    && Inflow(earlier, target) + amount <= InflowCap(p, target)
  }

  function Earlier(flows: seq<Flow>, i: nat): seq<Flow> {
    if flows == [] then []
    else
      var n := |flows| - 1;
      Earlier(flows[..n], i) + if flows[n].state < i then [flows[n]] else []
  }

  /** What the state wants to send: the rule's share of the surplus over its target, or of its outflow
      cap if that is less. */
  ghost predicate Wants(p: Problem, i: nat, r: Route, amount: real)
    requires i < |p.states|
  {
    var s := p.states[i];
    var over := Max(0.0, s.ratio - TargetOf(p.decisions, s.asset, s.ratio));
    amount == Min(over * Sum(Liquidities(p.states)), OutflowCap(p, i)) * r.ratio
  }

  /** State i, with an amount to send by this rule, sends it to the rule's primary target exactly when
      that fits, to the fallback only when the primary does not fit and the fallback does, and
      nowhere exactly when neither fits or the one that wins is the asset itself. */
  ghost predicate ChosenWell(p: Problem, flows: seq<Flow>, i: nat, r: Route, amount: real)
    requires i < |p.states|
  {
    var asset := p.states[i].asset;
    var first := Fits(p, Earlier(flows, i), r.primary, amount);
    var second := Fits(p, Earlier(flows, i), r.fallback, amount);
    && (forall k :: 0 <= k < |flows| && flows[k].state == i ==>
          && flows[k].amount == amount && flows[k].source == asset
          && (flows[k].target == r.primary <==> first)
          && (flows[k].target != r.primary ==> flows[k].target == r.fallback && second))
    && ((exists k :: 0 <= k < |flows| && flows[k].state == i) <==>
          (first && r.primary != asset) || (!first && second && r.fallback != asset))
  }

  ghost predicate NoneFrom(flows: seq<Flow>, i: nat) {
    forall k :: 0 <= k < |flows| ==> flows[k].state != i
  }

  /** A state without a rule or with nothing to send sends nothing. */
  ghost predicate StateRouted(p: Problem, flows: seq<Flow>, i: nat)
    requires i < |p.states|
  {
    match RouteOf(p.table, p.states[i].asset, p.stress)
    case None => NoneFrom(flows, i)
    case Some(r) => forall amount :: Wants(p, i, r, amount) ==>
      if amount > 0.0 then ChosenWell(p, flows, i, r, amount) else NoneFrom(flows, i)
  }

  ghost predicate WellRouted(p: Problem, flows: seq<Flow>) {
    forall i :: 0 <= i < |p.states| ==> StateRouted(p, flows, i)
  }

  // ---------- The proposals are so ----------

  lemma {:induction false} EarlierAll(flows: seq<Flow>, i: nat)
    requires forall k :: 0 <= k < |flows| ==> flows[k].state < i
    ensures Earlier(flows, i) == flows
  {
    if flows != [] {
      EarlierAll(flows[..|flows| - 1], i);
    }
  }

  lemma {:induction false} ProposedBelow(p: Problem, n: nat)
    requires n <= |p.states|
    ensures forall k :: 0 <= k < |Proposed(p, n)| ==> Proposed(p, n)[k].state < n
  {
    if n > 0 {
      ProposedBelow(p, n - 1);
    }
  }

  lemma EarlierSnoc(flows: seq<Flow>, f: Flow, i: nat)
    ensures Earlier(flows + [f], i) == if f.state < i then Earlier(flows, i) + [f] else Earlier(flows, i)
  {
    assert (flows + [f])[..|flows|] == flows;
    assert Earlier(flows, i) + [] == Earlier(flows, i);
  }

  lemma ProposalState(p: Problem, flows: seq<Flow>, i: nat)
    requires i < |p.states|
    ensures ProposalOf(p, flows, i).Some? ==> ProposalOf(p, flows, i).value.state == i
  {
  }

  lemma {:induction false} EarlierProposed(p: Problem, i: nat, n: nat)
    requires i <= n <= |p.states|
    ensures Earlier(Proposed(p, n), i) == Proposed(p, i)
  {
    hide ProposalOf, Earlier;
    if n == i {
      ProposedBelow(p, n);
      EarlierAll(Proposed(p, n), i);
    } else {
      EarlierProposed(p, i, n - 1);
      ProposalState(p, Proposed(p, n - 1), n - 1);
      var more := ProposalOf(p, Proposed(p, n - 1), n - 1);
      if more.Some? {
        EarlierSnoc(Proposed(p, n - 1), more.value, i);
      }
    }
  }

  /** The flows of state i among the proposals are what it proposed. */
  lemma {:induction false} FlowsOfState(p: Problem, i: nat, n: nat)
    requires i < n <= |p.states|
    ensures var own := ProposalOf(p, Proposed(p, i), i);
      && (forall k :: 0 <= k < |Proposed(p, n)| && Proposed(p, n)[k].state == i ==> own == Some(Proposed(p, n)[k]))
      && (own.Some? ==> own.value in Proposed(p, n) && own.value.state == i)
  {
    if n == i + 1 {
      ProposedBelow(p, i);
    } else {
      FlowsOfState(p, i, n - 1);
    }
  }

  lemma WantsIsDesired(p: Problem, i: nat, r: Route, amount: real)
    requires i < |p.states| && Wants(p, i, r, amount)
    ensures amount == Desired(p, i, r)
  {
  }

  lemma FitsIsFree(p: Problem, flows: seq<Flow>, target: AssetId, amount: real)
    ensures Fits(p, flows, target, amount) <==> !Blocked(p, flows, target, amount)
  {
  }

  lemma NothingToSend(p: Problem, i: nat, r: Route, amount: real)
    requires Valid(p) && i < |p.states| && amount == Desired(p, i, r) && Unit(r.ratio)
    ensures Movable(p, i) <= 0.0 ==> amount <= 0.0
  {
    if Movable(p, i) <= 0.0 {
      MulMonotone(Movable(p, i), 0.0, r.ratio);
    }
  }

  lemma ProposalChosen(p: Problem, i: nat, r: Route, amount: real)
    requires Valid(p) && i < |p.states| && RouteOf(p.table, p.states[i].asset, p.stress) == Some(r)
    requires amount == Desired(p, i, r) && amount > 0.0
    ensures ChosenWell(p, Proposed(p, |p.states|), i, r, amount)
  {
    var all, before := Proposed(p, |p.states|), Proposed(p, i);
    RatioUnit(p, p.states[i].asset);
    NothingToSend(p, i, r, amount);
    EarlierProposed(p, i, |p.states|);
    FitsIsFree(p, before, r.primary, amount);
    FitsIsFree(p, before, r.fallback, amount);
    FlowsOfState(p, i, |p.states|);
    var own := ProposalOf(p, before, i);
    if own.Some? {
      var k :| 0 <= k < |all| && all[k] == own.value;
    }
  }

  lemma NoProposal(p: Problem, i: nat)
    requires i < |p.states| && ProposalOf(p, Proposed(p, i), i).None?
    ensures NoneFrom(Proposed(p, |p.states|), i)
  {
    FlowsOfState(p, i, |p.states|);
  }

  /** Every state proposes as described, for every input. */
  lemma ProposalsWellRouted(p: Problem)
    requires Valid(p)
    ensures WellRouted(p, Proposed(p, |p.states|))
  {
    forall i | 0 <= i < |p.states| ensures StateRouted(p, Proposed(p, |p.states|), i) {
      var route := RouteOf(p.table, p.states[i].asset, p.stress);
      if route.None? {
        NoProposal(p, i);
      } else {
        forall amount | Wants(p, i, route.value, amount)
          ensures if amount > 0.0 then ChosenWell(p, Proposed(p, |p.states|), i, route.value, amount)
                  else NoneFrom(Proposed(p, |p.states|), i)
        {
          WantsIsDesired(p, i, route.value, amount);
          if amount > 0.0 {
            ProposalChosen(p, i, route.value, amount);
          } else {
            NoProposal(p, i);
          }
        }
      }
    }
  }

  // ---------- How far each proposal is scaled ----------

  /** The asset of state j moves by more than its bound. */
  ghost predicate Over(p: Problem, flows: seq<Flow>, j: nat)
    requires j < |p.states|
  {
    Abs(Net(flows, p.states[j].asset)) > p.maxAsset * p.states[j].liquidity
  }

  ghost predicate TouchedOver(p: Problem, flows: seq<Flow>, f: Flow, j: nat) {
    j < |p.states| && Touches(f, p.states[j].asset) && Over(p, flows, j)
  }

  /** after is to before as the bound of state j is to what its asset moves by, or less. */
  ghost predicate ShrunkFor(p: Problem, flows: seq<Flow>, j: nat, before: real, after: real)
    requires j < |p.states|
  {
    after * Abs(Net(flows, p.states[j].asset)) <= before * (p.maxAsset * p.states[j].liquidity)
  }

  ghost predicate ShrunkExactlyFor(p: Problem, flows: seq<Flow>, j: nat, before: real, after: real)
    requires j < |p.states|
  {
    after * Abs(Net(flows, p.states[j].asset)) == before * (p.maxAsset * p.states[j].liquidity)
  }

  /** A flow keeps its amount if neither end moves by more than its bound; otherwise it shrinks far
      enough for every exceeded bound of its ends, and exactly as far as one of them asks. */
  ghost predicate AssetScaledExactly(p: Problem, flows: seq<Flow>, f: Flow, after: real) {
    && ((forall j :: 0 <= j < |p.states| ==> !TouchedOver(p, flows, f, j)) ==> after == f.amount)
    && (forall j :: 0 <= j < |p.states| && TouchedOver(p, flows, f, j) ==> ShrunkFor(p, flows, j, f.amount, after))
    && ((exists j :: 0 <= j < |p.states| && TouchedOver(p, flows, f, j)) ==>
          exists j ::
            0 <= j < |p.states| && TouchedOver(p, flows, f, j) && ShrunkExactlyFor(p, flows, j, f.amount, after))
  }

  lemma OverFactor(p: Problem, flows: seq<Flow>, j: nat, factor: real)
    requires Valid(p) && j < |p.states| && Over(p, flows, j) && factor == ShiftFactor(p, flows, j)
    ensures factor < 1.0 && factor * Abs(Net(flows, p.states[j].asset)) == p.maxAsset * p.states[j].liquidity
  {
    var bound, net := AssetBound(p, j), Abs(Net(flows, p.states[j].asset));
    MulMonotone(0.0, p.states[j].liquidity, p.maxAsset);
    assert factor == bound / net;
    FactorInUnit(bound, net);
    assert factor * net != 1.0 * net;
  }

  lemma WithinFactor(p: Problem, flows: seq<Flow>, j: nat)
    requires j < |p.states| && !Over(p, flows, j)
    ensures ShiftFactor(p, flows, j) == 1.0
  {
  }

  /** The least factor is that of some exceeded bound of the flow's ends, or one if there is none. */
  lemma {:induction false} MinFactorIs(p: Problem, flows: seq<Flow>, f: Flow, n: nat)
    requires Valid(p) && n <= |p.states|
    ensures MinFactor(p, flows, f, n) == 1.0 ||
      exists j :: 0 <= j < n && TouchedOver(p, flows, f, j) && MinFactor(p, flows, f, n) == ShiftFactor(p, flows, j)
  {
    if n > 0 {
      MinFactorIs(p, flows, f, n - 1);
      MinFactorLeast(p, flows, f, n - 1);
      if !Over(p, flows, n - 1) {
        WithinFactor(p, flows, n - 1);
      } else if Touches(f, p.states[n - 1].asset) {
        assert TouchedOver(p, flows, f, n - 1);
      }
    }
  }

  lemma ProductsCompare(x: real, least: real, factor: real, net: real, bound: real, after: real)
    requires x >= 0.0 && net >= 0.0 && least <= factor && factor * net == bound && after == x * least
    ensures after * net <= x * bound
    ensures least == factor ==> after * net == x * bound
  {
    MulMonotone(least, factor, net);
    MulMonotone(least * net, bound, x);
    assert after * net == (least * net) * x;
  }

  lemma ShrinksForOver(p: Problem, flows: seq<Flow>, f: Flow, least: real, after: real, j: nat)
    requires Valid(p) && f.amount >= 0.0 && j < |p.states| && TouchedOver(p, flows, f, j)
    requires least <= ShiftFactor(p, flows, j) && after == f.amount * least
    ensures ShrunkFor(p, flows, j, f.amount, after)
    ensures least == ShiftFactor(p, flows, j) ==> ShrunkExactlyFor(p, flows, j, f.amount, after)
  {
    var factor := ShiftFactor(p, flows, j);
    OverFactor(p, flows, j, factor);
    ProductsCompare(f.amount, least, factor, Abs(Net(flows, p.states[j].asset)),
      p.maxAsset * p.states[j].liquidity, after);
  }

  lemma AssetScalingExact(p: Problem, flows: seq<Flow>, k: nat)
    requires Valid(p) && k < |flows| && flows[k].amount >= 0.0
    ensures AssetScaledExactly(p, flows, flows[k], AssetScaled(p, flows)[k].amount)
  {
    var f, least := flows[k], MinFactor(p, flows, flows[k], |p.states|);
    var after := AssetScaled(p, flows)[k].amount;
    assert after == f.amount * least;
    MinFactorIs(p, flows, f, |p.states|);
    MinFactorLeast(p, flows, f, |p.states|);
    forall j | 0 <= j < |p.states| && TouchedOver(p, flows, f, j)
      ensures ShrunkFor(p, flows, j, f.amount, after) && least < 1.0
      ensures least == ShiftFactor(p, flows, j) ==> ShrunkExactlyFor(p, flows, j, f.amount, after)
    {
      OverFactor(p, flows, j, ShiftFactor(p, flows, j));
      ShrinksForOver(p, flows, f, least, after, j);
    }
  }

  /** All flows shrink alike when they exceed the portfolio bound together, and not otherwise. */
  lemma PortfolioScalingExact(p: Problem, flows: seq<Flow>, k: nat)
    requires Valid(p) && k < |flows|
    ensures var scaled, after := AssetScaled(p, flows), Bounded(p, flows)[k].amount;
      var bound := p.maxPortfolio * Sum(Liquidities(p.states));
      if TotalShift(scaled) > bound then after * TotalShift(scaled) == scaled[k].amount * bound
      else after == scaled[k].amount
  {
    var scaled := AssetScaled(p, flows);
    var bound := p.maxPortfolio * TotalValue(p);
    PortfolioBoundNonNegative(p);
    if TotalShift(scaled) > bound {
      FactorInUnit(bound, TotalShift(scaled));
      ShareTimes(scaled[k].amount, PortfolioFactor(p, scaled), TotalShift(scaled), bound);
    }
  }

  lemma ShareTimes(x: real, factor: real, total: real, bound: real)
    requires factor * total == bound
    ensures (x * factor) * total == x * bound
  {
    assert (x * factor) * total == x * (factor * total);
  }

  // ---------- What is returned ----------

  /** Exactly the proposals that are still positive after both scalings. */
  ghost predicate KeepsPositive(p: Problem, flows: seq<Flow>) {
    forall f :: f in flows <==> f.amount > 0.0 && f in Bounded(p, Proposed(p, |p.states|))
  }

  lemma {:induction false} PositiveIs(flows: seq<Flow>)
    ensures forall f :: f in Positive(flows) <==> f in flows && f.amount > 0.0
  {
    if flows != [] {
      var n := |flows| - 1;
      PositiveIs(flows[..n]);
      assert flows == flows[..n] + [flows[n]];
    }
  }

  /** Without any liquidity nothing is proposed either. */
  lemma {:induction false} NothingWithoutValue(p: Problem, n: nat)
    requires Valid(p) && TotalValue(p) <= 0.0 && n <= |p.states|
    ensures Proposed(p, n) == []
  {
    if n > 0 {
      NothingWithoutValue(p, n - 1);
      var over := SurplusRatio(p, n - 1);
      assert over >= 0.0;
      SurplusNotPositive(over, TotalValue(p), Surplus(p, n - 1));
    }
  }

  lemma SurplusNotPositive(over: real, total: real, surplus: real)
    requires over >= 0.0 && total <= 0.0 && surplus == over * total
    ensures surplus <= 0.0
  {
    assert over * -total >= 0.0;
  }

  /** The routed flows are the chosen proposals after the two scalings, none lost and none added. */
  lemma RoutedWell(p: Problem)
    requires Valid(p)
    ensures WellRouted(p, Proposed(p, |p.states|)) && KeepsPositive(p, Routed(p))
  {
    ProposalsWellRouted(p);
    PositiveIs(Bounded(p, Proposed(p, |p.states|)));
    if TotalValue(p) <= 0.0 {
      NothingWithoutValue(p, |p.states|);
    }
  }
}
