/** The loops of liquidity routing: the tables that accumulate by asset, the proposals, and the two
    scalings in place. */
module RoutingTables {
  import opened Options
  import opened RealSums
  import opened Routing
  import opened RoutingChoice

  datatype Outcome = Refused | Result(flows: seq<Flow>, totalShift: real)

  const MAX_ASSETS := 16
  const MAX_FLOWS := 32

  // ---------- A table of amounts by asset ----------

  function Lookup(ids: seq<AssetId>, values: seq<real>, asset: AssetId): real
    requires |ids| == |values|
  {
    if ids == [] then 0.0 else if ids[0] == asset then values[0] else Lookup(ids[1..], values[1..], asset)
  }

  ghost predicate Distinct(ids: seq<AssetId>) {
    forall i, j :: 0 <= i < j < |ids| ==> ids[i] != ids[j]
  }

  ghost predicate Within(ids: seq<AssetId>, universe: seq<AssetId>) {
    forall i :: 0 <= i < |ids| ==> ids[i] in universe
  }

  lemma {:induction false} LookupAt(ids: seq<AssetId>, values: seq<real>, k: nat)
    requires k < |ids| == |values| && Distinct(ids)
    ensures Lookup(ids, values, ids[k]) == values[k]
  {
    if k > 0 {
      LookupAt(ids[1..], values[1..], k - 1);
    }
  }

  lemma {:induction false} LookupAbsent(ids: seq<AssetId>, values: seq<real>, asset: AssetId)
    requires |ids| == |values| && asset !in ids
    ensures Lookup(ids, values, asset) == 0.0
  {
    if ids != [] {
      LookupAbsent(ids[1..], values[1..], asset);
    }
  }

  lemma {:induction false} LookupAppend(ids: seq<AssetId>, values: seq<real>, id: AssetId, asset: AssetId)
    requires |ids| == |values|
    ensures Lookup(ids + [id], values + [0.0], asset) == Lookup(ids, values, asset)
  {
    if ids != [] {
      LookupAppend(ids[1..], values[1..], id, asset);
      assert (ids + [id])[1..] == ids[1..] + [id] && (values + [0.0])[1..] == values[1..] + [0.0];
    }
  }

  lemma {:induction false} LookupUpdate(ids: seq<AssetId>, values: seq<real>, k: nat, x: real, asset: AssetId)
    requires k < |ids| == |values| && Distinct(ids)
    ensures Lookup(ids, values[k := x], asset) == if asset == ids[k] then x else Lookup(ids, values, asset)
  {
    if k > 0 {
      LookupUpdate(ids[1..], values[1..], k - 1, x, asset);
      assert values[k := x][1..] == values[1..][k - 1 := x];
    }
  }

  function Members(ids: seq<AssetId>): set<AssetId> {
    set i | 0 <= i < |ids| :: ids[i]
  }

  lemma {:induction false} DistinctCount(ids: seq<AssetId>)
    requires Distinct(ids)
    ensures |Members(ids)| == |ids|
  {
    if ids != [] {
      var n := |ids| - 1;
      DistinctCount(ids[..n]);
      assert Members(ids) == Members(ids[..n]) + {ids[n]};
    }
  }

  lemma {:induction false} MembersCount(ids: seq<AssetId>)
    ensures |Members(ids)| <= |ids|
  {
    if ids != [] {
      var n := |ids| - 1;
      MembersCount(ids[..n]);
      assert Members(ids) == Members(ids[..n]) + {ids[n]};
    }
  }

  lemma {:induction false} SubsetSmaller(s: set<AssetId>, t: set<AssetId>)
    requires s <= t
    ensures |s| <= |t|
  {
    if s != {} {
      var x :| x in s;
      SubsetSmaller(s - {x}, t - {x});
    }
  }

  /** A table of distinct known assets has room for another known asset. */
  lemma RoomLeft(ids: seq<AssetId>, universe: seq<AssetId>, asset: AssetId)
    requires Distinct(ids) && Within(ids, universe) && asset in universe && asset !in ids
    ensures |ids| < |universe|
  {
    DistinctCount(ids);
    MembersCount(universe);
    assert asset !in Members(ids);
    SubsetSmaller(Members(ids) + {asset}, Members(universe));
  }

  class AssetTable {
    const ids: array<AssetId>
    const values: array<real>
    var count: nat
    /** The assets the states list; the table never sees another. */
    ghost const universe: seq<AssetId>

    ghost predicate Valid()
      reads this, ids, values
    {
      && ids.Length == values.Length == MAX_ASSETS && count <= MAX_ASSETS && |universe| <= MAX_ASSETS
      && Distinct(ids[..count]) && Within(ids[..count], universe)
    }

    ghost function Value(asset: AssetId): real
      reads this, ids, values
      requires Valid()
    {
      Lookup(ids[..count], values[..count], asset)
    }

    constructor (ghost universe: seq<AssetId>)
      requires |universe| <= MAX_ASSETS
      ensures Valid() && fresh(ids) && fresh(values) && this.universe == universe
      ensures forall asset: AssetId :: Value(asset) == 0.0
    {
      ids, values, count := new AssetId[MAX_ASSETS], new real[MAX_ASSETS], 0;
      this.universe := universe;
    }

    /** The position of the asset, or the number of entries. */
    method Search(asset: AssetId) returns (k: nat)
      requires Valid()
      ensures k <= count
      ensures k < count ==> ids[k] == asset
      ensures k == count ==> asset !in ids[..count]
    {
      k := 0;
      while k < count
        invariant k <= count && asset !in ids[..k]
      {
        if ids[k] == asset {
          return;
        }
        k := k + 1;
      }
    }

    /** The position of the asset, made if need be; there is always room, so the entry that the
        source falls back to when the table is full is never used. */
    method Slot(asset: AssetId) returns (k: nat)
      requires Valid() && asset in universe
      modifies this`count, ids, values
      ensures Valid() && k < count && ids[k] == asset
      ensures forall other: AssetId :: Value(other) == old(Value(other))
    {
      k := Search(asset);
      if k == count {
        Append(asset);
      }
    }

    method Append(asset: AssetId)
      requires Valid() && asset in universe && asset !in ids[..count]
      modifies this`count, ids, values
      ensures Valid() && count == old(count) + 1 && ids[old(count)] == asset
      ensures forall other: AssetId :: Value(other) == old(Value(other))
    {
      ghost var keys, vs := ids[..count], values[..count];
      RoomLeft(ids[..count], universe, asset);
      ids[count], values[count] := asset, 0.0;
      count := count + 1;
      assert ids[..count] == keys + [asset] && values[..count] == vs + [0.0];
      forall other: AssetId ensures Value(other) == Lookup(keys, vs, other) {
        LookupAppend(keys, vs, asset, other);
      }
    }

    method Add(asset: AssetId, x: real)
      requires Valid() && asset in universe
      modifies this`count, ids, values
      ensures Valid()
      ensures forall other: AssetId :: Value(other) == old(Value(other)) + if other == asset then x else 0.0
    {
      var k := Slot(asset);
      Increase(k, x);
    }

    method Increase(k: nat, x: real)
      requires Valid() && k < count
      modifies values
      ensures Valid()
      ensures forall other: AssetId :: Value(other) == old(Value(other)) + if other == ids[k] then x else 0.0
    {
      ghost var keys, vs := ids[..count], values[..count];
      LookupAt(keys, vs, k);
      values[k] := values[k] + x;
      assert values[..count] == vs[k := vs[k] + x];
      forall other: AssetId
        ensures Value(other) == Lookup(keys, vs, other) + if other == keys[k] then x else 0.0
      {
        LookupUpdate(keys, vs, k, vs[k] + x, other);
      }
    }

    /** The amount of the asset, creating its entry. */
    method Get(asset: AssetId) returns (x: real)
      requires Valid() && asset in universe
      modifies this`count, ids, values
      ensures Valid() && x == Value(asset)
      ensures forall other: AssetId :: Value(other) == old(Value(other))
    {
      var k := Slot(asset);
      LookupAt(ids[..count], values[..count], k);
      x := values[k];
    }

    /** The amount of the asset, nothing if it has no entry. */
    method Peek(asset: AssetId) returns (x: real)
      requires Valid()
      ensures x == Value(asset)
    {
      var k := Search(asset);
      if k < count {
        LookupAt(ids[..count], values[..count], k);
        x := values[k];
      } else {
        LookupAbsent(ids[..count], values[..count], asset);
        x := 0.0;
      }
    }
  }

  // ---------- Validation ----------

  method Validate(p: Problem) returns (ok: bool)
    ensures ok <==> Valid(p)
  {
    ok := |p.decisions| <= 16 && |p.states| <= 16 && |p.caps| <= 16 && |p.table| <= 32
      && Unit(p.maxPortfolio) && Unit(p.maxAsset);
    var states, decisions, caps, table := true, true, true, true;
    for k := 0 to |p.states|
      invariant states <==> forall j :: 0 <= j < k ==> p.states[j].liquidity >= 0.0 && Unit(p.states[j].ratio)
    {
      states := states && p.states[k].liquidity >= 0.0 && Unit(p.states[k].ratio);
    }
    for k := 0 to |p.decisions|
      invariant decisions <==> forall j :: 0 <= j < k ==> Unit(p.decisions[j].target)
    {
      decisions := decisions && Unit(p.decisions[k].target);
    }
    for k := 0 to |p.caps|
      invariant caps <==> forall j :: 0 <= j < k ==> Unit(p.caps[j].maxOut) && Unit(p.caps[j].maxIn)
    {
      caps := caps && Unit(p.caps[k].maxOut) && Unit(p.caps[k].maxIn);
    }
    for k := 0 to |p.table|
      invariant table <==> forall j :: 0 <= j < k ==> Unit(p.table[j].ratio)
    {
      table := table && Unit(p.table[k].ratio);
    }
    ok := ok && states && decisions && caps && table;
  }

  // ---------- Look-up loops ----------

  method FindTarget(ds: seq<Decision>, asset: AssetId, current: real) returns (target: real)
    ensures target == TargetOf(ds, asset, current)
  {
    for k := 0 to |ds|
      invariant TargetOf(ds, asset, current) == TargetOf(ds[k..], asset, current)
    {
      if ds[k].asset == asset {
        return ds[k].target;
      }
      assert ds[k..][1..] == ds[k + 1..];
    }
    target := current;
  }

  method FindCap(caps: seq<Cap>, asset: AssetId, stress: nat) returns (cap: Option<Cap>)
    ensures cap == CapOf(caps, asset, stress)
  {
    for k := 0 to |caps|
      invariant CapOf(caps, asset, stress) == CapOf(caps[k..], asset, stress)
    {
      if caps[k].asset == asset && caps[k].stress == stress {
        return Some(caps[k]);
      }
      assert caps[k..][1..] == caps[k + 1..];
    }
    cap := None;
  }

  method FindRoute(table: seq<Route>, asset: AssetId, stress: nat) returns (route: Option<Route>)
    ensures route == RouteOf(table, asset, stress)
  {
    for k := 0 to |table|
      invariant RouteOf(table, asset, stress) == RouteOf(table[k..], asset, stress)
    {
      if table[k].source == asset && table[k].stress == stress {
        return Some(table[k]);
      }
      assert table[k..][1..] == table[k + 1..];
    }
    route := None;
  }

  method FindState(states: seq<State>, asset: AssetId) returns (state: Option<State>)
    ensures state == StateOf(states, asset)
  {
    for k := 0 to |states|
      invariant StateOf(states, asset) == StateOf(states[k..], asset)
    {
      if states[k].asset == asset {
        return Some(states[k]);
      }
      assert states[k..][1..] == states[k + 1..];
    }
    state := None;
  }

  method SumLiquidity(p: Problem) returns (total: real)
    ensures total == TotalValue(p)
  {
    total := 0.0;
    ghost var all := Liquidities(p.states);
    for k := 0 to |p.states|
      invariant total == Sum(all[..k])
    {
      SumSnoc(all[..k], all[k]);
      assert all[..k] + [all[k]] == all[..k + 1];
      total := total + p.states[k].liquidity;
    }
    assert all[..|p.states|] == all;
  }

  // ---------- Proposals ----------

  ghost function Assets(states: seq<State>): (ids: seq<AssetId>)
    ensures |ids| == |states|
  {
    seq(|states|, k requires 0 <= k < |states| => states[k].asset)
  }

  /** The table holds the inflows that the flows add up to. */
  ghost predicate TalliesInflow(table: AssetTable, p: Problem, flows: seq<Flow>)
    reads table, table.ids, table.values
  {
    && table.Valid() && table.universe == Assets(p.states)
    && forall asset: AssetId :: table.Value(asset) == Inflow(flows, asset)
  }

  method MovableOf(p: Problem, i: nat, total: real) returns (movable: real)
    requires i < |p.states| && total == TotalValue(p)
    ensures movable == Movable(p, i)
  {
    var target := FindTarget(p.decisions, p.states[i].asset, p.states[i].ratio);
    var surplusRatio := p.states[i].ratio - target;
    if surplusRatio < 0.0 {
      surplusRatio := 0.0;
    }
    assert surplusRatio == SurplusRatio(p, i);
    var cap := FindCap(p.caps, p.states[i].asset, p.stress);
    movable := Min(surplusRatio * total, p.states[i].liquidity * if cap.Some? then cap.value.maxOut else 1.0);
  }

  lemma KnownAsset(p: Problem, asset: AssetId)
    requires StateOf(p.states, asset).Some?
    ensures asset in Assets(p.states)
  {
    StateFound(p.states, asset);
    var k :| 0 <= k < |p.states| && p.states[k].asset == asset;
    assert Assets(p.states)[k] == asset;
  }

  method IsBlocked(p: Problem, inflows: AssetTable, ghost flows: seq<Flow>, target: AssetId, amount: real)
    returns (blocked: bool)
    requires TalliesInflow(inflows, p, flows)
    modifies inflows`count, inflows.ids, inflows.values
    ensures TalliesInflow(inflows, p, flows)
    ensures blocked == Blocked(p, flows, target, amount)
  {
    var state := FindState(p.states, target);
    if state.None? {
      return true;
    }
    if state.value.flags % 2 == 1 {
      return true;
    }
    KnownAsset(p, target);
    var cap := FindCap(p.caps, target, p.stress);
    var limit := state.value.liquidity * if cap.Some? then cap.value.maxIn else 1.0;
    assert limit == InflowCap(p, target);
    var current := inflows.Get(target);
    blocked := current + amount > limit;
  }

  method Choose(p: Problem, inflows: AssetTable, ghost flows: seq<Flow>, route: Route, amount: real)
    returns (target: AssetId)
    requires TalliesInflow(inflows, p, flows)
    modifies inflows`count, inflows.ids, inflows.values
    ensures TalliesInflow(inflows, p, flows)
    ensures target == ChosenTarget(p, flows, route, amount)
  {
    target := route.source;
    var blocked := IsBlocked(p, inflows, flows, route.primary, amount);
    if !blocked {
      target := route.primary;
    } else {
      blocked := IsBlocked(p, inflows, flows, route.fallback, amount);
      if !blocked {
        target := route.fallback;
      }
    }
  }

  method ProposeOne(p: Problem, total: real, inflows: AssetTable, ghost flows: seq<Flow>, i: nat)
    returns (flow: Option<Flow>)
    requires i < |p.states| && total == TotalValue(p)
    requires TalliesInflow(inflows, p, flows)
    modifies inflows`count, inflows.ids, inflows.values
    ensures TalliesInflow(inflows, p, flows)
    ensures flow == ProposalOf(p, flows, i)
  {
    flow := None;
    var movable := MovableOf(p, i, total);
    if movable > 0.0 {
      var route := FindRoute(p.table, p.states[i].asset, p.stress);
      if route.Some? {
        var desired := movable * route.value.ratio;
        assert desired == Desired(p, i, route.value);
        if desired > 0.0 {
          var target := Choose(p, inflows, flows, route.value, desired);
          if target != p.states[i].asset {
            flow := Some(Flow(i, p.states[i].asset, target, desired));
          }
        }
      }
    }
  }

  method Record(p: Problem, inflows: AssetTable, ghost before: seq<Flow>, flow: Flow)
    requires TalliesInflow(inflows, p, before) && StateOf(p.states, flow.target).Some?
    modifies inflows`count, inflows.ids, inflows.values
    ensures TalliesInflow(inflows, p, before + [flow])
  {
    KnownAsset(p, flow.target);
    inflows.Add(flow.target, flow.amount);
    forall asset: AssetId ensures inflows.Value(asset) == Inflow(before + [flow], asset) {
      FlowSnoc(before, flow, asset);
    }
  }

  /** The step for one state: propose, account for the inflow, store. */
  method ProposeNext(p: Problem, total: real, inflows: AssetTable, flows: array<Flow>, count: nat, i: nat)
    returns (count': nat)
    requires Valid(p) && total == TotalValue(p) && i < |p.states|
    requires count <= i && flows.Length == MAX_FLOWS && flows[..count] == Proposed(p, i)
    requires TalliesInflow(inflows, p, Proposed(p, i))
    modifies flows, inflows`count, inflows.ids, inflows.values
    ensures count' <= i + 1 && flows[..count'] == Proposed(p, i + 1)
    ensures TalliesInflow(inflows, p, Proposed(p, i + 1))
  {
    ghost var before := Proposed(p, i);
    count' := count;
    var flow := ProposeOne(p, total, inflows, before, i);
    assert Proposed(p, i + 1) == With(before, flow);
    if flow.Some? {
      ProposalOk(p, before, i);
      Record(p, inflows, before, flow.value);
      if count < MAX_FLOWS {
        flows[count] := flow.value;
        count' := count + 1;
        assert flows[..count'] == before + [flow.value];
      }
    }
  }

  method ProposeAll(p: Problem, total: real) returns (flows: array<Flow>, count: nat)
    requires Valid(p) && total == TotalValue(p)
    ensures fresh(flows) && flows.Length == MAX_FLOWS && count <= MAX_FLOWS
    ensures flows[..count] == Proposed(p, |p.states|)
  {
    flows, count := new Flow[MAX_FLOWS](_ => Flow(0, 0, 0, 0.0)), 0;
    var inflows := new AssetTable(Assets(p.states));
    for i := 0 to |p.states|
      invariant fresh(inflows) && fresh(inflows.ids) && fresh(inflows.values) && fresh(flows)
      invariant count <= i && flows[..count] == Proposed(p, i)
      invariant TalliesInflow(inflows, p, Proposed(p, i))
    {
      count := ProposeNext(p, total, inflows, flows, count, i);
    }
  }

  // ---------- The shock bounds ----------

  ghost predicate TalliesNet(table: AssetTable, p: Problem, flows: seq<Flow>)
    reads table, table.ids, table.values
  {
    && table.Valid() && table.universe == Assets(p.states)
    && forall asset: AssetId :: table.Value(asset) == Net(flows, asset)
  }

  ghost predicate EndsKnown(p: Problem, flows: seq<Flow>) {
    forall k :: 0 <= k < |flows| ==> flows[k].source in Assets(p.states) && flows[k].target in Assets(p.states)
  }

  lemma FlowsKnown(p: Problem, flows: seq<Flow>)
    requires AllFlowsOk(p, flows)
    ensures EndsKnown(p, flows)
  {
    forall k | 0 <= k < |flows| ensures flows[k].source in Assets(p.states) && flows[k].target in Assets(p.states) {
      assert FlowOk(p, flows[k]);
      assert Assets(p.states)[flows[k].state] == flows[k].source;
      KnownAsset(p, flows[k].target);
    }
  }

  method TrackFlow(p: Problem, nets: AssetTable, ghost before: seq<Flow>, flow: Flow)
    requires TalliesNet(nets, p, before) && EndsKnown(p, [flow])
    modifies nets`count, nets.ids, nets.values
    ensures TalliesNet(nets, p, before + [flow])
  {
    assert [flow][0] == flow;
    nets.Add(flow.source, -flow.amount);
    nets.Add(flow.target, flow.amount);
    forall asset: AssetId ensures nets.Value(asset) == Net(before + [flow], asset) {
      FlowSnoc(before, flow, asset);
    }
  }

  method TrackAll(p: Problem, flows: array<Flow>, count: nat) returns (nets: AssetTable)
    requires Valid(p) && count <= flows.Length && EndsKnown(p, flows[..count])
    ensures fresh(nets) && fresh(nets.ids) && fresh(nets.values)
    ensures TalliesNet(nets, p, flows[..count])
  {
    nets := new AssetTable(Assets(p.states));
    for k := 0 to count
      invariant fresh(nets) && fresh(nets.ids) && fresh(nets.values)
      invariant TalliesNet(nets, p, flows[..k])
    {
      assert flows[..count][k] == flows[k];
      TrackFlow(p, nets, flows[..k], flows[k]);
      assert flows[..k + 1] == flows[..k] + [flows[k]];
    }
  }

  method FactorOf(bound: real, net: real) returns (factor: real)
    ensures factor == if Abs(net) > bound && Abs(net) > 0.0 then bound / Abs(net) else 1.0
  {
    var size := Abs(net);
    if size > bound && size > 0.0 {
      factor := bound / size;
    } else {
      factor := 1.0;
    }
  }

  method ShiftFactors(p: Problem, nets: AssetTable, ghost flows: seq<Flow>) returns (factors: array<real>)
    requires TalliesNet(nets, p, flows)
    ensures fresh(factors) && factors.Length == |p.states|
    ensures forall k :: 0 <= k < |p.states| ==> factors[k] == ShiftFactor(p, flows, k)
  {
    factors := new real[|p.states|];
    for k := 0 to |p.states|
      invariant forall j :: 0 <= j < k ==> factors[j] == ShiftFactor(p, flows, j)
    {
      var net := nets.Peek(p.states[k].asset);
      factors[k] := FactorOf(p.maxAsset * p.states[k].liquidity, net);
    }
  }

  /** The least factor among the states of either end. */
  method LeastFactor(p: Problem, factors: array<real>, ghost flows: seq<Flow>, flow: Flow) returns (least: real)
    requires factors.Length == |p.states|
    requires forall k :: 0 <= k < |p.states| ==> factors[k] == ShiftFactor(p, flows, k)
    ensures least == MinFactor(p, flows, flow, |p.states|)
  {
    least := 1.0;
    for k := 0 to |p.states|
      invariant least == MinFactor(p, flows, flow, k)
    {
      if p.states[k].asset == flow.source || p.states[k].asset == flow.target {
        if factors[k] < least {
          least := factors[k];
        }
      }
    }
  }

  method ScaleEntry(flows: array<Flow>, k: nat, factor: real)
    requires k < flows.Length && factor <= 1.0
    modifies flows
    ensures flows[..] == old(flows[..])[k := ScaledFlow(old(flows[k]), factor)]
  {
    if factor < 1.0 {
      flows[k] := flows[k].(amount := flows[k].amount * factor);
    } else {
      assert flows[k].amount * 1.0 == flows[k].amount;
      assert ScaledFlow(flows[k], factor) == flows[k];
    }
  }

  method ScaleByAssets(p: Problem, flows: array<Flow>, count: nat, factors: array<real>)
    requires Valid(p) && count <= flows.Length && factors.Length == |p.states|
    requires forall k :: 0 <= k < |p.states| ==> factors[k] == ShiftFactor(p, flows[..count], k)
    modifies flows
    ensures flows[..count] == AssetScaled(p, old(flows[..count]))
  {
    ghost var before := flows[..count];
    for k := 0 to count
      invariant forall j :: 0 <= j < k ==> flows[j] == AssetScaled(p, before)[j]
      invariant forall j :: k <= j < count ==> flows[j] == before[j]
      invariant forall j :: 0 <= j < |p.states| ==> factors[j] == ShiftFactor(p, before, j)
    {
      var least := LeastFactor(p, factors, before, flows[k]);
      MinFactorLeast(p, before, before[k], |p.states|);
      ghost var now := flows[..];
      ScaleEntry(flows, k, least);
      assert forall j :: 0 <= j < count ==> flows[j] == flows[..][j];
    }
  }

  method SumShift(flows: array<Flow>, count: nat) returns (total: real)
    requires count <= flows.Length
    ensures total == TotalShift(flows[..count])
  {
    total := 0.0;
    for k := 0 to count
      invariant total == TotalShift(flows[..k])
    {
      FlowSnoc(flows[..k], flows[k], 0);
      assert flows[..k + 1] == flows[..k] + [flows[k]];
      total := total + flows[k].amount;
    }
  }

  lemma AllScaledSnoc(flows: seq<Flow>, f: Flow, factor: real)
    ensures AllScaled(flows + [f], factor) == AllScaled(flows, factor) + [ScaledFlow(f, factor)]
  {
  }

  method Keep(kept: seq<Flow>, total: real, flow: Flow) returns (kept': seq<Flow>, total': real)
    requires |kept| < MAX_FLOWS && total == TotalShift(kept)
    ensures kept' == (if flow.amount > 0.0 then kept + [flow] else kept) && total' == TotalShift(kept')
  {
    kept', total' := kept, total;
    if flow.amount > 0.0 {
      if |kept| < MAX_FLOWS {
        FlowSnoc(kept, flow, 0);
        kept' := kept + [flow];
        total' := total + flow.amount;
      }
    }
  }

  /** Scales every flow by the factor and keeps what is left above zero. */
  method Emit(flows: array<Flow>, count: nat, factor: real) returns (kept: seq<Flow>, total: real)
    requires count <= flows.Length && count <= MAX_FLOWS
    ensures kept == Positive(AllScaled(flows[..count], factor)) && total == TotalShift(kept)
  {
    kept, total := [], 0.0;
    for k := 0 to count
      invariant |kept| <= k
      invariant kept == Positive(AllScaled(flows[..k], factor)) && total == TotalShift(kept)
    {
      EmitStep(flows[..], k, factor);
      kept, total := Keep(kept, total, ScaledFlow(flows[k], factor));
    }
  }

  lemma EmitStep(flows: seq<Flow>, k: nat, factor: real)
    requires k < |flows|
    ensures var f := ScaledFlow(flows[k], factor);
      var sofar := Positive(AllScaled(flows[..k], factor));
      Positive(AllScaled(flows[..k + 1], factor)) == if f.amount > 0.0 then sofar + [f] else sofar
  {
    assert flows[..k + 1] == flows[..k] + [flows[k]];
    AllScaledSnoc(flows[..k], flows[k], factor);
    PositiveSnoc(AllScaled(flows[..k], factor), ScaledFlow(flows[k], factor));
  }

  method PortfolioFactorOf(p: Problem, total: real, flows: array<Flow>, count: nat) returns (factor: real)
    requires total == TotalValue(p) && count <= flows.Length
    ensures factor == PortfolioFactor(p, flows[..count])
  {
    var moved := SumShift(flows, count);
    var limit := p.maxPortfolio * total;
    factor := 1.0;
    if moved > limit && moved > 0.0 {
      factor := limit / moved;
    }
  }

  method ApplyBounds(p: Problem, total: real, flows: array<Flow>, count: nat) returns (kept: seq<Flow>, shift: real)
    requires Valid(p) && total == TotalValue(p) && count <= flows.Length == MAX_FLOWS
    requires EndsKnown(p, flows[..count])
    modifies flows
    ensures kept == Positive(Bounded(p, old(flows[..count]))) && shift == TotalShift(kept)
  {
    var nets := TrackAll(p, flows, count);
    var factors := ShiftFactors(p, nets, flows[..count]);
    ScaleByAssets(p, flows, count, factors);
    var factor := PortfolioFactorOf(p, total, flows, count);
    kept, shift := Emit(flows, count, factor);
  }

  /** Invalid input is refused; an empty or worthless portfolio moves nothing; otherwise the flows
      are the ones Routed describes, within all their bounds. */
  method RouteLiquidity(p: Problem) returns (out: Outcome)
    ensures out.Refused? <==> !Valid(p)
    ensures out.Result? ==> out.flows == Routed(p) && out.totalShift == TotalShift(out.flows)
    ensures out.Result? ==> RouteWithin(p, out.flows)
    ensures out.Result? ==> WellRouted(p, Proposed(p, |p.states|)) && KeepsPositive(p, out.flows)
  {
    var ok := Validate(p);
    if !ok {
      return Refused;
    }
    RoutingBounds(p);
    RoutedWell(p);
    hide WellRouted, KeepsPositive;
    var total := SumLiquidity(p);
    if total <= 0.0 {
      return Result([], 0.0);
    }
    var flows, count := ProposeAll(p, total);
    ProposedIsOk(p, |p.states|);
    FlowsKnown(p, flows[..count]);
    var kept, shift := ApplyBounds(p, total, flows, count);
    out := Result(kept, shift);
  }
}
