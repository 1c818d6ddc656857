/** The portfolio constraint pipeline as a function on allocation vectors: exposure clamp, sector
    caps in order, correlation clusters, risk budget.  The loops over arrays that carry it out are in
    PortfolioPipeline. */
module Portfolio {
  import opened Options
  import opened RealSums

  /** Asset identifiers are compared only; sectors are the five the mapping knows. */
  type AssetId = nat
  const CASH: AssetId := 0
  const BTC: AssetId := 1
  const ETH: AssetId := 2
  const GOLD: AssetId := 3
  const OIL: AssetId := 4

  const FIAT := 0
  const CRYPTO := 1
  const PRECIOUS_METALS := 2
  const ENERGY := 3
  const OTHER := 4

  const CLUSTER_THRESHOLD := 0.70
  const CLUSTER_CAP := 0.30

  datatype Rule = Rule(asset: AssetId, active: bool, maxLong: real, maxShort: real)
  datatype Sector = Sector(sector: int, active: bool, cap: real)
  datatype Profile = Profile(a: AssetId, b: AssetId, active: bool, score: real)
  datatype Budget = Budget(maxRisk: real, active: bool)

  /** Everything but the allocations themselves. */
  datatype Problem = Problem(ids: seq<AssetId>, risks: seq<real>, rules: seq<Rule>, sectors: seq<Sector>,
                             profiles: seq<Profile>, budget: Budget)

  function SectorOf(asset: AssetId): int {
    if asset == CASH then FIAT
    else if asset == BTC || asset == ETH then CRYPTO
    else if asset == GOLD then PRECIOUS_METALS
    else if asset == OIL then ENERGY
    else OTHER
  }

  /** What the validation at the top lets through. */
  ghost predicate Valid(p: Problem) {
    && |p.risks| == |p.ids| <= 16 && |p.rules| <= 32 && |p.sectors| <= 8 && |p.profiles| <= 32
    && NonNegative(p.risks)
    && p.budget.maxRisk >= 0.0
    && (forall i :: 0 <= i < |p.rules| ==> p.rules[i].maxLong >= 0.0 && p.rules[i].maxShort >= 0.0)
    && (forall i :: 0 <= i < |p.sectors| ==> p.sectors[i].cap >= 0.0)
    && (forall i :: 0 <= i < |p.profiles| ==> -1.0 <= p.profiles[i].score <= 1.0)
  }

  // ---------- Loads: sums of magnitudes weighted by shares ----------

  function Terms(w: seq<real>, c: seq<real>): (ts: seq<real>)
    requires |w| == |c|
    ensures |ts| == |w|
  {
    seq(|w|, i requires 0 <= i < |w| => Abs(w[i]) * c[i])
  }

  function Load(w: seq<real>, c: seq<real>): real
    requires |w| == |c|
  {
    Sum(Terms(w, c))
  }

  /** now lies between zero and before, entry by entry. */
  ghost predicate Shrunk(now: seq<real>, before: seq<real>) {
    && |now| == |before|
    && forall i :: 0 <= i < |now| ==> Nearer(now[i], before[i])
  }

  predicate Nearer(x: real, y: real) { 0.0 <= x <= y || y <= x <= 0.0 }

  lemma ShrunkTwice(a: seq<real>, b: seq<real>, c: seq<real>)
    requires Shrunk(a, b) && Shrunk(b, c)
    ensures Shrunk(a, c)
  {
    forall i | 0 <= i < |a| ensures Nearer(a[i], c[i]) {
      assert Nearer(a[i], b[i]) && Nearer(b[i], c[i]);
    }
  }

  lemma LoadShrinks(now: seq<real>, before: seq<real>, c: seq<real>)
    requires Shrunk(now, before) && |c| == |now| && NonNegative(c)
    ensures Load(now, c) <= Load(before, c)
  {
    forall i | 0 <= i < |now| ensures Terms(now, c)[i] <= Terms(before, c)[i] {
      assert Nearer(now[i], before[i]);
      MulMonotone(Abs(now[i]), Abs(before[i]), c[i]);
    }
    SumAtMost(Terms(now, c), Terms(before, c));
  }

  lemma TermScales(x: real, f: real, c: real)
    requires f >= 0.0
    ensures Abs(x * f) * c == f * (Abs(x) * c)
  {
    AbsScales(x, f);
    assert Abs(x * f) * c == (Abs(x) * f) * c;
    assert (Abs(x) * f) * c == f * (Abs(x) * c);
  }

  lemma AbsScales(x: real, f: real)
    requires f >= 0.0
    ensures Abs(x * f) == Abs(x) * f
  {
    if x < 0.0 {
      MulMonotone(x, 0.0, f);
      if x * f == 0.0 {
        assert (-x) * f == -(x * f);
      } else {
        assert -(x * f) == (-x) * f;
      }
    } else {
      MulMonotone(0.0, x, f);
    }
  }

  /** Scaling every entry that has a share by one factor scales the load by it. */
  ghost predicate ScaledOn(now: seq<real>, before: seq<real>, c: seq<real>, f: real) {
    && |now| == |before| == |c|
    && forall i :: 0 <= i < |now| && c[i] != 0.0 ==> now[i] == before[i] * f
  }

  lemma TermScaled(x: real, y: real, c: real, f: real)
    requires f >= 0.0 && (c != 0.0 ==> y == x * f)
    ensures Abs(y) * c == f * (Abs(x) * c)
  {
    if c != 0.0 {
      TermScales(x, f, c);
    }
  }

  lemma TermsScale(now: seq<real>, before: seq<real>, c: seq<real>, f: real)
    requires ScaledOn(now, before, c, f) && f >= 0.0
    ensures Image(Terms(now, c), Terms(before, c), (x: real) => f * x)
  {
    forall i | 0 <= i < |now| ensures Terms(now, c)[i] == f * Terms(before, c)[i] {
      TermScaled(before[i], now[i], c[i], f);
    }
  }

  lemma LoadScales(now: seq<real>, before: seq<real>, c: seq<real>, f: real)
    requires ScaledOn(now, before, c, f) && f >= 0.0
    ensures Load(now, c) == f * Load(before, c)
  {
    var g := (x: real) => f * x;
    TermsScale(now, before, c, f);
    ScalingIsAdditive(f);
    SumOfImage(Terms(now, c), Terms(before, c), g);
  }

  // ---------- One cap: scale a load down to its limit ----------

  /** Everything with a share, times f. */
  function ScaleShares(w: seq<real>, c: seq<real>, f: real): (r: seq<real>)
    requires |w| == |c|
    ensures |r| == |w|
  {
    seq(|w|, i requires 0 <= i < |w| => if c[i] > 0.0 then w[i] * f else w[i])
  }

  function Capped(w: seq<real>, c: seq<real>, cap: real): (r: seq<real>)
    requires |w| == |c|
    ensures |r| == |w|
  {
    var load := Load(w, c);
    if load > cap && load > 0.0 then ScaleShares(w, c, cap / load) else w
  }

  lemma NearerScaled(x: real, f: real)
    requires 0.0 <= f <= 1.0
    ensures Nearer(x * f, x)
  {
    if x >= 0.0 {
      MulMonotone(0.0, x, f);
      MulMonotone(f, 1.0, x);
    } else {
      MulMonotone(x, 0.0, f);
      MulMonotone(f, 1.0, -x);
      assert f * (-x) == -(x * f);
    }
  }

  lemma ScaledToCap(now: seq<real>, before: seq<real>, c: seq<real>, cap: real, load: real)
    requires |before| == |c| && load == Load(before, c) && 0.0 <= cap < load
    requires ScaledOn(now, before, c, cap / load)
    ensures Load(now, c) == cap
  {
    FactorInUnit(cap, load);
    LoadScales(now, before, c, cap / load);
  }

  lemma ScaleSharesOk(w: seq<real>, c: seq<real>, f: real)
    requires |w| == |c| && NonNegative(c) && 0.0 <= f <= 1.0
    ensures Shrunk(ScaleShares(w, c, f), w)
    ensures ScaledOn(ScaleShares(w, c, f), w, c, f)
  {
    forall i | 0 <= i < |w| ensures Nearer(ScaleShares(w, c, f)[i], w[i]) {
      NearerScaled(w[i], f);
    }
  }

  /** The cap is met, exactly where it was exceeded, and nothing moves where it was not. */
  lemma CappedOk(w: seq<real>, c: seq<real>, cap: real)
    requires |w| == |c| && NonNegative(c) && cap >= 0.0
    ensures Shrunk(Capped(w, c, cap), w)
    ensures Load(Capped(w, c, cap), c) <= cap
    ensures Load(w, c) > cap ==> Load(Capped(w, c, cap), c) == cap
    ensures Load(w, c) <= cap ==> Capped(w, c, cap) == w
  {
    var load := Load(w, c);
    if load > cap {
      FactorInUnit(cap, load);
      ScaleSharesOk(w, c, cap / load);
      ScaledToCap(ScaleShares(w, c, cap / load), w, c, cap, load);
    }
  }

  // ---------- Stage 1: exposure clamp ----------

  /** The first active rule for the asset. */
  function FirstRule(rules: seq<Rule>, asset: AssetId): Option<Rule> {
    if rules == [] then None
    else if rules[0].asset == asset && rules[0].active then Some(rules[0])
    else FirstRule(rules[1..], asset)
  }

  function ClampOne(x: real, rule: Option<Rule>): real {
    if rule.None? then x
    else if x >= 0.0 then (if x > rule.value.maxLong then rule.value.maxLong else x)
    else if -x > rule.value.maxShort then -rule.value.maxShort else x
  }

  function Clamped(w: seq<real>, ids: seq<AssetId>, rules: seq<Rule>): (r: seq<real>)
    requires |w| == |ids|
    ensures |r| == |w|
  {
    seq(|w|, i requires 0 <= i < |w| => ClampOne(w[i], FirstRule(rules, ids[i])))
  }

  lemma {:induction false} FirstRuleIn(rules: seq<Rule>, asset: AssetId)
    ensures FirstRule(rules, asset).Some? ==> FirstRule(rules, asset).value in rules
  {
    if rules != [] {
      FirstRuleIn(rules[1..], asset);
    }
  }

  ghost predicate FirstAt(rules: seq<Rule>, asset: AssetId, k: nat) {
    && k < |rules| && rules[k].asset == asset && rules[k].active
    && forall j :: 0 <= j < k ==> !(rules[j].asset == asset && rules[j].active)
  }

  /** The rule found is the first active one for the asset. */
  lemma {:induction false} FirstRuleIsFirst(rules: seq<Rule>, asset: AssetId) returns (k: nat)
    requires FirstRule(rules, asset).Some?
    ensures FirstAt(rules, asset, k) && FirstRule(rules, asset) == Some(rules[k])
  {
    if rules[0].asset == asset && rules[0].active {
      k := 0;
    } else {
      var j := FirstRuleIsFirst(rules[1..], asset);
      k := j + 1;
      forall i | 0 <= i < k ensures !(rules[i].asset == asset && rules[i].active) {
        assert i > 0 ==> rules[i] == rules[1..][i - 1];
      }
    }
  }

  /** The clamp moves an allocation no further than to the nearest value its rule allows. */
  lemma ClampIsNearest(x: real, rule: Rule, y: real)
    requires rule.maxLong >= 0.0 && rule.maxShort >= 0.0 && -rule.maxShort <= y <= rule.maxLong
    ensures Abs(ClampOne(x, Some(rule)) - x) <= Abs(y - x)
  {
  }

  // ---------- Stage 2: sector caps ----------

  /** Share one for the members of a group, zero for the others. */
  function SectorShares(ids: seq<AssetId>, sector: int): (c: seq<real>)
    ensures |c| == |ids|
  {
    seq(|ids|, i requires 0 <= i < |ids| => if SectorOf(ids[i]) == sector then 1.0 else 0.0)
  }

  function SectorStep(w: seq<real>, ids: seq<AssetId>, s: Sector): (r: seq<real>)
    requires |w| == |ids|
    ensures |r| == |w|
  {
    if s.active then Capped(w, SectorShares(ids, s.sector), s.cap) else w
  }

  function SectorCapped(w: seq<real>, ids: seq<AssetId>, sectors: seq<Sector>): (r: seq<real>)
    requires |w| == |ids|
    ensures |r| == |w|
  {
    if sectors == [] then w
    else SectorStep(SectorCapped(w, ids, sectors[..|sectors| - 1]), ids, sectors[|sectors| - 1])
  }

  ghost predicate SectorWithin(w: seq<real>, ids: seq<AssetId>, s: Sector)
    requires |w| == |ids|
  {
    s.active ==> Load(w, SectorShares(ids, s.sector)) <= s.cap
  }

  lemma {:induction false} SectorCapsHold(w: seq<real>, ids: seq<AssetId>, sectors: seq<Sector>)
    requires |w| == |ids| && forall k :: 0 <= k < |sectors| ==> sectors[k].cap >= 0.0
    ensures Shrunk(SectorCapped(w, ids, sectors), w)
    ensures forall k :: 0 <= k < |sectors| ==> SectorWithin(SectorCapped(w, ids, sectors), ids, sectors[k])
  {
    if sectors != [] {
      var n := |sectors| - 1;
      var before := SectorCapped(w, ids, sectors[..n]);
      var after := SectorCapped(w, ids, sectors);
      SectorCapsHold(w, ids, sectors[..n]);
      SectorStepOk(before, ids, sectors[n]);
      ShrunkTwice(after, before, w);
      forall k | 0 <= k < n ensures SectorWithin(after, ids, sectors[k]) {
        assert SectorWithin(before, ids, sectors[..n][k]);
        LoadShrinks(after, before, SectorShares(ids, sectors[k].sector));
      }
    }
  }

  lemma SectorStepOk(w: seq<real>, ids: seq<AssetId>, s: Sector)
    requires |w| == |ids| && s.cap >= 0.0
    ensures Shrunk(SectorStep(w, ids, s), w)
    ensures SectorWithin(SectorStep(w, ids, s), ids, s)
  {
    if s.active {
      CappedOk(w, SectorShares(ids, s.sector), s.cap);
    }
  }

  // ---------- Stage 3: correlation clusters ----------

  type Edge = (nat, nat)

  /** The last position holding the asset, or -1. */
  function LastIndex(ids: seq<AssetId>, asset: AssetId): (k: int)
    ensures -1 <= k < |ids|
    ensures k >= 0 ==> ids[k] == asset && forall j :: k < j < |ids| ==> ids[j] != asset
    ensures k < 0 ==> asset !in ids
  {
    if ids == [] then -1
    else if ids[|ids| - 1] == asset then |ids| - 1
    else
      assert ids == ids[..|ids| - 1] + [ids[|ids| - 1]];
      LastIndex(ids[..|ids| - 1], asset)
  }

  predicate Strong(f: Profile) { f.active && f.score > CLUSTER_THRESHOLD }

  /** The pairs of positions the strong profiles join, in order. */
  function Edges(profiles: seq<Profile>, ids: seq<AssetId>): (es: seq<Edge>)
    ensures forall k :: 0 <= k < |es| ==> es[k].0 < |ids| && es[k].1 < |ids|
  {
    if profiles == [] then []
    else
      var f := profiles[|profiles| - 1];
      var a, b := LastIndex(ids, f.a), LastIndex(ids, f.b);
      Edges(profiles[..|profiles| - 1], ids) + if Strong(f) && a >= 0 && b >= 0 then [(a, b)] else []
  }

  function Relabelled(labels: seq<nat>, oldLabel: nat, newLabel: nat): (r: seq<nat>)
    ensures |r| == |labels|
  {
    seq(|labels|, i requires 0 <= i < |labels| => if labels[i] == oldLabel then newLabel else labels[i])
  }

  function Identity(n: nat): (r: seq<nat>)
    ensures |r| == n
  {
    seq(n, i requires 0 <= i < n => i)
  }

  /** The labels after all unions: each maps the label of the second end to that of the first. */
  function Labels(n: nat, es: seq<Edge>): (r: seq<nat>)
    requires forall k :: 0 <= k < |es| ==> es[k].0 < n && es[k].1 < n
    ensures |r| == n
  {
    if es == [] then Identity(n)
    else
      var before := Labels(n, es[..|es| - 1]);
      var (a, b) := es[|es| - 1];
      Relabelled(before, before[b], before[a])
  }

  /** Consecutive positions of the path are the two ends of some edge. */
  predicate Joined(es: seq<Edge>, i: nat, j: nat) { (i, j) in es || (j, i) in es }

  ghost predicate Path(es: seq<Edge>, path: seq<nat>) {
    path != [] && forall k :: 0 < k < |path| ==> Joined(es, path[k - 1], path[k])
  }

  ghost predicate Linked(es: seq<Edge>, i: nat, j: nat) {
    exists path :: Path(es, path) && path[0] == i && path[|path| - 1] == j
  }

  lemma MoreEdges(es: seq<Edge>, e: Edge, i: nat, j: nat)
    requires Linked(es, i, j)
    ensures Linked(es + [e], i, j)
  {
    var path :| Path(es, path) && path[0] == i && path[|path| - 1] == j;
    assert Path(es + [e], path);
  }

  lemma LinkedVia(es: seq<Edge>, i: nat, j: nat, k: nat)
    requires Linked(es, i, j) && Linked(es, j, k)
    ensures Linked(es, i, k)
  {
    var p :| Path(es, p) && p[0] == i && p[|p| - 1] == j;
    var q :| Path(es, q) && q[0] == j && q[|q| - 1] == k;
    var r := p + q[1..];
    forall m | 0 < m < |r| ensures Joined(es, r[m - 1], r[m]) {
      if m >= |p| {
        assert r[m] == q[m - |p| + 1];
        assert r[m - 1] == q[m - |p|];
      }
    }
    assert Path(es, r) && r[0] == i && r[|r| - 1] == k;
  }

  lemma LinkedByEdge(es: seq<Edge>, a: nat, b: nat)
    requires (a, b) in es
    ensures Linked(es, a, b) && Linked(es, b, a)
  {
    assert Joined(es, a, b) && Joined(es, b, a);
    assert Path(es, [a, b]) && Path(es, [b, a]);
    assert [a, b][|[a, b]| - 1] == b && [b, a][|[b, a]| - 1] == a;
  }

  ghost predicate LabelsMeanLinked(labels: seq<nat>, es: seq<Edge>) {
    forall i, j :: 0 <= i < |labels| && 0 <= j < |labels| && labels[i] == labels[j] ==> Linked(es, i, j)
  }

  ghost predicate EdgesShareLabel(labels: seq<nat>, es: seq<Edge>) {
    forall k :: 0 <= k < |es| ==>
      es[k].0 < |labels| && es[k].1 < |labels| && labels[es[k].0] == labels[es[k].1]
  }

  /** Every label is a position that labels itself. */
  ghost predicate SelfLabelled(labels: seq<nat>) {
    forall i :: 0 <= i < |labels| ==> labels[i] < |labels| && labels[labels[i]] == labels[i]
  }

  lemma UnionLinked(before: seq<nat>, es: seq<Edge>, a: nat, b: nat, i: nat, j: nat)
    requires LabelsMeanLinked(before, es) && a < |before| && b < |before| && i < |before| && j < |before|
    requires Relabelled(before, before[b], before[a])[i] == Relabelled(before, before[b], before[a])[j]
    ensures Linked(es + [(a, b)], i, j)
  {
    var es' := es + [(a, b)];
    if before[i] == before[j] {
      MoreEdges(es, (a, b), i, j);
    } else {
      assert (a, b) in es';
      LinkedByEdge(es', a, b);
      if before[i] == before[b] {
        MoreEdges(es, (a, b), i, b);
        MoreEdges(es, (a, b), a, j);
        LinkedVia(es', i, b, a);
        LinkedVia(es', i, a, j);
      } else {
        MoreEdges(es, (a, b), i, a);
        MoreEdges(es, (a, b), b, j);
        LinkedVia(es', i, a, b);
        LinkedVia(es', i, b, j);
      }
    }
  }

  lemma UnionSelfLabelled(before: seq<nat>, a: nat, b: nat)
    requires SelfLabelled(before) && a < |before| && b < |before|
    ensures SelfLabelled(Relabelled(before, before[b], before[a]))
  {
  }

  lemma UnionShares(before: seq<nat>, es: seq<Edge>, a: nat, b: nat)
    requires EdgesShareLabel(before, es) && a < |before| && b < |before|
    ensures EdgesShareLabel(Relabelled(before, before[b], before[a]), es + [(a, b)])
  {
  }

  ghost predicate WithinN(n: nat, es: seq<Edge>) {
    forall k :: 0 <= k < |es| ==> es[k].0 < n && es[k].1 < n
  }

  lemma SelfLinked(es: seq<Edge>, i: nat)
    ensures Linked(es, i, i)
  {
    assert Path(es, [i]);
  }

  lemma {:induction false} LabelsOk(n: nat, es: seq<Edge>)
    requires WithinN(n, es)
    ensures SelfLabelled(Labels(n, es))
    ensures EdgesShareLabel(Labels(n, es), es)
    ensures LabelsMeanLinked(Labels(n, es), es)
  {
    if es == [] {
      forall i | 0 <= i < n ensures Linked(es, i, i) {
        SelfLinked(es, i);
      }
    } else {
      var m := |es| - 1;
      var before := Labels(n, es[..m]);
      var (a, b) := es[m];
      LabelsOk(n, es[..m]);
      assert es == es[..m] + [(a, b)];
      UnionSelfLabelled(before, a, b);
      UnionShares(before, es[..m], a, b);
      var after := Relabelled(before, before[b], before[a]);
      forall i, j | 0 <= i < n && 0 <= j < n && after[i] == after[j] ensures Linked(es, i, j) {
        UnionLinked(before, es[..m], a, b, i, j);
      }
    }
  }

  lemma {:induction false} PathKeepsLabel(labels: seq<nat>, es: seq<Edge>, path: seq<nat>)
    requires EdgesShareLabel(labels, es) && Path(es, path) && path[0] < |labels|
    ensures path[|path| - 1] < |labels| && labels[path[|path| - 1]] == labels[path[0]]
  {
    var n := |path| - 1;
    if n > 0 {
      assert Path(es, path[..n]);
      PathKeepsLabel(labels, es, path[..n]);
      assert Joined(es, path[n - 1], path[n]);
    }
  }

  /** Two positions end with the same label exactly when a path of edges links them, and every label
      is a position of its own cluster. */
  lemma LabelsAreComponents(n: nat, es: seq<Edge>, i: nat, j: nat)
    requires WithinN(n, es) && i < n && j < n
    ensures Labels(n, es)[i] == Labels(n, es)[j] <==> Linked(es, i, j)
    ensures Labels(n, es)[i] < n && Labels(n, es)[Labels(n, es)[i]] == Labels(n, es)[i]
  {
    LabelsOk(n, es);
    if Linked(es, i, j) {
      var path :| Path(es, path) && path[0] == i && path[|path| - 1] == j;
      PathKeepsLabel(Labels(n, es), es, path);
    }
  }

  function ClusterShares(labels: seq<nat>, cluster: nat): (c: seq<real>)
    ensures |c| == |labels|
  {
    seq(|labels|, i requires 0 <= i < |labels| => if labels[i] == cluster then 1.0 else 0.0)
  }

  function ClusterSize(labels: seq<nat>, cluster: nat): nat {
    if labels == [] then 0
    else ClusterSize(labels[..|labels| - 1], cluster) + if labels[|labels| - 1] == cluster then 1 else 0
  }

  function Magnitudes(w: seq<real>): (m: seq<real>)
    ensures |m| == |w|
  {
    seq(|w|, i requires 0 <= i < |w| => Abs(w[i]))
  }

  /** The exposure of every cluster, by its label. */
  function ClusterLoads(w: seq<real>, labels: seq<nat>, n: nat): (s: seq<real>)
    requires |w| == |labels|
    ensures |s| == n
  {
    seq(n, l requires 0 <= l < n => Load(w, ClusterShares(labels, l)))
  }

  lemma ClusterLoadSnoc(w: seq<real>, labels: seq<nat>, l: nat)
    requires |w| == |labels| > 0
    ensures var n := |w| - 1;
      Load(w, ClusterShares(labels, l)) ==
        Load(w[..n], ClusterShares(labels[..n], l)) + if labels[n] == l then Abs(w[n]) else 0.0
  {
    var n := |w| - 1;
    assert Terms(w, ClusterShares(labels, l))[..n] == Terms(w[..n], ClusterShares(labels[..n], l));
    assert Abs(w[n]) * 1.0 == Abs(w[n]) && Abs(w[n]) * 0.0 == 0.0;
  }

  /** The clusters partition the exposure: as every label is in range, their exposures add up to the
      sum of all magnitudes, nothing counted twice or left out. */
  lemma {:induction false} ClustersPartition(w: seq<real>, labels: seq<nat>, n: nat)
    requires |w| == |labels| && forall i :: 0 <= i < |labels| ==> labels[i] < n
    ensures Sum(ClusterLoads(w, labels, n)) == Sum(Magnitudes(w))
  {
    if w == [] {
      SumOfZeros(ClusterLoads(w, labels, n));
    } else {
      var m := |w| - 1;
      var before := ClusterLoads(w[..m], labels[..m], n);
      var k := labels[m];
      ClustersPartition(w[..m], labels[..m], n);
      forall l: nat | l < n ensures ClusterLoads(w, labels, n)[l] == before[k := before[k] + Abs(w[m])][l] {
        ClusterLoadSnoc(w, labels, l);
      }
      assert ClusterLoads(w, labels, n) == before[k := before[k] + Abs(w[m])];
      SumUpdated(before, k, before[k] + Abs(w[m]));
      assert Magnitudes(w)[..m] == Magnitudes(w[..m]);
    }
  }

  function DampenOne(x: real, size: nat, sum: real): real {
    if size > 1 && sum > CLUSTER_CAP then x * (CLUSTER_CAP / sum) else x
  }

  function Dampened(w: seq<real>, labels: seq<nat>): (r: seq<real>)
    requires |w| == |labels|
    ensures |r| == |w|
  {
    seq(|w|, i requires 0 <= i < |w| =>
      DampenOne(w[i], ClusterSize(labels, labels[i]), Load(w, ClusterShares(labels, labels[i]))))
  }

  ghost predicate ClusterWithin(w: seq<real>, labels: seq<nat>, cluster: nat)
    requires |w| == |labels|
  {
    ClusterSize(labels, cluster) > 1 ==> Load(w, ClusterShares(labels, cluster)) <= CLUSTER_CAP
  }

  lemma DampenNearer(x: real, size: nat, sum: real)
    ensures Nearer(DampenOne(x, size, sum), x)
  {
    if size > 1 && sum > CLUSTER_CAP {
      FactorInUnit(CLUSTER_CAP, sum);
      NearerScaled(x, CLUSTER_CAP / sum);
    }
  }

  lemma DampenedShrinks(w: seq<real>, labels: seq<nat>)
    requires |w| == |labels|
    ensures Shrunk(Dampened(w, labels), w)
  {
    forall i | 0 <= i < |w| ensures Nearer(Dampened(w, labels)[i], w[i]) {
      DampenNearer(w[i], ClusterSize(labels, labels[i]), Load(w, ClusterShares(labels, labels[i])));
    }
  }

  lemma DampenOneIs(x: real, size: nat, sum: real)
    requires size > 1 && sum > CLUSTER_CAP
    ensures DampenOne(x, size, sum) == x * (CLUSTER_CAP / sum)
  {
  }

  lemma DampenScales(w: seq<real>, labels: seq<nat>, cluster: nat, now: seq<real>, size: nat, sum: real)
    requires |w| == |labels| == |now| && size > 1 && sum > CLUSTER_CAP
    requires forall i :: 0 <= i < |w| && labels[i] == cluster ==> now[i] == DampenOne(w[i], size, sum)
    ensures ScaledOn(now, w, ClusterShares(labels, cluster), CLUSTER_CAP / sum)
  {
    var f := CLUSTER_CAP / sum;
    forall i | 0 <= i < |w| && ClusterShares(labels, cluster)[i] != 0.0 ensures now[i] == w[i] * f {
      DampenOneIs(w[i], size, sum);
    }
  }

  /** The cluster cap is met, exactly where a cluster of two or more exceeded it. */
  lemma DampenedWithin(w: seq<real>, labels: seq<nat>, cluster: nat)
    requires |w| == |labels|
    ensures ClusterWithin(Dampened(w, labels), labels, cluster)
    ensures ClusterSize(labels, cluster) > 1 && Load(w, ClusterShares(labels, cluster)) > CLUSTER_CAP ==>
      Load(Dampened(w, labels), ClusterShares(labels, cluster)) == CLUSTER_CAP
  {
    var c := ClusterShares(labels, cluster);
    var sum := Load(w, c);
    if ClusterSize(labels, cluster) > 1 {
      if sum > CLUSTER_CAP {
        DampenScales(w, labels, cluster, Dampened(w, labels), ClusterSize(labels, cluster), sum);
        ScaledToCap(Dampened(w, labels), w, c, CLUSTER_CAP, sum);
      } else {
        DampenedShrinks(w, labels);
        LoadShrinks(Dampened(w, labels), w, c);
      }
    }
  }

  // ---------- The pipeline ----------

  function LabelsFor(profiles: seq<Profile>, ids: seq<AssetId>): (r: seq<nat>)
    ensures |r| == |ids|
  {
    Labels(|ids|, Edges(profiles, ids))
  }

  /** So the exposures of the clusters built from any profiles add up to the total exposure. */
  lemma ExposureIsPartitioned(profiles: seq<Profile>, ids: seq<AssetId>, w: seq<real>)
    requires |w| == |ids|
    ensures Sum(ClusterLoads(w, LabelsFor(profiles, ids), |ids|)) == Sum(Magnitudes(w))
  {
    forall i | 0 <= i < |ids| ensures LabelsFor(profiles, ids)[i] < |ids| {
      LabelsAreComponents(|ids|, Edges(profiles, ids), i, i);
    }
    ClustersPartition(w, LabelsFor(profiles, ids), |ids|);
  }

  function LabelsOf(p: Problem): (r: seq<nat>)
    ensures |r| == |p.ids|
  {
    LabelsFor(p.profiles, p.ids)
  }

  function BudgetStep(w: seq<real>, risks: seq<real>, budget: Budget): (r: seq<real>)
    requires |w| == |risks|
    ensures |r| == |w|
  {
    if budget.active then Capped(w, risks, budget.maxRisk) else w
  }

  function Constrained(p: Problem, w: seq<real>): (r: seq<real>)
    requires |w| == |p.ids| == |p.risks|
    ensures |r| == |w|
  {
    var clamped := Clamped(w, p.ids, p.rules);
    var capped := SectorCapped(clamped, p.ids, p.sectors);
    BudgetStep(Dampened(capped, LabelsOf(p)), p.risks, p.budget)
  }

  // ---------- The limits ----------

  ghost predicate ExposureWithin(x: real, rule: Option<Rule>) {
    rule.Some? ==> -rule.value.maxShort <= x <= rule.value.maxLong
  }

  ghost predicate ExposuresWithin(p: Problem, w: seq<real>)
    requires |w| == |p.ids|
  {
    forall i :: 0 <= i < |w| ==> ExposureWithin(w[i], FirstRule(p.rules, p.ids[i]))
  }

  ghost predicate SectorsWithin(p: Problem, w: seq<real>)
    requires |w| == |p.ids|
  {
    forall k :: 0 <= k < |p.sectors| ==> SectorWithin(w, p.ids, p.sectors[k])
  }

  ghost predicate ClustersWithin(p: Problem, w: seq<real>)
    requires |w| == |p.ids|
  {
    forall cluster :: 0 <= cluster < |w| ==> ClusterWithin(w, LabelsOf(p), cluster)
  }

  ghost predicate BudgetWithin(p: Problem, w: seq<real>)
    requires |w| == |p.risks|
  {
    p.budget.active ==> Load(w, p.risks) <= p.budget.maxRisk
  }

  ghost predicate WithinLimits(p: Problem, w: seq<real>)
    requires |w| == |p.ids| == |p.risks|
  {
    ExposuresWithin(p, w) && SectorsWithin(p, w) && ClustersWithin(p, w) && BudgetWithin(p, w)
  }

  lemma ShrunkKeepsExposures(p: Problem, now: seq<real>, before: seq<real>)
    requires Valid(p) && Shrunk(now, before) && |now| == |p.ids| && ExposuresWithin(p, before)
    ensures ExposuresWithin(p, now)
  {
    forall i | 0 <= i < |now| ensures ExposureWithin(now[i], FirstRule(p.rules, p.ids[i])) {
      FirstRuleIn(p.rules, p.ids[i]);
      assert Nearer(now[i], before[i]);
      assert ExposureWithin(before[i], FirstRule(p.rules, p.ids[i]));
    }
  }

  lemma ShrunkKeepsSectors(p: Problem, now: seq<real>, before: seq<real>)
    requires Shrunk(now, before) && |now| == |p.ids| && SectorsWithin(p, before)
    ensures SectorsWithin(p, now)
  {
    forall k | 0 <= k < |p.sectors| ensures SectorWithin(now, p.ids, p.sectors[k]) {
      assert SectorWithin(before, p.ids, p.sectors[k]);
      LoadShrinks(now, before, SectorShares(p.ids, p.sectors[k].sector));
    }
  }

  lemma ShrunkKeepsClusters(p: Problem, now: seq<real>, before: seq<real>)
    requires Shrunk(now, before) && |now| == |p.ids| && ClustersWithin(p, before)
    ensures ClustersWithin(p, now)
  {
    forall cluster | 0 <= cluster < |now| ensures ClusterWithin(now, LabelsOf(p), cluster) {
      assert ClusterWithin(before, LabelsOf(p), cluster);
      LoadShrinks(now, before, ClusterShares(LabelsOf(p), cluster));
    }
  }

  lemma ClampedOk(p: Problem, w: seq<real>)
    requires Valid(p) && |w| == |p.ids|
    ensures Shrunk(Clamped(w, p.ids, p.rules), w)
    ensures ExposuresWithin(p, Clamped(w, p.ids, p.rules))
  {
    forall i | 0 <= i < |w|
      ensures Nearer(Clamped(w, p.ids, p.rules)[i], w[i])
      ensures ExposureWithin(Clamped(w, p.ids, p.rules)[i], FirstRule(p.rules, p.ids[i]))
    {
      FirstRuleIn(p.rules, p.ids[i]);
    }
  }

  lemma BudgetStepOk(p: Problem, w: seq<real>)
    requires Valid(p) && |w| == |p.ids|
    ensures Shrunk(BudgetStep(w, p.risks, p.budget), w)
    ensures BudgetWithin(p, BudgetStep(w, p.risks, p.budget))
  {
    if p.budget.active {
      CappedOk(w, p.risks, p.budget.maxRisk);
    }
  }

  /** No stage undoes an earlier one: at the end every exposure rule, every sector cap, every cluster
      cap and the risk budget hold together, and no allocation has grown or changed sign. */
  lemma AllLimitsHold(p: Problem, w: seq<real>)
    requires Valid(p) && |w| == |p.ids|
    ensures WithinLimits(p, Constrained(p, w))
    ensures Shrunk(Constrained(p, w), w)
  {
    var clamped := Clamped(w, p.ids, p.rules);
    var capped := SectorCapped(clamped, p.ids, p.sectors);
    var dampened := Dampened(capped, LabelsOf(p));
    var done := Constrained(p, w);
    ClampedOk(p, w);
    SectorCapsHold(clamped, p.ids, p.sectors);
    DampenedShrinks(capped, LabelsOf(p));
    forall cluster | 0 <= cluster < |w| ensures ClusterWithin(dampened, LabelsOf(p), cluster) {
      DampenedWithin(capped, LabelsOf(p), cluster);
    }
    BudgetStepOk(p, dampened);
    ShrunkTwice(done, dampened, capped);
    ShrunkTwice(done, capped, clamped);
    ShrunkTwice(done, clamped, w);
    ShrunkKeepsExposures(p, done, clamped);
    ShrunkKeepsSectors(p, done, capped);
    ShrunkKeepsClusters(p, done, dampened);
  }

  // ---------- Fixed points ----------

  lemma {:induction false} SectorsFixed(w: seq<real>, ids: seq<AssetId>, sectors: seq<Sector>)
    requires |w| == |ids| && forall k :: 0 <= k < |sectors| ==> SectorWithin(w, ids, sectors[k])
    ensures SectorCapped(w, ids, sectors) == w
  {
    if sectors != [] {
      var n := |sectors| - 1;
      SectorsFixed(w, ids, sectors[..n]);
      assert SectorWithin(w, ids, sectors[n]);
    }
  }

  lemma ClampFixed(p: Problem, w: seq<real>)
    requires |w| == |p.ids| && ExposuresWithin(p, w)
    ensures Clamped(w, p.ids, p.rules) == w
  {
    forall i | 0 <= i < |w| ensures Clamped(w, p.ids, p.rules)[i] == w[i] {
      assert ExposureWithin(w[i], FirstRule(p.rules, p.ids[i]));
    }
  }

  lemma DampenFixed(p: Problem, w: seq<real>)
    requires |w| == |p.ids| && ClustersWithin(p, w)
    ensures Dampened(w, LabelsOf(p)) == w
  {
    var labels := LabelsOf(p);
    forall i | 0 <= i < |w| ensures Dampened(w, labels)[i] == w[i] {
      LabelsAreComponents(|w|, Edges(p.profiles, p.ids), i, i);
      assert ClusterWithin(w, labels, labels[i]);
    }
  }

  /** The pipeline leaves an allocation alone exactly when it already meets every limit. */
  lemma UnchangedIffWithinLimits(p: Problem, w: seq<real>)
    requires Valid(p) && |w| == |p.ids|
    ensures Constrained(p, w) == w <==> WithinLimits(p, w)
  {
    AllLimitsHold(p, w);
    if WithinLimits(p, w) {
      ClampFixed(p, w);
      SectorsFixed(w, p.ids, p.sectors);
      DampenFixed(p, w);
    }
  }

  lemma Idempotent(p: Problem, w: seq<real>)
    requires Valid(p) && |w| == |p.ids|
    ensures Constrained(p, Constrained(p, w)) == Constrained(p, w)
  {
    AllLimitsHold(p, w);
    UnchangedIffWithinLimits(p, Constrained(p, w));
  }

  // ---------- Clusters without labels ----------

  /** Share one for the positions linked to i. */
  ghost function LinkedShares(n: nat, es: seq<Edge>, i: nat): (c: seq<real>)
    ensures |c| == n
  {
    seq(n, j requires 0 <= j < n => if Linked(es, i, j) then 1.0 else 0.0)
  }

  lemma {:induction false} MemberCounted(labels: seq<nat>, i: nat)
    requires i < |labels|
    ensures ClusterSize(labels, labels[i]) >= 1
  {
    if i < |labels| - 1 {
      MemberCounted(labels[..|labels| - 1], i);
    }
  }

  lemma {:induction false} TwoMembers(labels: seq<nat>, i: nat, j: nat)
    requires i < j < |labels| && labels[i] == labels[j]
    ensures ClusterSize(labels, labels[i]) > 1
  {
    var n := |labels| - 1;
    if j == n {
      MemberCounted(labels[..n], i);
    } else {
      TwoMembers(labels[..n], i, j);
    }
  }

  lemma SharesAreLinked(n: nat, es: seq<Edge>, i: nat)
    requires WithinN(n, es) && i < n
    ensures ClusterShares(Labels(n, es), Labels(n, es)[i]) == LinkedShares(n, es, i)
  {
    forall j | 0 <= j < n
      ensures ClusterShares(Labels(n, es), Labels(n, es)[i])[j] == LinkedShares(n, es, i)[j]
    {
      LabelsAreComponents(n, es, i, j);
    }
  }

  /** Any two different positions that a path links: at the end everything linked to them holds at
      most the cluster cap together. */
  lemma ComponentsCapped(p: Problem, w: seq<real>, i: nat, j: nat)
    requires Valid(p) && |w| == |p.ids| && i < j < |w|
    requires Linked(Edges(p.profiles, p.ids), i, j)
    ensures Load(Constrained(p, w), LinkedShares(|w|, Edges(p.profiles, p.ids), i)) <= CLUSTER_CAP
  {
    var es := Edges(p.profiles, p.ids);
    var labels := LabelsOf(p);
    AllLimitsHold(p, w);
    LabelsAreComponents(|w|, es, i, j);
    SharesAreLinked(|w|, es, i);
    TwoMembers(labels, i, j);
    assert ClusterWithin(Constrained(p, w), labels, labels[i]);
  }

  ghost predicate EdgeOf(f: Profile, ids: seq<AssetId>, i: nat, j: nat) {
    Strong(f) && LastIndex(ids, f.a) == i && LastIndex(ids, f.b) == j
  }

  lemma {:induction false} EdgeFromLast(profiles: seq<Profile>, ids: seq<AssetId>, i: nat, j: nat)
    requires profiles != []
    ensures var n := |profiles| - 1;
      (i, j) in Edges(profiles, ids) <==> (i, j) in Edges(profiles[..n], ids) || EdgeOf(profiles[n], ids, i, j)
  {
  }

  ghost predicate SomeEdgeOf(profiles: seq<Profile>, ids: seq<AssetId>, i: nat, j: nat) {
    exists k :: 0 <= k < |profiles| && EdgeOf(profiles[k], ids, i, j)
  }

  lemma SomeEdgeFromLast(profiles: seq<Profile>, ids: seq<AssetId>, i: nat, j: nat)
    requires profiles != []
    ensures var n := |profiles| - 1;
      SomeEdgeOf(profiles, ids, i, j) <==> SomeEdgeOf(profiles[..n], ids, i, j) || EdgeOf(profiles[n], ids, i, j)
  {
    var n := |profiles| - 1;
    if SomeEdgeOf(profiles[..n], ids, i, j) {
      var k :| 0 <= k < n && EdgeOf(profiles[..n][k], ids, i, j);
      assert EdgeOf(profiles[k], ids, i, j);
    } else {
      forall k | 0 <= k < n ensures !EdgeOf(profiles[k], ids, i, j) {
        assert !EdgeOf(profiles[..n][k], ids, i, j);
      }
    }
  }

  lemma {:induction false} EdgesAre(profiles: seq<Profile>, ids: seq<AssetId>, i: nat, j: nat)
    ensures (i, j) in Edges(profiles, ids) <==> SomeEdgeOf(profiles, ids, i, j)
  {
    if profiles != [] {
      EdgesAre(profiles[..|profiles| - 1], ids, i, j);
      EdgeFromLast(profiles, ids, i, j);
      SomeEdgeFromLast(profiles, ids, i, j);
    }
  }

  ghost predicate HeldOnce(ids: seq<AssetId>, asset: AssetId) {
    forall i, j :: 0 <= i < |ids| && 0 <= j < |ids| && ids[i] == asset && ids[j] == asset ==> i == j
  }

  ghost predicate AllJoined(es: seq<Edge>, ids: seq<AssetId>, a: AssetId, b: AssetId) {
    forall i, j :: 0 <= i < |ids| && 0 <= j < |ids| && ids[i] == a && ids[j] == b ==> Joined(es, i, j)
  }

  lemma OnlyLastJoined(profiles: seq<Profile>, ids: seq<AssetId>, i: nat, j: nat)
    requires i < |ids| && j < |ids| && Joined(Edges(profiles, ids), i, j)
    ensures LastIndex(ids, ids[i]) == i && LastIndex(ids, ids[j]) == j
  {
    EdgesAre(profiles, ids, i, j);
    EdgesAre(profiles, ids, j, i);
  }

  /** A strong profile joins every holding of its two assets exactly when each is held in one
      position only: a repeated asset counts with its last position. */
  lemma ProfileJoinsAllIff(profiles: seq<Profile>, ids: seq<AssetId>, k: nat)
    requires k < |profiles| && Strong(profiles[k]) && profiles[k].a in ids && profiles[k].b in ids
    ensures AllJoined(Edges(profiles, ids), ids, profiles[k].a, profiles[k].b) <==>
      HeldOnce(ids, profiles[k].a) && HeldOnce(ids, profiles[k].b)
  {
    var es, f := Edges(profiles, ids), profiles[k];
    var a, b := LastIndex(ids, f.a), LastIndex(ids, f.b);
    if AllJoined(es, ids, f.a, f.b) {
      forall i | 0 <= i < |ids| && ids[i] == f.a ensures i == a {
        assert Joined(es, i, b);
        OnlyLastJoined(profiles, ids, i, b);
      }
      forall j | 0 <= j < |ids| && ids[j] == f.b ensures j == b {
        assert Joined(es, a, j);
        OnlyLastJoined(profiles, ids, a, j);
      }
    }
    if HeldOnce(ids, f.a) && HeldOnce(ids, f.b) {
      assert EdgeOf(f, ids, a, b);
      EdgesAre(profiles, ids, a, b);
      assert Joined(es, a, b);
    }
  }

  /** Without rules, sectors and budget a position alone in its cluster keeps its allocation. */
  lemma {:induction false} AloneUntouched(p: Problem, w: seq<real>, i: nat)
    requires |w| == |p.ids| == |p.risks| && i < |w|
    requires p.rules == [] && p.sectors == [] && !p.budget.active
    requires ClusterSize(LabelsOf(p), LabelsOf(p)[i]) == 1
    ensures Constrained(p, w)[i] == w[i]
  {
    assert Clamped(w, p.ids, p.rules) == w;
  }

  function Twice(): Problem {
    Problem([BTC, BTC, ETH], [0.0, 0.0, 0.0], [], [], [Profile(BTC, ETH, true, 0.9)], Budget(0.0, false))
  }

  lemma {:induction false} FirstOfTwiceAlone()
    ensures ClusterSize(LabelsOf(Twice()), LabelsOf(Twice())[0]) == 1
  {
    var ids, profiles := Twice().ids, Twice().profiles;
    NotJoinedNotLinked(profiles, ids, 0, 1);
    NotJoinedNotLinked(profiles, ids, 0, 2);
    LabelsAreComponents(3, Edges(profiles, ids), 0, 1);
    LabelsAreComponents(3, Edges(profiles, ids), 0, 2);
    AloneInCluster(LabelsOf(Twice()));
  }

  /** With an asset held twice the first holding escapes its cluster: half the portfolio stays in an
      asset whose cluster may hold three tenths. */
  lemma {:induction false} RepeatedAssetEscapes()
    ensures Valid(Twice()) && Constrained(Twice(), [0.5, 0.2, 0.2])[0] == 0.5
  {
    FirstOfTwiceAlone();
    AloneUntouched(Twice(), [0.5, 0.2, 0.2], 0);
  }

  lemma {:induction false} AloneInCluster(labels: seq<nat>)
    requires |labels| == 3 && labels[1] != labels[0] && labels[2] != labels[0]
    ensures ClusterSize(labels, labels[0]) == 1
  {
    var two, one := labels[..2], labels[..1];
    assert two[..1] == one && one[..0] == [];
    assert ClusterSize(one, labels[0]) == 1;
    assert ClusterSize(two, labels[0]) == 1;
  }

  lemma {:induction false} NotJoinedNotLinked(profiles: seq<Profile>, ids: seq<AssetId>, i: nat, j: nat)
    requires i < |ids| && LastIndex(ids, ids[i]) != i && i != j
    ensures !Linked(Edges(profiles, ids), i, j)
  {
    var es := Edges(profiles, ids);
    if Linked(es, i, j) {
      var path :| Path(es, path) && path[0] == i && path[|path| - 1] == j;
      assert Joined(es, path[0], path[1]);
      OnlyLastJoined(profiles, ids, i, path[1]);
    }
  }
}
