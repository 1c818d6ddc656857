/** The loops of the constraint pipeline, over arrays that they scale and relabel in place. */
module PortfolioPipeline {
  import opened Options
  import opened RealSums
  import opened Portfolio
  import opened PortfolioStages

  datatype Outcome =
    | Refused
    | Applied(weights: seq<real>, initialRisk: real, finalRisk: real, riskLimit: real, violations: nat)

  const NO_BUDGET := 999999.0

  // ---------- Validation ----------

  method Validate(p: Problem) returns (ok: bool)
    requires |p.ids| == |p.risks|
    ensures ok <==> Valid(p)
  {
    ok := |p.ids| <= 16 && |p.rules| <= 32 && |p.sectors| <= 8 && |p.profiles| <= 32 && p.budget.maxRisk >= 0.0;
    ghost var counted := ok;
    for i := 0 to |p.ids|
      invariant ok <==> (counted && forall k :: 0 <= k < i ==> p.risks[k] >= 0.0)
    {
      ok := ok && p.risks[i] >= 0.0;
    }
    var rules := ValidateRules(p.rules);
    var groups := ValidateGroups(p);
    ok := ok && rules && groups;
  }

  method ValidateRules(rules: seq<Rule>) returns (ok: bool)
    ensures ok <==> forall k :: 0 <= k < |rules| ==> rules[k].maxLong >= 0.0 && rules[k].maxShort >= 0.0
  {
    ok := true;
    for i := 0 to |rules|
      invariant ok <==> forall k :: 0 <= k < i ==> rules[k].maxLong >= 0.0 && rules[k].maxShort >= 0.0
    {
      ok := ok && rules[i].maxLong >= 0.0 && rules[i].maxShort >= 0.0;
    }
  }

  ghost predicate GroupsValid(p: Problem) {
    && (forall i :: 0 <= i < |p.sectors| ==> p.sectors[i].cap >= 0.0)
    && (forall i :: 0 <= i < |p.profiles| ==> -1.0 <= p.profiles[i].score <= 1.0)
  }

  method ValidateGroups(p: Problem) returns (ok: bool)
    ensures ok <==> GroupsValid(p)
  {
    ok := true;
    for i := 0 to |p.sectors|
      invariant ok <==> forall k :: 0 <= k < i ==> p.sectors[k].cap >= 0.0
    {
      ok := ok && p.sectors[i].cap >= 0.0;
    }
    ghost var before := ok;
    for i := 0 to |p.profiles|
      invariant ok <==> (before && forall k :: 0 <= k < i ==> -1.0 <= p.profiles[k].score <= 1.0)
    {
      ok := ok && Abs(p.profiles[i].score) <= 1.0;
    }
  }

  // ---------- Sums ----------

  lemma TermsSnoc(w: seq<real>, c: seq<real>, k: nat)
    requires k < |w| == |c|
    ensures Sum(Terms(w, c)[..k + 1]) == Sum(Terms(w, c)[..k]) + Abs(w[k]) * c[k]
  {
    assert Terms(w, c)[..k + 1][..k] == Terms(w, c)[..k];
  }

  lemma TermsAll(w: seq<real>, c: seq<real>)
    requires |w| == |c|
    ensures Sum(Terms(w, c)[..|w|]) == Load(w, c)
  {
    assert Terms(w, c)[..|w|] == Terms(w, c);
  }

  method Risk(a: array<real>, risks: seq<real>) returns (sum: real)
    requires a.Length == |risks|
    ensures sum == Load(a[..], risks)
  {
    sum := 0.0;
    for k := 0 to a.Length
      invariant sum == Sum(Terms(a[..], risks)[..k])
    {
      TermsSnoc(a[..], risks, k);
      sum := sum + Abs(a[k]) * risks[k];
    }
    TermsAll(a[..], risks);
  }

  method SectorExposure(a: array<real>, ids: seq<AssetId>, sector: int) returns (sum: real)
    requires a.Length == |ids|
    ensures sum == Load(a[..], SectorShares(ids, sector))
  {
    sum := 0.0;
    ghost var c := SectorShares(ids, sector);
    for k := 0 to a.Length
      invariant sum == Sum(Terms(a[..], c)[..k])
    {
      TermsSnoc(a[..], c, k);
      if SectorOf(ids[k]) == sector {
        assert Abs(a[k]) * c[k] == Abs(a[k]);
        sum := sum + Abs(a[k]);
      }
    }
    TermsAll(a[..], c);
  }

  // ---------- Stages 1 and 2 ----------

  method FindRule(rules: seq<Rule>, asset: AssetId) returns (rule: Option<Rule>)
    ensures rule == FirstRule(rules, asset)
  {
    for k := 0 to |rules|
      invariant FirstRule(rules, asset) == FirstRule(rules[k..], asset)
    {
      if rules[k].asset == asset && rules[k].active {
        return Some(rules[k]);
      }
      assert rules[k..][1..] == rules[k + 1..];
    }
    rule := None;
  }

  method ClampExposures(a: array<real>, ids: seq<AssetId>, rules: seq<Rule>)
    requires a.Length == |ids|
    modifies a
    ensures a[..] == Clamped(old(a[..]), ids, rules)
  {
    for k := 0 to a.Length
      invariant forall i :: 0 <= i < k ==> a[i] == ClampOne(old(a[i]), FirstRule(rules, ids[i]))
      invariant forall i :: k <= i < a.Length ==> a[i] == old(a[i])
    {
      var rule := FindRule(rules, ids[k]);
      if rule.Some? {
        if a[k] >= 0.0 {
          if a[k] > rule.value.maxLong {
            a[k] := rule.value.maxLong;
          }
        } else if Abs(a[k]) > rule.value.maxShort {
          a[k] := -rule.value.maxShort;
        }
      }
    }
  }

  /** Multiplies the members of the sector by the factor. */
  method ScaleSector(a: array<real>, ids: seq<AssetId>, sector: int, scale: real)
    requires a.Length == |ids|
    modifies a
    ensures a[..] == ScaleShares(old(a[..]), SectorShares(ids, sector), scale)
  {
    ghost var w, c := a[..], SectorShares(ids, sector);
    for k := 0 to a.Length
      invariant forall i :: 0 <= i < k ==> a[i] == ScaleShares(w, c, scale)[i]
      invariant forall i :: k <= i < a.Length ==> a[i] == w[i]
    {
      if SectorOf(ids[k]) == sector {
        a[k] := a[k] * scale;
      }
    }
  }

  method EnforceSectorCaps(a: array<real>, ids: seq<AssetId>, sectors: seq<Sector>)
    requires a.Length == |ids|
    modifies a
    ensures a[..] == SectorCapped(old(a[..]), ids, sectors)
  {
    ghost var w := a[..];
    for k := 0 to |sectors|
      invariant a[..] == SectorCapped(w, ids, sectors[..k])
    {
      assert sectors[..k + 1][..k] == sectors[..k];
      if sectors[k].active {
        EnforceSectorCap(a, ids, sectors[k]);
      }
    }
    assert sectors[..|sectors|] == sectors;
  }

  method EnforceSectorCap(a: array<real>, ids: seq<AssetId>, s: Sector)
    requires a.Length == |ids|
    modifies a
    ensures a[..] == Capped(old(a[..]), SectorShares(ids, s.sector), s.cap)
  {
    var sum := SectorExposure(a, ids, s.sector);
    if sum > s.cap && sum > 0.0 {
      ScaleSector(a, ids, s.sector, s.cap / sum);
    }
  }

  // ---------- Stage 3 ----------

  method FindPositions(ids: seq<AssetId>, f: Profile) returns (a: int, b: int)
    ensures a == LastIndex(ids, f.a) && b == LastIndex(ids, f.b)
  {
    a, b := -1, -1;
    for k := 0 to |ids|
      invariant a == LastIndex(ids[..k], f.a) && b == LastIndex(ids[..k], f.b)
    {
      assert ids[..k + 1][..k] == ids[..k];
      if ids[k] == f.a {
        a := k;
      }
      if ids[k] == f.b {
        b := k;
      }
    }
    assert ids[..|ids|] == ids;
  }

  /** The union step: every position with the old label gets the new one. */
  method Relabel(labels: array<nat>, oldLabel: nat, newLabel: nat)
    modifies labels
    ensures labels[..] == Relabelled(old(labels[..]), oldLabel, newLabel)
  {
    for k := 0 to labels.Length
      invariant forall i :: 0 <= i < k ==> labels[i] == if old(labels[i]) == oldLabel then newLabel else old(labels[i])
      invariant forall i :: k <= i < labels.Length ==> labels[i] == old(labels[i])
    {
      if labels[k] == oldLabel {
        labels[k] := newLabel;
      }
    }
  }

  lemma RelabelSame(labels: seq<nat>, same: nat)
    ensures Relabelled(labels, same, same) == labels
  {
  }

  method LabelClusters(ids: seq<AssetId>, profiles: seq<Profile>) returns (labels: array<nat>)
    ensures fresh(labels)
    ensures labels[..] == LabelsFor(profiles, ids)
  {
    labels := new nat[|ids|](i => i);
    assert labels[..] == Identity(|ids|);
    for k := 0 to |profiles|
      invariant fresh(labels)
      invariant labels[..] == LabelsFor(profiles[..k], ids)
    {
      UniteByProfile(labels, ids, profiles[..k], profiles[k]);
      assert profiles[..k + 1] == profiles[..k] + [profiles[k]];
    }
    assert profiles[..|profiles|] == profiles;
  }

  /** What a profile adds to the edges, and what that does to the labels. */
  lemma LabelsSnoc(done: seq<Profile>, f: Profile, ids: seq<AssetId>)
    ensures var a, b := LastIndex(ids, f.a), LastIndex(ids, f.b);
      var labels := LabelsFor(done, ids);
      LabelsFor(done + [f], ids) ==
        if Strong(f) && a >= 0 && b >= 0 then Relabelled(labels, labels[b], labels[a]) else labels
  {
    var es := Edges(done, ids);
    var a, b := LastIndex(ids, f.a), LastIndex(ids, f.b);
    assert (done + [f])[..|done|] == done;
    if Strong(f) && a >= 0 && b >= 0 {
      assert (es + [(a as nat, b as nat)])[..|es|] == es;
    } else {
      assert es + [] == es;
    }
  }

  method UniteByProfile(labels: array<nat>, ids: seq<AssetId>, ghost done: seq<Profile>, f: Profile)
    requires labels[..] == LabelsFor(done, ids)
    modifies labels
    ensures labels[..] == LabelsFor(done + [f], ids)
  {
    LabelsSnoc(done, f, ids);
    if f.active && f.score > CLUSTER_THRESHOLD {
      var a, b := FindPositions(ids, f);
      if a != -1 && b != -1 {
        Unite(labels, a, b);
      }
    }
  }

  method Unite(labels: array<nat>, a: nat, b: nat)
    requires a < labels.Length && b < labels.Length
    modifies labels
    ensures labels[..] == Relabelled(old(labels[..]), old(labels[b]), old(labels[a]))
  {
    var oldLabel, newLabel := labels[b], labels[a];
    if oldLabel != newLabel {
      Relabel(labels, oldLabel, newLabel);
    } else {
      RelabelSame(labels[..], oldLabel);
    }
  }

  /** Size and exposure of every cluster, by its label. */
  method ClusterTotals(a: array<real>, labels: array<nat>) returns (sizes: array<nat>, sums: array<real>)
    requires a.Length == labels.Length && SelfLabelled(labels[..])
    ensures sizes.Length == sums.Length == labels.Length && fresh(sizes) && fresh(sums)
    ensures forall l :: 0 <= l < labels.Length ==> sizes[l] == ClusterSize(labels[..], l)
    ensures forall l :: 0 <= l < labels.Length ==> sums[l] == Load(a[..], ClusterShares(labels[..], l))
    ensures Sum(sums[..]) == Sum(Magnitudes(a[..]))
  {
    hide Terms, ClusterShares, Load, Abs;
    var n := labels.Length;
    sizes, sums := new nat[n](_ => 0), new real[n](_ => 0.0);
    ghost var w, ls := a[..], labels[..];
    for k := 0 to n
      invariant fresh(sizes) && fresh(sums) && sizes.Length == sums.Length == n
      invariant forall l :: 0 <= l < n ==> sizes[l] == ClusterSize(ls[..k], l)
      invariant forall l :: 0 <= l < n ==> sums[l] == Sum(Terms(w, ClusterShares(ls, l))[..k])
    {
      forall l | 0 <= l < n
        ensures ClusterSize(ls[..k + 1], l) == ClusterSize(ls[..k], l) + if ls[k] == l then 1 else 0
        ensures Sum(Terms(w, ClusterShares(ls, l))[..k + 1]) ==
          Sum(Terms(w, ClusterShares(ls, l))[..k]) + if ls[k] == l then Abs(w[k]) else 0.0
      {
        ClusterSnoc(w, ls, k, l);
      }
      var l := labels[k];
      sizes[l] := sizes[l] + 1;
      sums[l] := sums[l] + Abs(a[k]);
    }
    forall l | 0 <= l < n ensures sums[l] == Load(w, ClusterShares(ls, l)) {
      TermsAll(w, ClusterShares(ls, l));
    }
    assert ls[..n] == ls;
    SumsPartition(w, ls, sums[..]);
  }

  lemma SumsPartition(w: seq<real>, ls: seq<nat>, sums: seq<real>)
    requires |w| == |ls| == |sums| && SelfLabelled(ls)
    requires forall l :: 0 <= l < |ls| ==> sums[l] == Load(w, ClusterShares(ls, l))
    ensures Sum(sums) == Sum(Magnitudes(w))
  {
    assert sums == ClusterLoads(w, ls, |ls|);
    ClustersPartition(w, ls, |ls|);
  }

  lemma ClusterSnoc(w: seq<real>, ls: seq<nat>, k: nat, l: nat)
    requires k < |w| == |ls|
    ensures ClusterSize(ls[..k + 1], l) == ClusterSize(ls[..k], l) + if ls[k] == l then 1 else 0
    ensures Sum(Terms(w, ClusterShares(ls, l))[..k + 1]) ==
      Sum(Terms(w, ClusterShares(ls, l))[..k]) + if ls[k] == l then Abs(w[k]) else 0.0
  {
    assert ls[..k + 1][..k] == ls[..k];
    TermsSnoc(w, ClusterShares(ls, l), k);
    assert Abs(w[k]) * 1.0 == Abs(w[k]) && Abs(w[k]) * 0.0 == 0.0;
  }

  method DampenClusters(a: array<real>, labels: array<nat>)
    requires a.Length == labels.Length && SelfLabelled(labels[..])
    modifies a
    ensures a[..] == Dampened(old(a[..]), old(labels[..]))
  {
    var sizes, sums := ClusterTotals(a, labels);
    ghost var w, ls := a[..], labels[..];
    DampenEntries(a, labels, sizes, sums);
    DampenedEntries(w, ls, a[..], sizes[..], sums[..]);
  }

  /** The scaling loop, on totals computed before it. */
  method DampenEntries(a: array<real>, labels: array<nat>, sizes: array<nat>, sums: array<real>)
    requires a.Length == labels.Length == sizes.Length == sums.Length && SelfLabelled(labels[..])
    requires a != sums
    modifies a
    ensures forall i :: 0 <= i < a.Length ==>
      labels[i] < a.Length && a[i] == DampenOne(old(a[i]), sizes[labels[i]], sums[labels[i]])
  {
    assert forall i :: 0 <= i < a.Length ==> labels[..][i] < a.Length;
    for k := 0 to a.Length
      invariant forall i :: 0 <= i < k ==> a[i] == DampenOne(old(a[i]), sizes[labels[i]], sums[labels[i]])
      invariant forall i :: k <= i < a.Length ==> a[i] == old(a[i])
    {
      var l := labels[k];
      if sizes[l] > 1 && sums[l] > CLUSTER_CAP {
        a[k] := a[k] * (CLUSTER_CAP / sums[l]);
      }
    }
  }

  lemma DampenedEntries(w: seq<real>, ls: seq<nat>, r: seq<real>, sizes: seq<nat>, sums: seq<real>)
    requires |w| == |ls| == |r| == |sizes| == |sums| && SelfLabelled(ls)
    requires forall l :: 0 <= l < |ls| ==> sizes[l] == ClusterSize(ls, l) && sums[l] == Load(w, ClusterShares(ls, l))
    requires forall i :: 0 <= i < |r| ==> ls[i] < |ls| && r[i] == DampenOne(w[i], sizes[ls[i]], sums[ls[i]])
    ensures r == Dampened(w, ls)
  {
  }

  // ---------- Stage 4 ----------

  method ScaleRisky(a: array<real>, risks: seq<real>, scale: real)
    requires a.Length == |risks|
    modifies a
    ensures a[..] == ScaleShares(old(a[..]), risks, scale)
  {
    ghost var w := a[..];
    for k := 0 to a.Length
      invariant forall i :: 0 <= i < k ==> a[i] == ScaleShares(w, risks, scale)[i]
      invariant forall i :: k <= i < a.Length ==> a[i] == w[i]
    {
      if risks[k] > 0.0 {
        a[k] := a[k] * scale;
      }
    }
  }

  method EnforceBudget(a: array<real>, risks: seq<real>, budget: Budget)
    requires a.Length == |risks|
    modifies a
    ensures a[..] == BudgetStep(old(a[..]), risks, budget)
  {
    var risk := Risk(a, risks);
    if budget.active && risk > budget.maxRisk && risk > 0.0 {
      ScaleRisky(a, risks, budget.maxRisk / risk);
    }
  }

  // ---------- The whole call ----------

  method Constrain(a: array<real>, p: Problem)
    requires a.Length == |p.ids| == |p.risks|
    modifies a
    ensures a[..] == Constrained(p, old(a[..]))
  {
    ClampExposures(a, p.ids, p.rules);
    EnforceSectorCaps(a, p.ids, p.sectors);
    var labels := LabelClusters(p.ids, p.profiles);
    LabelsOk(|p.ids|, Edges(p.profiles, p.ids));
    DampenClusters(a, labels);
    EnforceBudget(a, p.risks, p.budget);
  }

  /** Invalid input is refused; otherwise the result meets every limit at once, and the violation
      count the summary reports is always zero. */
  method ApplyPortfolioConstraints(p: Problem, proposed: seq<real>) returns (out: Outcome)
    requires |proposed| == |p.ids| == |p.risks|
    ensures out.Refused? <==> !Valid(p)
    ensures out.Applied? ==> out.weights == Constrained(p, proposed) && WithinLimits(p, out.weights)
    ensures out.Applied? ==> WellStaged(p, proposed, out.weights)
    ensures out.Applied? ==>
      out.initialRisk == Load(proposed, p.risks) && out.finalRisk == Load(out.weights, p.risks) <= out.initialRisk
    ensures out.Applied? ==> out.violations == 0
    ensures out.Applied? ==> out.riskLimit == if p.budget.active then p.budget.maxRisk else NO_BUDGET
  {
    var ok := Validate(p);
    if !ok {
      return Refused;
    }
    var a := new real[|proposed|](i requires 0 <= i < |proposed| => proposed[i]);
    assert a[..] == proposed;
    var initial := Risk(a, p.risks);
    Constrain(a, p);
    AllLimitsHold(p, proposed);
    ConstrainedWellStaged(p, proposed);
    hide WellStaged, WithinLimits, Constrained;
    LoadShrinks(Constrained(p, proposed), proposed, p.risks);
    var final := Risk(a, p.risks);
    out := Applied(a[..], initial, final, if p.budget.active then p.budget.maxRisk else NO_BUDGET,
      if p.budget.active && final > p.budget.maxRisk then 1 else 0);
  }
}
