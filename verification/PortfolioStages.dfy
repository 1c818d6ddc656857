/** What each stage of the constraint pipeline adds to the ones before it: the result of a problem is
    compared with the result of the same problem without its budget, its profiles, its last sector,
    or all but its rules.  Together these comparisons determine the result. */
module PortfolioStages {
  import opened Options
  import opened RealSums
  import opened Portfolio

  /** done is base with the load brought down to the cap if it was above it: exactly to the cap, all
      entries with a share in the proportion they had, the others as they were. */
  ghost predicate CappedExactly(base: seq<real>, done: seq<real>, c: seq<real>, cap: real) {
    && |base| == |done| == |c|
    && if Load(base, c) > cap then
         && Load(done, c) == cap
         && forall i :: 0 <= i < |base| ==> ScaledAt(base[i], done[i], c[i], Load(base, c), cap)
       else done == base
  }

  predicate ScaledAt(base: real, done: real, share: real, load: real, cap: real) {
    if share > 0.0 then done * load == base * cap else done == base
  }

  lemma ProportionKept(x: real, f: real, load: real, cap: real)
    requires f * load == cap
    ensures (x * f) * load == x * cap
  {
    assert (x * f) * load == x * (f * load);
  }

  lemma ScaleSharesAt(w: seq<real>, c: seq<real>, load: real, cap: real, i: nat)
    requires |w| == |c| && NonNegative(c) && i < |w| && load > 0.0
    ensures ScaledAt(w[i], ScaleShares(w, c, cap / load)[i], c[i], load, cap)
  {
    ProportionKept(w[i], cap / load, load, cap);
  }

  lemma CappedIsExact(w: seq<real>, c: seq<real>, cap: real)
    requires |w| == |c| && NonNegative(c) && cap >= 0.0
    ensures CappedExactly(w, Capped(w, c, cap), c, cap)
  {
    hide ScaleShares, ScaledAt, Load;
    var load, done := Load(w, c), Capped(w, c, cap);
    CappedOk(w, c, cap);
    if load > cap {
      forall i | 0 <= i < |w| ensures ScaledAt(w[i], done[i], c[i], load, cap) {
        ScaleSharesAt(w, c, load, cap, i);
      }
    }
  }

  // ---------- Problems with stages left out ----------

  function WithoutBudget(p: Problem): Problem { p.(budget := p.budget.(active := false)) }
  function WithoutProfiles(p: Problem): Problem { WithoutBudget(p).(profiles := []) }

  function FirstSectors(p: Problem, n: nat): Problem
    requires n <= |p.sectors|
  {
    WithoutProfiles(p).(sectors := p.sectors[..n])
  }

  lemma {:induction false} SizeTwoShares(labels: seq<nat>, cluster: nat) returns (i: nat, j: nat)
    requires ClusterSize(labels, cluster) > 1
    ensures i < j < |labels| && labels[i] == labels[j] == cluster
  {
    var n := |labels| - 1;
    if labels[n] == cluster {
      i := SizeOneMember(labels[..n], cluster);
      j := n;
    } else {
      i, j := SizeTwoShares(labels[..n], cluster);
    }
  }

  lemma {:induction false} SizeOneMember(labels: seq<nat>, cluster: nat) returns (i: nat)
    requires ClusterSize(labels, cluster) > 0
    ensures i < |labels| && labels[i] == cluster
  {
    var n := |labels| - 1;
    if labels[n] == cluster {
      i := n;
    } else {
      i := SizeOneMember(labels[..n], cluster);
    }
  }

  lemma IdentityAlone(n: nat, cluster: nat)
    ensures ClusterSize(Identity(n), cluster) <= 1
  {
    if ClusterSize(Identity(n), cluster) > 1 {
      var i, j := SizeTwoShares(Identity(n), cluster);
    }
  }

  /** Without profiles the cluster stage does nothing. */
  lemma NoProfilesNoClusters(w: seq<real>, ids: seq<AssetId>)
    requires |w| == |ids|
    ensures Dampened(w, LabelsFor([], ids)) == w
  {
    var labels := LabelsFor([], ids);
    forall i | 0 <= i < |w| ensures Dampened(w, labels)[i] == w[i] {
      IdentityAlone(|ids|, labels[i]);
    }
  }

  /** The result without profiles and budget is that of rules and sectors. */
  lemma BareIs(p: Problem, w: seq<real>)
    requires |w| == |p.ids| == |p.risks|
    ensures Constrained(WithoutProfiles(p), w) == SectorCapped(Clamped(w, p.ids, p.rules), p.ids, p.sectors)
  {
    NoProfilesNoClusters(SectorCapped(Clamped(w, p.ids, p.rules), p.ids, p.sectors), p.ids);
  }

  // ---------- Stage by stage ----------

  ghost predicate BudgetStaged(p: Problem, w: seq<real>, done: seq<real>)
    requires Valid(p) && |w| == |p.ids|
  {
    var base := Constrained(WithoutBudget(p), w);
    if p.budget.active then CappedExactly(base, done, p.risks, p.budget.maxRisk) else done == base
  }

  /** The budget caps the risk of what comes out without it, and does nothing else. */
  lemma BudgetStageExact(p: Problem, w: seq<real>)
    requires Valid(p) && |w| == |p.ids|
    ensures BudgetStaged(p, w, Constrained(p, w))
  {
    if p.budget.active {
      CappedIsExact(Constrained(WithoutBudget(p), w), p.risks, p.budget.maxRisk);
    }
  }

  ghost predicate LinkedToOther(es: seq<Edge>, n: nat, i: nat) {
    exists j :: 0 <= j < n && j != i && Linked(es, i, j)
  }

  /** What the clusters make of position i, base being what comes out without profiles: the position
      keeps its proportion of a cluster that exceeded 0.30, which ends at exactly 0.30, and otherwise
      stays as it is. */
  ghost predicate ClusterExact(es: seq<Edge>, base: seq<real>, done: seq<real>, i: nat)
    requires i < |base| == |done|
  {
    var c := LinkedShares(|base|, es, i);
    if LinkedToOther(es, |base|, i) && Load(base, c) > 0.30
    then Load(done, c) == 0.30 && done[i] * Load(base, c) == base[i] * 0.30
    else done[i] == base[i]
  }

  lemma AloneOrLinked(n: nat, es: seq<Edge>, i: nat)
    requires WithinN(n, es) && i < n
    ensures ClusterSize(Labels(n, es), Labels(n, es)[i]) > 1 <==> LinkedToOther(es, n, i)
  {
    var labels := Labels(n, es);
    if ClusterSize(labels, labels[i]) > 1 {
      var a, b := SizeTwoShares(labels, labels[i]);
      var j := if a == i then b else a;
      LabelsAreComponents(n, es, i, j);
    }
    if LinkedToOther(es, n, i) {
      var j :| 0 <= j < n && j != i && Linked(es, i, j);
      LabelsAreComponents(n, es, i, j);
      if i < j {
        TwoMembers(labels, i, j);
      } else {
        TwoMembers(labels, j, i);
      }
    }
  }

  /** y is what a cluster of this size and load leaves of x. */
  predicate DampenedTo(x: real, y: real, size: nat, load: real) {
    if size > 1 && load > 0.30 then y * load == x * 0.30 else y == x
  }

  lemma DampenOneExact(x: real, size: nat, load: real)
    ensures DampenedTo(x, DampenOne(x, size, load), size, load)
  {
    if size > 1 && load > 0.30 {
      var f := CLUSTER_CAP / load;
      assert f * load == CLUSTER_CAP;
      ProportionKept(x, f, load, CLUSTER_CAP);
    }
  }

  lemma DampenedAt(base: seq<real>, labels: seq<nat>, i: nat)
    requires i < |base| == |labels|
    ensures DampenedTo(base[i], Dampened(base, labels)[i], ClusterSize(labels, labels[i]),
                       Load(base, ClusterShares(labels, labels[i])))
  {
    hide DampenOne, DampenedTo, Load;
    DampenOneExact(base[i], ClusterSize(labels, labels[i]), Load(base, ClusterShares(labels, labels[i])));
  }

  lemma DampenedExact(n: nat, es: seq<Edge>, base: seq<real>, i: nat)
    requires WithinN(n, es) && |base| == n && i < n
    ensures ClusterExact(es, base, Dampened(base, Labels(n, es)), i)
  {
    hide Dampened, Labels, LinkedToOther, LinkedShares, Load, ClusterShares;
    var labels := Labels(n, es);
    AloneOrLinked(n, es, i);
    SharesAreLinked(n, es, i);
    DampenedWithin(base, labels, labels[i]);
    DampenedAt(base, labels, i);
  }

  ghost predicate ClustersStaged(p: Problem, w: seq<real>)
    requires Valid(p) && |w| == |p.ids|
  {
    var base, done := Constrained(WithoutProfiles(p), w), Constrained(WithoutBudget(p), w);
    forall i :: 0 <= i < |w| ==> ClusterExact(Edges(p.profiles, p.ids), base, done, i)
  }

  /** Without a budget, every position of every cluster ends as described, against the result of the
      same problem without profiles: sectors come before clusters. */
  lemma ClusterStageExact(p: Problem, w: seq<real>)
    requires Valid(p) && |w| == |p.ids|
    ensures ClustersStaged(p, w)
  {
    var base := Constrained(WithoutProfiles(p), w);
    BareIs(p, w);
    forall i | 0 <= i < |w|
      ensures ClusterExact(Edges(p.profiles, p.ids), base, Constrained(WithoutBudget(p), w), i)
    {
      DampenedExact(|w|, Edges(p.profiles, p.ids), base, i);
    }
  }

  ghost predicate SectorStaged(p: Problem, w: seq<real>, n: nat)
    requires Valid(p) && |w| == |p.ids| && n < |p.sectors|
  {
    var base, done := Constrained(FirstSectors(p, n), w), Constrained(FirstSectors(p, n + 1), w);
    if p.sectors[n].active then CappedExactly(base, done, SectorShares(p.ids, p.sectors[n].sector), p.sectors[n].cap)
    else done == base
  }

  /** Each active sector caps its own assets in what comes out of the sectors before it, in their
      order, and an inactive one does nothing. */
  lemma SectorStageExact(p: Problem, w: seq<real>, n: nat)
    requires Valid(p) && |w| == |p.ids| && n < |p.sectors|
    ensures SectorStaged(p, w, n)
  {
    var s := p.sectors[n];
    BareIs(FirstSectors(p, n), w);
    BareIs(FirstSectors(p, n + 1), w);
    assert p.sectors[..n + 1][..n] == p.sectors[..n];
    if s.active {
      CappedIsExact(SectorCapped(Clamped(w, p.ids, p.rules), p.ids, p.sectors[..n]),
                    SectorShares(p.ids, s.sector), s.cap);
    }
  }

  lemma AllSectors(p: Problem)
    ensures FirstSectors(p, |p.sectors|) == WithoutProfiles(p)
  {
    assert p.sectors[..|p.sectors|] == p.sectors;
  }

  ghost predicate NoRuleFor(rules: seq<Rule>, asset: AssetId) {
    forall k :: 0 <= k < |rules| ==> !(rules[k].asset == asset && rules[k].active)
  }

  ghost predicate RuleStaged(p: Problem, w: seq<real>, i: nat)
    requires Valid(p) && i < |w| == |p.ids|
  {
    var done := Constrained(FirstSectors(p, 0), w);
    && (NoRuleFor(p.rules, p.ids[i]) ==> done[i] == w[i])
    && (forall k :: 0 <= k < |p.rules| && FirstAt(p.rules, p.ids[i], k) ==>
          MovedInto(done[i], w[i], -p.rules[k].maxShort, p.rules[k].maxLong))
  }

  /** The rules alone move each allocation into the range of the first active rule for its asset. */
  lemma RuleStageExact(p: Problem, w: seq<real>, i: nat)
    requires Valid(p) && |w| == |p.ids| && i < |w|
    ensures RuleStaged(p, w, i)
  {
    BareIs(FirstSectors(p, 0), w);
    var rule := FirstRule(p.rules, p.ids[i]);
    if rule.Some? {
      var first := FirstRuleIsFirst(p.rules, p.ids[i]);
      forall k | 0 <= k < |p.rules| && FirstAt(p.rules, p.ids[i], k) ensures k == first {
      }
    } else {
      NoRuleFound(p.rules, p.ids[i]);
    }
  }

  lemma {:induction false} NoRuleFound(rules: seq<Rule>, asset: AssetId)
    requires FirstRule(rules, asset).None?
    ensures NoRuleFor(rules, asset)
  {
    if rules != [] {
      NoRuleFound(rules[1..], asset);
      assert forall k :: 1 <= k < |rules| ==> rules[k] == rules[1..][k - 1];
    }
  }

  /** All four comparisons at once. */
  ghost predicate WellStaged(p: Problem, w: seq<real>, done: seq<real>)
    requires Valid(p) && |w| == |p.ids|
  {
    && BudgetStaged(p, w, done) && ClustersStaged(p, w)
    && (forall n :: 0 <= n < |p.sectors| ==> SectorStaged(p, w, n))
    && (forall i :: 0 <= i < |w| ==> RuleStaged(p, w, i))
  }

  /** What ends up of any allocation is put together from its rules, sectors, clusters and budget, in
      this order, each exactly as described. */
  lemma ConstrainedWellStaged(p: Problem, w: seq<real>)
    requires Valid(p) && |w| == |p.ids|
    ensures WellStaged(p, w, Constrained(p, w))
  {
    BudgetStageExact(p, w);
    ClusterStageExact(p, w);
    forall n | 0 <= n < |p.sectors| ensures SectorStaged(p, w, n) {
      SectorStageExact(p, w, n);
    }
    forall i | 0 <= i < |w| ensures RuleStaged(p, w, i) {
      RuleStageExact(p, w, i);
    }
  }

  // ---------- What joins positions, and what shares a sector ----------

  ghost predicate LastHolding(ids: seq<AssetId>, asset: AssetId, i: nat) {
    i < |ids| && ids[i] == asset && forall j :: i < j < |ids| ==> ids[j] != asset
  }

  ghost predicate Joins(f: Profile, ids: seq<AssetId>, i: nat, j: nat) {
    f.active && f.score > 0.70 && LastHolding(ids, f.a, i) && LastHolding(ids, f.b, j)
  }

  lemma LastHoldingIs(ids: seq<AssetId>, asset: AssetId, i: nat)
    ensures LastHolding(ids, asset, i) <==> LastIndex(ids, asset) == i
  {
  }

  /** Two positions are joined exactly by an active profile above 0.70 whose two assets they hold,
      each last of those that hold it. */
  lemma EdgeIff(profiles: seq<Profile>, ids: seq<AssetId>, i: nat, j: nat)
    ensures (i, j) in Edges(profiles, ids) <==> exists k :: 0 <= k < |profiles| && Joins(profiles[k], ids, i, j)
  {
    EdgesAre(profiles, ids, i, j);
    forall k | 0 <= k < |profiles| ensures Joins(profiles[k], ids, i, j) <==> EdgeOf(profiles[k], ids, i, j) {
      LastHoldingIs(ids, profiles[k].a, i);
      LastHoldingIs(ids, profiles[k].b, j);
    }
  }

  /** Two different assets share a sector only if both are crypto assets or neither has a sector of
      its own. */
  lemma SectorsShared(a: AssetId, b: AssetId)
    requires a != b
    ensures SectorOf(a) == SectorOf(b) <==> ({a, b} == {BTC, ETH} || (a > OIL && b > OIL))
  {
    assert {a, b} == {BTC, ETH} ==> a in {BTC, ETH} && b in {BTC, ETH};
  }
}
