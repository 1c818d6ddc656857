/** The vote in terms of the lanes alone: when it is accepted, what it reports, and that its value is
    the mean of the agreeing values weighted by their confidences. */
module VoteMean {
  import opened Options
  import opened RealSums
  import opened Consensus

  /** The lanes whose sign is that of the side. */
  function Agreeing(lanes: seq<Lane>, side: bool): set<nat> {
    set i | 0 <= i < |lanes| && (lanes[i].value >= 0.0) == side
  }

  /** What one lane brings to the confidences and to the products of the side. */
  function OwnConfidence(l: Lane, side: bool): real { if (l.value >= 0.0) == side then l.confidence else 0.0 }
  function OwnProduct(l: Lane, side: bool): real { if (l.value >= 0.0) == side then l.value * l.confidence else 0.0 }

  function AgreeingConfidences(lanes: seq<Lane>, side: bool): (c: seq<real>)
    ensures |c| == |lanes|
  {
    seq(|lanes|, i requires 0 <= i < |lanes| => OwnConfidence(lanes[i], side))
  }

  function AgreeingProducts(lanes: seq<Lane>, side: bool): (s: seq<real>)
    ensures |s| == |lanes|
  {
    seq(|lanes|, i requires 0 <= i < |lanes| => OwnProduct(lanes[i], side))
  }

  lemma AgreeingSnoc(lanes: seq<Lane>, side: bool)
    requires lanes != []
    ensures var n := |lanes| - 1;
      && Sum(AgreeingConfidences(lanes, side)) == Sum(AgreeingConfidences(lanes[..n], side)) + Weight(side)(lanes[n])
      && Sum(AgreeingProducts(lanes, side)) == Sum(AgreeingProducts(lanes[..n], side)) + Weighted(side)(lanes[n])
  {
    var n := |lanes| - 1;
    var c, s := AgreeingConfidences(lanes, side), AgreeingProducts(lanes, side);
    assert c[n] == Weight(side)(lanes[n]) && s[n] == Weighted(side)(lanes[n]);
    forall i | 0 <= i < n
      ensures c[..n][i] == AgreeingConfidences(lanes[..n], side)[i]
      ensures s[..n][i] == AgreeingProducts(lanes[..n], side)[i]
    {
      assert lanes[..n][i] == lanes[i];
    }
    assert c[..n] == AgreeingConfidences(lanes[..n], side);
    assert s[..n] == AgreeingProducts(lanes[..n], side);
  }

  lemma {:induction false} WeightsAreSums(lanes: seq<Lane>, side: bool)
    ensures TotalWeight(lanes, side) == Sum(AgreeingConfidences(lanes, side))
    ensures WeightedSum(lanes, side) == Sum(AgreeingProducts(lanes, side))
  {
    hide AgreeingConfidences, AgreeingProducts, Weight, Weighted;
    if lanes != [] {
      WeightsAreSums(lanes[..|lanes| - 1], side);
      AgreeingSnoc(lanes, side);
    } else {
      assert AgreeingConfidences(lanes, side) == [] && AgreeingProducts(lanes, side) == [];
    }
  }

  lemma {:induction false} CountIsSize(lanes: seq<Lane>, side: bool)
    ensures AgreeCount(Values(lanes), side) == |Agreeing(lanes, side)|
  {
    if lanes != [] {
      var n := |lanes| - 1;
      CountIsSize(lanes[..n], side);
      assert Values(lanes)[..n] == Values(lanes[..n]);
      if (lanes[n].value >= 0.0) == side {
        assert Agreeing(lanes, side) == Agreeing(lanes[..n], side) + {n};
      } else {
        assert Agreeing(lanes, side) == Agreeing(lanes[..n], side);
      }
    }
  }

  /** The side that wins: the non-negative one unless more than half of the lanes are negative. */
  ghost predicate Wins(lanes: seq<Lane>, side: bool) {
    side == (2 * |Agreeing(lanes, false)| <= |lanes|)
  }

  ghost predicate Enough(lanes: seq<Lane>, side: bool, lim: Limits) {
    && |lanes| > 0 && |Agreeing(lanes, side)| >= lim.minModels
    && |Agreeing(lanes, side)| as real >= lim.agreement * |lanes| as real
    && Sum(AgreeingConfidences(lanes, side)) > 0.0
  }

  lemma ShareReached(agreed: real, all: real, agreement: real, share: real)
    requires all > 0.0 && share * all == agreed
    ensures share >= agreement <==> agreed >= agreement * all
  {
    if share >= agreement {
      MulMonotone(agreement, share, all);
    } else {
      MulStrict(share, agreement, all);
    }
  }

  lemma AgreeingWithin(lanes: seq<Lane>, side: bool)
    ensures |Agreeing(lanes, side)| <= |lanes|
    ensures |Agreeing(lanes, true)| + |Agreeing(lanes, false)| == |lanes|
  {
    CountIsSize(lanes, true);
    CountIsSize(lanes, false);
    CountsSplit(Values(lanes));
  }

  lemma SideOf(lanes: seq<Lane>)
    ensures Wins(lanes, MajorityPositive(Values(lanes)))
  {
    CountIsSize(lanes, false);
    CountsSplit(Values(lanes));
  }

  lemma MajorityIs(lanes: seq<Lane>, lim: Limits, side: bool, agreed: nat, w: real, s: real)
    requires side == MajorityPositive(Values(lanes)) && agreed == AgreeCount(Values(lanes), side)
    requires w == TotalWeight(lanes, side) && s == WeightedSum(lanes, side)
    ensures Majority(lanes, lim) ==
      if |lanes| == 0 || |lanes| < lim.minModels then Vote(0, None)
      else if agreed as real / |lanes| as real >= lim.agreement && agreed >= lim.minModels && w > 0.0
      then Vote(agreed, Some(s / w)) else Vote(agreed, None)
  {
    hide MajorityPositive, AgreeCount, TotalWeight, WeightedSum;
  }

  lemma VoteOf(n: nat, lim: Limits, agreed: nat, w: real, s: real, share: real, vote: Vote)
    requires agreed <= n && (n > 0 ==> share * n as real == agreed as real)
    requires vote ==
      if n == 0 || n < lim.minModels then Vote(0, None)
      else if share >= lim.agreement && agreed >= lim.minModels && w > 0.0 then Vote(agreed, Some(s / w))
      else Vote(agreed, None)
    ensures vote.value.Some? <==>
      n > 0 && agreed >= lim.minModels && agreed as real >= lim.agreement * n as real && w > 0.0
    ensures vote.value.Some? ==> vote.value.value * w == s
  {
    if n > 0 {
      ShareReached(agreed as real, n as real, lim.agreement, share);
    }
  }

  /** The vote is accepted exactly when the winning lanes are enough, as a number and as a share, and
      have any confidence; the agreement it reports is theirs; and its value times their confidences
      is the sum of their values, each times its confidence. */
  lemma VoteIsWeightedMean(lanes: seq<Lane>, lim: Limits, side: bool)
    requires Wins(lanes, side)
    ensures Majority(lanes, lim).agreed == if |lanes| < lim.minModels then 0 else |Agreeing(lanes, side)|
    ensures Majority(lanes, lim).value.Some? <==> Enough(lanes, side, lim)
    ensures Majority(lanes, lim).value.Some? ==>
      Majority(lanes, lim).value.value * Sum(AgreeingConfidences(lanes, side)) == Sum(AgreeingProducts(lanes, side))
  {
    hide AgreeCount, AgreeingConfidences, AgreeingProducts, Majority, Agreeing, TotalWeight, WeightedSum;
    var agreed := |Agreeing(lanes, side)|;
    var w, s := Sum(AgreeingConfidences(lanes, side)), Sum(AgreeingProducts(lanes, side));
    SideOf(lanes);
    CountIsSize(lanes, side);
    AgreeingWithin(lanes, side);
    AgreeingWithin(lanes, !side);
    WeightsAreSums(lanes, side);
    MajorityIs(lanes, lim, side, agreed, w, s);
    var share := if |lanes| > 0 then agreed as real / |lanes| as real else 0.0;
    VoteOf(|lanes|, lim, agreed, w, s, share, Majority(lanes, lim));
  }

  lemma {:induction false} SumWithout(s: seq<real>, k: nat)
    requires k < |s| && s[k] == 0.0
    ensures Sum(s[..k] + s[k + 1..]) == Sum(s)
  {
    SumConcat(s[..k], s[k + 1..]);
    SumConcat(s[..k], s[k..]);
    assert s == s[..k] + s[k..];
    assert s[k..] == [s[k]] + s[k + 1..];
    SumPrepend(s[k], s[k + 1..]);
  }

  lemma SameQuotient(v: real, v': real, w: real, s: real)
    requires w > 0.0 && v * w == s && v' * w == s
    ensures v == v'
  {
    assert (v - v') * w == 0.0;
  }

  lemma NothingOwn(l: Lane, side: bool)
    requires l.confidence == 0.0
    ensures OwnConfidence(l, side) == 0.0 && OwnProduct(l, side) == 0.0
  {
  }

  lemma WithoutSums(lanes: seq<Lane>, k: nat, side: bool, without: seq<Lane>)
    requires k < |lanes| && lanes[k].confidence == 0.0 && without == lanes[..k] + lanes[k + 1..]
    ensures Sum(AgreeingConfidences(without, side)) == Sum(AgreeingConfidences(lanes, side))
    ensures Sum(AgreeingProducts(without, side)) == Sum(AgreeingProducts(lanes, side))
  {
    var c, s := AgreeingConfidences(lanes, side), AgreeingProducts(lanes, side);
    NothingOwn(lanes[k], side);
    hide OwnConfidence, OwnProduct;
    SumWithout(c, k);
    SumWithout(s, k);
    forall i | 0 <= i < |without|
      ensures AgreeingConfidences(without, side)[i] == (c[..k] + c[k + 1..])[i]
      ensures AgreeingProducts(without, side)[i] == (s[..k] + s[k + 1..])[i]
    {
      assert without[i] == if i < k then lanes[i] else lanes[i + 1];
    }
    assert AgreeingConfidences(without, side) == c[..k] + c[k + 1..];
    assert AgreeingProducts(without, side) == s[..k] + s[k + 1..];
  }

  /** A lane without confidence does not move the value: with it or without, as long as the same side
      wins and is enough, the value is the same. */
  lemma NoConfidenceNoSay(lanes: seq<Lane>, k: nat, lim: Limits, side: bool, without: seq<Lane>)
    requires k < |lanes| && lanes[k].confidence == 0.0 && without == lanes[..k] + lanes[k + 1..]
    requires Wins(lanes, side) && Wins(without, side)
    requires Majority(lanes, lim).value.Some? && Majority(without, lim).value.Some?
    ensures Majority(without, lim).value == Majority(lanes, lim).value
  {
    hide Majority, Wins, Agreeing, AgreeingConfidences, AgreeingProducts, Sum;
    VoteIsWeightedMean(lanes, lim, side);
    VoteIsWeightedMean(without, lim, side);
    WithoutSums(lanes, k, side, without);
    SameQuotient(Majority(lanes, lim).value.value, Majority(without, lim).value.value,
      Sum(AgreeingConfidences(lanes, side)), Sum(AgreeingProducts(lanes, side)));
  }

  lemma RaisedSeqs(lanes: seq<Lane>, k: nat, side: bool, l: Lane)
    requires k < |lanes|
    ensures AgreeingConfidences(lanes[k := l], side) == AgreeingConfidences(lanes, side)[k := OwnConfidence(l, side)]
    ensures AgreeingProducts(lanes[k := l], side) == AgreeingProducts(lanes, side)[k := OwnProduct(l, side)]
  {
    hide OwnConfidence, OwnProduct;
  }

  lemma OwnRaised(l: Lane, side: bool, more: real)
    requires (l.value >= 0.0) == side
    ensures var r := l.(confidence := l.confidence + more);
      OwnConfidence(r, side) == OwnConfidence(l, side) + more &&
      OwnProduct(r, side) == OwnProduct(l, side) + l.value * more
  {
    Distribute(l.value, l.confidence, more);
  }

  lemma RaisedSums(lanes: seq<Lane>, k: nat, side: bool, more: real, raised: seq<Lane>)
    requires k < |lanes| && (lanes[k].value >= 0.0) == side
    requires raised == lanes[k := lanes[k].(confidence := lanes[k].confidence + more)]
    ensures Sum(AgreeingConfidences(raised, side)) == Sum(AgreeingConfidences(lanes, side)) + more
    ensures Sum(AgreeingProducts(raised, side)) == Sum(AgreeingProducts(lanes, side)) + lanes[k].value * more
  {
    hide OwnConfidence, OwnProduct, Sum;
    var l := lanes[k].(confidence := lanes[k].confidence + more);
    OwnRaised(lanes[k], side, more);
    RaisedSeqs(lanes, k, side, l);
    SumUpdated(AgreeingConfidences(lanes, side), k, OwnConfidence(l, side));
    SumUpdated(AgreeingProducts(lanes, side), k, OwnProduct(l, side));
  }

  lemma RaisedAgreeing(lanes: seq<Lane>, k: nat, side: bool, c: real)
    requires k < |lanes|
    ensures Agreeing(lanes[k := lanes[k].(confidence := c)], side) == Agreeing(lanes, side)
  {
  }

  lemma MeanMoves(v: real, w: real, v': real, w': real, x: real, more: real)
    requires w > 0.0 && more >= 0.0 && w' == w + more && v' * w' == v * w + x * more
    ensures v <= x ==> v <= v' <= x
    ensures x <= v ==> x <= v' <= v
  {
    assert (v' - v) * w' == (x - v) * more;
    assert (x - v') * w' == (x - v) * w;
    if v <= x {
      MulMonotone(0.0, x - v, more);
      MulMonotone(0.0, x - v, w);
      SignOfProduct(v' - v, w');
      SignOfProduct(x - v', w');
    }
    if x <= v {
      MulMonotone(x - v, 0.0, more);
      MulMonotone(x - v, 0.0, w);
      SignOfProduct(v - v', w');
      SignOfProduct(v' - x, w');
    }
  }

  lemma SignOfProduct(y: real, w: real)
    requires w > 0.0
    ensures y * w >= 0.0 ==> y >= 0.0
    ensures -y * w == -(y * w)
  {
    if y < 0.0 {
      MulStrict(y, 0.0, w);
    }
  }

  /** Raising the confidence of a lane on the winning side keeps the vote accepted and moves its value
      towards that lane. */
  lemma ConfidencePulls(lanes: seq<Lane>, k: nat, lim: Limits, more: real, side: bool, raised: seq<Lane>)
    requires Wins(lanes, side) && Majority(lanes, lim).value.Some? && k < |lanes| && more >= 0.0
    requires (lanes[k].value >= 0.0) == side
    requires raised == lanes[k := lanes[k].(confidence := lanes[k].confidence + more)]
    ensures Majority(raised, lim).value.Some?
    ensures var v, v', x := Majority(lanes, lim).value.value, Majority(raised, lim).value.value, lanes[k].value;
      if v <= x then v <= v' <= x else x <= v' <= v
  {
    hide Majority, Agreeing, AgreeingConfidences, AgreeingProducts, Sum;
    RaisedAgreeing(lanes, k, side, lanes[k].confidence + more);
    RaisedAgreeing(lanes, k, false, lanes[k].confidence + more);
    RaisedSums(lanes, k, side, more, raised);
    VoteIsWeightedMean(lanes, lim, side);
    VoteIsWeightedMean(raised, lim, side);
    MeanMoves(Majority(lanes, lim).value.value, Sum(AgreeingConfidences(lanes, side)),
      Majority(raised, lim).value.value, Sum(AgreeingConfidences(raised, side)), lanes[k].value, more);
  }
}
