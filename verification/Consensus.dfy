/** The median-sign vote, stated as a plain majority count: which side wins, who agrees, and the
    weighted mean of those who do. */
module Consensus {
  import opened Options
  import opened RealSums

  /** A signal that passed the confidence filter. */
  datatype Lane = Lane(value: real, confidence: real, model: int)

  predicate Positive(x: real) { x >= 0.0 }

  function Values(lanes: seq<Lane>): (v: seq<real>)
    ensures |v| == |lanes|
  {
    seq(|lanes|, i requires 0 <= i < |lanes| => lanes[i].value)
  }

  function Negatives(values: seq<real>): nat {
    if values == [] then 0
    else Negatives(values[..|values| - 1]) + if Positive(values[|values| - 1]) then 0 else 1
  }

  // ---------- Sums do not depend on order ----------

  function Over<T>(s: seq<T>, f: T -> real): real {
    if s == [] then 0.0 else Over(s[..|s| - 1], f) + f(s[|s| - 1])
  }

  lemma {:induction false} OverRemoved<T>(s: seq<T>, k: nat, f: T -> real)
    requires k < |s|
    ensures Over(s, f) == Over(s[..k] + s[k + 1..], f) + f(s[k])
  {
    var n := |s| - 1;
    if k == n {
      assert s[..k] + s[k + 1..] == s[..n];
    } else {
      OverRemoved(s[..n], k, f);
      var rest := s[..k] + s[k + 1..];
      assert rest[..|rest| - 1] == s[..n][..k] + s[..n][k + 1..];
    }
  }

  lemma RemovedMultiset<T>(s: seq<T>, k: nat)
    requires k < |s|
    ensures multiset(s) == multiset(s[..k] + s[k + 1..]) + multiset{s[k]}
  {
    assert s == s[..k] + [s[k]] + s[k + 1..];
  }

  lemma {:induction false} MultisetSize<T>(s: seq<T>)
    ensures |multiset(s)| == |s|
  {
    if s != [] {
      var n := |s| - 1;
      MultisetSize(s[..n]);
      assert s == s[..n] + [s[n]];
    }
  }

  lemma SameWithout<T>(a: multiset<T>, b: multiset<T>, x: T)
    requires a + multiset{x} == b + multiset{x}
    ensures a == b
  {
    assert a == (a + multiset{x}) - multiset{x};
    assert b == (b + multiset{x}) - multiset{x};
  }

  lemma {:induction false} OverPermuted<T>(s: seq<T>, t: seq<T>, f: T -> real)
    requires multiset(s) == multiset(t)
    ensures Over(s, f) == Over(t, f)
  {
    if s == [] {
      MultisetSize(t);
    } else {
      var n := |s| - 1;
      RemovedMultiset(s, n);
      assert s[..n] + s[n + 1..] == s[..n];
      assert s[n] in multiset(t);
      var k :| 0 <= k < |t| && t[k] == s[n];
      RemovedMultiset(t, k);
      SameWithout(multiset(s[..n]), multiset(t[..k] + t[k + 1..]), s[n]);
      OverPermuted(s[..n], t[..k] + t[k + 1..], f);
      OverRemoved(t, k, f);
    }
  }

  function OneIfNegative(x: real): real { if Positive(x) then 0.0 else 1.0 }

  lemma {:induction false} NegativesAsSum(values: seq<real>)
    ensures Negatives(values) as real == Over(values, OneIfNegative)
  {
    if values != [] {
      NegativesAsSum(values[..|values| - 1]);
    }
  }

  lemma NegativesPermuted(a: seq<real>, b: seq<real>)
    requires multiset(a) == multiset(b)
    ensures Negatives(a) == Negatives(b)
  {
    OverPermuted(a, b, OneIfNegative);
    NegativesAsSum(a);
    NegativesAsSum(b);
  }

  // ---------- The median's sign is the majority's ----------

  /** What nth_element promises and no more: some permutation, with the k-th smallest at k, nothing
      greater before it and nothing smaller after it. */
  ghost predicate NthElement(before: seq<real>, after: seq<real>, k: nat) {
    && multiset(before) == multiset(after) && |before| == |after| && k < |after|
    && (forall i :: 0 <= i < k ==> after[i] <= after[k])
    && (forall i :: k < i < |after| ==> after[k] <= after[i])
  }

  lemma {:induction false} NegativesAtMost(values: seq<real>, k: nat)
    requires k <= |values| && forall i :: k <= i < |values| ==> Positive(values[i])
    ensures Negatives(values) <= k
  {
    if |values| > k {
      NegativesAtMost(values[..|values| - 1], k);
    } else if k > 0 {
      NegativesAtMost(values[..k - 1], k - 1);
    }
  }

  lemma {:induction false} NegativesAtLeast(values: seq<real>, k: nat)
    requires k <= |values| && forall i :: 0 <= i < k ==> !Positive(values[i])
    ensures Negatives(values) >= k
  {
    if |values| > k {
      NegativesAtLeast(values[..|values| - 1], k);
    } else if k > 0 {
      NegativesAtLeast(values[..k - 1], k - 1);
    }
  }

  /** Whatever permutation is left, the median is non-negative exactly when the negative values are
      no majority. */
  lemma MedianSignIsMajority(values: seq<real>, permuted: seq<real>)
    requires values != [] && NthElement(values, permuted, |values| / 2)
    ensures Positive(permuted[|values| / 2]) <==> 2 * Negatives(values) <= |values|
  {
    var k := |values| / 2;
    NegativesPermuted(values, permuted);
    if Positive(permuted[k]) {
      NegativesAtMost(permuted, k);
    } else {
      NegativesAtLeast(permuted, k + 1);
    }
  }

  // ---------- The vote ----------

  datatype Limits = Limits(minModels: nat, agreement: real)

  predicate MajorityPositive(values: seq<real>) { 2 * Negatives(values) <= |values| }

  predicate Agrees(x: real, side: bool) { Positive(x) == side }

  function AgreeCount(values: seq<real>, side: bool): nat {
    if values == [] then 0
    else AgreeCount(values[..|values| - 1], side) + if Agrees(values[|values| - 1], side) then 1 else 0
  }

  function Weight(side: bool): Lane -> real { (l: Lane) => if Agrees(l.value, side) then l.confidence else 0.0 }

  function Weighted(side: bool): Lane -> real {
    (l: Lane) => if Agrees(l.value, side) then l.value * l.confidence else 0.0
  }

  function TotalWeight(lanes: seq<Lane>, side: bool): real { Over(lanes, Weight(side)) }
  function WeightedSum(lanes: seq<Lane>, side: bool): real { Over(lanes, Weighted(side)) }

  datatype Vote = Vote(agreed: nat, value: Option<real>)

  /** The vote by majority: too few lanes agree on nothing; otherwise those on the majority's side
      agree, and if they are enough, and weigh anything, the result is their weighted mean. */
  function Majority(lanes: seq<Lane>, lim: Limits): Vote {
    if |lanes| == 0 || |lanes| < lim.minModels then Vote(0, None)
    else
      var side := MajorityPositive(Values(lanes));
      var agreed := AgreeCount(Values(lanes), side);
      if agreed as real / |lanes| as real >= lim.agreement && agreed >= lim.minModels && TotalWeight(lanes, side) > 0.0
      then Vote(agreed, Some(WeightedSum(lanes, side) / TotalWeight(lanes, side)))
      else Vote(agreed, None)
  }

  lemma {:induction false} CountsSplit(values: seq<real>)
    ensures AgreeCount(values, false) == Negatives(values)
    ensures AgreeCount(values, true) == |values| - Negatives(values)
  {
    if values != [] {
      CountsSplit(values[..|values| - 1]);
    }
  }

  /** The models that agree are always at least half. */
  lemma HalfAgree(lanes: seq<Lane>, lim: Limits)
    requires |lanes| > 0 && |lanes| >= lim.minModels
    ensures 2 * Majority(lanes, lim).agreed >= |lanes|
  {
    CountsSplit(Values(lanes));
  }

  // ---------- The weighted mean ----------

  ghost predicate WithinAgreeing(lanes: seq<Lane>, side: bool, lo: real, hi: real) {
    forall i :: 0 <= i < |lanes| && Agrees(lanes[i].value, side) ==> lo <= lanes[i].value <= hi
  }

  ghost predicate Confident(lanes: seq<Lane>) {
    forall i :: 0 <= i < |lanes| ==> lanes[i].confidence >= 0.0
  }

  lemma TermBetween(l: Lane, side: bool, lo: real, hi: real)
    requires l.confidence >= 0.0 && (Agrees(l.value, side) ==> lo <= l.value <= hi)
    ensures lo * Weight(side)(l) <= Weighted(side)(l) <= hi * Weight(side)(l)
  {
    if Agrees(l.value, side) {
      MulMonotone(lo, l.value, l.confidence);
      MulMonotone(l.value, hi, l.confidence);
    } else {
      assert lo * 0.0 == 0.0 && hi * 0.0 == 0.0;
    }
  }

  lemma AddBetween(lo: real, hi: real, w: real, s: real, dw: real, ds: real, w': real, s': real)
    requires lo * w <= s <= hi * w && lo * dw <= ds <= hi * dw && w' == w + dw && s' == s + ds
    ensures lo * w' <= s' <= hi * w'
  {
    Distribute(lo, w, dw);
    Distribute(hi, w, dw);
  }

  lemma {:induction false} SumBetween(lanes: seq<Lane>, side: bool, lo: real, hi: real)
    requires Confident(lanes) && WithinAgreeing(lanes, side, lo, hi)
    ensures lo * TotalWeight(lanes, side) <= WeightedSum(lanes, side) <= hi * TotalWeight(lanes, side)
  {
    if lanes == [] {
      assert lo * 0.0 == 0.0 && hi * 0.0 == 0.0;
    } else {
      var n := |lanes| - 1;
      SumBetween(lanes[..n], side, lo, hi);
      TermBetween(lanes[n], side, lo, hi);
      AddBetween(lo, hi, TotalWeight(lanes[..n], side), WeightedSum(lanes[..n], side),
        Weight(side)(lanes[n]), Weighted(side)(lanes[n]), TotalWeight(lanes, side), WeightedSum(lanes, side));
    }
  }

  lemma QuotientBetween(lo: real, hi: real, w: real, s: real)
    requires w > 0.0 && lo * w <= s <= hi * w
    ensures lo <= s / w <= hi
  {
    var q := s / w;
    assert q * w == s;
    if q < lo {
      MulStrict(q, lo, w);
    }
    if hi < q {
      MulStrict(hi, q, w);
    }
  }

  lemma MulStrict(x: real, y: real, w: real)
    requires x < y && w > 0.0
    ensures x * w < y * w
  {
    assert (y - x) * w > 0.0;
  }

  /** An accepted value lies between any bounds of the agreeing values, so between the least and the
      greatest of them. */
  lemma ConsensusBetween(lanes: seq<Lane>, lim: Limits, lo: real, hi: real)
    requires Confident(lanes) && WithinAgreeing(lanes, MajorityPositive(Values(lanes)), lo, hi)
    requires Majority(lanes, lim).value.Some?
    ensures lo <= Majority(lanes, lim).value.value <= hi
  {
    var side := MajorityPositive(Values(lanes));
    SumBetween(lanes, side, lo, hi);
    QuotientBetween(lo, hi, TotalWeight(lanes, side), WeightedSum(lanes, side));
  }

  lemma {:induction false} Extremes(lanes: seq<Lane>, side: bool) returns (lo: real, hi: real)
    requires exists i :: 0 <= i < |lanes| && Agrees(lanes[i].value, side)
    ensures WithinAgreeing(lanes, side, lo, hi)
    ensures exists i :: 0 <= i < |lanes| && Agrees(lanes[i].value, side) && lanes[i].value == lo
    ensures exists i :: 0 <= i < |lanes| && Agrees(lanes[i].value, side) && lanes[i].value == hi
  {
    var n := |lanes| - 1;
    if exists i :: 0 <= i < n && Agrees(lanes[..n][i].value, side) {
      lo, hi := Extremes(lanes[..n], side);
      var i :| 0 <= i < n && Agrees(lanes[..n][i].value, side) && lanes[..n][i].value == lo;
      var j :| 0 <= j < n && Agrees(lanes[..n][j].value, side) && lanes[..n][j].value == hi;
      assert lanes[i].value == lo && lanes[j].value == hi;
      assert forall m :: 0 <= m < n ==> lanes[m] == lanes[..n][m];
      if Agrees(lanes[n].value, side) {
        lo := if lanes[n].value < lo then lanes[n].value else lo;
        hi := if lanes[n].value > hi then lanes[n].value else hi;
      }
    } else {
      assert forall m :: 0 <= m < n ==> lanes[m] == lanes[..n][m];
      lo, hi := lanes[n].value, lanes[n].value;
    }
  }

  lemma {:induction false} SomeoneAgrees(values: seq<real>, side: bool)
    requires AgreeCount(values, side) > 0
    ensures exists i :: 0 <= i < |values| && Agrees(values[i], side)
  {
    var n := |values| - 1;
    if !Agrees(values[n], side) {
      SomeoneAgrees(values[..n], side);
      var i :| 0 <= i < n && Agrees(values[..n][i], side);
      assert Agrees(values[i], side);
    }
  }

  /** An accepted value has the sign of the majority. */
  lemma ConsensusSign(lanes: seq<Lane>, lim: Limits)
    requires Confident(lanes) && Majority(lanes, lim).value.Some?
    ensures Positive(Majority(lanes, lim).value.value) == MajorityPositive(Values(lanes))
  {
    var side := MajorityPositive(Values(lanes));
    HalfAgree(lanes, lim);
    SomeoneAgrees(Values(lanes), side);
    var k :| 0 <= k < |lanes| && Agrees(Values(lanes)[k], side);
    assert Agrees(lanes[k].value, side);
    var lo, hi := Extremes(lanes, side);
    ConsensusBetween(lanes, lim, lo, hi);
  }

  lemma SameValues(a: seq<Lane>, b: seq<Lane>)
    requires multiset(a) == multiset(b)
    ensures |a| == |b| && Negatives(Values(a)) == Negatives(Values(b))
  {
    assert |a| == |multiset(a)| && |b| == |multiset(b)|;
    var f := (l: Lane) => OneIfNegative(l.value);
    OverPermuted(a, b, f);
    OverValues(a);
    OverValues(b);
    NegativesAsSum(Values(a));
    NegativesAsSum(Values(b));
  }

  lemma {:induction false} OverValues(lanes: seq<Lane>)
    ensures Over(Values(lanes), OneIfNegative) == Over(lanes, (l: Lane) => OneIfNegative(l.value))
  {
    if lanes != [] {
      var n := |lanes| - 1;
      OverValues(lanes[..n]);
      assert Values(lanes)[..n] == Values(lanes[..n]);
    }
  }

  /** The vote does not depend on the order of the signals. */
  lemma VoteUnordered(a: seq<Lane>, b: seq<Lane>, lim: Limits)
    requires multiset(a) == multiset(b)
    ensures Majority(a, lim) == Majority(b, lim)
  {
    SameValues(a, b);
    var side := MajorityPositive(Values(a));
    CountsSplit(Values(a));
    CountsSplit(Values(b));
    OverPermuted(a, b, Weight(side));
    OverPermuted(a, b, Weighted(side));
  }

  // ---------- The engine's way ----------

  lemma LanesSnoc(lanes: seq<Lane>, k: nat, side: bool)
    requires k < |lanes|
    ensures AgreeCount(Values(lanes)[..k + 1], side) ==
      AgreeCount(Values(lanes)[..k], side) + if Agrees(lanes[k].value, side) then 1 else 0
    ensures TotalWeight(lanes[..k + 1], side) == TotalWeight(lanes[..k], side) + Weight(side)(lanes[k])
    ensures WeightedSum(lanes[..k + 1], side) == WeightedSum(lanes[..k], side) + Weighted(side)(lanes[k])
  {
    assert Values(lanes)[..k + 1][..k] == Values(lanes)[..k];
    assert lanes[..k + 1][..k] == lanes[..k];
  }

  method CountAgreeing(lanes: seq<Lane>, side: bool) returns (agreed: nat)
    ensures agreed == AgreeCount(Values(lanes), side)
  {
    agreed := 0;
    for k := 0 to |lanes|
      invariant agreed == AgreeCount(Values(lanes)[..k], side)
    {
      LanesSnoc(lanes, k, side);
      if (lanes[k].value >= 0.0) == side {
        agreed := agreed + 1;
      }
    }
    assert Values(lanes)[..|lanes|] == Values(lanes);
  }

  method WeighAgreeing(lanes: seq<Lane>, side: bool) returns (sum: real, weight: real)
    ensures sum == WeightedSum(lanes, side) && weight == TotalWeight(lanes, side)
  {
    sum, weight := 0.0, 0.0;
    for k := 0 to |lanes|
      invariant sum == WeightedSum(lanes[..k], side) && weight == TotalWeight(lanes[..k], side)
    {
      LanesSnoc(lanes, k, side);
      if (lanes[k].value >= 0.0) == side {
        sum := sum + lanes[k].value * lanes[k].confidence;
        weight := weight + lanes[k].confidence;
      }
    }
    assert lanes[..|lanes|] == lanes;
  }

  /** The engine votes by the sign of a median found with nth_element; permuted is what that leaves.
      It comes to the majority vote. */
  method CheckConsensus(lanes: seq<Lane>, permuted: seq<real>, lim: Limits) returns (vote: Vote)
    requires lim.minModels >= 1
    requires |lanes| > 0 ==> NthElement(Values(lanes), permuted, |lanes| / 2)
    ensures vote == Majority(lanes, lim)
  {
    if |lanes| < lim.minModels {
      return Vote(0, None);
    }
    var median := permuted[|lanes| / 2];
    MedianSignIsMajority(Values(lanes), permuted);
    var side := median >= 0.0;
    var agreed := CountAgreeing(lanes, side);
    if agreed as real / |lanes| as real >= lim.agreement && agreed >= lim.minModels {
      var sum, weight := WeighAgreeing(lanes, side);
      if weight > 0.0 {
        return Vote(agreed, Some(sum / weight));
      }
    }
    vote := Vote(agreed, None);
  }
}
