/** Which status a decision gets and which value, in terms of the input alone: both directions, for
    every configuration, situation and list of signals. */
module DecisionPaths {
  import opened Options
  import opened RealSums
  import opened Consensus
  import VoteMean
  import opened Decisions

  /** Confidence in [0, 1], neither from the future nor too old. */
  predicate Timely(g: Config, s: Signal, now: nat) {
    && 0.0 <= s.confidence <= 1.0 && s.timestamp <= now
    && (g.maxAge > 0 ==> now <= s.timestamp + g.maxAge)
  }

  ghost predicate NewModel(signals: seq<Signal>, i: nat)
    requires i < |signals|
  {
    forall j :: 0 <= j < i ==> signals[j].model != signals[i].model
  }

  ghost predicate Fine(g: Config, signals: seq<Signal>, i: nat, now: nat)
    requires i < |signals|
  {
    Timely(g, signals[i], now) && NewModel(signals, i) && Abs(signals[i].value) <= 1000000.0
  }

  ghost predicate AllFine(g: Config, signals: seq<Signal>, n: nat, now: nat)
    requires n <= |signals|
  {
    forall i :: 0 <= i < n ==> Fine(g, signals, i, now)
  }

  /** Signal k is the first that is not fine. */
  ghost predicate FirstBad(g: Config, signals: seq<Signal>, k: nat, now: nat) {
    k < |signals| && AllFine(g, signals, k, now) && !Fine(g, signals, k, now)
  }

  lemma FaultIs(g: Config, signals: seq<Signal>, i: nat, now: nat)
    requires i < |signals|
    ensures Fault(g, signals, i, now).None? <==> Fine(g, signals, i, now)
    ensures Fault(g, signals, i, now) == Some(NoConsensus) <==>
      Timely(g, signals[i], now) && !NewModel(signals, i)
    ensures Fault(g, signals, i, now).Some? ==>
      Fault(g, signals, i, now).value == NoConsensus || Fault(g, signals, i, now).value == LowConfidence
  {
  }

  lemma {:induction false} FirstFaultIs(g: Config, signals: seq<Signal>, n: nat, now: nat)
    requires n <= |signals|
    ensures FirstFault(g, signals, n, now).None? <==> AllFine(g, signals, n, now)
    ensures forall k :: 0 <= k < n && FirstBad(g, signals, k, now) ==>
      FirstFault(g, signals, n, now) == Fault(g, signals, k, now)
  {
    if n > 0 {
      FirstFaultIs(g, signals, n - 1, now);
      FaultIs(g, signals, n - 1, now);
    }
  }

  // ---------- The confidence filter ----------

  predicate Admitted(g: Config, s: Signal) { s.confidence >= g.minConfidence || s.confidence >= g.grace }

  /** An admitted signal counts with its confidence, in the grace band with four fifths of it. */
  function Counted(g: Config, s: Signal): Lane {
    Lane(s.value, if s.confidence >= g.minConfidence then s.confidence else s.confidence * 0.8, s.model)
  }

  /** places lists the positions of the admitted signals in order, and the lanes are theirs. */
  ghost predicate LanesFrom(g: Config, signals: seq<Signal>, lanes: seq<Lane>, places: seq<nat>) {
    && |places| == |lanes|
    && (forall j :: 0 <= j < |places| ==> PlacedAt(g, signals, lanes, places, j))
    && (forall i, j :: 0 <= i < j < |places| ==> places[i] < places[j])
    && (forall i :: 0 <= i < |signals| && Admitted(g, signals[i]) ==> i in places)
  }

  ghost predicate PlacedAt(g: Config, signals: seq<Signal>, lanes: seq<Lane>, places: seq<nat>, j: nat)
    requires j < |places| == |lanes|
  {
    && places[j] < |signals| && Admitted(g, signals[places[j]])
    && lanes[j] == Counted(g, signals[places[j]])
  }

  lemma LaneOfIs(g: Config, s: Signal)
    ensures LaneOf(g, s) == if Admitted(g, s) then [Counted(g, s)] else []
  {
  }

  /** The lanes of the vote are exactly the admitted signals, in order. */
  lemma {:induction false} LanesAreAdmitted(g: Config, signals: seq<Signal>) returns (places: seq<nat>)
    ensures LanesFrom(g, signals, Lanes(g, signals), places)
  {
    if signals == [] {
      places := [];
    } else {
      var n := |signals| - 1;
      places := LanesAreAdmitted(g, signals[..n]);
      LaneOfIs(g, signals[n]);
      LanesGrow(g, signals, n, Lanes(g, signals[..n]), places);
      if Admitted(g, signals[n]) {
        places := places + [n];
      } else {
        assert Lanes(g, signals[..n]) + [] == Lanes(g, signals[..n]);
      }
    }
  }

  lemma LanesGrow(g: Config, signals: seq<Signal>, n: nat, lanes: seq<Lane>, places: seq<nat>)
    requires |signals| == n + 1 && LanesFrom(g, signals[..n], lanes, places)
    ensures if Admitted(g, signals[n]) then LanesFrom(g, signals, lanes + [Counted(g, signals[n])], places + [n])
            else LanesFrom(g, signals, lanes, places)
  {
    hide Counted, Admitted;
    forall j | 0 <= j < |places|
      ensures PlacedAt(g, signals, lanes, places, j)
      ensures PlacedAt(g, signals, lanes + [Counted(g, signals[n])], places + [n], j)
      ensures places[j] < n
    {
      assert PlacedAt(g, signals[..n], lanes, places, j);
    }
    forall i | 0 <= i < n && Admitted(g, signals[i]) ensures i in places {
      assert signals[..n][i] == signals[i];
    }
  }

  // ---------- Every path ----------

  predicate MayDecide(g: Config, s: Situation) {
    && !(s.safety.Some? && (s.safety.value.0 || s.safety.value.1)) && s.permitted && ValidConfig(g)
    && (s.stabilizer.Some? ==> 0.0 <= s.stabilizer.value.clampLimit <= 1.0)
  }

  /** Kill switch, hardware fault, no permission, or a stabilizer out of range. */
  predicate Stopped(g: Config, s: Situation) {
    || (s.safety.Some? && (s.safety.value.0 || s.safety.value.1)) || !s.permitted
    || (ValidConfig(g) && s.stabilizer.Some? && !(0.0 <= s.stabilizer.value.clampLimit <= 1.0))
  }

  /** As many of the first signals as the configuration allows, at most 64. */
  predicate TakesFirst(g: Config, signals: seq<Signal>, taken: seq<Signal>) {
    taken <= signals && |taken| <= 64 && |taken| <= g.maxModels
    && (taken == signals || |taken| == 64 || |taken| == g.maxModels)
  }

  lemma TakenAre(g: Config, signals: seq<Signal>, taken: seq<Signal>)
    requires ValidConfig(g) && TakesFirst(g, signals, taken)
    ensures signals[..Considered(g, |signals|)] == taken
  {
  }

  /** The vote of these lanes goes through. */
  ghost predicate Carried(g: Config, lanes: seq<Lane>) {
    g.minModels >= 0 &&
    exists side :: VoteMean.Wins(lanes, side) && VoteMean.Enough(lanes, side, Limits(g.minModels, g.agreement))
  }

  /** Which status is given, both directions for each. */
  ghost predicate StatusFits(g: Config, s: Situation, taken: seq<Signal>, status: Status) {
    var lanes := Lanes(g, taken);
    && (status == FallbackActivated <==> Stopped(g, s))
    && (status == NoModels <==> !Stopped(g, s) && (!ValidConfig(g) || taken == []))
    && (MayDecide(g, s) && taken != [] ==>
      && (status == Accepted <==> AllFine(g, taken, |taken|, s.now) && Carried(g, lanes))
      && (forall k :: 0 <= k < |taken| && FirstBad(g, taken, k, s.now) ==>
            status == if Timely(g, taken[k], s.now) && !NewModel(taken, k) then NoConsensus else LowConfidence)
      && (AllFine(g, taken, |taken|, s.now) && !Carried(g, lanes) ==>
            status == if lanes == [] then LowConfidence else NoConsensus))
  }

  lemma CarriedIs(g: Config, lanes: seq<Lane>)
    requires ValidConfig(g)
    ensures Majority(lanes, LimitsOf(g)).value.Some? <==> Carried(g, lanes)
  {
    var side := MajorityPositive(Values(lanes));
    VoteMean.SideOf(lanes);
    VoteMean.VoteIsWeightedMean(lanes, LimitsOf(g), side);
    forall other | VoteMean.Wins(lanes, other) ensures other == side {
    }
  }

  lemma NothingCarried(g: Config)
    ensures !Carried(g, [])
  {
  }

  /** The status once the gates are passed. */
  lemma StatusOn(tanh: real -> real, g: Config, fallback: real, s: Situation, taken: seq<Signal>, fault: Option<Status>,
                 carried: bool)
    requires fault == FirstFault(g, taken, |taken|, s.now)
    requires carried == Majority(Lanes(g, taken), LimitsOf(g)).value.Some?
    ensures DecideOn(tanh, g, fallback, s, taken).status ==
      if fault.Some? then fault.value
      else if Lanes(g, taken) == [] then LowConfidence
      else if carried then Accepted else NoConsensus
  {
  }

  lemma StatusOnFits(tanh: real -> real, g: Config, fallback: real, s: Situation, taken: seq<Signal>)
    requires MayDecide(g, s) && taken != []
    ensures StatusFits(g, s, taken, DecideOn(tanh, g, fallback, s, taken).status)
  {
    hide FirstFault, Fault, Lanes, Carried, Timely, NewModel, DecideOn, Majority;
    var fault, lanes := FirstFault(g, taken, |taken|, s.now), Lanes(g, taken);
    StatusOn(tanh, g, fallback, s, taken, fault, Majority(lanes, LimitsOf(g)).value.Some?);
    FirstFaultIs(g, taken, |taken|, s.now);
    CarriedIs(g, lanes);
    NothingCarried(g);
    SomeFirstBad(g, taken, |taken|, s.now);
    forall k | 0 <= k < |taken|
      ensures Fault(g, taken, k, s.now) == Some(NoConsensus) <==> Timely(g, taken[k], s.now) && !NewModel(taken, k)
      ensures Fault(g, taken, k, s.now).Some? ==>
        Fault(g, taken, k, s.now).value == NoConsensus || Fault(g, taken, k, s.now).value == LowConfidence
      ensures FirstBad(g, taken, k, s.now) ==> Fault(g, taken, k, s.now).Some?
    {
      FaultIs(g, taken, k, s.now);
    }
  }

  lemma {:induction false} SomeFirstBad(g: Config, signals: seq<Signal>, n: nat, now: nat)
    requires n <= |signals|
    ensures !AllFine(g, signals, n, now) ==> exists k :: 0 <= k < n && FirstBad(g, signals, k, now)
  {
    if n > 0 {
      SomeFirstBad(g, signals, n - 1, now);
      if AllFine(g, signals, n - 1, now) && !AllFine(g, signals, n, now) {
        assert FirstBad(g, signals, n - 1, now);
      }
    }
  }

  lemma EarlyStatus(tanh: real -> real, g: Config, values: seq<real>, confidences: seq<real>, s: Situation,
                    signals: seq<Signal>)
    requires !MayDecide(g, s) || signals == []
    ensures Decide(tanh, g, values, confidences, s, signals).status ==
      if Stopped(g, s) then FallbackActivated else NoModels
  {
  }

  /** The status of every decision, from the kill switch to the vote. */
  lemma StatusExplained(tanh: real -> real, g: Config, values: seq<real>, confidences: seq<real>, s: Situation,
                        signals: seq<Signal>, taken: seq<Signal>)
    requires TakesFirst(g, signals, taken) || !ValidConfig(g)
    ensures StatusFits(g, s, taken, Decide(tanh, g, values, confidences, s, signals).status)
  {
    if MayDecide(g, s) && taken != [] {
      hide DecideOn, StatusFits, FallbackValue;
      TakenAre(g, signals, taken);
      StatusOnFits(tanh, g, FallbackValue(g, values, confidences), s, taken);
    } else {
      hide DecideOn, Carried, AllFine, Lanes;
      EarlyStatus(tanh, g, values, confidences, s, signals);
      assert taken == [] ==> ValidConfig(g) ==> signals == [];
    }
  }

  // ---------- Every value ----------

  /** At a high risk the stabilizer may tighten the position limit. */
  predicate IsLimit(limit: real, g: Config, s: Situation) {
    limit == if s.stabilizer.Some? && s.stabilizer.value.risk > 75.0
             then Min(s.stabilizer.value.clampLimit, g.maxPosition) else g.maxPosition
  }

  /** The size of a fallback: a fixed scale or one that follows the recent confidence, in [0.1, 0.5],
      and in any case within the position limit. */
  ghost predicate IsFallback(x: real, g: Config, values: seq<real>, confidences: seq<real>) {
    if values == [] then x == 0.0
    else
      exists mean: real, scale: real :: FallbackSize(g, confidences, mean, scale) &&
        x == if Sum(values) >= 0.0 then Min(scale, g.maxPosition) else -Min(scale, g.maxPosition)
  }

  ghost predicate FallbackSize(g: Config, confidences: seq<real>, mean: real, scale: real) {
    && mean * |confidences| as real == Sum(confidences) && (confidences == [] ==> mean == 0.0)
    && if g.dynamicFallback then MovedInto(scale, g.alpha * mean + g.beta, 0.1, 0.5) else scale == g.positionScale
  }

  /** What an accepted decision reports. */
  ghost predicate AcceptedAs(tanh: real -> real, g: Config, s: Situation, lanes: seq<Lane>, d: Decision) {
    && !d.fallback
    && |d.contributors| == |lanes| && (forall i :: 0 <= i < |lanes| ==> d.contributors[i] == lanes[i].model)
    && d.confidence * |lanes| as real == Sum(Confidences(lanes))
    && exists side, mean: real, limit: real :: VotedFor(g, s, lanes, side, mean, limit)
         && d.agreed == |VoteMean.Agreeing(lanes, side)|
         && MovedInto(d.value, tanh(mean * 100.0), -limit, limit)
  }

  /** mean is the weighted mean of the lanes on the winning side. */
  ghost predicate VotedFor(g: Config, s: Situation, lanes: seq<Lane>, side: bool, mean: real, limit: real) {
    && VoteMean.Wins(lanes, side) && IsLimit(limit, g, s)
    && mean * Sum(VoteMean.AgreeingConfidences(lanes, side)) == Sum(VoteMean.AgreeingProducts(lanes, side))
  }

  ghost predicate ValueFits(tanh: real -> real, g: Config, values: seq<real>, confidences: seq<real>, s: Situation,
                            taken: seq<Signal>, d: Decision)
  {
    if Stopped(g, s) || !ValidConfig(g) || taken == [] then
      d.value == 0.0 && d.confidence == 0.0 && d.agreed == 0 && d.contributors == [] && (d.fallback <==> Stopped(g, s))
    else if d.status == Accepted then AcceptedAs(tanh, g, s, Lanes(g, taken), d)
    else
      && IsFallback(d.value, g, values, confidences) && d.fallback && d.contributors == []
      && d.confidence == if !AllFine(g, taken, |taken|, s.now) then 0.0 else if Lanes(g, taken) == [] then 0.1 else 0.2
  }

  lemma MeanIs(xs: seq<real>)
    ensures Mean(xs) * |xs| as real == Sum(xs)
    ensures Mean(xs) >= 0.0 <==> Sum(xs) >= 0.0
  {
    if xs != [] {
      QuotientSign(Sum(xs), |xs| as real, Mean(xs));
    }
  }

  lemma QuotientSign(sum: real, n: real, mean: real)
    requires n > 0.0 && mean == sum / n
    ensures mean * n == sum && (mean >= 0.0 <==> sum >= 0.0)
  {
  }

  lemma FallbackIs(g: Config, values: seq<real>, confidences: seq<real>)
    requires ValidConfig(g)
    ensures IsFallback(FallbackValue(g, values, confidences), g, values, confidences)
  {
    if values != [] {
      hide Mean, Sum;
      MeanIs(values);
      MeanIs(confidences);
      FallbackFollowsMean(g, values, confidences);
      MeanOfNone(confidences);
      assert FallbackSize(g, confidences, Mean(confidences), FallbackScale(g, confidences));
    }
  }

  lemma MeanOfNone(xs: seq<real>)
    ensures xs == [] ==> Mean(xs) == 0.0
  {
  }

  lemma LimitIs(g: Config, s: Situation)
    ensures IsLimit(PositionLimit(g, s.stabilizer), g, s)
  {
  }

  lemma SmoothIs(tanh: real -> real, x: real, limit: real)
    requires 0.0 <= limit
    ensures MovedInto(Smooth(tanh, x, limit), tanh(x * 100.0), -limit, limit)
  {
  }

  lemma AcceptedOn(tanh: real -> real, g: Config, fallback: real, s: Situation, taken: seq<Signal>, vote: Vote)
    requires vote == Majority(Lanes(g, taken), LimitsOf(g))
    requires DecideOn(tanh, g, fallback, s, taken).status == Accepted
    ensures vote.value.Some?
    ensures DecideOn(tanh, g, fallback, s, taken) ==
      Decision(Accepted, Smooth(tanh, vote.value.value, PositionLimit(g, s.stabilizer)),
               Mean(Confidences(Lanes(g, taken))), vote.agreed, false, Models(Lanes(g, taken)))
  {
    FaultsReject(g, taken, |taken|, s.now);
    hide Majority, Lanes, Smooth, PositionLimit, Mean;
  }

  lemma AgreedIs(lanes: seq<Lane>, lim: Limits, side: bool)
    requires VoteMean.Wins(lanes, side) && Majority(lanes, lim).value.Some?
    ensures Majority(lanes, lim).agreed == |VoteMean.Agreeing(lanes, side)|
  {
    hide Majority;
    VoteMean.VoteIsWeightedMean(lanes, lim, side);
    VoteMean.AgreeingWithin(lanes, side);
  }

  lemma AcceptedIs(tanh: real -> real, g: Config, fallback: real, s: Situation, taken: seq<Signal>)
    requires MayDecide(g, s) && DecideOn(tanh, g, fallback, s, taken).status == Accepted
    ensures AcceptedAs(tanh, g, s, Lanes(g, taken), DecideOn(tanh, g, fallback, s, taken))
  {
    hide Majority, Lanes, Smooth, PositionLimit, Mean, DecideOn, MovedInto, Sum;
    hide VoteMean.AgreeingConfidences, VoteMean.AgreeingProducts, VoteMean.Agreeing, VoteMean.Wins;
    var lanes, limit := Lanes(g, taken), PositionLimit(g, s.stabilizer);
    var side, vote := MajorityPositive(Values(lanes)), Majority(lanes, LimitsOf(g));
    AcceptedOn(tanh, g, fallback, s, taken, vote);
    VoteMean.SideOf(lanes);
    VoteMean.VoteIsWeightedMean(lanes, LimitsOf(g), side);
    AgreedIs(lanes, LimitsOf(g), side);
    MeanIs(Confidences(lanes));
    LimitIs(g, s);
    LimitWithin(g, s);
    SmoothIs(tanh, vote.value.value, limit);
    assert VotedFor(g, s, lanes, side, vote.value.value, limit);
  }

  /** Every decision's value, confidence, agreement and contributors. */
  lemma ValueExplained(tanh: real -> real, g: Config, values: seq<real>, confidences: seq<real>, s: Situation,
                       signals: seq<Signal>, taken: seq<Signal>)
    requires TakesFirst(g, signals, taken) || !ValidConfig(g)
    ensures ValueFits(tanh, g, values, confidences, s, taken, Decide(tanh, g, values, confidences, s, signals))
  {
    if MayDecide(g, s) && taken != [] {
      var fallback := FallbackValue(g, values, confidences);
      TakenAre(g, signals, taken);
      FallbackIs(g, values, confidences);
      FirstFaultIs(g, taken, |taken|, s.now);
      if DecideOn(tanh, g, fallback, s, taken).status == Accepted {
        AcceptedIs(tanh, g, fallback, s, taken);
      }
    }
  }
}
