/** One decision of the engine as a function of its configuration, its recent accepted samples, the
    situation and the signals. */
module Decisions {
  import opened Options
  import opened RealSums
  import opened Consensus

  datatype Config = Config(minConfidence: real, grace: real, minModels: int, agreement: real, window: int,
                           positionScale: real, maxModels: int, maxAge: nat, maxPosition: real,
                           dynamicFallback: bool, alpha: real, beta: real, aggressiveness: real)

  datatype Signal = Signal(value: real, confidence: real, timestamp: nat, model: int)

  datatype Stabilizer = Stabilizer(risk: real, clampLimit: real)

  /** safety: kill switch and hardware fault, where a safety state is attached. */
  datatype Situation = Situation(safety: Option<(bool, bool)>, permitted: bool,
                                 stabilizer: Option<Stabilizer>, now: nat)

  datatype Status = Accepted | LowConfidence | NoConsensus | FallbackActivated | NoModels

  datatype Decision = Decision(status: Status, value: real, confidence: real, agreed: nat, fallback: bool,
                               contributors: seq<int>)

  const MAX_MODELS := 64
  const MAX_WINDOW := 256
  const MAX_SIGNAL := 1000000.0
  const GRACE_FACTOR := 0.8

  predicate ValidConfig(g: Config) {
    && 0.0 < g.minConfidence <= 1.0 && 0.0 <= g.grace <= g.minConfidence
    && 1 <= g.minModels <= g.maxModels && g.minModels <= MAX_MODELS
    && g.window >= 1 && 0.0 < g.agreement <= 1.0 && g.maxModels >= 1
    && 0.0 < g.maxPosition <= 1.0 && 0.0 <= g.positionScale <= 1.0
    && g.alpha >= 0.0 && g.beta >= 0.0 && g.aggressiveness >= 0.0
  }

  function Window(g: Config): (w: nat)
    ensures 1 <= w <= MAX_WINDOW && (1 <= g.window <= 256 ==> w == g.window) && (g.window > 256 ==> w == 256)
  {
    if g.window < 1 then 1 else if g.window > MAX_WINDOW then MAX_WINDOW else g.window
  }

  // ---------- The fallback value ----------

  function Mean(xs: seq<real>): real { if xs == [] then 0.0 else Sum(xs) / |xs| as real }

  /** A fixed or confidence-scaled step in the direction of the recent mean, within the position
      limit; nothing without recent samples. */
  function FallbackValue(g: Config, values: seq<real>, confidences: seq<real>): real {
    if values == [] then 0.0
    else
      var sign := if Mean(values) >= 0.0 then 1.0 else -1.0;
      Clamp(sign * FallbackScale(g, confidences), -g.maxPosition, g.maxPosition)
  }

  function FallbackScale(g: Config, confidences: seq<real>): real {
    if g.dynamicFallback then DynamicScale(g, Mean(confidences)) else g.positionScale
  }

  function DynamicScale(g: Config, confidence: real): real { Clamp(g.alpha * confidence + g.beta, 0.1, 0.5) }

  // ---------- Checking the signals ----------

  predicate Repeats(signals: seq<Signal>, i: nat)
    requires i < |signals|
  {
    exists j :: 0 <= j < i && signals[j].model == signals[i].model
  }

  function Fault(g: Config, signals: seq<Signal>, i: nat, now: nat): Option<Status>
    requires i < |signals|
  {
    var s := signals[i];
    if s.confidence < 0.0 || s.confidence > 1.0 then Some(LowConfidence)
    else if s.timestamp > now then Some(LowConfidence)
    else if g.maxAge > 0 && now - s.timestamp > g.maxAge then Some(LowConfidence)
    else if Repeats(signals, i) then Some(NoConsensus)
    else if s.value < -MAX_SIGNAL || s.value > MAX_SIGNAL then Some(LowConfidence)
    else None
  }

  /** The first fault among the first n signals. */
  function FirstFault(g: Config, signals: seq<Signal>, n: nat, now: nat): Option<Status>
    requires n <= |signals|
  {
    if n == 0 then None
    else if FirstFault(g, signals, n - 1, now).Some? then FirstFault(g, signals, n - 1, now)
    else Fault(g, signals, n - 1, now)
  }

  /** The confidence filter: full confidence above the threshold, reduced in the grace band. */
  function LaneOf(g: Config, s: Signal): seq<Lane> {
    if s.confidence >= g.minConfidence then [Lane(s.value, s.confidence, s.model)]
    else if s.confidence >= g.grace then [Lane(s.value, s.confidence * GRACE_FACTOR, s.model)]
    else []
  }

  function Lanes(g: Config, signals: seq<Signal>): (ls: seq<Lane>)
    ensures |ls| <= |signals|
  {
    if signals == [] then []
    else Lanes(g, signals[..|signals| - 1]) + LaneOf(g, signals[|signals| - 1])
  }

  function Confidences(lanes: seq<Lane>): (c: seq<real>)
    ensures |c| == |lanes|
  {
    seq(|lanes|, i requires 0 <= i < |lanes| => lanes[i].confidence)
  }

  function Models(lanes: seq<Lane>): (m: seq<int>)
    ensures |m| == |lanes|
  {
    seq(|lanes|, i requires 0 <= i < |lanes| => lanes[i].model)
  }

  // ---------- The position ----------

  /** tanh is any sign-preserving function into [-1, 1]. */
  ghost predicate Squashes(tanh: real -> real) {
    forall x :: -1.0 <= tanh(x) <= 1.0 && (x >= 0.0 ==> tanh(x) >= 0.0) && (x <= 0.0 ==> tanh(x) <= 0.0)
  }

  function PositionLimit(g: Config, stabilizer: Option<Stabilizer>): real {
    if stabilizer.Some? && stabilizer.value.risk > 75.0 && stabilizer.value.clampLimit < g.maxPosition
    then stabilizer.value.clampLimit else g.maxPosition
  }

  function Smooth(tanh: real -> real, x: real, limit: real): real { Clamp(tanh(x * 100.0), -limit, limit) }

  // ---------- The decision ----------

  function Rejected(status: Status, value: real, confidence: real, agreed: nat): Decision {
    Decision(status, value, confidence, agreed, true, [])
  }

  predicate Killed(s: Situation) { s.safety.Some? && (s.safety.value.0 || s.safety.value.1) }

  predicate BadStabilizer(s: Situation) {
    s.stabilizer.Some? && (s.stabilizer.value.clampLimit < 0.0 || s.stabilizer.value.clampLimit > 1.0)
  }

  function Considered(g: Config, n: nat): nat {
    var most := if g.maxModels < 0 then 0 else if g.maxModels < MAX_MODELS then g.maxModels else MAX_MODELS;
    if n > most then most else n
  }

  /** Every path, in the order the engine takes them. */
  function Decide(tanh: real -> real, g: Config, values: seq<real>, confidences: seq<real>, s: Situation,
                  signals: seq<Signal>): Decision
  {
    if Killed(s) || !s.permitted then Rejected(FallbackActivated, 0.0, 0.0, 0)
    else if !ValidConfig(g) then Decision(NoModels, 0.0, 0.0, 0, false, [])
    else if BadStabilizer(s) then Rejected(FallbackActivated, 0.0, 0.0, 0)
    else if signals == [] then Decision(NoModels, 0.0, 0.0, 0, false, [])
    else DecideOn(tanh, g, FallbackValue(g, values, confidences), s, signals[..Considered(g, |signals|)])
  }

  function LimitsOf(g: Config): Limits { Limits(if g.minModels < 0 then 0 else g.minModels, g.agreement) }

  function DecideOn(tanh: real -> real, g: Config, fallback: real, s: Situation, signals: seq<Signal>): Decision {
    var fault := FirstFault(g, signals, |signals|, s.now);
    if fault.Some? then Rejected(fault.value, fallback, 0.0, 0)
    else
      var lanes := Lanes(g, signals);
      if lanes == [] then Rejected(LowConfidence, fallback, 0.1, 0)
      else
        var vote := Majority(lanes, LimitsOf(g));
        if vote.value.None? then Rejected(NoConsensus, fallback, 0.2, vote.agreed)
        else
          Decision(Accepted, Smooth(tanh, vote.value.value, PositionLimit(g, s.stabilizer)),
                   Mean(Confidences(lanes)), vote.agreed, false, Models(lanes))
  }

  // ---------- What every decision keeps ----------

  lemma FallbackWithin(g: Config, values: seq<real>, confidences: seq<real>)
    requires ValidConfig(g)
    ensures Abs(FallbackValue(g, values, confidences)) <= g.maxPosition
  {
  }

  /** The fallback keeps the direction of the recent mean, at the scale or at the position limit. */
  lemma FallbackFollowsMean(g: Config, values: seq<real>, confidences: seq<real>)
    requires ValidConfig(g) && values != []
    ensures var scale := FallbackScale(g, confidences);
      var size := if scale < g.maxPosition then scale else g.maxPosition;
      FallbackValue(g, values, confidences) == if Mean(values) >= 0.0 then size else -size
  {
  }

  lemma LimitWithin(g: Config, s: Situation)
    requires ValidConfig(g) && !BadStabilizer(s)
    ensures 0.0 <= PositionLimit(g, s.stabilizer) <= g.maxPosition
  {
  }

  /** Every decision on every path is within the position limit, and under an invalid configuration
      it is zero. */
  lemma DecisionWithinLimit(tanh: real -> real, g: Config, values: seq<real>, confidences: seq<real>, s: Situation,
                            signals: seq<Signal>)
    ensures var d := Decide(tanh, g, values, confidences, s, signals);
      if ValidConfig(g) then Abs(d.value) <= g.maxPosition else d.value == 0.0
  {
    if ValidConfig(g) && !BadStabilizer(s) {
      FallbackWithin(g, values, confidences);
      LimitWithin(g, s);
    }
  }

  lemma {:induction false} LanesConfident(g: Config, signals: seq<Signal>)
    requires forall i :: 0 <= i < |signals| ==> 0.0 <= signals[i].confidence <= 1.0
    ensures Confident(Lanes(g, signals))
    ensures forall i :: 0 <= i < |Lanes(g, signals)| ==> Lanes(g, signals)[i].confidence <= 1.0
  {
    if signals != [] {
      LanesConfident(g, signals[..|signals| - 1]);
    }
  }

  lemma {:induction false} NoFaultInRange(g: Config, signals: seq<Signal>, n: nat, now: nat)
    requires n <= |signals| && FirstFault(g, signals, n, now).None?
    ensures forall i :: 0 <= i < n ==> 0.0 <= signals[i].confidence <= 1.0
    ensures forall i, j :: 0 <= i < j < n ==> signals[i].model != signals[j].model
  {
    if n > 0 {
      NoFaultInRange(g, signals, n - 1, now);
      assert Fault(g, signals, n - 1, now).None?;
      assert !Repeats(signals, n - 1);
    }
  }

  /** An accepted decision never points against the majority: it is not negative when the negative
      votes are no majority, and not positive when they are. */
  lemma AcceptedFollowsMajority(tanh: real -> real, g: Config, fallback: real, s: Situation, signals: seq<Signal>)
    requires Squashes(tanh) && ValidConfig(g) && !BadStabilizer(s)
    requires DecideOn(tanh, g, fallback, s, signals).status == Accepted
    ensures var d := DecideOn(tanh, g, fallback, s, signals);
      if MajorityPositive(Values(Lanes(g, signals))) then d.value >= 0.0 else d.value <= 0.0
  {
    var lanes := Lanes(g, signals);
    assert FirstFault(g, signals, |signals|, s.now).None? by {
      FaultsReject(g, signals, |signals|, s.now);
    }
    NoFaultInRange(g, signals, |signals|, s.now);
    LanesConfident(g, signals);
    ConsensusSign(lanes, LimitsOf(g));
    LimitWithin(g, s);
    var x := Majority(lanes, LimitsOf(g)).value.value;
    assert -1.0 <= tanh(x * 100.0) <= 1.0;
  }

  lemma {:induction false} LaneModels(g: Config, signals: seq<Signal>, k: nat) returns (i: nat)
    requires k < |Lanes(g, signals)|
    ensures i < |signals| && signals[i].model == Lanes(g, signals)[k].model
    ensures signals[i].value == Lanes(g, signals)[k].value
  {
    var n := |signals| - 1;
    if k < |Lanes(g, signals[..n])| {
      i := LaneModels(g, signals[..n], k);
    } else {
      i := n;
    }
  }

  lemma {:induction false} LaneModelsDistinct(g: Config, signals: seq<Signal>)
    requires forall i, j :: 0 <= i < j < |signals| ==> signals[i].model != signals[j].model
    ensures forall i, j :: 0 <= i < j < |Lanes(g, signals)| ==> Lanes(g, signals)[i].model != Lanes(g, signals)[j].model
  {
    if signals != [] {
      var n := |signals| - 1;
      LaneModelsDistinct(g, signals[..n]);
      var front := Lanes(g, signals[..n]);
      forall k | 0 <= k < |front| ensures front[k].model != signals[n].model {
        var i := LaneModels(g, signals[..n], k);
      }
    }
  }

  /** The contributors of an accepted decision are different models, at least half of them agree, and
      at least as many agree as the configuration requires. */
  lemma AcceptedContributors(tanh: real -> real, g: Config, fallback: real, s: Situation, signals: seq<Signal>)
    requires ValidConfig(g) && DecideOn(tanh, g, fallback, s, signals).status == Accepted
    ensures var d := DecideOn(tanh, g, fallback, s, signals);
      && (forall i, j :: 0 <= i < j < |d.contributors| ==> d.contributors[i] != d.contributors[j])
      && 2 * d.agreed >= |d.contributors| && d.agreed >= g.minModels && !d.fallback
  {
    assert FirstFault(g, signals, |signals|, s.now).None? by {
      FaultsReject(g, signals, |signals|, s.now);
    }
    NoFaultInRange(g, signals, |signals|, s.now);
    LaneModelsDistinct(g, signals);
    HalfAgree(Lanes(g, signals), LimitsOf(g));
  }

  ghost predicate FaultStatuses(g: Config, signals: seq<Signal>, n: nat, now: nat)
    requires n <= |signals|
  {
    FirstFault(g, signals, n, now).Some? ==> FirstFault(g, signals, n, now).value != Accepted
  }

  lemma {:induction false} FaultsReject(g: Config, signals: seq<Signal>, n: nat, now: nat)
    requires n <= |signals|
    ensures FaultStatuses(g, signals, n, now)
  {
    if n > 0 {
      FaultsReject(g, signals, n - 1, now);
    }
  }
}
