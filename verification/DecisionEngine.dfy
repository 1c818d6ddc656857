/** The decision engine: the fallback ring in its two arrays, and the methods that use it. */
module DecisionEngine {
  import opened Options
  import opened Modular
  import opened RealSums
  import opened FallbackRing
  import opened Consensus
  import opened Decisions

  function NoMoreThan(n: nat, most: nat): nat { if n > most then most else n }

  class Engine {
    var config: Config
    const values: array<real>
    const confidences: array<real>
    var head: nat
    var count: nat

    ghost predicate Valid()
      reads this
    {
      && values.Length == confidences.Length == SLOTS && values != confidences
      && Shape(SLOTS, head, count, Window(config))
    }

    /** The recent accepted positions and their confidences, oldest first. */
    ghost function Recent(): (q: seq<real>)
      reads this, values
      requires Valid()
      ensures |q| == count
    {
      InAgeOrder(values[..], head, count, Window(config))
    }

    ghost function RecentConfidences(): (q: seq<real>)
      reads this, confidences
      requires Valid()
      ensures |q| == count
    {
      InAgeOrder(confidences[..], head, count, Window(config))
    }

    constructor (config: Config)
      ensures Valid() && fresh(values) && fresh(confidences) && this.config == config
      ensures Recent() == [] && RecentConfidences() == []
    {
      this.config := config;
      values, confidences := new real[SLOTS](_ => 0.0), new real[SLOTS](_ => 0.0);
      head, count := 0, 0;
    }

    /** Stores one accepted decision over the oldest slot. */
    method UpdateFallback(value: real, confidence: real)
      requires Valid()
      modifies this`head, this`count, values, confidences
      ensures Valid()
      ensures Recent() == Push(old(Recent()), value, Window(config))
      ensures RecentConfidences() == Push(old(RecentConfidences()), confidence, Window(config))
    {
      hide InAgeOrder, Push;
      var window: nat := if config.window < 1 then 1 else config.window;
      if window > MAX_WINDOW {
        window := MAX_WINDOW;
      }
      count := NoMoreThan(count, window);
      assert window == Window(config) && count == old(count);
      var next := (head + 1) % window;
      PushKeepsOrder(values[..], head, count, window, value);
      PushKeepsOrder(confidences[..], head, count, window, confidence);
      Store(values, value);
      Store(confidences, confidence);
      head := next;
      if count < window {
        count := count + 1;
      }
    }

    method Store(slots: array<real>, x: real)
      requires Valid() && slots.Length == SLOTS
      modifies slots
      ensures slots[..] == old(slots[..])[head := x]
    {
      slots[head] := x;
    }

    /** The mean over the slots in use, which are summed in the order they lie. */
    method MeanOf(slots: array<real>) returns (mean: real)
      requires Valid() && slots.Length == SLOTS
      ensures mean == Mean(InAgeOrder(slots[..], head, count, Window(config)))
    {
      SlotsSum(slots[..], head, count, Window(config));
      if count == 0 {
        return 0.0;
      }
      var sum := 0.0;
      for i := 0 to count
        invariant sum == Sum(slots[..i])
      {
        assert slots[..i + 1][..i] == slots[..i];
        sum := sum + slots[i];
      }
      assert slots[..][..count] == slots[..count];
      mean := sum / count as real;
    }

    method Scale() returns (scale: real)
      requires Valid()
      ensures scale == FallbackScale(config, RecentConfidences())
    {
      scale := config.positionScale;
      if config.dynamicFallback {
        hide InAgeOrder, Mean;
        var confidence := MeanOf(confidences);
        scale := Clamp(config.alpha * confidence + config.beta, 0.1, 0.5);
        assert scale == DynamicScale(config, confidence);
      }
    }

    method Fallback() returns (value: real)
      requires Valid()
      ensures value == FallbackValue(config, Recent(), RecentConfidences())
    {
      if count == 0 {
        return 0.0;
      }
      var recent := MeanOf(values);
      var sign := if recent >= 0.0 then 1.0 else -1.0;
      var scale := Scale();
      value := Clamp(sign * scale, -config.maxPosition, config.maxPosition);
    }

    method ResetRing()
      requires Valid()
      modifies this`head, this`count, values, confidences
      ensures Valid() && Recent() == [] && RecentConfidences() == []
    {
      head, count := 0, 0;
      forall i | 0 <= i < SLOTS {
        values[i] := 0.0;
      }
      forall i | 0 <= i < SLOTS {
        confidences[i] := 0.0;
      }
    }

    /** Copies the retained newest samples of one array to its front, zeros after them. */
    method Repack(slots: array<real>, retained: nat)
      requires Valid() && slots.Length == SLOTS && retained <= count
      modifies slots
      ensures slots[..retained] == Newest(old(InAgeOrder(slots[..], head, count, Window(config))), retained)
    {
      var packed := new real[SLOTS](_ => 0.0);
      ghost var was := slots[..];
      var window := Window(config);
      ghost var kept := Newest(InAgeOrder(was, head, count, window), retained);
      for i := 0 to retained
        invariant slots[..] == was
        invariant forall j :: 0 <= j < i ==> packed[j] == kept[j]
      {
        RetainedAt(was, head, count, window, retained, i);
        packed[i] := slots[(head + window - retained + i) % window];
      }
      forall i | 0 <= i < SLOTS {
        slots[i] := packed[i];
      }
      assert forall j :: 0 <= j < retained ==> slots[j] == kept[j];
    }

    /** Refuses an invalid configuration; otherwise installs it, keeping the newest samples that fit
        its window. */
    method SetConfig(next: Config) returns (ok: bool)
      requires Valid()
      modifies this`config, this`head, this`count, values, confidences
      ensures Valid() && ok == ValidConfig(next)
      ensures !ok ==> config == old(config)
      ensures !ok ==> Recent() == old(Recent()) && RecentConfidences() == old(RecentConfidences())
      ensures ok ==> config == next && Recent() == Newest(old(Recent()), Window(next))
      ensures ok ==> RecentConfidences() == Newest(old(RecentConfidences()), Window(next))
    {
      if !ValidConfig(next) {
        return false;
      }
      var before, after := Window(config), Window(next);
      if before != after {
        var retained := if count < after then count else after;
        Repack(values, retained);
        Repack(confidences, retained);
        PackedOrder(values[..], retained, after);
        PackedOrder(confidences[..], retained, after);
        count := retained;
        head := retained % after;
      }
      config := next;
      ok := true;
    }

    /** One decision: exactly what Decide says, and only an accepted one enters the ring. */
    method MakeDecision(tanh: real -> real, s: Situation, signals: seq<Signal>,
                        permuted: seq<real>) returns (d: Decision)
      requires Valid() && MedianGiven(config, s, signals, permuted)
      modifies this`head, this`count, values, confidences
      ensures Valid()
      ensures d == Decide(tanh, config, old(Recent()), old(RecentConfidences()), s, signals)
      ensures d.status == Accepted ==>
        && Recent() == Push(old(Recent()), d.value, Window(config))
        && RecentConfidences() == Push(old(RecentConfidences()), d.confidence, Window(config))
      ensures d.status != Accepted ==> Recent() == old(Recent()) && RecentConfidences() == old(RecentConfidences())
    {
      if Killed(s) || !s.permitted {
        return Rejected(FallbackActivated, 0.0, 0.0, 0);
      }
      if !ValidConfig(config) {
        return Decision(NoModels, 0.0, 0.0, 0, false, []);
      }
      if BadStabilizer(s) {
        return Rejected(FallbackActivated, 0.0, 0.0, 0);
      }
      if signals == [] {
        return Decision(NoModels, 0.0, 0.0, 0, false, []);
      }
      var fallback := Fallback();
      d := DecideSignals(tanh, config, fallback, s, signals[..Considered(config, |signals|)], permuted);
      if d.status == Accepted {
        UpdateFallback(d.value, d.confidence);
      }
    }
  }

  lemma PackedOrder(slots: seq<real>, retained: nat, window: nat)
    requires retained <= window <= |slots| && window > 0
    ensures Shape(|slots|, retained % window, retained, window)
    ensures InAgeOrder(slots, retained % window, retained, window) == slots[..retained]
  {
    if retained < window {
      SmallRemainder(retained, window);
    } else {
      AddModulus(0, window);
    }
  }

  /** permuted is what nth_element leaves of the values that reach the vote, where one takes place. */
  ghost predicate MedianGiven(g: Config, s: Situation, signals: seq<Signal>, permuted: seq<real>) {
    var lanes := Lanes(g, signals[..Considered(g, |signals|)]);
    lanes != [] ==> NthElement(Values(lanes), permuted, |lanes| / 2)
  }

  method RepeatsModel(signals: seq<Signal>, i: nat) returns (found: bool)
    requires i < |signals|
    ensures found == Repeats(signals, i)
  {
    for j := 0 to i
      invariant forall k :: 0 <= k < j ==> signals[k].model != signals[i].model
    {
      if signals[j].model == signals[i].model {
        return true;
      }
    }
    found := false;
  }

  method CheckSignal(g: Config, signals: seq<Signal>, i: nat, now: nat) returns (fault: Option<Status>)
    requires i < |signals|
    ensures fault == Fault(g, signals, i, now)
  {
    var s := signals[i];
    if s.confidence < 0.0 || s.confidence > 1.0 {
      return Some(LowConfidence);
    }
    if s.timestamp > now {
      return Some(LowConfidence);
    }
    if g.maxAge > 0 && now - s.timestamp > g.maxAge {
      return Some(LowConfidence);
    }
    var repeated := RepeatsModel(signals, i);
    if repeated {
      return Some(NoConsensus);
    }
    if s.value < -MAX_SIGNAL || s.value > MAX_SIGNAL {
      return Some(LowConfidence);
    }
    fault := None;
  }

  lemma {:induction false} FaultStays(g: Config, signals: seq<Signal>, i: nat, n: nat, now: nat)
    requires i <= n <= |signals| && FirstFault(g, signals, i, now).Some?
    ensures FirstFault(g, signals, n, now) == FirstFault(g, signals, i, now)
  {
    if i < n {
      FaultStays(g, signals, i, n - 1, now);
    }
  }

  method CheckSignals(g: Config, signals: seq<Signal>, now: nat) returns (fault: Option<Status>)
    ensures fault == FirstFault(g, signals, |signals|, now)
  {
    for i := 0 to |signals|
      invariant FirstFault(g, signals, i, now).None?
    {
      fault := CheckSignal(g, signals, i, now);
      if fault.Some? {
        FaultStays(g, signals, i + 1, |signals|, now);
        return;
      }
    }
    fault := None;
  }

  method Filter(g: Config, signals: seq<Signal>) returns (lanes: seq<Lane>)
    ensures lanes == Lanes(g, signals)
  {
    lanes := [];
    for i := 0 to |signals|
      invariant lanes == Lanes(g, signals[..i])
    {
      assert signals[..i + 1][..i] == signals[..i];
      var s := signals[i];
      if s.confidence >= g.minConfidence {
        lanes := lanes + [Lane(s.value, s.confidence, s.model)];
      } else if s.confidence >= g.grace {
        lanes := lanes + [Lane(s.value, s.confidence * GRACE_FACTOR, s.model)];
      }
    }
    assert signals[..|signals|] == signals;
  }

  method Average(lanes: seq<Lane>) returns (mean: real)
    requires lanes != []
    ensures mean == Mean(Confidences(lanes))
  {
    var total := 0.0;
    for i := 0 to |lanes|
      invariant total == Sum(Confidences(lanes)[..i])
    {
      assert Confidences(lanes)[..i + 1][..i] == Confidences(lanes)[..i];
      total := total + lanes[i].confidence;
    }
    assert Confidences(lanes)[..|lanes|] == Confidences(lanes);
    mean := total / |lanes| as real;
  }

  method DecideSignals(tanh: real -> real, g: Config, fallback: real, s: Situation, signals: seq<Signal>,
                       permuted: seq<real>) returns (d: Decision)
    requires g.minModels >= 1
    requires Lanes(g, signals) != [] ==> NthElement(Values(Lanes(g, signals)), permuted, |Lanes(g, signals)| / 2)
    ensures d == DecideOn(tanh, g, fallback, s, signals)
  {
    var fault := CheckSignals(g, signals, s.now);
    if fault.Some? {
      return Rejected(fault.value, fallback, 0.0, 0);
    }
    var lanes := Filter(g, signals);
    if lanes == [] {
      return Rejected(LowConfidence, fallback, 0.1, 0);
    }
    var vote := CheckConsensus(lanes, permuted, LimitsOf(g));
    if vote.value.None? {
      return Rejected(NoConsensus, fallback, 0.2, vote.agreed);
    }
    var limit := g.maxPosition;
    if s.stabilizer.Some? && s.stabilizer.value.risk > 75.0 {
      limit := if s.stabilizer.value.clampLimit < limit then s.stabilizer.value.clampLimit else limit;
    }
    assert limit == PositionLimit(g, s.stabilizer);
    var confidence := Average(lanes);
    d := Decision(Accepted, Smooth(tanh, vote.value.value, limit), confidence, vote.agreed, false, Models(lanes));
  }
}
