/** The clock synchronisation adapter as a state machine: external ticks, standalone ticks,
    reconfiguration and reset in any order. */
module SyncClock {
  import opened RealSums

  const MAX_U64 := 0xFFFF_FFFF_FFFF_FFFF
  const MAX_I64 := 0x7FFF_FFFF_FFFF_FFFF
  const TWO_PI := 6.283185307179586

  datatype Config = Config(cadence: nat, maxDrift: nat, minConfidence: real, stressOn: bool, metaLockOn: bool)

  datatype Tick = Tick(index: nat, timestamp: nat, drift: int, cadence: nat, phase: real, confidence: real,
                       external: bool, fallback: bool, driftWarn: bool, gap: bool,
                       degraded: bool, stress: bool, metaLock: bool)

  /** State and metrics.  expected is the cadence at the last reset, which a new configuration leaves
      alone.  The escalation counters are bytes and wrap. */
  datatype Clock = Clock(config: Config, expected: nat, index: nat, last: nat, maxDrift: nat, phase: real,
                         confidence: real, external: bool, degraded: bool, total: nat, externalTicks: nat,
                         fallbackTicks: nat, lastDrift: int, stressCount: nat, metaLockCount: nat, tick: Tick)

  function FreshTick(): Tick {
    Tick(0, 0, 0, 10000000, 0.0, 1.0, false, false, false, false, false, false, false)
  }

  function Fresh(g: Config): Clock {
    Clock(g, g.cadence, 0, 0, 0, 0.0, 1.0, false, false, 0, 0, 0, 0, 0, 0, FreshTick())
  }

  /** The guard of an external tick. */
  predicate Refused(c: Clock, index: nat, timestamp: nat, phase: real, confidence: real) {
    || c.config.cadence == 0 || c.config.cadence > MAX_I64 / 2 || c.config.maxDrift > MAX_I64 / 2
    || !Unit(c.config.minConfidence) || phase < 0.0 || phase > TWO_PI || !Unit(confidence)
    || index == 0 || timestamp == 0 || timestamp > MAX_I64
    || (c.total != 0 && (index <= c.index || timestamp <= c.last))
  }

  function RefusedTick(c: Clock): Tick {
    FreshTick().(index := c.index, timestamp := c.last, confidence := 0.0,
                 degraded := true, stress := true, metaLock := true)
  }

  function Size(n: int): nat { if n < 0 then -n else n }

  function Drift(c: Clock, timestamp: nat): int {
    if c.last > 0 && timestamp > c.last then timestamp - c.last - c.config.cadence else 0
  }

  predicate Gap(c: Clock, index: nat) { c.index > 0 && index > c.index + 1 }

  function Discounted(c: Clock, index: nat, timestamp: nat, confidence: real): real {
    var x := if Gap(c, index) then confidence * 0.8 else confidence;
    if Size(Drift(c, timestamp)) > c.config.maxDrift then x * 0.85 else x
  }

  /** An accepted external tick. */
  function TickOf(c: Clock, index: nat, timestamp: nat, phase: real, confidence: real): Tick {
    var drift := Drift(c, timestamp);
    var wide := Size(drift) > c.config.maxDrift;
    var x := Discounted(c, index, timestamp, confidence);
    var degraded := Gap(c, index) || wide || x < c.config.minConfidence;
    Tick(index, timestamp, drift, c.config.cadence, phase, x, true, false, wide, Gap(c, index), degraded,
         degraded && c.config.stressOn && (x < c.config.minConfidence || wide),
         degraded && c.config.metaLockOn && (x < 0.5 || Size(drift) > c.config.maxDrift * 2))
  }

  function Larger(a: nat, b: nat): nat { if a < b then b else a }

  function Ingest(c: Clock, index: nat, timestamp: nat, phase: real, confidence: real): Clock {
    if Refused(c, index, timestamp, phase, confidence) then
      c.(degraded := true, confidence := 0.0, tick := RefusedTick(c))
    else
      var t := TickOf(c, index, timestamp, phase, confidence);
      Clock(c.config, c.expected, index, timestamp, Larger(c.maxDrift, Size(t.drift)), phase,
            t.confidence, true, t.degraded, c.total + 1, c.externalTicks + 1, c.fallbackTicks, t.drift,
            if t.stress then (c.stressCount + 1) % 256 else c.stressCount,
            if t.metaLock then (c.metaLockCount + 1) % 256 else c.metaLockCount, t)
  }

  /** The guard of a standalone tick. */
  predicate Stuck(c: Clock) {
    c.config.cadence == 0 || c.index == MAX_U64 || c.last + c.config.cadence > MAX_U64 || !Unit(c.config.minConfidence)
  }

  function NextPhase(phase: real): real {
    if phase + 0.1 >= TWO_PI then phase + 0.1 - TWO_PI else phase + 0.1
  }

  function StandaloneTick(c: Clock, clock: nat): Tick {
    Tick(c.index + 1, if c.last > 0 then c.last + c.config.cadence else clock, 0, c.config.cadence,
         NextPhase(c.phase), 1.0, false, true, false, false, false, false, false)
  }

  /** clock is what the system clock reads, used when no timestamp is known yet. */
  function Advance(c: Clock, clock: nat): Clock {
    if Stuck(c) then
      c.(tick := FreshTick().(confidence := 0.0, degraded := true, stress := true, metaLock := true))
    else
      var t := StandaloneTick(c, clock);
      c.(index := t.index, last := t.timestamp, phase := t.phase, confidence := 1.0,
         external := false, degraded := false, total := c.total + 1, fallbackTicks := c.fallbackTicks + 1,
         lastDrift := 0, tick := t)
  }

  datatype Op =
    | External(index: nat, timestamp: nat, phase: real, confidence: real)
    | Standalone(clock: nat)
    | Configure(config: Config)
    | Reset

  /** The machine's integers. */
  predicate OpOk(op: Op) {
    match op
    case External(i, t, _, _) => i <= MAX_U64 && t <= MAX_U64
    case Standalone(clock) => clock <= MAX_U64
    case Configure(g) => g.cadence <= MAX_U64 && g.maxDrift <= MAX_U64
    case Reset => true
  }

  function Step(c: Clock, op: Op): Clock {
    match op
    case External(i, t, phase, confidence) => Ingest(c, i, t, phase, confidence)
    case Standalone(clock) => Advance(c, clock)
    case Configure(g) => c.(config := g)
    case Reset => Fresh(c.config)
  }

  predicate Ticks(c: Clock, op: Op) {
    match op
    case External(i, t, phase, confidence) => !Refused(c, i, t, phase, confidence)
    case Standalone(_) => !Stuck(c)
    case Configure(_) => false
    case Reset => false
  }

  function Run(g: Config, ops: seq<Op>): Clock {
    if ops == [] then Fresh(g) else Step(Run(g, ops[..|ops| - 1]), ops[|ops| - 1])
  }

  /** The ticks accepted since the last reset, oldest first. */
  function Accepted(g: Config, ops: seq<Op>): seq<Tick> {
    if ops == [] then []
    else
      var before, op := Run(g, ops[..|ops| - 1]), ops[|ops| - 1];
      if op.Reset? then []
      else Accepted(g, ops[..|ops| - 1]) + if Ticks(before, op) then [Step(before, op).tick] else []
  }

  // ---------- What every run keeps ----------

  ghost predicate Sound(c: Clock) {
    && c.index <= MAX_U64 && c.last <= MAX_U64 && c.maxDrift <= MAX_I64
    && c.config.cadence <= MAX_U64 && c.config.maxDrift <= MAX_U64 && c.expected <= MAX_U64
    && c.total == c.externalTicks + c.fallbackTicks && c.total <= c.index
    && (c.total == 0 <==> c.index == 0) && (c.total == 0 ==> c.last == 0)
    && Size(c.lastDrift) <= c.maxDrift && 0.0 <= c.phase <= TWO_PI && Unit(c.confidence)
    && c.stressCount < 256 && c.metaLockCount < 256
  }

  lemma ShareBelow(x: real, f: real, y: real)
    requires 0.0 <= x && Unit(f) && y == x * f
    ensures 0.0 <= y <= x
  {
    MulMonotone(f, 1.0, x);
    MulMonotone(0.0, x, f);
  }

  lemma ConfidenceInUnit(c: Clock, index: nat, timestamp: nat, confidence: real)
    requires Unit(confidence)
    ensures Unit(Discounted(c, index, timestamp, confidence))
  {
    var x := if Gap(c, index) then confidence * 0.8 else confidence;
    ShareBelow(confidence, 0.8, confidence * 0.8);
    ShareBelow(x, 0.85, x * 0.85);
  }

  /** The system clock is asked as long as the last timestamp is zero, and reads zero. */
  predicate ReadsZero(c: Clock, op: Op) { op == Standalone(0) && c.last == 0 }

  /** An accepted tick moves the index strictly forward, and the timestamp too unless the system
      clock reads zero while it is zero; a refused tick moves neither, nor the tick counts. */
  lemma StepAdvances(c: Clock, op: Op)
    requires Sound(c) && OpOk(op) && !op.Reset?
    ensures var c' := Step(c, op);
      if Ticks(c, op) then
        c'.index > c.index && c'.last >= c.last && c'.total == c.total + 1
        && (c'.last > c.last <==> !ReadsZero(c, op))
        && c'.tick.index == c'.index && c'.tick.timestamp == c'.last
      else c'.index == c.index && c'.last == c.last && c'.total == c.total && c'.maxDrift == c.maxDrift
  {
  }

  predicate Beyond(drift: int, limit: nat) { drift > limit || -drift > limit }

  predicate Severe(c: Clock, t: Tick) { t.confidence < 0.5 || Beyond(t.drift, 2 * c.config.maxDrift) }

  /** What an accepted external tick reports, as equations between it, the state and the input. */
  ghost predicate Reports(c: Clock, index: nat, timestamp: nat, confidence: real, t: Tick) {
    && (c.last > 0 ==> c.last + c.config.cadence + t.drift == timestamp) && (c.last == 0 ==> t.drift == 0)
    && (t.gap <==> c.index > 0 && c.index + 1 < index)
    && (t.driftWarn <==> Beyond(t.drift, c.config.maxDrift))
    && t.confidence * 10000.0 ==
         confidence * (if t.gap then 80.0 else 100.0) * (if t.driftWarn then 85.0 else 100.0)
    && (t.degraded <==> t.gap || t.driftWarn || t.confidence < c.config.minConfidence)
    && (t.stress <==> c.config.stressOn && (t.driftWarn || t.confidence < c.config.minConfidence))
    && (t.metaLock <==> c.config.metaLockOn && t.degraded && Severe(c, t))
    && t.external && !t.fallback && t.cadence == c.config.cadence
  }

  lemma TickReports(c: Clock, index: nat, timestamp: nat, phase: real, confidence: real)
    requires Sound(c) && !Refused(c, index, timestamp, phase, confidence)
    ensures Reports(c, index, timestamp, confidence, Step(c, External(index, timestamp, phase, confidence)).tick)
  {
  }

  /** A standalone tick is one cadence later, or at the system clock's time before any tick; it moves
      the phase by a tenth around the circle. */
  lemma StandaloneReports(c: Clock, clock: nat)
    requires Sound(c) && Ticks(c, Standalone(clock))
    ensures var c' := Step(c, Standalone(clock));
      && c'.index == c.index + 1
      && (c.last > 0 ==> c'.last - c.last == c.config.cadence) && (c.last == 0 ==> c'.last == clock)
      && 0.0 <= c'.phase < TWO_PI && (c'.phase - c.phase == 0.1 || c.phase - c'.phase == TWO_PI - 0.1)
      && c'.confidence == 1.0 && c'.tick.fallback && !c'.tick.external && !c'.degraded && c'.lastDrift == 0
  {
  }

  lemma StepSound(c: Clock, op: Op)
    requires Sound(c) && OpOk(op)
    ensures Sound(Step(c, op))
  {
    match op
    case External(i, t, phase, confidence) =>
      if !Refused(c, i, t, phase, confidence) {
        ConfidenceInUnit(c, i, t, confidence);
      }
    case _ =>
  }

  ghost predicate ConfigOk(g: Config) { g.cadence <= MAX_U64 && g.maxDrift <= MAX_U64 }

  ghost predicate OpsOk(ops: seq<Op>) { forall k :: 0 <= k < |ops| ==> OpOk(ops[k]) }

  /** Over every interleaving of external ticks, standalone ticks, reconfigurations and resets the
      counts add up, nothing leaves its 64-bit range, and the phase stays on the circle. */
  lemma {:induction false} EveryRunSound(g: Config, ops: seq<Op>)
    requires ConfigOk(g) && OpsOk(ops)
    ensures Sound(Run(g, ops))
  {
    if ops != [] {
      EveryRunSound(g, ops[..|ops| - 1]);
      StepSound(Run(g, ops[..|ops| - 1]), ops[|ops| - 1]);
    }
  }

  /** Strictly forward in the index, and no step back in the timestamp: equal ones are both zero. */
  ghost predicate Ascending(ticks: seq<Tick>) {
    forall i, j :: 0 <= i < j < |ticks| ==>
      && ticks[i].index < ticks[j].index
      && (ticks[i].timestamp < ticks[j].timestamp || ticks[i].timestamp == ticks[j].timestamp == 0)
  }

  ghost predicate StrictlyAscending(ticks: seq<Tick>) {
    forall i, j :: 0 <= i < j < |ticks| ==> ticks[i].index < ticks[j].index && ticks[i].timestamp < ticks[j].timestamp
  }

  function HighestDrift(ticks: seq<Tick>): nat {
    if ticks == [] then 0 else Larger(HighestDrift(ticks[..|ticks| - 1]), Size(ticks[|ticks| - 1].drift))
  }

  /** The state summarises the accepted ticks: it stands at the last one, counts them, and holds
      their largest drift. */
  ghost predicate Summarises(c: Clock, ticks: seq<Tick>) {
    && c.total == |ticks| && c.maxDrift == HighestDrift(ticks)
    && (forall k :: 0 <= k < |ticks| ==> ticks[k].index <= c.index && ticks[k].timestamp <= c.last)
    && (ticks != [] ==> ticks[|ticks| - 1].index == c.index && ticks[|ticks| - 1].timestamp == c.last)
  }

  /** Since the last reset some tick after the first took a zero from the system clock. */
  ghost predicate ZeroRepeats(g: Config, ops: seq<Op>) {
    ops != [] &&
    (var before, op := Run(g, ops[..|ops| - 1]), ops[|ops| - 1];
     && !op.Reset?
     && (ZeroRepeats(g, ops[..|ops| - 1]) || (Ticks(before, op) && before.total > 0 && ReadsZero(before, op))))
  }

  lemma AscendingGrows(c: Clock, c': Clock, ticks: seq<Tick>)
    requires Ascending(ticks) && Summarises(c, ticks)
    requires c'.index > c.index && (c'.last > c.last || c'.last == c.last == 0)
    requires c'.tick.index == c'.index && c'.tick.timestamp == c'.last
    ensures Ascending(ticks + [c'.tick])
  {
    hide HighestDrift;
  }

  lemma SummaryGrows(c: Clock, c': Clock, ticks: seq<Tick>)
    requires Summarises(c, ticks) && c'.total == c.total + 1 && c'.index > c.index && c'.last >= c.last
    requires c'.tick.index == c'.index && c'.tick.timestamp == c'.last
    requires c'.maxDrift == Larger(c.maxDrift, Size(c'.tick.drift))
    ensures Summarises(c', ticks + [c'.tick])
  {
    assert (ticks + [c'.tick])[..|ticks|] == ticks;
  }

  lemma SummaryStep(c: Clock, op: Op, ticks: seq<Tick>)
    requires Sound(c) && OpOk(op) && !op.Reset? && Ascending(ticks) && Summarises(c, ticks)
    ensures var now := ticks + if Ticks(c, op) then [Step(c, op).tick] else [];
      Ascending(now) && Summarises(Step(c, op), now)
  {
    hide Ascending;
    StepAdvances(c, op);
    if Ticks(c, op) {
      AscendingGrows(c, Step(c, op), ticks);
      SummaryGrows(c, Step(c, op), ticks);
    } else {
      assert ticks + [] == ticks;
    }
  }

  lemma StrictStep(c: Clock, op: Op, ticks: seq<Tick>)
    requires Sound(c) && OpOk(op) && !op.Reset? && Ticks(c, op) && Ascending(ticks) && Summarises(c, ticks)
    ensures StrictlyAscending(ticks + [Step(c, op).tick]) <==>
      StrictlyAscending(ticks) && !(c.total > 0 && ReadsZero(c, op))
  {
    var t := Step(c, op).tick;
    var now := ticks + [t];
    StepAdvances(c, op);
    assert forall k :: 0 <= k < |ticks| ==> now[k] == ticks[k];
    if ticks != [] {
      assert now[|ticks| - 1].timestamp == c.last && now[|ticks|] == t;
    }
  }

  /** Since the last reset, accepted ticks ascend in index and in timestamp, whatever mix of external
      and standalone ticks they are, and the recorded drift is the largest among them. */
  lemma {:induction false} AcceptedAscend(g: Config, ops: seq<Op>)
    requires ConfigOk(g) && OpsOk(ops)
    ensures Ascending(Accepted(g, ops)) && Summarises(Run(g, ops), Accepted(g, ops))
  {
    if ops != [] {
      var n := |ops| - 1;
      AcceptedAscend(g, ops[..n]);
      EveryRunSound(g, ops[..n]);
      if !ops[n].Reset? {
        SummaryStep(Run(g, ops[..n]), ops[n], Accepted(g, ops[..n]));
      }
    }
  }

  /** The timestamps ascend strictly exactly when the system clock gave no zero after the first tick. */
  lemma {:induction false} StrictUnlessZeroRepeats(g: Config, ops: seq<Op>)
    requires ConfigOk(g) && OpsOk(ops)
    ensures StrictlyAscending(Accepted(g, ops)) <==> !ZeroRepeats(g, ops)
  {
    if ops != [] {
      hide Ascending, Summarises, Sound, Step, Ticks, Run;
      var n := |ops| - 1;
      var c, ticks := Run(g, ops[..n]), Accepted(g, ops[..n]);
      StrictUnlessZeroRepeats(g, ops[..n]);
      AcceptedAscend(g, ops[..n]);
      EveryRunSound(g, ops[..n]);
      if !ops[n].Reset? {
        if Ticks(c, ops[n]) {
          StrictStep(c, ops[n], ticks);
        } else {
          assert ticks + [] == ticks;
        }
      }
    }
  }

  /** A system clock that reads zero twice makes two ticks at time zero. */
  lemma ZeroClockRepeats(g: Config)
    requires g.cadence != 0 && Unit(g.minConfidence) && ConfigOk(g)
    ensures !StrictlyAscending(Accepted(g, [Standalone(0), Standalone(0)]))
  {
    var one, two := [Standalone(0)], [Standalone(0), Standalone(0)];
    assert two[..1] == one && one[..0] == [];
    assert Run(g, one).total == 1 && Run(g, one).last == 0;
    StrictUnlessZeroRepeats(g, two);
  }
}
