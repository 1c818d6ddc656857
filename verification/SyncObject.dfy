/** The adapter with its four structures of 64-bit machine integers, updated in place: every sum,
    difference, product and conversion below is checked to stay in range. */
module SyncObject {
  import opened SyncClock

  newtype U64 = x: int | 0 <= x <= 0xFFFF_FFFF_FFFF_FFFF
  newtype I64 = x: int | -0x8000_0000_0000_0000 <= x <= 0x7FFF_FFFF_FFFF_FFFF
  newtype U8 = x: int | 0 <= x < 256

  const MAX_SIGNED: U64 := 0x7FFF_FFFF_FFFF_FFFF
  const MAX_UNSIGNED: U64 := 0xFFFF_FFFF_FFFF_FFFF

  datatype AdapterConfig = AdapterConfig(cadence: U64, maxDrift: U64, minConfidence: real,
                                         autoStress: bool, autoMetaLock: bool)

  datatype AdapterState = AdapterState(index: U64, last: U64, expected: U64, maxObserved: I64, phase: real,
                                       confidence: real, external: bool, degraded: bool)

  datatype AdapterMetrics = AdapterMetrics(total: U64, externalTicks: U64, fallbackTicks: U64, lastDrift: I64,
                                           confidence: real, external: bool, degraded: bool,
                                           stressCount: U8, metaLockCount: U8)

  function ConfigView(g: AdapterConfig): Config {
    Config(g.cadence as nat, g.maxDrift as nat, g.minConfidence, g.autoStress, g.autoMetaLock)
  }

  function ClockView(g: AdapterConfig, s: AdapterState, m: AdapterMetrics, t: Tick): Clock {
    Clock(ConfigView(g), s.expected as nat, s.index as nat, s.last as nat, Size(s.maxObserved as int), s.phase,
          s.confidence, s.external, s.degraded, m.total as nat, m.externalTicks as nat, m.fallbackTicks as nat,
          m.lastDrift as int, m.stressCount as nat, m.metaLockCount as nat, t)
  }

  /** What the metrics repeat of the state is what the state says. */
  ghost predicate MetricsAgree(s: AdapterState, m: AdapterMetrics) {
    m.confidence == s.confidence && m.external == s.external && m.degraded == s.degraded
  }

  function NextByte(n: U8): (r: U8)
    ensures r as int == (n as int + 1) % 256
  {
    if n == 255 then 0 else n + 1
  }

  class SyncAdapter {
    var config: AdapterConfig
    var state: AdapterState
    var metrics: AdapterMetrics
    var tick: Tick

    ghost function View(): Clock
      reads this
    {
      ClockView(config, state, metrics, tick)
    }

    ghost predicate Valid()
      reads this
    {
      state.maxObserved >= 0 && Sound(View()) && MetricsAgree(state, metrics)
    }

    constructor (config: AdapterConfig)
      ensures Valid() && View() == Fresh(ConfigView(config))
    {
      this.config := config;
      state := AdapterState(0, 0, config.cadence, 0, 0.0, 1.0, false, false);
      metrics := AdapterMetrics(0, 0, 0, 0, 1.0, false, false, 0, 0);
      tick := FreshTick();
    }

    method SetConfig(next: AdapterConfig)
      requires Valid()
      modifies this
      ensures Valid() && View() == Step(old(View()), Configure(ConfigView(next)))
    {
      config := next;
    }

    method ResetState()
      requires Valid()
      modifies this
      ensures Valid() && View() == Step(old(View()), Reset)
    {
      state := AdapterState(0, 0, config.cadence, 0, 0.0, 1.0, false, false);
      metrics := AdapterMetrics(0, 0, 0, 0, 1.0, false, false, 0, 0);
      tick := FreshTick();
    }

    /** The signed distance of an accepted timestamp from the expected one. */
    method MeasureDrift(timestamp: U64) returns (drift: I64)
      requires Valid() && timestamp <= MAX_SIGNED && config.cadence <= MAX_SIGNED / 2
      ensures drift as int == Drift(View(), timestamp as nat)
      ensures -(MAX_SIGNED as int) <= drift as int
    {
      if state.last > 0 && timestamp > state.last {
        var elapsed := timestamp - state.last;
        drift := elapsed as I64 - config.cadence as I64;
      } else {
        drift := 0;
      }
    }

    method CheckExternal(index: U64, timestamp: U64, phase: real, confidence: real) returns (refused: bool)
      requires Valid()
      ensures refused == Refused(View(), index as nat, timestamp as nat, phase, confidence)
    {
      refused := config.cadence == 0 || config.cadence > MAX_SIGNED / 2 || config.maxDrift > MAX_SIGNED / 2
        || config.minConfidence < 0.0 || config.minConfidence > 1.0
        || phase < 0.0 || phase > TWO_PI || confidence < 0.0 || confidence > 1.0
        || index == 0 || timestamp == 0 || timestamp > MAX_SIGNED
        || (metrics.total != 0 && (index <= state.index || timestamp <= state.last));
    }

    /** The tick an accepted external clock makes, and the drift it measures. */
    method MakeTick(index: U64, timestamp: U64, phase: real, confidence: real) returns (t: Tick, drift: I64)
      requires Valid() && !Refused(View(), index as nat, timestamp as nat, phase, confidence)
      ensures t == TickOf(View(), index as nat, timestamp as nat, phase, confidence)
      ensures drift as int == t.drift && Size(t.drift) <= MAX_SIGNED as int
    {
      drift := MeasureDrift(timestamp);
      var size: U64 := if drift < 0 then (-drift) as U64 else drift as U64;
      var x := confidence;
      var gap, wide, low := false, false, false;
      if state.index > 0 && index > state.index + 1 {
        gap := true;
        x := x * 0.8;
      }
      if size > config.maxDrift {
        wide := true;
        x := x * 0.85;
      }
      if x < config.minConfidence {
        low := true;
      }
      assert x == Discounted(View(), index as nat, timestamp as nat, confidence);
      var bad := gap || wide || low;
      t := Tick(index as nat, timestamp as nat, drift as int, config.cadence as nat, phase, x,
                true, false, wide, gap, bad,
                bad && config.autoStress && (x < config.minConfidence || size > config.maxDrift),
                bad && config.autoMetaLock && (x < 0.5 || size > config.maxDrift * 2));
    }

    method IngestProtocolClock(index: U64, timestamp: U64, phase: real, confidence: real) returns (t: Tick)
      requires Valid()
      modifies this
      ensures Valid()
      ensures View() == Step(old(View()), External(index as nat, timestamp as nat, phase, confidence)) && t == tick
    {
      StepSound(View(), External(index as nat, timestamp as nat, phase, confidence));
      var refused := CheckExternal(index, timestamp, phase, confidence);
      if refused {
        t := FreshTick().(index := state.index as nat, timestamp := state.last as nat, confidence := 0.0,
                          degraded := true, stress := true, metaLock := true);
        state := state.(degraded := true, confidence := 0.0);
        metrics := metrics.(degraded := true, confidence := 0.0);
        tick := t;
      } else {
        var drift;
        t, drift := MakeTick(index, timestamp, phase, confidence);
        Record(t, drift, index, timestamp, phase, confidence);
      }
    }

    method Record(t: Tick, drift: I64, index: U64, timestamp: U64, phase: real, confidence: real)
      requires Valid() && !Refused(View(), index as nat, timestamp as nat, phase, confidence)
      requires t == TickOf(View(), index as nat, timestamp as nat, phase, confidence)
      requires drift as int == t.drift && Size(t.drift) <= MAX_SIGNED as int
      modifies this`state, this`metrics, this`tick
      ensures state.maxObserved >= 0 && tick == t && MetricsAgree(state, metrics)
      ensures View() == Ingest(old(View()), index as nat, timestamp as nat, phase, confidence)
    {
      var size: I64 := if drift < 0 then -drift else drift;
      var highest := if size > state.maxObserved then size else state.maxObserved;
      state := AdapterState(index, timestamp, state.expected, highest, phase, t.confidence, true, t.degraded);
      metrics := AdapterMetrics(metrics.total + 1, metrics.externalTicks + 1, metrics.fallbackTicks, drift,
        t.confidence, true, t.degraded,
        if t.stress then NextByte(metrics.stressCount) else metrics.stressCount,
        if t.metaLock then NextByte(metrics.metaLockCount) else metrics.metaLockCount);
      tick := t;
    }

    /** clock is what the system clock reads. */
    method AdvanceTick(clock: U64) returns (t: Tick)
      requires Valid()
      modifies this
      ensures Valid()
      ensures View() == Step(old(View()), Standalone(clock as nat)) && t == tick
    {
      StepSound(View(), Standalone(clock as nat));
      if config.cadence == 0 || state.index == MAX_UNSIGNED || state.last > MAX_UNSIGNED - config.cadence
         || config.minConfidence < 0.0 || config.minConfidence > 1.0 {
        t := FreshTick().(confidence := 0.0, degraded := true, stress := true, metaLock := true);
        tick := t;
        return;
      }
      var next := state.index + 1;
      var timestamp := if state.last > 0 then state.last + config.cadence else clock;
      var phase := state.phase + 0.1;
      if phase >= TWO_PI {
        phase := phase - TWO_PI;
      }
      t := Tick(next as nat, timestamp as nat, 0, config.cadence as nat, phase, 1.0,
                false, true, false, false, false, false, false);
      state := state.(index := next, last := timestamp, phase := phase, confidence := 1.0,
                      external := false, degraded := false);
      metrics := metrics.(total := metrics.total + 1, fallbackTicks := metrics.fallbackTicks + 1, lastDrift := 0,
                           confidence := 1.0, external := false, degraded := false);
      tick := t;
    }
  }
}
