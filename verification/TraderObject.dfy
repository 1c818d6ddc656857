/** The daemon as an object whose fields a tick updates in place. */
module TraderObject {
  import opened Options
  import opened TraderDaemon

  method SymbolOk(s: string) returns (ok: bool)
    ensures ok <==> 0 < |s| <= 32 && (forall i :: 0 <= i < |s| ==> SymbolChar(s[i])) && !HasTwoDots(s)
  {
    if |s| == 0 || |s| > 32 {
      return false;
    }
    for i := 0 to |s|
      invariant forall j :: 0 <= j < i ==> SymbolChar(s[j])
      invariant forall j :: 0 <= j < i - 1 ==> !(s[j] == '.' && s[j + 1] == '.')
    {
      if !SymbolChar(s[i]) {
        return false;
      }
      if i > 0 && s[i - 1] == '.' && s[i] == '.' {
        assert s[i - 1] == '.' && s[i - 1 + 1] == '.';
        return false;
      }
    }
    ok := true;
  }

  class VolumeTraderDaemon {
    const config: Config
    var brokerPending: bool
    var position: Side
    var pendingSide: Side
    var consecutiveBars: nat
    var peakEquity: real
    var currentEquity: real
    /** The broker's lockout, which never ends. */
    var lockedOut: bool

    ghost function View(): Daemon
      reads this
    {
      Daemon(brokerPending, position, pendingSide, consecutiveBars, peakEquity, currentEquity, lockedOut)
    }

    constructor (config: Config, equity: Option<real>)
      requires ValidConfig(config)
      ensures this.config == config && View() == Start(equity)
    {
      this.config := config;
      brokerPending, position, pendingSide, consecutiveBars := false, Flat, Flat, 0;
      if equity.None? || equity.value <= 0.0 {
        peakEquity, currentEquity, lockedOut := 0.0, 0.0, true;
      } else {
        peakEquity, currentEquity, lockedOut := equity.value, equity.value, false;
      }
    }

    /** One tick: exactly the step of the state machine. */
    method ProcessTick(t: Tick) returns (o: Outcome)
      modifies this
      ensures (View(), o) == Step(config, old(View()), t)
    {
      if !EvidenceOk(t.evidence) {
        lockedOut := true;
        return Outcome(None, Nothing);
      }
      if brokerPending {
        if t.safetyFault {
          lockedOut := true;
        }
        return Outcome(None, Nothing);
      }
      if t.safetyFault {
        lockedOut := true;
      }
      if t.equity.None? || t.equity.value <= 0.0 {
        lockedOut := true;
        return Outcome(None, Nothing);
      }
      ReadEquity(t.equity.value);
      if t.lockedOutside {
        lockedOut := true;
      }
      if t.advisory.weight < 0.0 {
        lockedOut := true;
        return Outcome(None, Nothing);
      }
      var desired := Desired(lockedOut, t.advisory);
      Debounce(desired);
      var action := Execute(desired, t);
      o := Outcome(Some(desired), action);
    }

    method ReadEquity(equity: real)
      modifies this`currentEquity, this`peakEquity, this`lockedOut
      ensures View() == Measured(config, old(View()), equity)
    {
      currentEquity := equity;
      if currentEquity > peakEquity {
        peakEquity := currentEquity;
      }
      if Drawdown(peakEquity, currentEquity) >= config.maxDrawdown {
        lockedOut := true;
      }
    }

    method Debounce(desired: Side)
      modifies this`pendingSide, this`consecutiveBars
      ensures View() == Debounced(config, old(View()), desired)
    {
      if desired == pendingSide {
        if consecutiveBars < config.hysteresisBars {
          consecutiveBars := consecutiveBars + 1;
        }
      } else {
        pendingSide := desired;
        consecutiveBars := 1;
      }
    }

    method Execute(desired: Side, t: Tick) returns (action: Action)
      requires t.evidence.price > 0.0
      modifies this`position, this`brokerPending, this`lockedOut
      ensures (View(), action) == Executed(config, old(View()), desired, t)
    {
      action := Nothing;
      if consecutiveBars < config.hysteresisBars {
        return;
      }
      if desired == position && desired != Flat {
        return;
      }
      if !config.autoExecute {
        return;
      }
      if desired == Flat {
        if position != Flat {
          if t.flattened && config.mock {
            position := Flat;
          }
          if !config.mock {
            brokerPending := true;
          }
          action := Flatten(t.flattened);
        }
      } else {
        action := SubmitBuy(t);
      }
    }

    method SubmitBuy(t: Tick) returns (action: Action)
      requires t.evidence.price > 0.0
      modifies this`position, this`brokerPending, this`lockedOut
      ensures (View(), action) == Submitted(config, old(View()), t)
    {
      var qty := Quantity(config, t.advisory, t.evidence.price);
      action := Nothing;
      if qty > 0.0 {
        if t.accepted {
          if config.mock {
            position := Buy;
          } else {
            brokerPending := true;
          }
        } else {
          if t.lockedAfter {
            lockedOut := true;
          }
          if !config.mock && lockedOut {
            brokerPending := true;
          }
        }
        action := Order(qty, t.evidence.price, t.accepted);
      }
    }
  }
}
