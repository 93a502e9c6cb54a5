/**
 * The `coffeeTimer` struct of src/coffee/coffeeTimer.go as a class whose
 * pointer-receiver methods update its fields in place.  Each method is
 * proved to agree with the matching transition of `TimerSpec` and to keep
 * the struct invariant: armed exactly when a timer is pending.
 */
module Timer {
  import opened Wrappers
  import opened GoStrings
  import opened Hardware
  import opened Schedule
  import opened Debounce
  import opened TriggerTime
  import TimerSpec

  datatype CoffeeTimerConfig = CoffeeTimerConfig(
    armedLedPin: int,
    disarmedLedPin: int,
    armButtonPin: int,
    checkStatusButtonPin: int,
    triggerTime: string)

  const CoffeeTimerConfigDefaults := CoffeeTimerConfig(17, 4, 24, 23, "8:30")

  /** A timer built from the default configuration starts disarmed, set for 8:30, with the empty function. */
  lemma DefaultConfigTriggersAt830()
    ensures var s := TimerSpec.SetTriggerFunc(
              TimerSpec.SetTriggerTime(TimerSpec.Initial(), CoffeeTimerConfigDefaults.triggerTime), NoOp);
      && !s.isArmed && s.cancellableTimer == None
      && s.triggerHour == 8 && s.triggerMin == 30 && s.triggerFunc == NoOp
  {
    AcceptsDefault();
  }

  class CoffeeTimer {
    const hw: TimerSpec.TimerHardware
    var isArmed: bool
    var triggerHour: int
    var triggerMin: int
    var triggerFunc: Callback
    var cancellableTimer: Option<TimerSpec.PendingTimer>

    // What the outside world has seen, in order.
    ghost var stopped: seq<TimerSpec.PendingTimer>
    ghost var ran: seq<Callback>
    ghost var signals: seq<Signal>

    ghost function State(): TimerSpec.TimerState
      reads this
    {
      TimerSpec.TimerState(isArmed, triggerHour, triggerMin, triggerFunc, cancellableTimer, stopped, ran, signals)
    }

    ghost predicate Valid()
      reads this
    {
      TimerSpec.Inv(State())
    }

    /**
     * NewCoffeeTimer: LEDs from the configuration, a 2000 ms status length
     * and a 300 ms button-press length, disarmed, then the configured trigger
     * time (kept at 0:00 when it does not parse) and the empty trigger function.
     */
    constructor (cfg: CoffeeTimerConfig)
      ensures Valid() && !isArmed
      ensures hw == TimerSpec.TimerHardware(cfg.armedLedPin, cfg.disarmedLedPin, 2000, 300)
      ensures State() == TimerSpec.SetTriggerFunc(TimerSpec.SetTriggerTime(TimerSpec.Initial(), cfg.triggerTime), NoOp)
    {
      hw := TimerSpec.TimerHardware(cfg.armedLedPin, cfg.disarmedLedPin, 2000, 300);
      isArmed := false;
      triggerHour, triggerMin := 0, 0;
      triggerFunc := NoOp;
      cancellableTimer := None;
      stopped, ran, signals := [], [], [];
      new;
      SetTriggerTime(cfg.triggerTime);
      SetTriggerFunc(NoOp);
    }

    /** Reports whether a timer is pending. */
    function IsArmed(): (armed: bool)
      reads this
      requires Valid()
      ensures armed <==> cancellableTimer.Some?
    {
      isArmed
    }

    method Disarm()
      modifies this
      ensures Valid()
      ensures State() == TimerSpec.Disarm(old(State()))
    {
      if cancellableTimer.Some? {
        stopped := stopped + [cancellableTimer.value];
      }
      cancellableTimer := None;
      isArmed := false;
    }

    method Arm(now: int)
      modifies this
      ensures Valid() && isArmed
      ensures State() == TimerSpec.Arm(old(State()), now)
    {
      if cancellableTimer.Some? {
        Disarm();
      }
      var fireAt := NextFireInstant(now, triggerHour, triggerMin);
      cancellableTimer := Some(TimerSpec.PendingTimer(fireAt, triggerFunc));
      isArmed := true;
    }

    method ShowArmedStatus()
      modifies this`signals
      ensures State() == TimerSpec.ShowArmedStatus(old(State()), hw)
    {
      var statusLed := if isArmed then hw.armedLedPin else hw.disarmedLedPin;
      signals := signals + [Drive(statusLed, High)];
      signals := signals + [Sleep(hw.buttonPressLengthMs)];
      signals := signals + [Drive(statusLed, Low)];
    }

    method ToggleArmedStatus(now: int)
      modifies this
      ensures Valid() && isArmed == !old(isArmed)
      ensures State() == TimerSpec.ToggleArmedStatus(old(State()), hw, now)
    {
      if isArmed {
        Disarm();
      } else {
        Arm(now);
      }
      ShowArmedStatus();
    }

    method SetTriggerTime(timeStr: string)
      modifies this`triggerHour, this`triggerMin
      ensures State() == TimerSpec.SetTriggerTime(old(State()), timeStr)
    {
      var fields := Split(timeStr, ':');
      if |fields| != 2 {
        return;
      }
      var hour := Atoi(fields[0]);
      if hour.None? {
        return;
      }
      var min := Atoi(fields[1]);
      if min.None? {
        return;
      }
      triggerHour := hour.value;
      triggerMin := min.value;
    }

    method SetTriggerFunc(f: Callback)
      modifies this`triggerFunc
      ensures State() == TimerSpec.SetTriggerFunc(old(State()), f)
    {
      triggerFunc := f;
    }

    /** The pending timer fires: run the user function it captured, then disarm. */
    method Fire()
      requires cancellableTimer.Some?
      modifies this
      ensures Valid() && !isArmed
      ensures State() == TimerSpec.Fire(old(State()))
    {
      ran := ran + [cancellableTimer.value.action];
      Disarm();
    }

    /** The arm-button goroutine of NewCoffeeTimer, run over finitely many edges. */
    method MonitorArmButton(edges: seq<TimerSpec.ArmEdge>)
      requires Valid()
      modifies this
      ensures Valid()
      ensures State() == TimerSpec.ArmButtonLoop(old(State()), hw, edges)
    {
      var i := 0;
      while i < |edges|
        invariant 0 <= i <= |edges|
        invariant Valid()
        invariant State() == TimerSpec.ArmButtonLoop(old(State()), hw, edges[..i])
      {
        assert edges[..i + 1][..i] == edges[..i];
        if IsConfirmedPress(edges[i].elapsedNs, hw.buttonPressLengthMs) {
          ToggleArmedStatus(edges[i].now);
        }
        i := i + 1;
      }
      assert edges[..i] == edges;
    }

    /** The check-status goroutine of NewCoffeeTimer, run over finitely many edges. */
    method MonitorCheckStatusButton(elapsed: seq<nat>)
      modifies this`signals
      ensures State() == TimerSpec.CheckStatusLoop(old(State()), hw, elapsed)
    {
      var i := 0;
      while i < |elapsed|
        invariant 0 <= i <= |elapsed|
        invariant State() == TimerSpec.CheckStatusLoop(old(State()), hw, elapsed[..i])
      {
        assert elapsed[..i + 1][..i] == elapsed[..i];
        if IsConfirmedPress(elapsed[i], hw.buttonPressLengthMs) {
          ShowArmedStatus();
        }
        i := i + 1;
      }
      assert elapsed[..i] == elapsed;
    }
  }
}
