/**
 * src/coffee/raspi.go: which GPIO lines are configured, which monitoring
 * loops start, the debounce decision inside them, and which status LED is
 * pulsed.  The electrical effect of the periph.io calls is not modelled;
 * handler calls and LED writes are returned as traces.
 */
module Raspi {
  import opened Hardware
  import opened Debounce

  datatype RaspiConfig = RaspiConfig(
    espressoButtonPin: int,
    lungoButtonPin: int,
    armedLedPin: int,
    disarmedLedPin: int,
    armButtonPin: int,
    checkStatusButtonPin: int,
    buttonPressDetectingDurationMs: int)

  const RaspiConfigDefaults := RaspiConfig(27, 22, 17, 4, 24, 23, 300)
  const RaspiConfigNoInputButtons := RaspiConfig(27, 22, 17, 4, -1, -1, 300)
  const NoRaspiInUseConfig := RaspiConfig(-1, -1, -1, -1, -1, -1, 0)

  /** A `gpio.PinIO` as getGPIOByNumber hands it out: nil, or the line with that number. */
  datatype Gpio = NotConfigured | Pin(number: nat)

  /** Negative numbers mean "not configured"; any other number names its line. */
  function GetGpioByNumber(n: int): (g: Gpio)
    ensures g.NotConfigured? <==> n < 0
    ensures g.Pin? ==> g.number == n
  {
    if n < 0 then NotConfigured else Pin(n)
  }

  /** The two monitored input lines. */
  datatype ButtonLine = CheckStatusLine | ArmLine

  function ButtonPin(cfg: RaspiConfig, line: ButtonLine): int {
    match line
    case CheckStatusLine => cfg.checkStatusButtonPin
    case ArmLine => cfg.armButtonPin
  }

  /** The lines NewRaspi starts a monitoring goroutine for: exactly the configured buttons. */
  function MonitoredLines(cfg: RaspiConfig): (lines: set<ButtonLine>)
    ensures forall line :: line in lines <==> GetGpioByNumber(ButtonPin(cfg, line)).Pin?
  {
    (if cfg.checkStatusButtonPin >= 0 then {CheckStatusLine} else {})
    + (if cfg.armButtonPin >= 0 then {ArmLine} else {})
  }

  // ---------------------------------------------------------------------
  // Status LED selection (ActivateArmedStatusLED)
  // ---------------------------------------------------------------------

  /** The LED ActivateArmedStatusLED drives: the armed one when armed, the disarmed one otherwise. */
  function StatusLed(isArmed: bool, armedLed: Gpio, disarmedLed: Gpio): (led: Gpio)
    ensures isArmed ==> led == armedLed
    ensures !isArmed ==> led == disarmedLed
  {
    if isArmed then armedLed else disarmedLed
  }

  /** What ActivateArmedStatusLED does as written: a nil LED is logged, then `Out` is called on it anyway. */
  datatype LedOutcome = Pulsed(writes: seq<Signal>) | NilPinPanic

  function StatusPulseAsWritten(isArmed: bool, armedLed: Gpio, disarmedLed: Gpio, activateForMs: int): (o: LedOutcome)
    ensures o.NilPinPanic? <==> (if isArmed then armedLed else disarmedLed).NotConfigured?
    ensures o.Pulsed? ==> var n := (if isArmed then armedLed else disarmedLed).number;
      o.writes == [Drive(n, High), Sleep(activateForMs), Drive(n, Low)]
  {
    var led := StatusLed(isArmed, armedLed, disarmedLed);
    if led.NotConfigured? then NilPinPanic else Pulsed(Pulse(led.number, activateForMs))
  }

  /**
   * ActivateArmedStatusLED with the skip its log message announces: pulse
   * the armed LED when armed, the disarmed LED otherwise, High then Low;
   * write nothing when that LED is not configured.
   */
  function StatusPulse(isArmed: bool, armedLed: Gpio, disarmedLed: Gpio, activateForMs: int): (writes: seq<Signal>)
    ensures var led := StatusLed(isArmed, armedLed, disarmedLed);
      && (led.Pin? ==> writes == [Drive(led.number, High), Sleep(activateForMs), Drive(led.number, Low)])
      && (led.NotConfigured? ==> writes == [])
    ensures StatusPulseAsWritten(isArmed, armedLed, disarmedLed, activateForMs)
      == if writes == [] then NilPinPanic else Pulsed(writes)
  {
    var led := StatusLed(isArmed, armedLed, disarmedLed);
    if led.NotConfigured? then [] else Pulse(led.number, activateForMs)
  }

  /** As written, a status pulse without configured LEDs (the test's NoRaspiInUseConfig) panics. */
  lemma StatusPulsePanicsWithoutLeds(isArmed: bool, activateForMs: int)
    ensures StatusPulseAsWritten(isArmed, GetGpioByNumber(NoRaspiInUseConfig.armedLedPin),
                                 GetGpioByNumber(NoRaspiInUseConfig.disarmedLedPin), activateForMs)
      == NilPinPanic
  {
  }

  // ---------------------------------------------------------------------
  // The raspberrypi struct
  // ---------------------------------------------------------------------

  class Raspberrypi {
    var espressoButtonGpio: Gpio
    var lungoButtonGpio: Gpio
    var armedLedGpio: Gpio
    var disarmedLedGpio: Gpio
    var armButtonGpio: Gpio
    var checkStatusButtonGpio: Gpio
    var showArmedStatusFunc: Callback
    var toggleArmedStatusFunc: Callback

    /** Every line is the one getGPIOByNumber gives for the configured number. */
    ghost predicate LinesFrom(cfg: RaspiConfig)
      reads this
    {
      && espressoButtonGpio == GetGpioByNumber(cfg.espressoButtonPin)
      && lungoButtonGpio == GetGpioByNumber(cfg.lungoButtonPin)
      && armedLedGpio == GetGpioByNumber(cfg.armedLedPin)
      && disarmedLedGpio == GetGpioByNumber(cfg.disarmedLedPin)
      && armButtonGpio == GetGpioByNumber(cfg.armButtonPin)
      && checkStatusButtonGpio == GetGpioByNumber(cfg.checkStatusButtonPin)
    }

    /** The handler a confirmed edge on `line` calls. */
    function Handler(line: ButtonLine): Callback
      reads this
    {
      match line
      case CheckStatusLine => showArmedStatusFunc
      case ArmLine => toggleArmedStatusFunc
    }

    /** The struct literal of NewRaspi followed by both setters with `func() {}`. */
    constructor (cfg: RaspiConfig)
      ensures LinesFrom(cfg)
      ensures showArmedStatusFunc == NoOp && toggleArmedStatusFunc == NoOp
    {
      espressoButtonGpio := GetGpioByNumber(cfg.espressoButtonPin);
      lungoButtonGpio := GetGpioByNumber(cfg.lungoButtonPin);
      armedLedGpio := GetGpioByNumber(cfg.armedLedPin);
      disarmedLedGpio := GetGpioByNumber(cfg.disarmedLedPin);
      armButtonGpio := GetGpioByNumber(cfg.armButtonPin);
      checkStatusButtonGpio := GetGpioByNumber(cfg.checkStatusButtonPin);
      new;
      SetShowArmedStatusFunc(NoOp);
      SetToggleArmedStatusFunc(NoOp);
    }

    /** Go copies a `raspberrypi` value on return: a new struct with the same fields. */
    constructor Clone(src: Raspberrypi)
      ensures espressoButtonGpio == src.espressoButtonGpio && lungoButtonGpio == src.lungoButtonGpio
      ensures armedLedGpio == src.armedLedGpio && disarmedLedGpio == src.disarmedLedGpio
      ensures armButtonGpio == src.armButtonGpio && checkStatusButtonGpio == src.checkStatusButtonGpio
      ensures showArmedStatusFunc == src.showArmedStatusFunc && toggleArmedStatusFunc == src.toggleArmedStatusFunc
    {
      espressoButtonGpio, lungoButtonGpio := src.espressoButtonGpio, src.lungoButtonGpio;
      armedLedGpio, disarmedLedGpio := src.armedLedGpio, src.disarmedLedGpio;
      armButtonGpio, checkStatusButtonGpio := src.armButtonGpio, src.checkStatusButtonGpio;
      showArmedStatusFunc, toggleArmedStatusFunc := src.showArmedStatusFunc, src.toggleArmedStatusFunc;
    }

    method SetShowArmedStatusFunc(f: Callback)
      modifies this`showArmedStatusFunc
      ensures showArmedStatusFunc == f
    {
      showArmedStatusFunc := f;
    }

    method SetToggleArmedStatusFunc(f: Callback)
      modifies this`toggleArmedStatusFunc
      ensures toggleArmedStatusFunc == f
    {
      toggleArmedStatusFunc := f;
    }

    /**
     * Pulse the LED of the given status; `logTriggerTime` only feeds a log line.
     * Corrected behaviour: a nil (unconfigured) LED writes nothing, where the
     * code as written goes on to call `Out` on it and panics.
     */
    method ActivateArmedStatusLED(isArmed: bool, activateForMs: int, logTriggerTime: string) returns (writes: seq<Signal>)
      ensures writes == StatusPulse(isArmed, armedLedGpio, disarmedLedGpio, activateForMs)
    {
      var statusGpio := if isArmed then armedLedGpio else disarmedLedGpio;
      if statusGpio.NotConfigured? {
        return [];
      }
      writes := [Drive(statusGpio.number, High)];
      writes := writes + [Sleep(activateForMs)];
      writes := writes + [Drive(statusGpio.number, Low)];
    }
  }

  /** Set the handler of `line` through its own setter, as main.go wires the timer to the buttons. */
  method SetHandler(rp: Raspberrypi, line: ButtonLine, f: Callback)
    modifies rp`showArmedStatusFunc, rp`toggleArmedStatusFunc
    ensures rp.Handler(line) == f
    ensures line == CheckStatusLine ==> rp.toggleArmedStatusFunc == old(rp.toggleArmedStatusFunc)
    ensures line == ArmLine ==> rp.showArmedStatusFunc == old(rp.showArmedStatusFunc)
  {
    match line
    case CheckStatusLine => rp.SetShowArmedStatusFunc(f);
    case ArmLine => rp.SetToggleArmedStatusFunc(f);
  }

  // ---------------------------------------------------------------------
  // Monitoring goroutines
  // ---------------------------------------------------------------------

  /** A started monitoring goroutine: its line, its threshold, and the struct whose handler it calls. */
  datatype Monitor = Monitor(line: ButtonLine, thresholdMs: int, target: Raspberrypi)

  /**
   * The body of a monitoring goroutine, run over finitely many edges: each
   * wait longer than the threshold calls the line's current handler once,
   * every other edge calls nothing.
   */
  method RunMonitor(m: Monitor, elapsed: seq<nat>) returns (invoked: seq<Callback>)
    ensures |invoked| == ConfirmedCount(elapsed, m.thresholdMs)
    ensures forall i :: 0 <= i < |invoked| ==> invoked[i] == m.target.Handler(m.line)
  {
    invoked := [];
    var i := 0;
    while i < |elapsed|
      invariant 0 <= i <= |elapsed|
      invariant |invoked| == ConfirmedCount(elapsed[..i], m.thresholdMs)
      invariant forall k :: 0 <= k < |invoked| ==> invoked[k] == m.target.Handler(m.line)
    {
      assert elapsed[..i + 1][..i] == elapsed[..i];
      if IsConfirmedPress(elapsed[i], m.thresholdMs) {
        invoked := invoked + [m.target.Handler(m.line)];
      }
      i := i + 1;
    }
    assert elapsed[..i] == elapsed;
  }

  /** One goroutine per configured button, each bound to `target`. */
  function MonitorsFor(cfg: RaspiConfig, target: Raspberrypi): (monitors: map<ButtonLine, Monitor>)
    ensures monitors.Keys == MonitoredLines(cfg)
    ensures forall line :: line in monitors ==> monitors[line] == Monitor(line, cfg.buttonPressDetectingDurationMs, target)
  {
    map line | line in MonitoredLines(cfg) :: Monitor(line, cfg.buttonPressDetectingDurationMs, target)
  }

  /**
   * NewRaspi as written: the goroutines capture the local `rp`, and the
   * function returns a copy of it, so the caller's struct is not the one the
   * goroutines read their handlers from.
   */
  method NewRaspiAsWritten(cfg: RaspiConfig) returns (rp: Raspberrypi, monitors: map<ButtonLine, Monitor>)
    ensures fresh(rp) && rp.LinesFrom(cfg)
    ensures monitors.Keys == MonitoredLines(cfg)
    ensures forall line :: line in monitors ==>
      && monitors[line].line == line
      && monitors[line].thresholdMs == cfg.buttonPressDetectingDurationMs
      && fresh(monitors[line].target) && monitors[line].target != rp
      && monitors[line].target.Handler(line) == NoOp
  {
    var local := new Raspberrypi(cfg);
    monitors := MonitorsFor(cfg, local);
    rp := new Raspberrypi.Clone(local);
  }

  /** NewRaspi with the struct shared between the caller and the goroutines. */
  method NewRaspi(cfg: RaspiConfig) returns (rp: Raspberrypi, monitors: map<ButtonLine, Monitor>)
    ensures fresh(rp) && rp.LinesFrom(cfg)
    ensures rp.showArmedStatusFunc == NoOp && rp.toggleArmedStatusFunc == NoOp
    ensures monitors == MonitorsFor(cfg, rp)
  {
    rp := new Raspberrypi(cfg);
    monitors := MonitorsFor(cfg, rp);
  }

  /**
   * As written, a handler set on NewRaspi's result is never called: every
   * confirmed edge still calls the empty function installed inside NewRaspi.
   */
  method HandlerLostAsWritten(cfg: RaspiConfig, line: ButtonLine, f: Callback, elapsed: seq<nat>)
    returns (invoked: seq<Callback>)
    requires line in MonitoredLines(cfg)
    ensures |invoked| == ConfirmedCount(elapsed, cfg.buttonPressDetectingDurationMs)
    ensures forall i :: 0 <= i < |invoked| ==> invoked[i] == NoOp
  {
    var rp, monitors := NewRaspiAsWritten(cfg);
    SetHandler(rp, line, f);
    invoked := RunMonitor(monitors[line], elapsed);
  }

  /** With the struct shared, every confirmed edge calls the handler the caller set. */
  method HandlerReachesMonitor(cfg: RaspiConfig, line: ButtonLine, f: Callback, elapsed: seq<nat>)
    returns (invoked: seq<Callback>)
    requires line in MonitoredLines(cfg)
    ensures |invoked| == ConfirmedCount(elapsed, cfg.buttonPressDetectingDurationMs)
    ensures forall i :: 0 <= i < |invoked| ==> invoked[i] == f
  {
    var rp, monitors := NewRaspi(cfg);
    SetHandler(rp, line, f);
    invoked := RunMonitor(monitors[line], elapsed);
  }

  /** Which configurations start which goroutines, and with what threshold. */
  lemma ConfigurationsAndMonitors()
    ensures MonitoredLines(RaspiConfigDefaults) == {CheckStatusLine, ArmLine}
    ensures MonitoredLines(RaspiConfigNoInputButtons) == {}
    ensures MonitoredLines(NoRaspiInUseConfig) == {}
    ensures RaspiConfigDefaults.buttonPressDetectingDurationMs == 300
  {
  }

  /** With NoRaspiInUseConfig's threshold of 0, every edge after a non-zero wait is confirmed. */
  lemma NoRaspiThresholdConfirmsEveryWait(elapsed: seq<nat>)
    requires forall i :: 0 <= i < |elapsed| ==> elapsed[i] > 0
    ensures ConfirmedCount(elapsed, NoRaspiInUseConfig.buttonPressDetectingDurationMs) == |elapsed|
  {
    ZeroThresholdConfirmsEveryWait(elapsed);
  }
}
