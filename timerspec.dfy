/**
 * The arm/disarm state machine of src/coffee/coffeeTimer.go as pure
 * transitions over the abstract state of one `coffeeTimer`.  The class
 * `Timer.CoffeeTimer` implements each transition in place and is proved to
 * agree with these functions; the lemmas below are about the functions.
 *
 * Besides the struct's fields the state records what the outside world
 * sees: the timers `Stop` was called on, the user functions run by fired
 * timers, and the signals written to the status LEDs.
 */
module TimerSpec {
  import opened Wrappers
  import opened GoStrings
  import opened Hardware
  import opened Schedule
  import opened TriggerTime
  import opened Debounce

  /** A `time.AfterFunc` timer still to fire: its instant and the user function it will run. */
  datatype PendingTimer = PendingTimer(fireAt: int, action: Callback)

  /** The fields of a `coffeeTimer` that no method changes. */
  datatype TimerHardware = TimerHardware(
    armedLedPin: int,
    disarmedLedPin: int,
    showStatusLengthMs: int,
    buttonPressLengthMs: int)

  datatype TimerState = TimerState(
    isArmed: bool,
    triggerHour: int,
    triggerMin: int,
    triggerFunc: Callback,                   // the `f` wrapped by SetTriggerFunc
    cancellableTimer: Option<PendingTimer>,  // nil pointer = None
    stopped: seq<PendingTimer>,              // every timer `Stop` was called on, in order
    ran: seq<Callback>,                      // every user function a fired timer ran, in order
    signals: seq<Signal>)                    // every write to a status LED, in order

  /** The struct invariant: armed exactly when a timer is pending. */
  predicate Inv(s: TimerState) {
    s.isArmed <==> s.cancellableTimer.Some?
  }

  /** Same trigger time and trigger function. */
  predicate SameSettings(a: TimerState, b: TimerState) {
    a.triggerHour == b.triggerHour && a.triggerMin == b.triggerMin && a.triggerFunc == b.triggerFunc
  }

  /** The timers a `Stop` call is made on when the pointer is `t`. */
  function StopsOf(t: Option<PendingTimer>): seq<PendingTimer> {
    if t.Some? then [t.value] else []
  }

  /**
   * The `coffeeTimer` of the struct literal in NewCoffeeTimer, before its setters run, with the
   * function slot (a nil func in Go) shown as `NoOp`; the SetTriggerFunc call that follows overwrites it.
   */
  function Initial(): (s: TimerState)
    ensures Inv(s) && !s.isArmed
  {
    TimerState(false, 0, 0, NoOp, None, [], [], [])
  }

  /** `disarm`: stop the pending timer if there is one, forget it, clear `isArmed`. */
  function Disarm(s: TimerState): (r: TimerState)
    ensures Inv(r) && !r.isArmed && r.cancellableTimer == None
    ensures r.stopped == s.stopped + StopsOf(s.cancellableTimer)
    ensures SameSettings(r, s) && r.ran == s.ran && r.signals == s.signals
  {
    s.(cancellableTimer := None, isArmed := false, stopped := s.stopped + StopsOf(s.cancellableTimer))
  }

  /**
   * `arm` at instant `now`: disarm first when a timer is pending, then start
   * one timer for the next occurrence of the trigger time, capturing the
   * trigger function as it is now.
   */
  function Arm(s: TimerState, now: int): (r: TimerState)
    ensures Inv(r) && r.isArmed
    ensures r.cancellableTimer == Some(PendingTimer(NextFireInstant(now, s.triggerHour, s.triggerMin), s.triggerFunc))
    ensures r.stopped == s.stopped + StopsOf(s.cancellableTimer)
    ensures SameSettings(r, s) && r.ran == s.ran && r.signals == s.signals
  {
    var cleared := if s.cancellableTimer.Some? then Disarm(s) else s;
    var fireAt := NextFireInstant(now, cleared.triggerHour, cleared.triggerMin);
    cleared.(cancellableTimer := Some(PendingTimer(fireAt, cleared.triggerFunc)), isArmed := true)
  }

  /** The LED `showArmedStatus` lights. */
  function StatusLed(hw: TimerHardware, isArmed: bool): (pin: int)
    ensures isArmed ==> pin == hw.armedLedPin
    ensures !isArmed ==> pin == hw.disarmedLedPin
  {
    if isArmed then hw.armedLedPin else hw.disarmedLedPin
  }

  /**
   * `showArmedStatus`: pulse the armed LED when armed, the disarmed LED
   * otherwise, for `buttonPressLengthMs` (the struct's `showStatusLengthMs`
   * is never read).
   */
  function ShowArmedStatus(s: TimerState, hw: TimerHardware): (r: TimerState)
    ensures r.signals == s.signals + Pulse(StatusLed(hw, s.isArmed), hw.buttonPressLengthMs)
    ensures r.(signals := s.signals) == s
  {
    s.(signals := s.signals + Pulse(StatusLed(hw, s.isArmed), hw.buttonPressLengthMs))
  }

  /** `toggleArmedStatus`: disarm when armed, arm otherwise, then show the new status. */
  function ToggleArmedStatus(s: TimerState, hw: TimerHardware, now: int): (r: TimerState)
    ensures Inv(r) && r.isArmed == !s.isArmed
    ensures r.signals == s.signals + Pulse(StatusLed(hw, r.isArmed), hw.buttonPressLengthMs)
    ensures SameSettings(r, s) && r.ran == s.ran
  {
    var next := if s.isArmed then Disarm(s) else Arm(s, now);
    ShowArmedStatus(next, hw)
  }

  /**
   * `SetTriggerTime`: store the parsed hour and minute; on any parse
   * failure change nothing.  Never touches the arm state or a pending timer.
   */
  function SetTriggerTime(s: TimerState, text: string): (r: TimerState)
    ensures r.isArmed == s.isArmed && r.cancellableTimer == s.cancellableTimer
    ensures ParseTriggerTime(text).None? ==> r == s
    ensures ParseTriggerTime(text).Some? ==>
      r == s.(triggerHour := ParseTriggerTime(text).value.hour, triggerMin := ParseTriggerTime(text).value.minute)
  {
    match ParseTriggerTime(text)
    case None => s
    case Some(t) => s.(triggerHour := t.hour, triggerMin := t.minute)
  }

  /** `SetTriggerFunc`: replace the function later timers will run; a pending timer keeps its own. */
  function SetTriggerFunc(s: TimerState, f: Callback): (r: TimerState)
    ensures r.triggerFunc == f
    ensures r.isArmed == s.isArmed && r.cancellableTimer == s.cancellableTimer
    ensures r.(triggerFunc := s.triggerFunc) == s
  {
    s.(triggerFunc := f)
  }

  /**
   * The pending timer fires: the wrapper built by SetTriggerFunc runs the
   * user function it captured, then calls `disarm`.
   */
  function Fire(s: TimerState): (r: TimerState)
    requires s.cancellableTimer.Some?
    ensures r.ran == s.ran + [s.cancellableTimer.value.action]
    ensures Inv(r) && !r.isArmed && r.cancellableTimer == None
    ensures r.stopped == s.stopped + [s.cancellableTimer.value]
    ensures SameSettings(r, s) && r.signals == s.signals
  {
    Disarm(s.(ran := s.ran + [s.cancellableTimer.value.action]))
  }

  // ---------------------------------------------------------------------
  // The two monitoring goroutines of NewCoffeeTimer, over finitely many edges
  // ---------------------------------------------------------------------

  /** One rising edge on the arm button: the wait that ended with it, and the clock when it is handled. */
  datatype ArmEdge = ArmEdge(elapsedNs: nat, now: int)

  function Waits(edges: seq<ArmEdge>): (w: seq<nat>)
    ensures |w| == |edges| && forall i :: 0 <= i < |edges| ==> w[i] == edges[i].elapsedNs
  {
    seq(|edges|, i requires 0 <= i < |edges| => edges[i].elapsedNs)
  }

  /** The arm-button loop: every confirmed edge toggles the armed status. */
  function ArmButtonLoop(s: TimerState, hw: TimerHardware, edges: seq<ArmEdge>): (r: TimerState)
    ensures Inv(s) ==> Inv(r)
    ensures SameSettings(r, s) && r.ran == s.ran
    ensures |r.signals| >= |s.signals|
    decreases |edges|
  {
    if edges == [] then s
    else
      var before := ArmButtonLoop(s, hw, edges[..|edges| - 1]);
      var e := edges[|edges| - 1];
      if IsConfirmedPress(e.elapsedNs, hw.buttonPressLengthMs)
      then ToggleArmedStatus(before, hw, e.now)
      else before
  }

  /** The check-status loop: every confirmed edge shows the status. */
  function CheckStatusLoop(s: TimerState, hw: TimerHardware, elapsed: seq<nat>): (r: TimerState)
    ensures r.(signals := s.signals) == s
    ensures |r.signals| >= |s.signals|
    decreases |elapsed|
  {
    if elapsed == [] then s
    else
      var before := CheckStatusLoop(s, hw, elapsed[..|elapsed| - 1]);
      if IsConfirmedPress(elapsed[|elapsed| - 1], hw.buttonPressLengthMs)
      then ShowArmedStatus(before, hw)
      else before
  }

  /**
   * The LED pulses of `n` toggles starting from status `armed0`: the k-th
   * toggle leaves the status flipped k times and pulses that status's LED.
   */
  function TogglePulses(hw: TimerHardware, armed0: bool, n: nat): seq<Signal> {
    if n == 0 then []
    else TogglePulses(hw, armed0, n - 1) + Pulse(StatusLed(hw, armed0 != (n % 2 == 1)), hw.buttonPressLengthMs)
  }

  /** `n` copies of `pulse`, back to back. */
  function Repeat(pulse: seq<Signal>, n: nat): seq<Signal> {
    if n == 0 then [] else Repeat(pulse, n - 1) + pulse
  }

  // ---------------------------------------------------------------------
  // Properties
  // ---------------------------------------------------------------------

  /** Arming an in-range trigger time schedules the fire within the coming 24 hours, never in the past. */
  lemma ArmSchedulesWithinADay(s: TimerState, now: int)
    requires 0 <= s.triggerHour < 24 && 0 <= s.triggerMin < 60
    ensures var fireAt := Arm(s, now).cancellableTimer.value.fireAt;
      now <= fireAt < now + SecondsPerDay
  {
    NextFireInWindow(now, s.triggerHour, s.triggerMin);
  }

  /** Disarming twice has the effect of disarming once. */
  lemma DisarmIdempotent(s: TimerState)
    ensures Disarm(Disarm(s)) == Disarm(s)
  {
  }

  /** Re-arming an armed timer stops the old timer and leaves exactly one, freshly computed. */
  lemma RearmReplacesTimer(s: TimerState, now1: int, now2: int)
    ensures var a := Arm(s, now1); var b := Arm(a, now2);
      && b.stopped == a.stopped + [a.cancellableTimer.value]
      && b.cancellableTimer == Some(PendingTimer(NextFireInstant(now2, s.triggerHour, s.triggerMin), s.triggerFunc))
  {
  }

  /** A SetTriggerFunc after arming does not change what the pending timer runs. */
  lemma PendingTimerKeepsCapturedAction(s: TimerState, now: int, g: Callback)
    ensures Fire(SetTriggerFunc(Arm(s, now), g)).ran == s.ran + [s.triggerFunc]
  {
  }

  /** A rejected trigger time leaves the whole state, the arm state included, as it was. */
  lemma RejectedTriggerTimeChangesNothing(s: TimerState, text: string)
    requires Count(text, ':') != 1
    ensures SetTriggerTime(s, text) == s
  {
    RejectsWrongFieldCount(text);
  }

  /**
   * After the arm-button loop the timer is armed exactly when it was armed
   * before an even number of presses was confirmed, or disarmed before an
   * odd number; each confirmed press pulsed the LED of the status it
   * toggled to, and the settings and the fired functions are untouched.
   */
  lemma {:induction false} ArmButtonLoopParity(s: TimerState, hw: TimerHardware, edges: seq<ArmEdge>)
    requires Inv(s)
    ensures var r := ArmButtonLoop(s, hw, edges);
      var n := ConfirmedCount(Waits(edges), hw.buttonPressLengthMs);
      && Inv(r)
      && r.isArmed == (s.isArmed != (n % 2 == 1))
      && r.signals == s.signals + TogglePulses(hw, s.isArmed, n)
      && SameSettings(r, s) && r.ran == s.ran
    decreases |edges|
  {
    if edges != [] {
      var init := edges[..|edges| - 1];
      ArmButtonLoopParity(s, hw, init);
      assert Waits(edges)[..|edges| - 1] == Waits(init);
    }
  }

  /** The check-status loop only pulses the LED of the current status, once per confirmed press. */
  lemma {:induction false} CheckStatusLoopOnlyPulses(s: TimerState, hw: TimerHardware, elapsed: seq<nat>)
    ensures CheckStatusLoop(s, hw, elapsed)
      == s.(signals := s.signals
              + Repeat(Pulse(StatusLed(hw, s.isArmed), hw.buttonPressLengthMs),
                       ConfirmedCount(elapsed, hw.buttonPressLengthMs)))
    decreases |elapsed|
  {
    if elapsed != [] {
      CheckStatusLoopOnlyPulses(s, hw, elapsed[..|elapsed| - 1]);
    }
  }
}
