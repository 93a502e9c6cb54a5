# coffeepixie timer core, modelled in Dafny

coffeepixie drives a Nespresso machine from a Raspberry Pi. At a configured `hh:mm` the
machine brews once, and two push buttons plus two LEDs arm, disarm and show the
schedule. This project models the part of the Go package `coffee` that makes decisions:

- **src/coffee/coffeeTimer.go**
  - the `coffeeTimer` struct's arm/disarm state machine, with its single cancellable timer;
  - the next-occurrence computation in `arm`;
  - the `hh:mm` parser of `SetTriggerTime`;
  - the fire-then-disarm wrapper of `SetTriggerFunc`;
  - the status pulse of `showArmedStatus`;
  - the two button-monitoring goroutines of `NewCoffeeTimer`.
- **src/coffee/raspi.go**
  - `getGPIOByNumber`'s "negative means not configured" rule;
  - which monitoring goroutines `NewRaspi` starts;
  - the debounce decision in those goroutines;
  - the handler setters;
  - the LED choice of `ActivateArmedStatusLED`.

Layout, one module per concern:

| file | module | contents |
|---|---|---|
| `wrappers.dfy` | `Wrappers` | `Option`, standing in for nil pointers and `(value, err)` returns |
| `gostrings.dfy` | `GoStrings` | Go's `strings.Split` and `strconv.Atoi`, with `Itoa` as Atoi's inverse |
| `triggertime.dfy` | `TriggerTime` | the `hh:mm` parser and the `%d:%02d` rendering |
| `schedule.dfy` | `Schedule` | the next fire instant; time is integer seconds of local time |
| `debounce.dfy` | `Debounce` | the "elapsed wait strictly longer than the threshold" rule, and press counts |
| `hardware.dfy` | `Hardware` | LED signal traces and Go `func()` values as tokens |
| `timerspec.dfy` | `TimerSpec` | the timer's abstract state, its transitions as functions, and their properties |
| `timer.dfy` | `Timer` | the `coffeeTimer` struct as class `CoffeeTimer`; each method updates the fields in place and is proved equal to its `TimerSpec` transition |
| `raspi.dfy` | `Raspi` | the `raspberrypi` struct as class `Raspberrypi`, the monitoring goroutine body, and the status-LED selection |

The timer state records the struct's fields. It also records what the outside world
observes, in order:
- the timers `Stop` was called on;
- the user functions that fired timers ran;
- the writes to the status LEDs.

The struct invariant is "armed exactly when a timer is pending" (`TimerSpec.Inv`). The
initial state satisfies it, and every transition keeps it.

Behaviour of the code worth knowing, all of it modelled as written:
- **Trigger-time format.** `SetTriggerTime` accepts exactly two fields. `hh:mm:ss` is
  rejected, and so is a three-field time in the `3:04:05` layout, as coffeeTimer_test.go:18 builds. Setting a time
  or a function while armed does not rearm.
- **Exact-instant case.** `arm` adds a day only when today's instant is strictly before
  `now`. Arming at exactly the trigger instant fires at once. The model counts time in
  whole seconds, so see the `Schedule.NextFireInstant` line under "Left out" for how a
  sub-second `now` differs.
- **Threshold boundary.** A button edge counts only when the wait is strictly longer than
  the threshold. A wait equal to the threshold is discarded.
- **Status hold time.** `showArmedStatus` holds the LED for `buttonPressLengthMs`
  (300 ms). The struct's `showStatusLengthMs` (2000 ms) is never read.
- **Return value.** `SetTriggerTime` returns nothing. Rejection is seen only as the
  unchanged state.

## Model

| member | source | states |
|---|---|---|
| `GoStrings.Split` | src/coffee/coffeeTimer.go:179 | `strings.Split` on `:`: always at least one field; pinned down by SplitLength, SplitFieldsSepFree and SplitJoin |
| `GoStrings.SplitLength` | src/coffee/coffeeTimer.go:179-180 | splitting on `:` yields one field more than there are colons |
| `GoStrings.SplitFieldsSepFree` | src/coffee/coffeeTimer.go:179 | no field produced by the split contains a colon |
| `GoStrings.SplitJoin` | src/coffee/coffeeTimer.go:179 | joining the fields with `:` gives back the original text |
| `GoStrings.SplitTwoFields` | src/coffee/coffeeTimer.go:179-180 | `a:b` with colon-free `a` and `b` splits into exactly the two fields `a`, `b` |
| `GoStrings.SplitTwoFieldsInverse` | src/coffee/coffeeTimer.go:179-180 | a two-field split means the text is `field0:field1` with colon-free fields |
| `GoStrings.NatDigits` | src/coffee/coffeeTimer.go:182 | `%d` prints a non-empty run of decimal digits for a natural number |
| `GoStrings.NatDigitsValue` | src/coffee/coffeeTimer.go:186 | Atoi's digit value of the printed digits is the number itself |
| `GoStrings.Atoi` | src/coffee/coffeeTimer.go:186-193 | `strconv.Atoi`: an accepted text is non-empty, a negative value needs a leading `-`, a `-` never gives a positive value, and unsigned text starts with a digit; pinned down by AtoiAcceptsIntLiterals and AtoiItoa |
| `GoStrings.Itoa` | src/coffee/coffeeTimer.go:200 | the `%d` rendering is non-empty and starts with `-` exactly for negative numbers; AtoiItoa makes it Atoi's inverse |
| `GoStrings.AtoiAcceptsIntLiterals` | src/coffee/coffeeTimer.go:186 | `strconv.Atoi` succeeds exactly on an optional sign followed by one or more decimal digits |
| `GoStrings.AtoiItoa` | src/coffee/coffeeTimer.go:186 | `strconv.Atoi` reads back every integer `%d` prints, negative ones included |
| `GoStrings.DigitsValueZeroPrefix` | src/coffee/coffeeTimer.go:193 | a leading zero (as in `05`) does not change the parsed value |
| `GoStrings.CountZero` | src/coffee/coffeeTimer.go:180 | text has no colon exactly when its colon count is zero |
| `GoStrings.CountAppend` | src/coffee/coffeeTimer.go:180 | the colon count of a concatenation is the sum of the counts |
| `GoStrings.SplitNoSep` | src/coffee/coffeeTimer.go:179 | colon-free text splits into the single field it is |
| `GoStrings.SplitAppendChar` | src/coffee/coffeeTimer.go:179 | appending one non-colon character extends only the last field |
| `GoStrings.SplitAppendPlain` | src/coffee/coffeeTimer.go:179 | appending colon-free text extends only the last field |
| `GoStrings.SplitAppendSep` | src/coffee/coffeeTimer.go:179 | appending a colon adds one empty trailing field |
| `TriggerTime.ParseTriggerTime` | src/coffee/coffeeTimer.go:179-198 | split on `:`, exactly two fields, Atoi each, `None` on any failure; an accepted text has exactly one colon; pinned down by RejectsWrongFieldCount, ParsesTwoFields and AcceptedTextShape |
| `TriggerTime.Pad2` | src/coffee/coffeeTimer.go:200 | `%02d`: two characters for 0..99, a leading `-` exactly for negatives; AtoiPad2 reads it back |
| `TriggerTime.FormatTriggerTime` | src/coffee/coffeeTimer.go:200 | `%d:%02d` has exactly one colon; ParseFormatRoundTrip makes the parser its left inverse |
| `TriggerTime.RejectsWrongFieldCount` | src/coffee/coffeeTimer.go:179-184 | text with no colon or with two or more colons is rejected |
| `TriggerTime.ParsesTwoFields` | src/coffee/coffeeTimer.go:179-202 | `a:b` is accepted exactly when Atoi accepts both parts, and yields their values as hour and minute |
| `TriggerTime.AcceptedTextShape` | src/coffee/coffeeTimer.go:179-202 | every accepted text has exactly one colon and is parsed from its two sides, so the two lemmas above are the whole parser |
| `TriggerTime.ParseFormatRoundTrip` | src/coffee/coffeeTimer.go:200 | parsing what `%d:%02d` prints gives back the same hour and minute, for all integers |
| `TriggerTime.AcceptsDefault` | src/coffee/coffeeTimer.go:27 | the default `8:30` parses to 8 h 30 min |
| `TriggerTime.AcceptsPaddedMinute` | src/coffee/coffeeTimer.go:193 | a zero-padded minute `7:05` parses to 7 h 5 min |
| `Timer.DefaultConfigTriggersAt830` | src/coffee/coffeeTimer.go:22-28 | a timer built from `CoffeeTimerConfigDefaults` starts disarmed, set for 8:30, with the empty function |
| `TriggerTime.RejectsExamples` | src/coffee/coffeeTimer.go:180-198 | `abc`, `12`, `3:04:05` and `8:` are all rejected |
| `Schedule.NextFireInstant` | src/coffee/coffeeTimer.go:136-139 | the fire instant reads the trigger clock time today or tomorrow, and is never before `now` when the clock offset is non-negative; pinned down by NextFireInWindow, NextFireIsEarliest and FiresAtOnceWhenExactlyDue |
| `Schedule.DayStartBounds` | src/coffee/coffeeTimer.go:136 | the day start is a midnight, at most 24 hours before `now` |
| `Schedule.NextFireInWindow` | src/coffee/coffeeTimer.go:134-139 | for 0 ≤ hour < 24 and 0 ≤ minute < 60 the fire instant reads `hour:minute:00` and lies in [now, now + 24 h) |
| `Schedule.NextFireIsEarliest` | src/coffee/coffeeTimer.go:136-139 | for an in-range time no instant at or after `now` reading `hour:minute:00` precedes the fire instant, so it is the next occurrence |
| `Schedule.FiresAtOnceWhenExactlyDue` | src/coffee/coffeeTimer.go:137 | arming exactly at the trigger instant schedules that same instant, not tomorrow (time in whole seconds; see `Schedule.NextFireInstant` under Left out) |
| `TimerSpec.Initial` | src/coffee/coffeeTimer.go:63 | the new struct is disarmed with no timer, so the invariant holds at the start |
| `TimerSpec.Disarm` | src/coffee/coffeeTimer.go:146-156 | afterwards there is no timer and the timer is disarmed; the pending timer, if any, was stopped; nothing else changes |
| `TimerSpec.Arm` | src/coffee/coffeeTimer.go:127-144 | afterwards it is armed with exactly one timer, for the next occurrence and carrying the function set now; a previous timer was stopped first |
| `TimerSpec.StatusLed` | src/coffee/coffeeTimer.go:104-111 | the armed LED when armed, the disarmed LED otherwise |
| `TimerSpec.ShowArmedStatus` | src/coffee/coffeeTimer.go:102-125 | pulses the armed LED when armed and the disarmed LED otherwise, High then Low; nothing else changes |
| `TimerSpec.ToggleArmedStatus` | src/coffee/coffeeTimer.go:158-168 | flips the armed status, keeps the invariant, then pulses the LED of the new status |
| `TimerSpec.SetTriggerTime` | src/coffee/coffeeTimer.go:175-204 | a parsed time replaces the hour and minute; a rejected text changes nothing; the arm state and the timer are never touched |
| `TimerSpec.SetTriggerFunc` | src/coffee/coffeeTimer.go:206-217 | replaces the trigger function only, leaving the arm state and the pending timer alone |
| `TimerSpec.Fire` | src/coffee/coffeeTimer.go:209-213 | runs the timer's captured user function once, then leaves it disarmed with no timer |
| `TimerSpec.ArmSchedulesWithinADay` | src/coffee/coffeeTimer.go:134-140 | arming an in-range time schedules the fire no earlier than `now` and less than 24 h later |
| `TimerSpec.DisarmIdempotent` | src/coffee/coffeeTimer.go:146-156 | disarming twice has the effect of disarming once |
| `TimerSpec.RearmReplacesTimer` | src/coffee/coffeeTimer.go:129-142 | arming an armed timer stops the old timer and leaves one new timer for the new `now` |
| `TimerSpec.PendingTimerKeepsCapturedAction` | src/coffee/coffeeTimer.go:140 | a SetTriggerFunc after arming does not change what the pending timer runs |
| `TimerSpec.RejectedTriggerTimeChangesNothing` | src/coffee/coffeeTimer.go:180-184 | a text without exactly one colon leaves the whole state as it was |
| `TimerSpec.ArmButtonLoop` | src/coffee/coffeeTimer.go:85-97 | the arm-button goroutine over finitely many edges keeps the invariant, never changes the trigger time, the function or what has fired, and only appends LED writes; ArmButtonLoopParity gives its exact result |
| `TimerSpec.CheckStatusLoop` | src/coffee/coffeeTimer.go:68-83 | the check-status goroutine over finitely many edges changes nothing but the LED trace; CheckStatusLoopOnlyPulses gives that trace |
| `TimerSpec.ArmButtonLoopParity` | src/coffee/coffeeTimer.go:85-97 | after the arm-button loop the armed status is the old status flipped once per confirmed press; the invariant holds; the trace gains exactly one LED pulse per confirmed press, the k-th on the LED of the status after k toggles (`TogglePulses`); settings and fired functions are untouched |
| `TimerSpec.CheckStatusLoopOnlyPulses` | src/coffee/coffeeTimer.go:68-83 | the check-status loop changes nothing but the LED trace: one pulse of the current status per confirmed press |
| `Timer.CoffeeTimer.constructor` | src/coffee/coffeeTimer.go:39-66 | a new timer is disarmed with no timer; its trigger time is the configured one, or 0:00 when that does not parse; its function is the empty one |
| `Timer.CoffeeTimer.IsArmed` | src/coffee/coffeeTimer.go:170-172 | reports true exactly when a timer is pending |
| `Timer.CoffeeTimer.Disarm` | src/coffee/coffeeTimer.go:146-156 | the in-place `disarm` equals `TimerSpec.Disarm` and restores the invariant |
| `Timer.CoffeeTimer.Arm` | src/coffee/coffeeTimer.go:127-144 | the in-place `arm`, which calls `disarm` first when a timer exists, equals `TimerSpec.Arm` |
| `Timer.CoffeeTimer.ShowArmedStatus` | src/coffee/coffeeTimer.go:102-125 | the LED writes equal `TimerSpec.ShowArmedStatus` |
| `Timer.CoffeeTimer.ToggleArmedStatus` | src/coffee/coffeeTimer.go:158-168 | flips `isArmed`, keeps the invariant, and equals `TimerSpec.ToggleArmedStatus` |
| `Timer.CoffeeTimer.SetTriggerTime` | src/coffee/coffeeTimer.go:175-204 | the early-return field checks equal `TimerSpec.SetTriggerTime` and touch only the hour and minute |
| `Timer.CoffeeTimer.SetTriggerFunc` | src/coffee/coffeeTimer.go:206-217 | touches only the trigger function |
| `Timer.CoffeeTimer.Fire` | src/coffee/coffeeTimer.go:209-213 | the wrapper's "run `f`, then `disarm`" equals `TimerSpec.Fire` |
| `Timer.CoffeeTimer.MonitorArmButton` | src/coffee/coffeeTimer.go:85-97 | the loop keeps the invariant and equals `TimerSpec.ArmButtonLoop` over the given edges |
| `Timer.CoffeeTimer.MonitorCheckStatusButton` | src/coffee/coffeeTimer.go:68-83 | the loop equals `TimerSpec.CheckStatusLoop` over the given edges |
| `Debounce.IsConfirmedPress` | src/coffee/raspi.go:99-123 | a wait confirms a press only when strictly longer than the threshold: never at or below a non-negative threshold, always for a negative one, and a zero wait only for a negative one; ThresholdIsExclusive shows the boundary; coffeeTimer.go:76 and 92 make the same test |
| `Debounce.ConfirmedCount` | src/coffee/coffeeTimer.go:76-93 | the number of confirmed presses never exceeds the number of edges, and equals it for a negative threshold; ConfirmedCountIsPositionCount ties it to the set of confirming positions |
| `Debounce.ThresholdIsExclusive` | src/coffee/raspi.go:99 | a wait of exactly the threshold is discarded; one nanosecond more is a press |
| `Debounce.ConfirmationIsMonotone` | src/coffee/raspi.go:123 | a longer wait never turns a press into noise |
| `Debounce.ConfirmedCountIsPositionCount` | src/coffee/raspi.go:93-106 | the press count equals the number of positions whose wait exceeds the threshold |
| `Debounce.ConfirmedCountAppend` | src/coffee/raspi.go:118-127 | press counts add up over consecutive runs of edges |
| `Debounce.ConfirmedCountAntitone` | src/coffee/raspi.go:99 | raising the threshold never confirms more edges, and no more than there are edges |
| `Debounce.ZeroThresholdConfirmsEveryWait` | src/coffee/raspi.go:99 | with threshold 0 every edge after a non-zero wait is a press |
| `Raspi.GetGpioByNumber` | src/coffee/raspi.go:235-238 | negative pin numbers give "not configured"; any other number names its own line |
| `Raspi.MonitoredLines` | src/coffee/raspi.go:86-111 | a monitoring goroutine exists for a button exactly when its line is configured |
| `Raspi.StatusLed` | src/coffee/raspi.go:182-189 | the armed LED when armed, the disarmed LED otherwise |
| `Raspi.StatusPulseAsWritten` | src/coffee/raspi.go:180-204 | as written: panics exactly when the chosen LED is nil, and otherwise drives it High, sleeps, drives it Low |
| `Raspi.StatusPulse` | src/coffee/raspi.go:180-204 | pulses the armed LED when armed and the disarmed LED otherwise, High then Low, or writes nothing for an unconfigured LED; agrees with the code wherever the code does not panic |
| `Raspi.StatusPulsePanicsWithoutLeds` | src/coffee/raspi.go:191-195 | as written, a status pulse under NoRaspiInUseConfig reaches `Out` on a nil pin |
| `Raspi.Raspberrypi.constructor` | src/coffee/raspi.go:67-83 | every line comes from getGPIOByNumber, and both handlers start as the empty function |
| `Raspi.Raspberrypi.Clone` | src/coffee/raspi.go:131 | returning the struct copies every field |
| `Raspi.Raspberrypi.SetShowArmedStatusFunc` | src/coffee/raspi.go:206-208 | replaces the check-status handler and nothing else |
| `Raspi.Raspberrypi.SetToggleArmedStatusFunc` | src/coffee/raspi.go:210-212 | replaces the arm handler and nothing else |
| `Raspi.Raspberrypi.ActivateArmedStatusLED` | src/coffee/raspi.go:180-204 | its writes are `StatusPulse` of the struct's two LEDs. Corrected: a nil LED writes nothing; as written the code panics there (see Findings) |
| `Raspi.SetHandler` | src/main.go:52-53 | setting one line's handler installs it and leaves the other line's handler and the monitored lines unchanged (only the two handler fields may change) |
| `Raspi.MonitorsFor` | src/coffee/raspi.go:85-129 | one goroutine per configured button, with the configured threshold, bound to the given struct |
| `Raspi.RunMonitor` | src/coffee/raspi.go:93-106 | over a run of edges the line's own handler is called once per wait above the threshold and never otherwise |
| `Raspi.NewRaspiAsWritten` | src/coffee/raspi.go:59-132 | the goroutines read their handlers from a struct other than the returned one, and there the handlers are the empty function |
| `Raspi.NewRaspi` | src/coffee/raspi.go:81-83 | the corrected constructor binds the goroutines to the returned struct, whose handlers start empty |
| `Raspi.HandlerLostAsWritten` | src/coffee/raspi.go:100-101 | as written, after setting a handler on NewRaspi's result, every confirmed press still calls the empty function |
| `Raspi.HandlerReachesMonitor` | src/coffee/raspi.go:124 | corrected, every confirmed press calls the handler the caller set |
| `Raspi.ConfigurationsAndMonitors` | src/coffee/raspi.go:23-51 | defaults monitor both buttons; NoInputButtons and NoRaspiInUse monitor none |
| `Raspi.NoRaspiThresholdConfirmsEveryWait` | src/coffee/raspi.go:43-51 | under NoRaspiInUseConfig every edge after a non-zero wait is a press |

## Left out

- All periph.io hardware calls: `host.Init`, `gpioreg.ByName`, `In`, `Out`, `Read`, `WaitForEdge` and `Function`. They are foreign I/O. The model keeps only which line is chosen, plus a trace of LED writes and handler calls.
- The `log.Fatal` exits (for example when `gpioreg.ByName` finds no line) and all `log.*` output. They are process exits and diagnostics. The `%d:%02d` rendering those messages use for a trigger time is modelled (`TriggerTime.FormatTriggerTime`), as the parser's inverse, but the messages themselves are not.
- coffeeTimer.go looks its LEDs up with `gpioreg.ByName` and never checks the result. They are modelled as pin numbers, and a failed lookup is not modelled.
- Goroutines and concurrency. A timer firing can race a concurrent `disarm` or `arm`, and the code has no lock. Firing is modelled as one discrete event (`Fire`) that needs a pending timer. The event is not tied to the clock reaching `fireAt`.
- The endless monitoring loops. Each one runs over a finite sequence of edges.
- The internals of `time.AfterFunc` and `Stop`, and `time.Sleep`. A sleep is recorded as a `Sleep` signal.
- Time zones and daylight saving. The code itself calls DST behaviour unknown.
- Schedule.NextFireInstant: time is whole seconds. When the trigger second equals the current second, the sub-second part of `now` is ignored. Go would then see the trigger as already past and add a day; the model fires at once.
- GoStrings.Atoi: the range error for values outside a Go `int` is not modelled, because integers are unbounded here.
- Debounce.IsConfirmedPress: the `time.Duration` overflow of `thresholdMs * time.Millisecond` for huge thresholds is not modelled.
- Out-of-range hours and minutes follow `time.Date` normalisation: they carry over linearly in `ClockOffset`. The 24-hour bound is stated only for in-range values.
- Effects of the user's trigger function. It is a token; what it does, including calling back into the timer, is not modelled.
- `ActivateEspressoButton`, `ActivateLungoButton`, `Disconnect` (both files) and `logGPIOFunction`. They drive hardware with no decision of their own, except the missing nil check before `Out`, which this model does not cover.
- src/coffee/nespressoMachine.go: only button pulses with sleeps.
- src/main.go beyond the handler wiring in `SetHandler`: HTTP handling, templates, YAML configuration, signals and log rotation. Its calls to `NewCoffeeTimer(cfg, raspi)`, `Arm`, `Disarm`, `ShowArmedStatus`, `ToggleArmedStatus` and `GetTriggerTime` target a newer `coffeeTimer` API, which is not part of this model.
- src/coffee/coffeeTimer_test.go, which exercises that newer API. It also assigns `ct.cancellableTimer` directly.

## Findings

| source | as written | input that shows it | evidently intended | confidence | as-written member | corrected member |
|---|---|---|---|---|---|---|
| src/coffee/raspi.go:91-131 | the goroutines capture NewRaspi's local `rp`, and NewRaspi returns a copy of it, so the setters called on the result change a different struct | `RaspiConfigDefaults`, `SetToggleArmedStatusFunc(f)` on the result as src/main.go:53 does, then one arm-button edge after a 400 ms wait: the empty `func() {}` runs, not `f` | a confirmed press calls the handler the caller set (see the TODO at raspi.go:100) | high; not executed | `Raspi.HandlerLostAsWritten` | `Raspi.HandlerReachesMonitor` |
| src/coffee/raspi.go:191-195 | for an unconfigured LED it logs "skipping activation" and then calls `Out` on the nil pin | `ActivateArmedStatusLED(true, 2000, "8:30")` under `NoRaspiInUseConfig`, the configuration coffeeTimer_test.go:10 uses: `Out` on a nil interface panics | return after the log line and write nothing | high; not executed | `Raspi.StatusPulsePanicsWithoutLeds` | `Raspi.StatusPulse`, `Raspi.Raspberrypi.ActivateArmedStatusLED` |
