# Thermal fan controller — verified model of the decision logic

This project models, in Dafny, the control core of an Arduino thermal fan
controller: every control cycle it samples a TMP36 temperature sensor three
times and keeps the median, maps a potentiometer reading onto a setpoint,
validates both values against safety limits, and drives a motor through PWM
with a two-speed, hold-time-gated hysteresis controller.

Modules (one per component, all constants from `config.h`):

- `Config` (`config.dfy`): the constants (`HOLD_MS = 2000`, `PWM_LOW = 100`,
  `PWM_HIGH = 250`, `MAX_OVER_RATIO = 0.15`, setpoint range 15..35, safe
  temperature range 0..50, `V_REF`, `ADC_STEPS`) and the fixed-width types:
  `Millis` (a 32-bit `unsigned long`), `Byte` (`uint8_t`), `AdcValue` (0..1023).
- `Logging` (`logging.dfy`): the diagnostic sink. A log entry is an abstract
  `Event` carrying the values the message would print; `EventLog` is the
  append-only log that the setpoint tracker and the motor controller append
  to; the range guard instead returns its one diagnostic with its verdict.
- `Sampler` (`sampler.dfy`): `median3` and `readTemperatureC`, with the three
  ADC readings as parameters.
- `Setpoint` (`setpoint.dfy`): Arduino's integer `map` with C's truncating
  division, the dial-to-setpoint mapping, and `readSetpointC`'s change tracker,
  both as a pure step function (`Track`, run over a reading sequence by
  `TrackAll`) and as the class `SetpointTracker` whose fields are the
  function's `static` locals `seeded` and `lastSetC`.
- `Safety` (`safety.dfy`): `checkRanges`, a pure function over readings that
  may be NaN, returning the verdict and the one diagnostic it logs.
- `Motor` (`motor.dfy`): `updateMotorTwoSpeed`, as a pure step function
  (`Step`, composed of the three blocks of the source: the ON condition, the OFF
  condition, the PWM decision), its iteration over a sequence of cycles (`Run`),
  and the class `MotorController` whose fields are the function's `static`
  locals `on`, `curPwm`, `overTiming`, `overStart`, `underTiming`, `underStart`;
  its method is proved to do exactly what `Step` describes. `millis()` is the
  parameter `now`; durations are `now - start` modulo 2^32.

Where the documentation and the code differ, the model follows the code: the
comment at `utils.h:67` speaks of a 1 s hold time, but `config.h:13` sets
`HOLD_MS` to 2000 ms, and the model uses 2000.

## Model

| member | source | states |
|---|---|---|
| `Sampler.Median3` | 2_Full_Project_v0/utils.h:10-14 | the result is one of the three readings, lies between their minimum and maximum (all-equal and two-equal cases included), and equals their sum minus the two extremes |
| `Sampler.Median3Symmetric` | 2_Full_Project_v0/utils.h:2-14 | the median is the same under all six orderings of the readings |
| `Sampler.Median3IgnoresSingleSpike` | 2_Full_Project_v0/utils.h:10-14 | when two readings agree, a third outlying reading never changes the result |
| `Sampler.CelsiusMonotonic` | 2_Full_Project_v0/utils.h:32-33 | the TMP36 conversion never maps a larger ADC count to a lower temperature; 0 reads -50 C and 1023 reads 450 C |
| `Sampler.Celsius` | 2_Full_Project_v0/utils.h:32-33 | the ADC reading stands for a sensor voltage of 0.5 V plus 10 mV per degree of the returned temperature (5 V reference over 1023 steps) |
| `Sampler.ReadTemperatureC` | 2_Full_Project_v0/utils.h:26-34 | the temperature is the conversion of the median reading (the sum minus the two extremes), so when two readings agree a spike in the third is discarded; it is bounded by the conversions of the smallest and largest reading and lies within the sensor's -50..450 C scale |
| `Setpoint.TruncDiv` | 2_Full_Project_v0/utils.h:47 | the quotient used by `map` has magnitude floor(abs a / abs b) and the sign of a times b, i.e. truncates toward zero |
| `Setpoint.ArduinoMap` | 2_Full_Project_v0/utils.h:47 | `map` is linear with the quotient truncated toward zero: (y - outMin) is (x - inMin)(outMax - outMin)/(inMax - inMin) rounded down when that product is non-negative and rounded up when it is negative; the ends of the input range go to the ends of the output range and every input between them stays within it |
| `Setpoint.DialToSetpoint` | 2_Full_Project_v0/utils.h:46-47 | every dial reading 0..1023 maps into [15, 35]; the setpoint is 15 plus raw*20/1023 rounded down, so 0 maps to 15 and 35 is reached only at raw 1023 (1022 gives 34) |
| `Setpoint.DialMonotonic` | 2_Full_Project_v0/utils.h:47 | the mapping is monotonic non-decreasing in the dial reading |
| `Setpoint.DialReachesEverySetpoint` | 2_Full_Project_v0/utils.h:40-47 | every whole degree in [15, 35] is selected by some dial reading |
| `Setpoint.Track` | 2_Full_Project_v0/utils.h:45-63 | one call returns the mapped setpoint and afterwards is seeded with `lastSetC` equal to it; it logs at most one event, and logs one exactly when it was already seeded and the mapped value differs from `lastSetC`, the event carrying the old and new values |
| `Setpoint.TrackAll` | 2_Full_Project_v0/utils.h:45-63 | successive calls leave the tracker seeded with `lastSetC` equal to the last reading's setpoint, log at most one entry per reading, and fewer entries than readings when the tracker starts unseeded |
| `Setpoint.TrackAllSeeded` | 2_Full_Project_v0/utils.h:49-60 | after seeding, a sequence of readings logs exactly one change per consecutive pair of differing mapped setpoints, and ends with `lastSetC` equal to the last mapped value |
| `Setpoint.TrackAllFromStart` | 2_Full_Project_v0/utils.h:49-60 | from power-up the first reading is never reported, and thereafter exactly the transitions between distinct consecutive mapped values are |
| `Setpoint.SetpointTracker.constructor` | 2_Full_Project_v0/utils.h:49-50 | the tracker starts unseeded with `lastSetC = -1` |
| `Setpoint.SetpointTracker.ReadSetpointC` | 2_Full_Project_v0/utils.h:45-63 | the fields, the returned setpoint and the appended log entries are those `Track` gives for the old state |
| `Safety.CheckRanges` | 2_Full_Project_v0/safety.h:13-31 | accepts if and only if neither value is NaN, 0 <= tC <= 50 and 15 <= setC <= 35 (inclusive bounds); on rejection reports exactly one ERROR-level diagnostic, the first failing check in the order temperature NaN, setpoint NaN, temperature range, setpoint range (a NaN temperature is reported whatever the setpoint) |
| `Safety.Verdict.Logged` | 2_Full_Project_v0/safety.h:14-30 | the guard writes exactly one entry, its diagnostic, when it rejects and none when it accepts |
| `Safety.DialSetpointPassesGuard` | 2_Full_Project_v0/safety.h:26-29 | with a setpoint the dial selects, the guard never reports a setpoint fault and accepts exactly the temperatures in the safe range |
| `Motor.Elapsed` | 2_Full_Project_v0/utils.h:89-103 | `now - start` on 32-bit unsigned values is the forward distance from `start` to `now` on the wrapping clock, and the plain difference when no wrap occurred |
| `Motor.ElapsedAcrossWrap` | 2_Full_Project_v0/utils.h:89 | the unsigned 32-bit subtraction recovers any duration d < 2^32 across a wrap of `millis()` |
| `Motor.OverPhase` | 2_Full_Project_v0/utils.h:83-95 | the over-timer runs exactly when tC > setC, keeping its start if it was already running and starting now otherwise; the motor ends up on if it was on or the running over-timer has reached `HOLD_MS`, logging ON exactly when it switched; duty cycle and under-timer are untouched |
| `Motor.UnderPhase` | 2_Full_Project_v0/utils.h:97-109 | the under-timer runs exactly when tC < setC, keeping or starting its start likewise; the motor stays on unless the running under-timer has reached `HOLD_MS`, logging OFF exactly when it switched; duty cycle and over-timer are untouched |
| `Motor.ApplyPhase` | 2_Full_Project_v0/utils.h:111-124 | the new duty cycle is 0, `PWM_LOW` or `PWM_HIGH`, 0 exactly when off, `PWM_HIGH` while on exactly when tC >= setC*(1+`MAX_OVER_RATIO`); one PWM entry is logged exactly when it changes, and nothing else in the state changes |
| `Motor.Step` | 2_Full_Project_v0/utils.h:74-130 | after every call the duty cycle is 0, `PWM_LOW` or `PWM_HIGH`, is 0 exactly when off, and the two timers are never both running; the motor turns on if and only if it was off, tC > setC and an over-timer started in an earlier call has run at least `HOLD_MS`, and off symmetrically with tC < setC; a call with tC <= setC clears the over-timer (tC >= setC the under-timer) and a running timer keeps its start; while on, the duty cycle is `PWM_HIGH` exactly when tC >= setC*(1+`MAX_OVER_RATIO`), with no hold time; the log gets one ON or OFF entry per transition and one PWM entry exactly when the duty cycle changes |
| `Motor.Run` | 2_Full_Project_v0/utils.h:74-130 | successive calls return one duty cycle per call, the last being the final state's, and leave a consistent state |
| `Motor.StaysOffDuringHold` | 2_Full_Project_v0/utils.h:83-95 | while tC > setC has held for less than `HOLD_MS` since the over-timer started, the motor stays off, returns 0 and logs nothing, and the timer keeps its start |
| `Motor.TurnsOnAfterHold` | 2_Full_Project_v0/utils.h:83-124 | the first call at which that interval reaches `HOLD_MS` turns the motor on at the speed the threshold selects, logging ON and the PWM change from 0 |
| `Motor.StaysOnDuringHold` | 2_Full_Project_v0/utils.h:97-124 | while tC < setC has held for less than `HOLD_MS` since the under-timer started, the motor keeps running with a non-zero duty cycle and logs no ON or OFF |
| `Motor.TurnsOffAfterHold` | 2_Full_Project_v0/utils.h:97-124 | the first call at which that interval reaches `HOLD_MS` turns the motor off, logging OFF and the PWM change to 0 |
| `Motor.UnderInterruptionRestartsHold` | 2_Full_Project_v0/utils.h:97-109 | one call with tC >= setC resets the OFF countdown: the motor then keeps running through a whole new under-interval shorter than `HOLD_MS` |
| `Motor.OverInterruptionRestartsHold` | 2_Full_Project_v0/utils.h:83-95 | one call with tC <= setC resets the ON countdown: the motor then stays off, logging nothing, through a whole new over-interval shorter than `HOLD_MS` |
| `Motor.HoldAcrossClockWrap` | 2_Full_Project_v0/utils.h:85-91 | an over-interval starting 1000 ms before `millis()` wraps turns the motor on at 1000 ms after the wrap, not before |
| `Motor.SettledIsQuiet` | 2_Full_Project_v0/utils.h:111-129 | once no transition is pending and the speed matches the inputs, repeating the same readings at any times logs nothing and returns the same duty cycle every time |
| `Motor.MotorController.constructor` | 2_Full_Project_v0/utils.h:75-80 | starts off, at duty cycle 0, with both timers idle |
| `Motor.MotorController.UpdateMotorTwoSpeed` | 2_Full_Project_v0/utils.h:74-130 | the new fields, the returned duty cycle and the appended log entries are those `Step` gives for the old fields; the LED level is on exactly when the motor is |
| `Logging.Event.Level` | 2_Full_Project_v0/utils.h:58-122 | the setpoint change, motor on, motor off and PWM change entries (utils.h lines 58, 91, 105, 122) are at INFO level, and exactly the range guard's four diagnostics (safety.h lines 15, 19, 23, 27) are at ERROR |
| `Logging.EventLog.Emit` | 2_Full_Project_v0/logging.h:24-31 | one call appends exactly one entry to the log |

## Left out

- Hardware calls `analogRead`, `analogWrite`, `digitalWrite` and `millis()`: readings and the time are parameters; the motor duty cycle and the LED level are return values.
- Serial output and message formatting (`logMessage`, `levelToStr`, `snprintf`): log entries are abstract events carrying their values and a level. The `LOGGING_ACTIVE` switch is not modelled; it is the constant `true`, so every call logs.
- Floating point: temperatures, the setpoint threshold `setC * (1 + MAX_OVER_RATIO)` and the TMP36 conversion are exact `real` arithmetic; float rounding (including `0.15f` not being exactly 0.15) is not captured.
- Motor.Step: the controller takes non-NaN temperatures. Both producers of its inputs (`readTemperatureC`, `readSetpointC`) compute finite values, and NaN is modelled only where the source tests for it, in `checkRanges`.
- Setpoint.ArduinoMap: the 32-bit `long` overflow of Arduino's `map` is not modelled; for dial readings 0..1023 the intermediate product stays below 21000.
- The sketch's `setup` and main loop (which call these functions, and which the comment at `utils.h:54` refers to) are not part of this model.
