# Traffic-light controller: a Dafny model

This project models the controller logic of an Arduino traffic light (`src/main.cpp`). It covers four parts:

- **The state machine.** `updateTrafficLight` is called by the scheduler every 10 ms. It cycles red → yellow → green → blinking green → yellow → red. The phases last 2000, 500 and 2000 ms, then seven blink intervals of `1000 / 7` = 142 ms, then 500 ms.
- **The three button interrupt handlers.** They toggle the emergency, blink-all and power overrides.
- **The renderer `renderLEDs`.** It turns the overrides, the phase, the blink counter and the brightness into `setLED(red, yellow, green)` writes.
- **The brightness.** The potentiometer reading is scaled to a PWM level with `map(raw, 0, 1023, 0, 255)`.

Layout:

- `clock.dfy` (module `Clock`): `millis()` timestamps as 32-bit `unsigned long` values. `Elapsed` is the source's `now - lastStateChange`, computed modulo 2^32, so it stays correct when the clock wraps.
- `traffic_state.dfy` (module `TrafficState`): the phase enum, the durations and the mode flags (`Modes`). `Machine` holds the three state globals. `Tick` is the step function of one `updateTrafficLight` call, and its contract states the transition rules.
- `state_runs.dfy` (module `StateRuns`): `Run` folds `Tick` over a sequence of tick times while the flags stay fixed. Its lemmas cover several ticks: the cycle order, the invariant, and that the blink phase lasts exactly seven steps.
- `render.dfy` (module `Render`): the normal-mode mapping `PhaseLevels`, the blink-all timer with its `static prevTime`, and one full `renderLEDs` call, `RenderFrame`.
- `potentiometer.dfy` (module `Potentiometer`): the `map` scaling.
- `controller.dfy` (module `Controller`): class `TrafficController` holds the globals as fields. Its methods update them in place the way the source does. Each method is proved against the pure functions above. `Valid()` is preserved: the counter matches the phase, emergency and blink-all are never both on, and the brightness is in [0,255].
- `scenarios.dfy` (module `Scenarios`): concrete timelines. They cover the inclusive red boundary, the clock wrap, the frozen clock and one full cycle of 5994 ms.

Modelling choices:

- **Elapsed time.** It is computed with unsigned wrap-around, modulo 2^32. There is no `now >= lastStateChange` precondition.
- **Durations.** The duration globals are never reassigned, so they are constants here.
- **`blinkCounter`.** The source declares it as a 16-bit `int`. Its width is not modelled, because the invariant keeps it within [0,7].
- **Outputs as return values.** `Update` returns the `setLED` write that `updateTrafficLight` makes at each blink step. `Render` returns the writes of one `renderLEDs` call in order: for blink-all, all-on followed by all-off.
- **The clock and the ADC.** The `millis()` time and the `analogRead` value are passed in as parameters.
- **`prevTime`.** This `static` is `None` until the blink-all branch first runs. On that first pass it is initialised from the clock. So the first pass never flashes, and the static keeps its value after blink-all mode is left.

Behaviours of the code worth noting:

- **Frozen time counts.** While a mode flag freezes the machine, `updateTrafficLight` returns without touching `lastStateChange`, so time spent frozen counts towards the next transition: red since t = 0, powered off from 1000 to 5000, turns yellow at the first tick at 5000 (`Scenarios.FrozenTimeCounts`).
- **Readings are 10-bit samples.** The reading is taken as a 10-bit ADC sample (0..1023), the range `analogRead` returns; `map` is applied to it unclamped.
- **512 maps to 127.** `map` truncates, so a mid-scale reading gives brightness 127.

## Model

| member | source | states |
|---|---|---|
| Clock.Elapsed | src/main.cpp:158 | `now - lastStateChange` in unsigned-long arithmetic: the unique offset d < 2^32 with (since + d) mod 2^32 = now; it is the plain difference when now ≥ since |
| TrafficState.Next | src/main.cpp:154-209 | the cyclic successor of each phase; never the phase itself |
| TrafficState.Interval | src/main.cpp:53-56 | how long each phase waits before it acts (2000, 500, 2000, 142, 500 ms); always positive |
| TrafficState.Initial | src/main.cpp:47-60 | start-up state: red, timer at the start time, counter 0, which satisfies the machine invariant |
| TrafficState.Tick | src/main.cpp:146-210 | one `updateTrafficLight`: frozen flags change nothing; otherwise the state changes iff elapsed ≥ the phase's interval (inclusive), then the timer is set to now; at most one step along the cycle, a full step from every steady phase; counter reset only on entering GreenBlink, +1 per blink interval, else kept; GreenBlink left exactly when the counter reaches 7; the counter/phase invariant is preserved |
| StateRuns.Run | src/main.cpp:213 | repeated scheduler ticks under fixed flags: with a freezing flag nothing changes; the counter/phase invariant holds after any number of ticks |
| StateRuns.RunAppend | src/main.cpp:213 | running two batches of ticks equals running their concatenation |
| StateRuns.CycleLengthFive | src/main.cpp:38-44 | the phase cycle has length exactly five |
| StateRuns.RunFollowsCycle | src/main.cpp:154-209 | after any run the phase is the start phase advanced exactly as many cycle steps as there were phase-changing ticks (at most the number of ticks) |
| StateRuns.RunStepsOneAtATime | src/main.cpp:154-209 | over any run, each tick leaves the phase where it was or moves it to its successor: no phase is ever skipped |
| StateRuns.BlinkSteps | src/main.cpp:181-199 | in GreenBlink, each tick a full blink interval after the last adds exactly 1 to the counter and restarts the timer; the phase becomes Yellow2On exactly on the tick where the counter reaches 7 |
| StateRuns.GreenBlinkTakesSevenSteps | src/main.cpp:174-199 | from entry into GreenBlink (counter 0), paced ticks reach Yellow2On iff there have been exactly 7 of them; before that the phase stays GreenBlink |
| Potentiometer.Brightness | src/main.cpp:288 | `map(raw,0,1023,0,255)` lies in [0,255] and is the largest b with b·1023 ≤ raw·255 |
| Potentiometer.BrightnessMonotone | src/main.cpp:288 | a higher reading never gives a lower brightness |
| Potentiometer.BrightnessLandmarks | src/main.cpp:288 | 0 ↦ 0, 1023 ↦ 255, 512 ↦ 127 |
| Render.PhaseLevels | src/main.cpp:117-131 | normal mode: at most one light lit, each off or at brightness b; for b ≠ 0, red lit iff RedOn, yellow iff Yellow1On/Yellow2On, green iff GreenOn or GreenBlink with an even counter |
| Render.BlinkAllTimer | src/main.cpp:107-111 | the blink-all static timer flashes iff it was already initialised and ≥ 500 ms have elapsed since it; it then restarts at now; on its first pass it takes now and does not flash |
| Render.RenderFrame | src/main.cpp:104-133 | priority: emergency writes (b,0,0) whatever the phase; else blink-all writes all-on then all-off when its timer fires and nothing otherwise; else one write of the phase's levels; every write has each light off or at b |
| Render.RenderFlashesAreFlashTimes | src/main.cpp:107-115 | successive blink-all `renderLEDs` calls, each passing its `prevTime` to the next, write the all-on/all-off pair exactly at the times FlashTimes gives |
| Render.FlashTimes | src/main.cpp:107-115 | over successive blink-all passes, consecutive flashes are ≥ 500 ms apart, the first is ≥ 500 ms after the previously recorded flash, and with a fresh timer there are fewer flashes than passes |
| Render.PacedPassesAllFlash | src/main.cpp:110-112 | with a running timer, every pass a full 500 ms after the previous one flashes: a due flash always happens |
| Render.FreshTimerSkipsFirstPass | src/main.cpp:108-112 | a fresh timer's first pass only starts the timer and does not flash; every following pass 500 ms after the previous one flashes |
| Controller.TrafficController.constructor | src/main.cpp:47-74 | the globals' initial values: red, counter 0, timer at start, flags (false, false, true), brightness 255, blink-all timer unset |
| Controller.TrafficController.Update | src/main.cpp:146-210 | `updateTrafficLight` in place: new state = Tick(old state, flags, now); returns the green write made on a blink step; keeps Valid() |
| Controller.TrafficController.Button1 | src/main.cpp:223 | emergency toggled, blink-all cleared, power on; emergency and blink-all never both on |
| Controller.TrafficController.Button2 | src/main.cpp:224 | blink-all toggled, emergency cleared, power on; emergency and blink-all never both on |
| Controller.TrafficController.Button3 | src/main.cpp:225 | power toggled, emergency and blink-all both cleared |
| Controller.TrafficController.SampleBrightness | src/main.cpp:287-288 | `ledBrightness` becomes Brightness(raw), so stays a valid PWM level |
| Controller.TrafficController.Render | src/main.cpp:104-133 | `renderLEDs` in place: its writes and new `prevTime` are those of RenderFrame on the current flags, phase, counter and brightness |
| Scenarios.RedBoundary | src/main.cpp:156-161 | from red at t = 0: a tick at 1999 changes nothing, a tick at 2000 gives yellow with timer 2000 |
| Scenarios.RedBoundaryAcrossWrap | src/main.cpp:158 | red set 1000 ms before the clock wraps: still red at 999 after the wrap, yellow at 1000 |
| Scenarios.FrozenTimeCounts | src/main.cpp:148 | ticks while powered off change nothing, and time spent off counts: red since 0 turns yellow at the first tick at 5000 |
| Scenarios.FullCycle | src/main.cpp:154-209 | ticks on every boundary take red at 0 through all five phases and seven blink steps back to red at 5994 |
| Scenarios.MidScaleGreen | src/main.cpp:125-127 | reading 512 gives brightness 127, so green shows (0,0,127) |

## Left out

- `setup()`: pin modes, interrupt attachment, serial start-up and scheduler registration are platform wiring. Only its `lastStateChange = millis()` appears, as the constructor's start time.
- The TaskScheduler: the scheduler, its `Task` objects and `taskManager.execute()` are not modelled. Ticks are plain calls of `Update(now)`, or sequences of tick times in `Run`. The task object is declared twice (lines 213 and 217), which would not compile; the model has one tick operation.
- `millis()`, `analogRead` and `analogWrite`: the time and the reading are parameters, and the writes are returned values. On the first blink-all pass the source reads the clock twice (lines 108-109). The model uses one `now` for both reads.
- `delay(250)` in the blink-all branch is dropped, and with it the stall it imposes on the whole loop.
- Interrupt concurrency and `volatile`: each handler is one atomic method. Preemption of `Update` or `Render` by a handler is not modelled.
- The ticks in `StateRuns` keep the flags fixed. A button press between ticks is a separate `Button` call on the class.
- `p5/sketch.js` is not part of this model. It is the browser UI, with Web Serial I/O, DOM updates and a draw loop.
- TrafficState.Next: its own contract only says a phase never follows itself; the period of five is proved separately in StateRuns.CycleLengthFive.
