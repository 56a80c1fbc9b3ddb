# Digital-control firmware tasks, modelled in Dafny

This project models the decision logic of a FreeRTOS firmware for an ESP32 that
drives a stepper motor. The firmware is a digital-control teaching project. Each
task's per-iteration step is lifted out of its infinite loop. The step becomes a
state plus the trace of what it sends, writes or waits for.

- **Control task** (`control_task.dfy`, module `ControlTask`): the discrete PD
  controller `processControlLaw`.
  - It looks the zone up in two tables, with a default beyond them.
  - It computes the error `e[k] = zone[k] - zone[k-1]` and its difference
    from `e[k-1]`, and combines them with gains 8 and 2.
  - It applies a deadband below 10 steps and saturation at 1000.
  - It emits a relative command whose sign alternates, plus an 'R'/'L'
    character for the display.
  - It updates `gControlState` on every call.
  - The class `Controller` holds `gControlState` and the two output queues.
    The pure function `ControlLaw` is its specification.
- **Stepper task** (`stepper_task.dfy`, module `StepperTask`): the executor of
  one `StepperMessage`.
  - It raises the interval to at least 50 us, sets the direction line,
    enables the driver and waits 10 us.
  - It then emits `steps` HIGH/LOW pulses, each followed by the rest of the
    interval, and yields on every pulse index divisible by 100.
  - The class `StepperDriver` holds the three output lines and a trace of pin
    writes, delays and yields.
- **Sensor task** (`sensor_task.dfy`, module `SensorTask`): the photo-sensor edge
  counter. The class `PhotoSensor` holds `sensorState`, `lastState` and the
  32-bit `blockCount`. A ghost history of readings ties the count to the number
  of unblocked-to-blocked transitions.
- **Touch task** (`touch_task.dfy`, module `TouchTask`):
  - the touch predicate;
  - the press/release menu (a short tap advances, a hold of at least 1500 ms
    selects);
  - `writeStringToDisplay`, which pads a line to 16 characters in a 17-character
    array and sends one message per column;
  - the HH:MM:SS split of the clock mode.
- **Command generator** (`stepper_command_task.dfy`, module
  `StepperCommandTask`): a relative move of +500 then -500 steps, alternating,
  with a wait after each send.
- **Shared types** (`common.dfy`, module `Common`):
  - the fixed-width integer types;
  - `DisplayMessage`;
  - the `MotionCommand` datatype;
  - unsigned 32-bit subtraction;
  - `pdMS_TO_TICKS`.

### How the sources are represented

- Queue sends are recorded as appended sequence elements, one per send attempt.
- Hardware writes, microsecond delays and yields are recorded as trace events.
- Sensor readings, touch readings and tick counts are parameters.

### Where the code disagrees with its documentation

The model follows the code.

- **Command fields.** The controller (`control_task.cpp:243-247`) and the
  generator (`stepper_command_task.cpp:23-26`) write `targetPosition`,
  `speedInStepsPerSec`, `accelInStepsPerSecSec` and `isRelative`. The
  `StepperMessage` in `include/tasks/stepper_task.h:14-22` has none of these
  fields: it has `steps`, `intervalUs`, `direction` and four ramp fields. Their
  output is therefore the separate datatype `MotionCommand`. The stepper
  executor consumes `StepperMessage` as declared.
- **Direction.** The controller's direction alternates on every processed
  message, sent or not. It is not taken from the sign of the error.
- **Absent features.** There is no debounce, no zone classification in the
  touch task, no acceleration ramp, no limit switch, no emergency stop and no
  position counter. None of them is modelled.

## Model

| member | source | states |
|---|---|---|
| Common.SubU32 | src/tasks/touch_task.cpp:164 | the unsigned difference r satisfies (b + r) mod 2^32 = a, so it is the TickType_t subtraction |
| ControlTask.LookupZone | src/tasks/control_task.cpp:157-163 | the looked-up interval is always positive and the base step count is at most 500, so the lookup never reads past the tables |
| ControlTask.LookupTable | src/tasks/control_task.cpp:83-97 | zones 0..3 give steps 0/50/200/500 and intervals 2000/1500/800/300; every zone >= 4 gives 0 steps and 1000 us |
| ControlTask.Saturate | src/tasks/control_task.cpp:213-224 | the command is 0 or in [10, 1000]; it is 0 iff the total is below 10, 1000 iff the total is at least 1000, and the total itself in between |
| ControlTask.ControlLaw | src/tasks/control_task.cpp:141-271 | the next state is (zone - lastZone, zone, flipped direction) whether or not a command is sent; a command is sent iff the saturated steps are positive, and a display message iff a command is sent |
| ControlTask.EmittedCommand | src/tasks/control_task.cpp:231-258 | an emitted command moves +steps when alternateDirection was false and -steps when true, with steps in [10, 1000], the zone's interval, accel 200 and relative; the display gets WriteChar at col 5, row 0, 'R' for a positive target and 'L' for a negative one |
| ControlTask.InitialZoneThree | src/tasks/control_task.cpp:173-203 | from the initial state {0, 0, false}, zone 3 gives error 3, total 500 + 24 + 6 = 530, a +530 command at 300 us, 'R', and next state {3, 3, true} |
| ControlTask.ControlSignalBounded | src/tasks/control_task.cpp:193-203 | with abs(lastError) <= 255 the PD term is within +-3060 and the total within [-3060, 3560], so float and 32-bit arithmetic are exact; the next state again has abs(lastError) <= 255 |
| ControlTask.RunState | src/tasks/control_task.cpp:268-270 | after any run of messages, from any state, the direction flag has flipped once per message and lastZone is the last zone |
| ControlTask.RunKeepsReachable | src/tasks/control_task.cpp:268 | from a state with abs(lastError) <= 255, every run keeps that bound |
| ControlTask.RunCommandsBounded | src/tasks/control_task.cpp:213-247 | every command of any run is relative, has accel 200 and moves between 10 and 1000 steps in either direction |
| ControlTask.ConsecutiveCommandsAlternate | src/tasks/control_task.cpp:231-270 | two consecutive messages that both emit commands emit them in opposite directions |
| ControlTask.Controller.constructor | src/tasks/control_task.cpp:116-122 | gControlState starts as {0, 0, false} with nothing sent |
| ControlTask.Controller.ProcessControlLaw | src/tasks/control_task.cpp:141-271 | the imperative body leaves gControlState equal to ControlLaw's next state and appends exactly ControlLaw's command and display message to the two queues; only touchZone is read |
| ControlTask.Controller.ControlPeriod | src/tasks/control_task.cpp:314-323 | one period takes at most one pending message and processes it; with none pending, state and queues are unchanged |
| StepperTask.SafeInterval | src/tasks/stepper_task.cpp:36-39 | the effective interval is max(intervalUs, 50): at least 50, at least the request, and one of the two |
| StepperTask.PulseEventsObserved | src/tasks/stepper_task.cpp:54-69 | one pulse writes HIGH then LOW, delays exactly the safe interval in total (5 + rest), and yields iff its index is a multiple of 100 |
| StepperTask.PulseTrainLevels | src/tasks/stepper_task.cpp:52-58 | n pulses write HIGH, LOW, HIGH, LOW, ... exactly n times |
| StepperTask.PulseTrainDelay | src/tasks/stepper_task.cpp:52-63 | n pulses delay n * safeInterval us in total |
| StepperTask.PulseTrainYields | src/tasks/stepper_task.cpp:52-69 | n pulses yield ceil(n / 100) times |
| StepperTask.PrefixObserved | src/tasks/stepper_task.cpp:42-49 | the set-up before the pulses writes no pulse level, delays 10 us and does not yield |
| StepperTask.CommandObserved | src/tasks/stepper_task.cpp:36-70 | one message yields exactly 2 * steps pulse-line writes (none for 0 steps), 10 + steps * max(interval, 50) us of delay, and ceil(steps / 100) yields |
| StepperTask.EnableBeforePulses | src/tasks/stepper_task.cpp:42-52 | the direction line is set and the driver enabled before any pulse write, also for 0 steps |
| StepperTask.RampFieldsIgnored | src/tasks/stepper_task.cpp:36-52 | changing the four ramp fields does not change anything the executor does |
| StepperTask.StepperDriver.constructor | src/tasks/stepper_task.cpp:28-29 | the driver is disabled at task start |
| StepperTask.StepperDriver.Execute | src/tasks/stepper_task.cpp:34-75 | the loop body appends exactly CommandTrace(msg) to the trace, leaves the direction line at (direction == Clockwise), the driver enabled, and the pulse line LOW after at least one pulse |
| StepperTask.StepperDriver.PulseLoop | src/tasks/stepper_task.cpp:52-70 | the pulse loop appends exactly PulseTrain(steps, safe) and changes neither the direction nor the enable line |
| StepperTask.StepperDriver.EmitPulse | src/tasks/stepper_task.cpp:53-69 | one iteration appends PulseEvents(i, safe) and leaves the pulse line LOW |
| StepperTask.StepperDriver.Serve | src/tasks/stepper_task.cpp:32-76 | a run of messages appends their traces in order; the driver stays enabled after the first |
| SensorTask.FallingEdgesAgree | src/tasks/sensor_task.cpp:43-45 | the transition count built reading by reading equals the count of adjacent (unblocked, blocked) pairs scanned from the front |
| SensorTask.FallingEdgesMonotone | src/tasks/sensor_task.cpp:43-45 | more readings never lower the transition count |
| SensorTask.PhotoSensor.constructor | src/tasks/sensor_task.cpp:16-18 | both states start false and the count at 0 |
| SensorTask.PhotoSensor.Start | src/tasks/sensor_task.cpp:28-29 | the first reading sets both states and is not counted |
| SensorTask.PhotoSensor.Sample | src/tasks/sensor_task.cpp:36-53 | after a sample both states equal it; the count goes up by 1 (mod 2^32) exactly on a true-to-false transition and is unchanged otherwise; the count stays the number of transitions mod 2^32 |
| SensorTask.PhotoSensor.Monitor | src/tasks/sensor_task.cpp:28-57 | after the start reading and any samples, blockCount is the number of true-to-false transitions in the whole sequence, mod 2^32 |
| SensorTask.PhotoSensor.GetSensorState | src/tasks/sensor_task.cpp:64-66 | returns the most recent reading (false before the first) |
| SensorTask.PhotoSensor.GetSensorBlockCount | src/tasks/sensor_task.cpp:68-70 | returns the transition count so far, mod 2^32 |
| TouchTask.CStringLength | src/tasks/touch_task.cpp:49 | the copy stops at the first NUL: no NUL before the length, and a NUL at it unless the string ends |
| TouchTask.PaddedLine | src/tasks/touch_task.cpp:45-49 | the line has 16 characters: those of s before its first NUL, at most 16, then spaces |
| TouchTask.WriteStringToDisplay | src/tasks/touch_task.cpp:43-63 | the array-filling loops produce the padded line, and 16 WriteChar messages are sent for columns 0..15 on the given row; these are the messages of the Line event the menu records |
| TouchTask.TouchBoundary | src/tasks/touch_task.cpp:153 | the touch test accepts 0 and 39 and rejects 40 and -1; below a touch down to 0 is a touch, above a non-touch is a non-touch |
| TouchTask.LineEventMessages | src/tasks/touch_task.cpp:45-62 | a recorded line write sends sixteen WriteChar messages for columns 0..15 on its row, carrying the text before its first NUL and then spaces |
| TouchTask.RisingEdgeRecordsStart | src/tasks/touch_task.cpp:158-160 | a touch that starts records now as touchStartTick, changes nothing else and only waits |
| TouchTask.ShortTapAdvances | src/tasks/touch_task.cpp:187-191 | a release held less than 1500 ms moves to the other item ((i + 1) mod 2) and writes its name on row 1 |
| TouchTask.HoldSelects | src/tasks/touch_task.cpp:165-186 | a release held at least 1500 ms keeps the index and runs Art iff the index is 0 and Clock iff it is 1 |
| TouchTask.PollTracksTouch | src/tasks/touch_task.cpp:194 | every poll leaves lastTouched equal to the sample; a poll without an edge changes nothing |
| TouchTask.HeldTicksAcrossWrap | src/tasks/touch_task.cpp:164 | a hold of d < 2^32 ticks measures exactly d even if the tick counter wrapped meanwhile |
| TouchTask.TouchMenu.constructor | src/tasks/touch_task.cpp:144-148 | start-up clears the screen and shows "Menu:" and "Art" with index 0 |
| TouchTask.TouchMenu.WriteLine | src/tasks/touch_task.cpp:43-63 | one writeStringToDisplay call is recorded; the menu state is untouched |
| TouchTask.TouchMenu.SelectCurrent | src/tasks/touch_task.cpp:165-186 | shows "Selected:" and the item, pauses 400 ms, runs the item's mode, and shows the menu again, with the index unchanged |
| TouchTask.TouchMenu.AdvanceMenu | src/tasks/touch_task.cpp:187-191 | moves to the other item and writes its name on row 1 |
| TouchTask.TouchMenu.Release | src/tasks/touch_task.cpp:162-192 | a release is handled as MenuStep and MenuOutput prescribe |
| TouchTask.TouchMenu.Poll | src/tasks/touch_task.cpp:151-197 | one loop iteration leaves the state at MenuStep and appends exactly MenuOutput, whose properties the lemmas above state |
| TouchTask.ClockSplitSound | src/tasks/touch_task.cpp:116-119 | hh < 24, mm < 60, ss < 60 and hh*3600 + mm*60 + ss equals the elapsed seconds mod 86400 |
| TouchTask.SplitClock | src/tasks/touch_task.cpp:117-119 | the clock fields are in range and give back the elapsed time mod one day |
| TouchTask.ElapsedSeconds | src/tasks/touch_task.cpp:116 | the wrapped millisecond difference divided by 1000 is at most 4294967 seconds |
| TouchTask.ElapsedAcrossWrap | src/tasks/touch_task.cpp:114-116 | d < 2^32 milliseconds after the start the clock counts d / 1000 seconds, even across a wrap of millis() |
| TouchTask.ClockFields | src/tasks/touch_task.cpp:116-119 | the fields shown between two millis() readings are in range and give back the elapsed seconds mod one day |
| TouchTask.ClockAfter | src/tasks/touch_task.cpp:114-119 | d < 2^32 milliseconds into the clock mode the fields shown give back d / 1000 seconds mod one day |
| StepperCommandTask.CommandLoop | src/tasks/stepper_command_task.cpp:17-37 | n rounds send the command for moveForward = (round is even) then wait 5000 ms, round by round |
| StepperCommandTask.FirstCommandForward | src/tasks/stepper_command_task.cpp:18-26 | the first command is a relative +500 at 500 steps/s and 200 steps/s^2 |
| StepperCommandTask.EveryCommand | src/tasks/stepper_command_task.cpp:23-32 | every round, the last included, sends a relative +500 or -500 at 500 steps/s and 200 steps/s^2 and then waits 5000 ms |
| StepperCommandTask.ConsecutiveCommandsAlternate | src/tasks/stepper_command_task.cpp:23-35 | consecutive commands have opposite targets of magnitude 500 |
| StepperCommandTask.NetDisplacement | src/tasks/stepper_command_task.cpp:23-35 | the targets sent add up to 0 after an even number of rounds and to +500 after an odd number |

## Left out

- FreeRTOS plumbing is not modelled: queue creation (including the lazy creation
  in the send helpers and its race), queue capacity, timeouts and dropped sends,
  task creation, `vTaskDelayUntil`. A send is recorded as an appended element,
  that is, as a send that succeeds.
- The sensor task's waits are not recorded: the 100 ms start-up delay and the
  per-sample `vTaskDelay(pdMS_TO_TICKS(SENSOR_READ_INTERVAL_MS))`, whose
  interval constant is not declared in the headers. A sample is one call of
  `Sample`. The touch task and the command generator do record their waits.
- Hardware I/O is replaced by parameters and trace events: `touchRead`,
  `millis`, `xTaskGetTickCount`, `readPhotoSensor`, `hal::setStepper*`,
  `delayMicroseconds` and `taskYIELD`. `readPhotoSensor` and
  `SENSOR_READ_INTERVAL_MS` are not declared in the headers, and the
  `hal::setStepper*` functions are not declared in `board.h`.
- `src/config.cpp`, `src/hal/board.cpp`, `src/main.cpp`,
  `src/tasks/blink_task.cpp` and `src/tasks/display_task.cpp` are not part of
  this model. They are pin and display I/O wrappers.
- StepperTask.StepperDriver.constructor: the levels of the direction and pulse
  lines at start-up come from pin configuration outside the task. They are taken
  as parameters.
- The controller's float speed `1000000.0f / speedInterval` and the float
  speed/accel constants are not modelled. The command carries the integer
  interval instead. The `500.0f` fallback is unreachable, because every
  interval is positive (`LookupZone`).
- The controller's `commandSteps * directionMultiplier` is a `uint32_t` times
  `int32_t` product. Read back as a signed value, it is the true signed product
  for the magnitudes involved (at most 1000). The model uses mathematical
  integers.
- `TouchInputMessage.touchValue` and `timestamp` are carried but never read,
  as in the source.
- The Serial log lines of the sensor task are not modelled. Nor are the
  `lastValue` and `lastTriggerTick` variables of the touch task, which are
  written or declared but never read.
- The art mode's animation and the clock mode's display loop are recorded as a
  single `RunMode` event that ends when the user leaves the mode. Not modelled:
  - the wait for release;
  - the touch-to-exit polling;
  - the "Exiting ..." messages;
  - the `snprintf` formatting of the clock lines.
  The numeric HH:MM:SS split is modelled by `SplitClock`, and the
  wrapped-millisecond elapsed time by `ElapsedSeconds`. `ClockFields` combines
  the two.
- The "Invalid option" branch of the menu dispatch is unreachable. The menu
  index is a subset type below 2, preserved by every step.
- TouchTask.SelectedText: `snprintf` into a 17-byte buffer would truncate
  beyond 16 characters. With the item names "Art" and "Clock" it never
  truncates, so the model concatenates without truncation.
- TouchTask.TouchMenu.WriteLine records one `Line(row, text)` event per
  `writeStringToDisplay` call. It does not repeat the sixteen messages the call
  sends. Those are stated once, by `WriteStringToDisplay`, whose result is
  `SentMessages` of that event (`LineEventMessages`).
- `pdMS_TO_TICKS` assumes a tick rate of 1000 Hz, the ESP32 Arduino default, so
  1500 ms is 1500 ticks. The tick-rate setting is not part of the sources.
- The infinite task loops are modelled over finite runs of inputs (`Serve`,
  `Monitor`, `CommandLoop`, `Run`).
- Debounce, zone classification, acceleration ramps, limit switches, emergency
  stop and position tracking are not in the code and are not modelled.
  `kTouchDebounce`, `kStepsPerTouch` and the interval constants of the touch
  task are unused.
