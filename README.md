# Status LED driver: fault latch, breathing task and peer-notification blinks

A Dafny model of the status-LED driver of an ESP32 Bluetooth adapter
(`main/system/led.c`). One PWM channel drives one LED. Three things share it:

- a **fault latch** (the `ERR_LED_SET` bit of `led_flags`). `err_led_set` parks the
  idle task, forces the "on" duty and sets the latch. `err_led_clear` does nothing
  once the latch is set; otherwise it parks the idle task and forces the "off" duty.
  `err_led_pulse` resumes the idle task. `err_led_cfg_update` retunes the PWM
  frequency. `err_led_get_pin` returns the pin that `err_led_init` chose from the
  chip package;
- the **idle task** `err_led_task`. Each iteration fades to the maximum duty, waits,
  fades to the minimum and waits, or parks itself once a fault is latched;
- the **notification task** `led_notify_task`. Each iteration scans the peer slots.
  When none is connected and unmuted, it only waits. Otherwise it parks the idle
  task, forces the LED off and, slot by slot in ascending order, blinks `dev + 1`
  times for each slot that is still active when it is checked again.

The globals are the fields of class `Led.ErrLed`: latch, "idle task parked",
committed duty, frequency and pin. A field `trace` records every driver and
scheduler call as an `LedTrace.Event`. The class invariant `Valid()` says that each
field except the latch is what the trace replays to: `LedTrace.Run` folds
`LedTrace.Step` over the trace from the power-on `View`. The latch is not part of the
`View`, and no event records `atomic_set_bit`. Every C function and every
task iteration is one method. Each method's frame names exactly the fields the C
code writes. Only `SetFault` has the latch in its frame, and it only sets it, so the
latch is monotone through the method frames alone, not through `Valid()`. The schedules the tasks write are pure functions in
`LedPlan` (`BlinkPlan`, `NotifyEvents`, `BreathEvents`). The lemmas there count
the "on" writes, fix the order of the blinks and give each schedule's net effect on the
replayed `View`. The methods'
postconditions equate the appended trace with those functions. `LedScenarios` runs
the driver from power-on through short call sequences.

Where the intended design and the code disagree, the model follows the code:

- A latched fault is meant to survive every blink sequence. The scanner never reads
  the latch (led.c:129-181), so a scan with an active slot after `err_led_set` ends
  with the channel off. `LedScenarios.ScanOverridesFault` exhibits this.
- The idle task is meant to start out breathing. `err_led_init` calls
  `err_led_clear()` (led.c:89), so init ends with the idle task parked and the LED off.
- `err_led_pulse` is meant to do nothing once a fault is latched. The code resumes
  the idle task anyway. In the model, where each idle iteration runs whole from the
  latch test, the next iteration parks the task again without writing the channel
  (`LedScenarios.FaultSurvivesPulse`). The code can do worse: if the task was
  suspended inside one of its delays (led.c:48 or 51), it resumes there. From led.c:48
  it first fades the latched "on" level down to `led_pulse_duty_min` (led.c:49-51), and
  only then parks itself at the latch test. The model does not capture this (see
  "## Left out").
- The scanner never resumes the idle task. After a scan with an active slot, the idle
  task stays parked until `err_led_pulse` is called.

## Model

| member | source | states |
|---|---|---|
| `Led.SelectPin` | main/system/led.c:77-80 | the pin is 20 exactly when the package is ESP32-PICO-V3-02, and 17 otherwise |
| `Led.ScanForActive` | main/system/led.c:133-138 | the scan loop with its early break finds an active slot iff some slot answers connected-and-unmuted |
| `Led.ErrLed.Init` | main/system/led.c:59-94 | init binds the chosen pin, sets the timer frequency and ends with the latch clear, the LED off and the idle task parked, via err_led_clear |
| `Led.ErrLed.CfgUpdate` | main/system/led.c:96-98 | only the frequency changes, to led_pulse_hz; duty, latch, parked flag and pin are untouched (frame) |
| `Led.ErrLed.SetFault` | main/system/led.c:100-104 | the latch is set, the idle task parked and the duty is the "on" level, whatever the state before, so a second call gives the same state |
| `Led.ErrLed.ClearFault` | main/system/led.c:106-112 | with the latch set, nothing changes and nothing is written; with it clear, the idle task is parked and the duty is "off"; the latch is never cleared |
| `Led.ErrLed.Pulse` | main/system/led.c:114-116 | the idle task is resumed and nothing else changes |
| `Led.ErrLed.GetPin` | main/system/led.c:118-120 | returns the pin chosen at init, which is 17 or 20 |
| `Led.ErrLed.IdleStep` | main/system/led.c:43-57 | one whole loop iteration from the latch test: with the latch set, the task parks itself and writes no duty; with it clear, it appends exactly fade to max, delay, fade to min, delay and leaves the duty at the minimum |
| `Led.ErrLed.NotifyStep` | main/system/led.c:129-181 | the appended events are exactly NotifyEvents; with an active slot it ends parked and off; with none, duty and parked flag are unchanged |
| `Led.ErrLed.BlinkActiveSlots` | main/system/led.c:158-177 | the blink loop appends exactly BlinkPlan of the recheck answers and leaves the duty off |
| `Led.ErrLed.BlinkSlot` | main/system/led.c:162-175 | one active slot appends exactly its group: dev + 1 blinks, then the 500 ms pause, and the duty ends off |
| `Led.ErrLed.BlinkTimes` | main/system/led.c:164-172 | `blinks` on/off pairs are appended and the duty ends off |
| `LedPlan.BlinkPairWrites` | main/system/led.c:165-170 | one blink writes the "on" level once and the "off" level once |
| `LedPlan.BlinksCount` | main/system/led.c:164-172 | n blinks write the "on" level exactly n times and the "off" level exactly n times |
| `LedPlan.BlinksDuration` | main/system/led.c:164-172 | n blinks spend n × (100 + 200) ms in delays |
| `LedPlan.BlinksView` | main/system/led.c:164-172 | after at least one blink the channel is at the "off" level; nothing else (frequency, pin, idle task) moves |
| `LedPlan.SlotGroupView` | main/system/led.c:163-175 | a slot's blinks and its 500 ms pause leave the channel off and change nothing else |
| `LedPlan.ActiveSlotsAscending` | main/system/led.c:158-159 | the slots that blink are exactly the active ones, each once, in strictly ascending order |
| `LedPlan.BlinkPlanIsGroups` | main/system/led.c:158-177 | the blink loop's events are the groups (dev + 1 blinks, then 500 ms) of the active slots, one after the other in ascending order |
| `LedPlan.BlinkPlanOnWrites` | main/system/led.c:158-177 | the blink loop writes the "on" level Σ (dev + 1) times over the rechecked active slots |
| `LedPlan.BlinkPlanOnlyBlinks` | main/system/led.c:158-177 | the blink loop writes only the "on" and "off" duties and delays |
| `LedPlan.BlinkPlanView` | main/system/led.c:158-177 | the blink loop leaves the channel off exactly when some slot blinked, and otherwise changes nothing; it never parks or resumes the idle task |
| `LedPlan.QuietScanOnlyWaits` | main/system/led.c:140-144 | a scan with no active slot appends only a 2000 ms delay; this is one unfolding of `NotifyEvents`, documenting it. The proofs about a scan are `NotifyStep`, `NotifyView` and `ActiveScanOnWrites` |
| `LedPlan.ActiveScanShape` | main/system/led.c:149-180 | a scan with an active slot begins with park, duty off, 100 ms and ends with the 2000 ms pause; as above, this documents the definition of `NotifyEvents` |
| `LedPlan.PrologueEffect` | main/system/led.c:148-155 | the start of an active scan parks the idle task, forces the "off" level and never writes "on" |
| `LedPlan.ActiveScanOnWrites` | main/system/led.c:146-180 | a scan with an active slot writes the "on" level Σ (dev + 1) times over the rechecked active slots |
| `LedPlan.NotifyView` | main/system/led.c:129-181 | a scan with an active slot leaves the channel off and the idle task parked, whatever the state before; a quiet scan changes nothing |
| `LedPlan.OnlySlotOneBlinksTwice` | main/system/led.c:158-177 | with only slot 1 active, the blink loop is two blinks and one 500 ms pause |
| `LedPlan.BreathLevels` | main/system/led.c:45-51 | one breathing iteration fades to the maximum, then to the minimum |
| `LedPlan.BreathAlternates` | main/system/led.c:44-52 | k breathing iterations commit 2k levels, alternating max and min, and use only fades and delays |
| `LedPlan.BreathView` | main/system/led.c:45-51 | one breathing iteration leaves the channel at the minimum duty and changes nothing else |
| `LedScenarios.InitState` | main/system/led.c:59-94 | after init, GetPin returns the pin chosen from the package, the latch is clear, the idle task is parked and the LED is off at led_pulse_hz |
| `LedScenarios.FaultSurvivesClear` | main/system/led.c:106-112 | init, set, clear: the latch stays set and the LED stays at the "on" level |
| `LedScenarios.SetFaultIdempotent` | main/system/led.c:100-104 | setting the fault twice leaves the same state as setting it once |
| `LedScenarios.FaultSurvivesPulse` | main/system/led.c:53-55 | init, set, pulse, then an idle iteration that starts at the latch test: the task parks itself again, and the LED stays "on" |
| `LedScenarios.PulseStartsBreathing` | main/system/led.c:114-116 | init, pulse, idle iteration: the idle task breathes once and ends at the minimum duty |
| `LedScenarios.QuietScan` | main/system/led.c:140-144 | a scan with no active slot changes no field and appends only the 2000 ms delay |
| `LedScenarios.OnlySlotOne` | main/system/led.c:146-180 | with only slot 1 active: park, off, 100 ms, two blinks, 500 ms, 2000 ms; the LED ends off |
| `LedScenarios.ScanOverridesFault` | main/system/led.c:129-181 | a scan with an active slot after a fault leaves the latch set but the LED off: the scanner does not check the latch |

## Left out

- Preemption and interleaving of the two FreeRTOS tasks. Each task iteration is one atomic method, and the unbounded `while (1)` is one iteration. The `continue` of a quiet scan is the method's return.
- Task creation parameters (core, stack size, priority) are recorded only as the `CreateIdleTask` and `CreateNotifyTask` events.
- LEDC internals are left out: 13-bit resolution, speed mode, timer number, clock source, `hpoint`, and how a fade progresses in hardware. Fades do not wait, and the `duty` field holds the fade's target level.
- Delays are in milliseconds. The division by `portTICK_PERIOD_MS` is not modelled.
- `hw_config` is a `HwConfig` parameter of each call, so it may differ between calls.
- The efuse read is not modelled: the package id is an input. The value 6 of `EFUSE_RD_CHIP_VER_PKG_ESP32PICOV302` comes from ESP-IDF's `soc/efuse_reg.h`, which is not part of this model.
- The `CONFIG_BLUERETRO_SYSTEM_SEA_BOARD` build switch is not modelled. Its default pin is 32; the model uses the other build's pin, 17.
- `adapter_is_device_connected_and_unmuted` (adapter.c) is not part of this model. Its answers are two input sequences: `scan` for the first loop and `recheck` for the blink loop. `BT_MAX_DEV` is taken as 7 from `adapter/adapter.h`, which is not part of this model.
- Calling `err_led_init` a second time is not modelled. `ErrLed.Init` is power-on plus one init.
- Calling set, clear or pulse before init is not modelled (the handle would still be NULL). The object exists only after `Init`.
- The `err_led_task_hdl != NULL` test at led.c:149 always passes in the model, because the idle task is created before the notification task. The NULL branch is not modelled.
- Led.ErrLed.IdleStep: requires that the idle task is not parked, because a suspended FreeRTOS task does not run.
- Led.ErrLed.IdleStep: always runs a whole loop iteration from the latch test (led.c:45). In FreeRTOS, a task suspended by `err_led_set` (led.c:101) or `err_led_clear` (led.c:109, also called by init at led.c:89) while blocked in `vTaskDelay` (led.c:48 or 51) resumes after that call. Its first steps after `err_led_pulse` can then be the rest of a breath (led.c:49-51), which overwrites a latched "on" level with `led_pulse_duty_min`. The model has no field for where the task was suspended, so it does not capture this.
- LedScenarios.FaultSurvivesPulse: holds only for a resumed iteration that starts at the latch test, as in `IdleStep`. Resuming in mid-iteration, as described above, can fade the LED away from "on" before the task parks again.
- The atomicity of `atomic_test_bit` and `atomic_set_bit` is not modelled. The latch is a plain field written only by `SetFault`.
- Integer widths (`uint8_t` slot id, `uint32_t` package) cannot overflow with 7 slots. Package ids are `nat`.
- LedPlan.BlinkPairWrites, LedPlan.BlinksCount, LedPlan.BlinkPlanOnWrites: stated only when the "on" and "off" levels differ. If they are equal, every duty write of the loop is an "on" write.
- LedPlan.ActiveScanOnWrites: the same condition, for the same reason.
- LedPlan.PrologueEffect: the "never writes on" half needs the same condition.
