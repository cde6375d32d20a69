# Cold-start wake controller

This project models the firmware of a small ESP32 controller that wakes from
deep sleep, reads a DHT11 temperature/humidity sensor while a trigger pin is
held Low, and pulses a cold-start relay at most once per wake episode. It then
proves properties of the model.

The firmware is `src/main.cpp`. It has three parts, and the model follows them:

- `wakeup_reason.dfy` (module `WakeupReason`) covers `print_wakeup_reason()`.
  It is a total function from the ESP32 wake cause to the line that is printed,
  with an inverse that reads a line back into its cause.
- `sensing_loop.dfy` (module `SensingLoop`) is the pure specification of the
  `logic()` loop. One loop pass reads the trigger pin, the humidity and the
  temperature; here that pass is one `Sample` of an input script, and a failed
  (NaN) reading is `None`. The writes to the output pin form a trace of
  `PinWrite` values. `Run` gives, for a script, the elapsed sleep and the
  latch on entry, how the loop ends, how many loop bodies ran, the final
  latch, and the writes.
- `wake_cycle.dfy` (module `WakeCycle`) covers `setup()` and `logic()` as
  imperative code. It has a class `Device` holding the three RTC-retained
  fields (`bootCount`, `sleepEnterTime`, `wakeupTime`), the RAM latch
  `hasActivated` and the episode's pin writes.
  - `Device.Logic` is the `while` loop, proved against `Run`.
  - `Device.Setup` is one wake episode.
  - `DeepSleepCycle` stands for the hardware sleep/wake boundary. Each wake
    runs `Setup` again on the same retained fields.
  - `NextRetained` and `AfterEpisodes` specify how the retained fields change.
- `wrappers.dfy` holds the `Option` type.

Temperatures and humidities are `real`. Time stamps are `int` seconds. The
elapsed sleep is the integer difference `wakeupTime - sleepEnterTime`. Each
`time(nullptr)` read is a parameter: `wakeClock` at line 43 and `sleepClock` at
line 61.

In two places the code does something other than what its own comments say.
The model follows the code in both:

- The comment at `src/main.cpp:45` says the sleep time is computed "if not
  the first wake-up". In the code, only the log line at lines 46-50 is guarded
  by `sleep_enter_time > 0`. The activation test at line 101 computes against
  the zero stamp of a fresh power-on, so on the first wake it sees the whole
  wake clock value as the elapsed sleep. `WakeCycle.ElapsedSeenByEpisode`
  states this for episode 0.
- The comment at line 52 says the device wakes "when TRIGGER_PIN goes
  HIGH". The code arms ext0 with level 0, which wakes it on Low. This level is
  not part of the model: see "Left out".

## Model

| member | source | states |
|---|---|---|
| WakeupReason.Message | src/main.cpp:112-142 | every cause gets a non-empty line; the line is the "not caused by deep sleep" default exactly when the cause is not EXT0, EXT1, TIMER, TOUCHPAD or ULP |
| WakeupReason.MessageRoundTrip | src/main.cpp:119-139 | reading the printed line back gives the cause for the five named causes and no cause for every other one |
| WakeupReason.MessageInjective | src/main.cpp:119-139 | two causes that print the same line are equal, or both fall to the default |
| SensingLoop.InColdStartWindow | src/main.cpp:101 | the elapsed-sleep window of the activation rule: under 300 s or over 21600 s; its strict bounds are pinned by `ColdStartWindowEdges` |
| SensingLoop.ColdStartWindowEdges | src/main.cpp:101 | 299 s and 21601 s are in the window, and 300 s and 21600 s are not, so both comparisons are strict |
| SensingLoop.ShouldActivate | src/main.cpp:100-101 | the activation rule of one pass: temperature under 20 degrees, latch clear, elapsed sleep in the window; `ActivationIff` and `NoPulseOutsideWindow` prove what it means over a whole run |
| SensingLoop.Pulse | src/main.cpp:104-106 | the relay pulse: the output pin driven Low, then High again |
| SensingLoop.Run | src/main.cpp:71-110 | from sample `from` on, the loop runs at most one body per remaining sample, and running out of samples consumes them all; a latch set on entry stays set |
| SensingLoop.RunWrites | src/main.cpp:100-108 | the writes of a run are exactly one pulse (Low, then High) when the run sets a latch that was clear, and nothing otherwise: at most one pulse per run, none once latched |
| SensingLoop.StoppingSampleEndsLoop | src/main.cpp:74-87 | a script that holds a High trigger or a failed reading at or after the current sample never runs out: the loop ends with TriggerReleased or SensorFailure |
| SensingLoop.BodiesReadLowSamples | src/main.cpp:74-87 | every body that ran read a sample whose trigger was Low, and every body but the last got two valid readings |
| SensingLoop.LoopExitConditions | src/main.cpp:74-87 | a TriggerReleased exit points at the first unread sample, whose trigger is High; a SensorFailure exit means the last body read a NaN; any other exit after at least one body means the last body's readings were valid |
| SensingLoop.PulseHasColdSample | src/main.cpp:100-108 | a pulse implies the latch was clear on entry, the elapsed sleep is under 300 s or over 21600 s, and the loop reached a sample under 20 degrees with every reading up to it valid; the lemma returns that sample's index |
| SensingLoop.ColdSampleFires | src/main.cpp:100-108 | with a clear latch and the elapsed sleep in that window, reaching a valid sample under 20 degrees through valid readings gives a pulse |
| SensingLoop.ActivationIff | src/main.cpp:100-108 | the episode pulses exactly when the latch was clear, the elapsed sleep is under 300 s or over 21600 s, and the loop reaches a valid sample under 20 degrees |
| SensingLoop.NothingReadAfterExit | src/main.cpp:74-87 | after a High trigger or a failed reading nothing more is read and no write follows; the exit reason and the number of bodies run are fixed by that sample |
| SensingLoop.TriggerHighAtEntry | src/main.cpp:74 | a trigger that reads High at entry means no body runs, no write happens and the latch is unchanged |
| SensingLoop.FailedReadingWritesNothing | src/main.cpp:83-87 | a NaN humidity or temperature on the first pass ends the loop after one body, with no write and before the activation rule |
| SensingLoop.NoPulseOutsideWindow | src/main.cpp:100-101 | with an elapsed sleep from 300 s to 21600 s no sample ever pulses and the latch stays as it was |
| SensingLoop.ScenarioShortSleep | src/main.cpp:100-108 | samples at 25, 22, 18 and 17 degrees after a 100 s sleep give exactly one pulse over four bodies |
| SensingLoop.ScenarioWarmSamplesOnly | src/main.cpp:100-101 | the 25 and 22 degree samples alone give no pulse |
| SensingLoop.ScenarioWindow | src/main.cpp:101 | at 19.5 degrees, a 600 s sleep gives no pulse and a 200 s sleep gives one |
| WakeCycle.NextRetained | src/main.cpp:41-61 | the retained fields after one episode: the boot count plus one (line 41), the wake stamp (line 43), the sleep stamp (line 61) |
| WakeCycle.ElapsedSleep | src/main.cpp:101 | the `difftime(wakeup_time, sleep_enter_time)` of the activation rule: the new wake stamp minus the stored sleep stamp |
| WakeCycle.AfterEpisodes | src/main.cpp:28-64 | the retained fields after a series of wakes, one `NextRetained` step per wake; its properties are the lemmas below |
| WakeCycle.SleepLog | src/main.cpp:46-50 | the sleep-duration log: printed only when the stored sleep stamp is positive; what it logs over a series of wakes is proved by `ElapsedSeenByEpisode` and `SleepLogAcrossSleep` |
| WakeCycle.AfterEpisodesSnoc | src/main.cpp:41-61 | one more wake applies one more retained-state update to the series |
| WakeCycle.BootCountCountsWakes | src/main.cpp:41 | after n wakes the boot counter has grown by exactly n, whatever the wake causes |
| WakeCycle.StampsOfLastEpisode | src/main.cpp:43-61 | after at least one episode, the retained wake and sleep stamps are the last episode's clock reads |
| WakeCycle.ElapsedSeenByEpisode | src/main.cpp:41-101 | after power-on, episode k sees its wake clock minus the sleep clock of episode k-1, or minus 0 for the first episode; it logs the sleep only for k > 0 with a positive previous stamp, and the logged value is then the time since that stamp; it sees boot count k before its increment |
| WakeCycle.SleepLogAcrossSleep | src/main.cpp:45-50 | the first wake after a power loss logs nothing; after an episode that stamped a positive sleep clock, the next wake logs the time since that stamp, and after a zero stamp it logs nothing |
| WakeCycle.Device.PowerOn | src/main.cpp:15-21 | on power-on every retained field is zero, the latch is clear and nothing has been written |
| WakeCycle.Device.Logic | src/main.cpp:71-110 | the loop's exit, the number of bodies run, the latch and the appended pin writes are those `Run` gives for the script, the latch on entry and the elapsed sleep of the stamps on entry; the retained fields do not change |
| WakeCycle.Device.Setup | src/main.cpp:28-64 | for a script in which the loop returns (the sleep stamp at line 61 is reached only then): the retained fields become (bootCount + 1, the sleep clock, the wake clock); the printed cause and the sleep log are `Message` and `SleepLog`; the loop runs with a cleared latch and a fixed elapsed sleep and ends with TriggerReleased or SensorFailure; the writes are an initial High followed by the loop's; the output pin ends High |
| WakeCycle.DeepSleepCycle | src/main.cpp:28-64 | running wake after wake on the same device leaves the retained fields as `AfterEpisodes` gives and adds one boot per wake; each episode's exit is that of the run its wake sees, never an exhausted script; the latch and the pin writes left behind are those of the last episode, or unchanged when there is no wake |
| WakeCycle.EpisodeTrace | src/main.cpp:104-106 | every write of an episode (including the initial High of line 36) goes to the output pin, the pin ends High, and it is driven Low at most once |

## Left out

- Serial logging is not modelled: `Serial.begin`, the printed humidity, temperature and heat index, `printLocalTime` and its formatting. These are diagnostic output only. The wake-cause line and the sleep-duration value are modelled, as return values of `Setup`.
- The DHT driver (`dht.begin`, `readHumidity`, `readTemperature`) is foreign code. Its readings are script inputs. `computeHeatIndex` is floating-point numerics whose result only feeds a log line, so it is dropped.
- `set_time()` is not part of this model. It calls `getLocalTime`, `mktime` and `settimeofday`, which are foreign clock calls. Its fallback clock (2024-09-22 12:00:00) only affects the clock values, and those are parameters here. The retained `tm_struct` that it fills is also not modelled.
- ESP sleep and GPIO configuration are hardware plumbing and are not modelled: `pinMode`, `esp_sleep_enable_ext0_wakeup` with wake level 0 (Low), and `esp_deep_sleep_start`. The sleep/wake boundary is `DeepSleepCycle`: the episode ends, and the next one starts with the retained fields kept and `hasActivated` cleared. Because the wake level is not modelled, neither is a consequence of the Low level: after a `SensorFailure` exit with the trigger still Low, the device wakes again at once, into an episode with a clear latch and an elapsed sleep under 300 s, so a cold reading can pulse the relay again. The at-most-one-pulse property holds per episode, not per period in which the trigger is held Low.
- The delays (2000 ms per pass, 300 ms pulse width) are not tracked. The comment at line 105 says 500 ms but the code waits 300 ms.
- `difftime` returns a `double`. The model uses the exact integer difference of the two stamps.
- The loop's input is a finite script. `Run` and `Device.Logic` end with `ScriptExhausted` when the script runs out while the trigger still reads Low; the real loop would keep sampling. `Device.Setup` and `DeepSleepCycle` only take scripts that contain a sample that stops the loop, because only then does the firmware reach the sleep stamp at line 61.
- WakeCycle.Device.Setup: `bootCount` is an unbounded integer. The firmware's `int` would overflow only after 2^31 wakes, and that overflow is not modelled.
