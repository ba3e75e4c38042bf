# Verification of the AC400 fan-controller firmware

This project models the control logic of the firmware in `main/` (an ESP32-C6 that switches a two-speed fan through
two active-low relays, driven by Zigbee air-quality reports, two buttons and a small web server) and proves properties
of it in Dafny 4.11. `dafny verify dfyconfig.toml` checks everything.

## How the model is built

- `Firmware.Controller`, `Relay.RelayController`, `NvsStore.Store`, `EnvSensor.EnvTask` and `Wlan.Wifi` are classes
  whose fields are the C globals. Every method is proved to take the state exactly as a specification function says
  (`Step` for whole handlers), and `MainProgram.Serve` proves that serving any list of events is `Run`, so theorems
  about `Run` are theorems about the classes.
- A run is a list of events: reports of every cluster, both buttons, the HTTP commands, posted settings, early
  write-backs by the flash driver, power cuts with reboot, and the end of `app_main`. Runs are unbounded and
  unrestricted unless a lemma says otherwise.
- Each event carries the esp_timer readings its handler takes (`Clock`: in the report handler, in the control step, in
  `setStatus`). They may differ; only the lemmas that say `Clocked` assume that time does not run backwards.
- Flash is a durable part and a pending part. Each event carries what the medium does (`Medium`: which `nvs_set_*`
  calls succeed, and whether `nvs_commit` does); pending writes may become durable at any moment (`StoreFlushed`).
  `PoweredOn(false)` is a boot on which `nvs_open` fails.
- Form bodies are tokenised in place in a `char` array by a `strtok_r` whose save argument becomes NULL after the last
  token, as in newlib. `atoi` follows section 7.22.1.2 of ISO C11, and dividing a `short` by 100 truncates toward zero
  (section 6.5.5).

Assumption on concurrency: handlers run to completion one after another. The firmware has no mutex, so this is an
assumption about scheduling. `Relay.ConcurrentChanges` drops it for the relay writes: it says exactly which calls of
concurrent tasks keep the interlock under every schedule of the single pin writes.

Assumptions on callers, where C would otherwise be undefined: strings fit the buffers they are copied into, `atoi`
values fit an `int`, every pair of a form has a key, the limits and the UDP port have a value, the logging form
mentions both of its settings, a body is shorter than 1000 bytes, receive calls report no error, and the flash holds a
last mode that indexes the name table.

## Results that qualify what one might expect of the code

- A STATUS press that arrives before `app_main` has finished is not always kept. `setOpMode(LOCAL)` returns early
  because `opMode` is still zero, so nothing is recorded and the stored mode comes back. `ModeRecovery.EarlyStatusPress`
  and `ManualLatch.StatusPressLatches` give the exact conditions.
- The interlock does not hold while `controller_start` itself runs if the output latches hold two zeros when
  `gpio_config` enables the pins (`Relay.StartInterlock`).
- The timer restarts when the fan steps between LOW and HIGH, so the "unbroken ON block" of the closed form is a block
  of one class.
- Cleaner air can keep the fan on longer: an early high reading starts the timer early, so that it runs out earlier.
  This is excluded exactly if the afterrun is shorter than the least time between two reports
  (`Monotonicity.FirmwareMonotoneIffShortAfterrun`); the shipped afterrun of 180 s is longer than the report interval.
- `post_handler` asks for at most 4 bytes at a time, since it takes the size of an address; the round trip holds anyway.

## Model

| member | source | states |
|---|---|---|
| Relay.ConcurrentChanges | main/relay_controller.c:22-31 | any number of concurrent tasks, each making any handleStateChange calls, keep the interlock under every interleaving of their pin writes iff no task calls for ON_LOW while another one calls for ON_HIGH |
| Relay.StartInterlock | main/relay_controller.c:5-20 | controller_start keeps the interlock at each of its writes iff the output latches were not both low; it ends with both relays released |
| Relay.ChangeIsInterlocked | main/relay_controller.c:22-31 | an undisturbed handleStateChange is safe after every single write and ends with exactly the relay of the new status energised |
| Relay.RelayController.HandleStateChange | main/relay_controller.c:22-31 | the pins end as the status demands, and the ordered pin writes are appended to the trace |
| Relay.RelayController.ControllerStart | main/relay_controller.c:5-20 | the two writes in order, after which both relays are released whatever the latches held |
| RelaySafety.RelayInterlock | main/relay_controller.c:5-31 | from power-on, through any run with any handlers, no single pin write ever leaves both relays energised |
| RelaySafety.RelayRefinement | main/state.c:34-47 | at every event boundary each relay is energised iff the status is its own, the levels being those produced by the write trace |
| Firmware.AfterrunMillis | main/state.c:79 | the afterrun is 1000 ms per second, and fits a 32-bit int |
| Firmware.Controller.SetOpMode | main/state.c:25-32 | the state becomes WithOpMode: nothing if the mode is in force, else mode, cache and pending write |
| Firmware.Controller.SetStatus | main/state.c:34-47 | the state becomes WithStatus: nothing on an equal status, else timestamp, pins and status |
| Firmware.Controller.UpdateStateForPM25 | main/state.c:73-82 | the state becomes Controlled, whose history AutoClosedForm describes |
| Firmware.Controller.HandleReport | main/esp_zigbee_gateway.c:214-249 | the read-modify-write of the measurements followed by the control step |
| Firmware.Controller.ButtonPressed | main/button_controller.c:24-37 | the state after a button, whose cycle StatusPressesCycle and ModePressesCycle describe |
| Firmware.Controller.HandleOperation | main/webserver.c:101-113 | the state after an HTTP command, which CommandLatches describes |
| Firmware.Controller.PowerOn | main/main.c:33-35 | zeroed globals, store_start and controller_start |
| MainProgram.Serve | main/main.c:23-46 | the program serving any events is in the state Run gives, and the preconditions of its handlers never fail |
| MainProgram.AppMain | main/main.c:23-46 | after boot the mode in force is the cached one: the stored mode, unless an early handler changed the mode |
| FanTimer.SwitchedOnIsLatest | main/state.c:41-43 | switched_on_timestamp is the time of the latest transition into an ON status |
| FanTimer.SwitchedOnInitially | main/state.c:12 | it is 0 as long as there was no such transition since power-on |
| FanTimer.FirstReading | main/state.c:73-82 | an OFF fan in AUTO goes HIGH iff the reported number is at least the high limit, LOW iff it is at least the low and below the high limit; NaN and minus infinity never start it |
| FanTimer.ReportDecides | main/state.c:73-89 | from any status in AUTO: HIGH, LOW, or in clean air OFF iff more than 1000 ms per afterrun second have passed |
| FanTimer.MinimumOnTime | main/state.c:34-47 | in every run a report-driven switch-off comes more than the afterrun after the event that last switched the fan on |
| FanTimer.ExactOnTime | main/state.c:34-82 | in every run a report with clean air in AUTO ends the on-time iff it comes more than the afterrun after the event that last switched the fan on |
| FanTimer.SwitchOffsApart | main/state.c:73-82 | two report-driven switch-offs are more than the afterrun in force at the second one apart, whatever happens between |
| FanTimer.CyclingBound | main/state.c:73-82 | n report-driven switch-offs within W ms, with afterruns of at least a seconds, satisfy n <= 1 or (n-1) * 1000 * a < W |
| AutoControl.AutoClosedForm | main/state.c:73-89 | closed form of AUTO: the status as a function of the history of evaluations, both directions, by the numbers compared and 1000 ms per afterrun second, with the timer value |
| AutoControl.BlockIsUnbroken | main/state.c:73-82 | what the block start of the closed form is: one class throughout, no timeout inside, not extensible to the left |
| AutoControl.ClosedFormOfMachine | main/state.c:34-47 | the closed form for the bare status and timer machine, from any timer value |
| AutoControl.AutoStatus | main/state.c:73-89 | the status after any quiet run in AUTO is the closed form of its evaluations |
| AutoControl.ClassByLevel | main/state.c:75-79 | the classes and the afterrun the closed form is built from, by comparisons of the level with the limits |
| AutoControl.AutoCommandTakesOver | main/webserver.c:111-113 | after the auto command to a device with the fan off, in any mode, quiet runs follow the closed form |
| AutoControl.AutoByReports | main/esp_zigbee_gateway.c:233-247 | the same as a function of the reports alone: each evaluation sees the last PM2.5 level reported since power-on |
| Monotonicity.MonotoneIffShortAfterrun | main/state.c:73-82 | for evaluations at least gap ms apart, no higher levels never keep the fan on longer, iff the afterrun is shorter than gap |
| Monotonicity.FirmwareMonotoneIffShortAfterrun | main/state.c:73-89 | the same of runs of the firmware in AUTO from any state with the fan off |
| Monotonicity.CleanerAirCanRunLonger | main/state.c:79 | for every setting and gap that fail the condition, a pair of histories where the cleaner one leaves the fan on and the other off |
| Monotonicity.SpacedStatus | main/state.c:73-82 | under the condition the status is the class of the last evaluation |
| ManualLatch.CommandLatches | main/webserver.c:101-113 | after low, high or off (during boot too) no reports or posted settings change status, pins, trace or timestamp |
| ManualLatch.AutoCommand | main/webserver.c:111-113 | the auto command selects AUTO, puts it on record and leaves status, pins, trace and timestamp alone |
| ManualLatch.StatusPressLatches | main/button_controller.c:31-35 | a status press latches likewise iff it is not pressed during boot in the initial mode with AUTO stored |
| ManualLatch.StatusPressesCycle | main/state.c:95-98 | n presses move the status n places in its cycle of three |
| ManualLatch.ModePress | main/state.c:91-93 | one press leads from LOCAL to AUTO, from AUTO to API and from API to LOCAL, and leaves the fan alone |
| ManualLatch.ModePressesCycle | main/state.c:91-93 | n presses move the mode n places in its cycle of three and leave the fan alone |
| MeasurementHistory.MeasurementsAreHistory | main/esp_zigbee_gateway.c:217-247 | each field is the last report of its own cluster (0 if none) and its update time that of the last report that changed it |
| MeasurementHistory.LastChangeIsLast | main/esp_zigbee_gateway.c:221-239 | the changing report used there is the last one that differs from the reports of its cluster before it |
| MeasurementHistory.TruncatesTowardZero | main/esp_zigbee_gateway.c:220-227 | scaling a reading by 100 loses less than one unit and never moves away from zero |
| Modes.ModeCoherenceFromPowerOn | main/main.c:34-43 | over any handlers, reboots and storage failures the mode is an enumerator and equals the cached last mode once boot is over |
| Modes.ModeCoherence | main/state.c:25-32 | the same as an invariant of every run from any coherent state |
| Modes.CachesAlwaysFit | main/nvs_store.c:20-22 | over every run from power-on the cached strings fit their buffers of 30, 30 and 20 bytes |
| ModeRecovery.BootOutcome | main/main.c:43 | the mode after boot is the stored one, unless some early event changed the mode, and then the last such change |
| ModeRecovery.EarlyStatusPress | main/state.c:25-28 | a status press during boot, with no other early event, ends in LOCAL iff LOCAL was stored |
| ModeRecovery.DurableModeIsRecent | main/nvs_store.c:125-128 | the mode a power cut leaves behind was on record at or after the last commit, for every choice of early write-backs and over any number of earlier power cuts |
| ModeRecovery.WrittenBackModeIsDurable | main/nvs_store.c:125-128 | once the medium has written the mode back, a power cut leaves the recorded mode although nothing was committed |
| ModeRecovery.RebootRestoresRecentMode | main/main.c:43 | from any power-on, after any run (boot, power cuts and mode changes during boot included), a reboot brings back a mode recorded at or after the last commit; where boot was over then, it was the mode in force |
| NvsStore.LimitsCoherence | main/nvs_store.c:88-96 | after set_limit the cache agrees with the store iff no write that was needed was refused |
| NvsStore.CredentialsCoherence | main/nvs_store.c:110-116 | the same for set_wlan_credentials |
| NvsStore.UdpServerCoherence | main/nvs_store.c:142-148 | the same for store_set_udp_server |
| NvsStore.OpModeCoherence | main/nvs_store.c:125-128 | the same for store_save_last_op_mode |
| Types.NarrowingIsLossless | main/nvs_store.c:98-108 | uint16 to int16 to uint16 is the identity, and so is the other direction |
| NvsStore.Store.StoreStart | main/nvs_store.c:62-85 | the cache becomes what Load finds in flash, defaults included, or stays zero if the store does not open |
| NvsStore.Store.SetLimit | main/nvs_store.c:88-96 | the store becomes LimitsSaved for every behaviour of the medium |
| NvsStore.Store.ReadString | main/nvs_store.c:38-45 | the stored text if it exists and fits 30 bytes with its terminator, else the empty default |
| NvsStore.StringReadBack | main/nvs_store.c:38-45 | a stored text of at most 29 characters is read as it is, anything else as the empty text |
| StoreRuns.CacheCoherence | main/nvs_store.c:62-148 | while storage works, the cache equals what a reload would produce after every run, power cycles included |
| StoreRuns.RebootAfterCommit | main/nvs_store.c:62-96 | a power cycle right after any committing request brings the whole cache back |
| StoreRuns.UncommittedRunLeavesNoTrace | main/nvs_store.c:88-148 | after any run without a successful commit or write-back, a power cut leaves the device as if none of the events had happened |
| StoreRuns.LimitsPersist | main/nvs_store.c:88-108 | the getters return posted limits at once and after any run that posts no others, over any number of power cuts |
| StoreRuns.CredentialsSurviveRestart | main/webserver.c:163-164 | the credentials a restart reads are the ones just posted, and nothing else in the cache changes |
| StoreRuns.UdpServerPersists | main/nvs_store.c:134-148 | a posted logging server and port are what the getters return after any run that posts no others, over any number of power cuts |
| StoreRuns.CredentialsPersist | main/nvs_store.c:110-123 | the same for posted credentials |
| StoreRuns.DefaultsUntilPosted | main/nvs_store.c:62-108 | with limits never stored, every run that posts none keeps the getters at 50, 100 and 0 while the store is open, and at zeros while it is not |
| Tokens.StrtokR | main/webserver.c:122-137 | each call cuts off exactly the first token in place, overwrites one delimiter at most, and leaves the rest intact |
| Tokens.SplitIsMaximalSegments | main/webserver.c:122-137 | the tokens are exactly the maximal non-empty delimiter-free segments, each once, from left to right |
| SettingsForm.HandlePair | main/webserver.c:126-136 | one turn of the loop assigns the limit the pair names and changes no byte outside the pair |
| SettingsForm.HandleLimits | main/webserver.c:120-141 | the nested in-place tokenising terminates with ParsedLimits of the original form |
| SettingsForm.HandleUdpLogging | main/webserver.c:167-203 | the same for the logging form, independently of what its uninitialised locals held |
| SettingsForm.UninitialisedIsIrrelevant | main/webserver.c:171-172 | if the form mentions a setting, the initial content of its local does not matter |
| FormMeaning.ParserMeaning | main/webserver.c:125-138 | the limits are the atoi of the last pair with the key "low", "high" or "afterrun_seconds", modulo 65536, or 0 if there is none |
| FormMeaning.OrderIsIrrelevant | main/webserver.c:125-138 | two forms with the same unambiguous settings give the same limits, whatever the order, repetitions and unknown keys |
| FormMeaning.ParsePrinted | main/webserver.c:120-141 | parsing the printed form gives back all three 16-bit limits |
| FormMeaning.AnyOrderPrints | data/index.html:73-81 | the three inputs of the page, named "low", "high" and "afterrun_seconds", in any order, form such a printed body, and it fits the buffer |
| FormMeaning.ParsePrintedUdp | main/webserver.c:167-203 | parsing the printed "udp_server" and "udp_port" gives back server (an empty one too) and port |
| Decimal.AtoiOfNumeral | main/webserver.c:129-135 | atoi reads back every printed number |
| Decimal.AtoiReadsIntegers | main/webserver.c:129-135 | atoi skips white space, honours one sign of either kind and stops at the first character that is no digit |
| Decimal.AtoiOfOtherText | main/webserver.c:129-135 | a text that is empty or starts with no white space, sign or digit is read as 0 |
| WebServer.ReceiveInto | main/webserver.c:212-222 | for every fragmentation the receive loop ends with exactly the whole body in the buffer |
| WebServer.ReceiveBody | main/webserver.c:205-224 | the same in a fresh 1000-byte buffer, terminated |
| WebServer.PostHandler | main/webserver.c:205-233 | however the body is fragmented, the state changes as by the event its form amounts to |
| WebServer.SettingsRoundTrip | main/webserver.c:205-240 | posting the printed limits in any order and fragmentation makes the getters return them at once and after reboots |
| WebServer.LoggingRoundTrip | main/webserver.c:205-240 | the same for the logging server and port, after any later run that posts no others |
| EnvSensor.EnvTask.Turn | main/env_sensor.c:21-46 | one turn of the loop is Sampled |
| EnvSensor.CalibrationByHistory | main/env_sensor.c:21-46 | cnt is the length of the OFF streak, offsets are those of the last streak of length 29 mod 30, published values use an earlier capture |
| EnvSensor.LastCaptureIsLast | main/env_sensor.c:38-43 | the capture used there is the last sample that ends a streak of length 29 modulo 30 |
| EnvSensor.PublishedIsDistance | main/env_sensor.c:37 | the published difference is the whole part of the distance between the corrected readings |
| Wlan.RetryCounter | main/wlan.c:24-44 | s_retry_num is min(3, disconnects since the last address), by number; the connected bit is set iff there ever was one |
| Wlan.FailBit | main/wlan.c:29-36 | the fail bit is set iff some disconnect was the fourth or later of its series |
| Wlan.ConnectCalls | main/wlan.c:27-36 | esp_wifi_connect is called once for each start and each disconnect before the fourth, and for nothing else |
| Wlan.StartDecision | main/wlan.c:88-112 | station mode iff an address precedes the fourth disconnect, access-point mode iff the fourth disconnect comes first |
| Wlan.StartDecides | main/wlan.c:88-92 | four disconnects or addresses always bring a decision |
| Wlan.LateWait | main/wlan.c:88-112 | a wait begun after k events ends at the first bit, or at once if it is already set; it decides otherwise than a timely one iff the fail bit came first and an address followed before k |
| Wlan.Wifi.Start | main/wlan.c:143-154 | the handlers run until the first bit is set, and the bits decide the mode |

## Left out

- Concurrency of handlers: assumed away as stated above, except for the relay writes (`Relay.ConcurrentChanges`); which calls racing handlers make is not modelled there, only what any calls they make do.
- Power cuts in the middle of a handler: they are modelled between handlers only.
- GPIO numbers: the two relay pins are two distinct abstract pins.
- Parsing of the credentials form: the tokeniser loop is that of the limits form; its effect on the store is modelled.
- handle_credentials restarting the device: the restart is a separate event that may follow at any time.
- Undefined behaviour in C (malformed pairs, oversized strings and bodies, receive errors, uninitialised locals read): excluded by the preconditions listed above.
- Float rounding: PM2.5 levels are only stored and compared, so they are reals, infinities or NaN; the sensor differences of main/env_sensor.c are reals.
- Overflow of the sample counter in main/env_sensor.c after 2^31 turns, and of esp_timer.
- main/env_sensor.c temperature log line and delays: no state depends on them. `env_start` is not called by `app_main`; the loop is modelled on its own.
- main/display.c, page serving, the status page, OTA update, net logging, Zigbee commissioning, binding and report configuration: drivers, vendor callbacks or user interface.
