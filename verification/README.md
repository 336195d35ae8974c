# Yogurt maker: app controller and firmware control loop

A Dafny model of the two ends of a Bluetooth Low Energy link between an iOS
app and an ESP32 yogurt maker.

**The shared wire format** (`wire.dfy`):
- five characteristics under one service, identified by 128-bit UUIDs;
- a one-byte status, read as a bit set with running = bit 0, cooking = bit 1, cooling = bit 2 and incubating = bit 3;
- four-byte little-endian millisecond counts for the cook and incubation timers;
- a two-byte inner/outer temperature pair.

**The app's `ViewController`** (`status_options.dfy`, `channels.dfy`, `view_controller.dfy`):
- The `StatusOptions` flag set and the toggle command. Before a write, a status of exactly {running} gains cooking.
- The label priority cooking > cooling > incubating > idle, which also blanks the timer for cooling and idle.
- The play/pause button.
- The switch that binds discovered characteristics to the five slots by UUID, subscribing to each.
- The decoding in `didUpdateValueFor`.
- The class keeps the controller's fields and has one method per callback or action. Calls into CoreBluetooth and the notification centre are appended to a `requests` log.
- A Swift trap is a `trapped` result. The traps are: a force-unwrap of a nil implicitly-unwrapped optional (`device`, a slot); a subscript or `load(as:)` past the end of a payload; and `peripheral.services?[0]` on an empty list, which traps on the index. The fields keep whatever had been assigned before the trapping statement.

**The firmware's `main.cc`** (`firmware.dfy`):
- The status `std::bitset<8>` and the `onWrite` callbacks for status and incubation time.
- `runControl`, which moves cooking → cooling → incubating (running cleared) → idle and counts down two `uint32_t` timers.
- `loop`, which computes the elapsed time with `uint32_t` wrap-around, commits `next_status`, announces it only when it changed, and drives the heater pin.
- `Control` is the specification function for one step, and `Controller.RunControl` is proved equal to it.
- `Controller.Loop` runs it with the temperature pinned to the target, as the source does at line 56.
- Notifications are logged in `notes` as (UUID, value). `Payload` gives the bytes each value is sent as.

`protocol.dfy` connects the two ends:
- the firmware's bit indices and the app's flags name the same bits;
- a firmware notification decodes in the app to the value sent;
- a status the app writes is the status the firmware stores;
- the app's label follows the firmware's phase.

## Model

| member | source | states |
|---|---|---|
| StatusFlags.FlagBits | app/proyo/ViewController.swift:15-18 | running, cooking, cooling and incubating are bits 0, 1, 2 and 3, and `Contains` tests exactly that bit |
| StatusFlags.Toggled | app/proyo/ViewController.swift:95-99 | the toggle differs from the old status in the running bit alone, and running is set afterwards exactly when it was clear before |
| StatusFlags.WithCookingDefault | app/proyo/ViewController.swift:109-111 | a status of exactly {running} becomes {running, cooking}; every other status is left as it is |
| StatusFlags.ToggleFromIdle | app/proyo/ViewController.swift:94-112 | from the empty status, toggling and applying the default gives 0b00000011 |
| StatusFlags.LabelOf | app/proyo/ViewController.swift:129-139 | the label is Cooking iff cooking is set, Cooling iff cooling is the highest set flag, Incubating iff incubating is the highest, else Idle |
| StatusFlags.ClearsTimerExactly | app/proyo/ViewController.swift:131-139 | the timer text is blanked exactly when cooking is clear and either cooling is set or incubating is clear |
| Wire.DecodeStatus | app/proyo/ViewController.swift:219 | an empty payload decodes to 0, any other payload to the bits of its first byte |
| Wire.StatusByteRoundTrip | app/proyo/ViewController.swift:15-18 | every one-byte status payload decodes to bits that the firmware's encoding turns back into the same byte |
| Wire.EncodeStatus | hw/main/bt.h:55-56 | the firmware's status payload is one byte, which the app's decoding turns back into the same bits |
| Wire.LoadWord | app/proyo/ViewController.swift:233-235 | reading a `UInt32` from a payload succeeds exactly when it holds at least four bytes |
| Wire.EncodeTime | hw/main/bt.h:72-73 | the firmware's time payload is four bytes, from which the app's load gives back the same count |
| Wire.LoadWordInverse | app/proyo/ViewController.swift:245-247 | re-encoding a loaded count gives back the four bytes it was read from |
| Channels.BindOne | app/proyo/ViewController.swift:192-205 | one arm of the switch binds exactly the slot whose UUID matches, and leaves every other slot |
| Channels.BindAll | app/proyo/ViewController.swift:191-207 | after the loop, every slot whose UUID was discovered holds a discovered characteristic with that UUID; a slot whose UUID was not discovered is unchanged; well-formed slots stay well-formed |
| Channels.LastMatchWins | app/proyo/ViewController.swift:191-207 | when a UUID is discovered more than once, its slot holds the last characteristic with it |
| Channels.Route | app/proyo/ViewController.swift:217-261 | an update goes to the first slot (status, cook, incubation, temps) holding the characteristic, and is ignored when no such slot holds it |
| Channels.RouteToOwnSlot | app/proyo/ViewController.swift:217-261 | in well-formed slots, an update of a bound characteristic reaches the handler of its own slot |
| App.Refreshed | app/proyo/ViewController.swift:229-230 | a refresh sets the label from the status, blanks the timer exactly for Cooling and Idle, shows pause iff running, and changes nothing else |
| App.Receive | app/proyo/ViewController.swift:217-261 | status: replaced by the first byte (0 when empty) and the alert is posted while incubating; cook time: traps below four bytes, else stored and shown only while cooking; incubation time: empty gives 0, one to three bytes trap, else stored and shown only while incubating; temps: byte 0 inner, byte 1 outer, traps below two bytes; charts: no effect |
| App.InitialReads | app/proyo/ViewController.swift:209-211 | reads of status, cook time and incubation time in that order, as many as the leading bound slots, each on its own slot's characteristic |
| App.Subscriptions | app/proyo/ViewController.swift:206 | one notify subscription per discovered characteristic, in discovery order |
| App.ViewController.constructor | app/proyo/ViewController.swift:31-43 | all slots unbound, no device, status 0, counts and temperatures 0, nothing logged |
| App.ViewController.ToggleDevice | app/proyo/ViewController.swift:94-103 | the running bit is flipped, the default is applied when the status slot is bound, the byte is written, and label and button are refreshed; traps when the slot is bound but no device is known |
| App.ViewController.UpdateStatus | app/proyo/ViewController.swift:105-113 | with the status slot unbound nothing is written and the default is not applied; otherwise the default is applied and the one-byte status is written |
| App.ViewController.UpdateActionButton | app/proyo/ViewController.swift:115-121 | the button shows pause iff running |
| App.ViewController.UpdateStatusText | app/proyo/ViewController.swift:127-145 | the label becomes `LabelOf(status)`, and the timer text is blanked exactly for Cooling and Idle |
| App.ViewController.DidUpdateState | app/proyo/ViewController.swift:151-156 | scanning for the service is requested exactly when the radio is powered on |
| App.ViewController.DidDiscover | app/proyo/ViewController.swift:158-165 | the peripheral is connected to and remembered |
| App.ViewController.DidConnect | app/proyo/ViewController.swift:167-170 | the scan is stopped and service discovery requested; traps without a device |
| App.ViewController.DidDisconnect | app/proyo/ViewController.swift:172-177 | the device is forgotten and a new manager is started; slots and cached values are kept |
| App.ViewController.DidDiscoverServices | app/proyo/ViewController.swift:183-186 | characteristics of the first service are discovered; traps on an empty service list |
| App.ViewController.DidDiscoverCharacteristics | app/proyo/ViewController.swift:188-212 | slots become `BindAll` of the discovered list, each is subscribed, then status, cook and incubation time are read, trapping at the first of these slots that is unbound |
| App.ViewController.DidUpdateValue | app/proyo/ViewController.swift:214-262 | the cached state, the log and the trap are exactly those of `Receive` on the routed channel; an unrouted update changes nothing |
| App.ViewController.Bind | app/proyo/ViewController.swift:192-205 | the slots after one arm of the identifier switch are exactly `BindOne` of the slots before |
| App.ViewController.ReadInitialValues | app/proyo/ViewController.swift:209-211 | status, cook time and incubation time are read in that order, and the call traps exactly when one of those three slots is unbound |
| App.ViewController.StatusUpdated | app/proyo/ViewController.swift:218-230 | the cached state and the posted alert are exactly those `Receive` gives for the status channel |
| App.ViewController.CookTimeUpdated | app/proyo/ViewController.swift:232-238 | the cached state and the trap are exactly those `Receive` gives for the cook-time channel, and nothing is logged |
| App.ViewController.IncubationTimeUpdated | app/proyo/ViewController.swift:240-251 | the cached state and the trap are exactly those `Receive` gives for the incubation-time channel, and nothing is logged |
| App.ViewController.TempsUpdated | app/proyo/ViewController.swift:253-256 | the cached state and the trap are exactly those `Receive` gives for the temperatures channel, and nothing is logged |
| App.ToggleFromIdleScenario | app/proyo/ViewController.swift:94-112 | with the status slot bound and a device known, one toggle from the empty status writes the single byte 0x03 and shows Cooking with pause |
| Firmware.Set | hw/main/main.cc:61 | setting bit i makes bit i test true |
| Firmware.Reset | hw/main/main.cc:89-91 | resetting bit i makes bit i test false |
| Firmware.Flip | hw/main/main.cc:92 | flipping bit i inverts bit i |
| Firmware.OtherBitsKept | hw/main/main.cc:89-92 | set, reset and flip of bit i leave every other bit as it was |
| Firmware.Payload | hw/main/bt.h:52-75 | a time value is sent as four bytes the app loads back to it; a status is sent as one byte the app decodes back to it |
| Firmware.TargetTemp | hw/main/main.cc:54 | the target is 85 when cooking is set and 43 otherwise |
| Firmware.Control | hw/main/main.cc:45-98 | not running: nothing changes and the heater is off; cooling: at or below the target, next status is exactly {incubating}; running with no mode: no-op; heater on iff in the cooking or incubating phase and at least 5 from the target; timers never increase; in tolerance, the active timer drops by exactly delta, or becomes 0 with cooking going to (status & 0xF0) \| 0x05 and incubating to status & 0xF0; the other timer is unchanged; the remaining time is announced twice while counting and once when it runs out |
| Firmware.PinnedTemperatureNeverHeats | hw/main/main.cc:53-56 | with the temperature pinned to the target, the heater is never switched on |
| Firmware.Elapsed | hw/main/main.cc:103 | the delta is 0 on the first pass, `now - last` when that is not negative, and `now + 2^32 - last` when the clock wrapped |
| Firmware.Controller.constructor | hw/main/main.cc:32-38 | status 0, timers at 30 minutes and 8 hours, and both timers announced |
| Firmware.Controller.OnStatusWrite | hw/main/main.cc:19-21 | the first byte written becomes the status, or the string terminator 0 when the value is empty |
| Firmware.Controller.OnIncubationTimeWrite | hw/main/main.cc:23-28 | the first four bytes of the value and its terminator, little-endian, become the incubation timer; defined exactly for values of three bytes or more |
| Firmware.Controller.RunControl | hw/main/main.cc:45-98 | the next status, heater, timers and notifications are exactly those of `Control` on the current status |
| Firmware.Controller.Loop | hw/main/main.cc:100-111 | a `Control` step with delta `Elapsed(last, now)` and the temperature pinned; the status is committed and announced only when it changed; the heater pin follows the heater and stays off; the time is remembered |
| Firmware.CookCountdown | hw/main/main.cc:83-86 | over any passes whose deltas sum to less than the cook timer, cooking continues and the timer drops by exactly the sum |
| Firmware.StoppedStaysStopped | hw/main/main.cc:49-50 | a status without running is left unchanged by any number of passes |
| Firmware.CookingEndsInIdleIncubation | hw/main/main.cc:58-92 | {running, cooking} whose timer runs out becomes {running, cooling}, then {incubating}, where it stays |
| Firmware.IncubationEndsIdle | hw/main/main.cc:74-92 | {running, incubating} whose timer runs out becomes idle |
| Protocol.ChannelFor | app/proyo/ViewController.swift:192-205 | an identifier maps to the slot carrying it, or to none when no slot does |
| Protocol.FlagsAgree | hw/main/main.cc:12-15 | bit index i of the firmware's bit set and the app's flag of the same name test the same bit |
| Protocol.AppWriteReachesFirmware | hw/main/main.cc:19-21 | the status byte the app writes, handed to the firmware's write callback, becomes exactly the app's status |
| Protocol.StatusNoteDecoded | app/proyo/ViewController.swift:218-230 | a firmware status notification sets the app's status to exactly its bits, shows pause iff running, and posts the alert iff incubating |
| Protocol.TimeNoteDecoded | app/proyo/ViewController.swift:232-251 | a firmware time notification sets the matching duration to the count sent, never traps, and leaves the other duration |
| Protocol.StartScenario | hw/main/main.cc:19-21 | the byte the app writes on its first toggle from idle puts the firmware into {running, cooking}, its cooking phase |
| Protocol.FirmwareRunScenario | hw/main/main.cc:45-111 | example run: from {running, cooking}, the firmware reaches {running, cooling} when the cook time has passed and {incubating} on the next pass, announcing each |
| Protocol.AppFollowsRunScenario | app/proyo/ViewController.swift:218-230 | example run: the app shown those two announcements displays Cooling with the timer blanked, then Incubating with play and the alert |
| Protocol.LabelMatchesPhase | app/proyo/ViewController.swift:127-139 | the app shows Cooking in the firmware's cooking phase, Incubating in its incubating phase, Cooling once cooking is cleared with cooling set, and Idle with no mode |

## Left out

- UIKit layout, images, the connecting spinner and button rendering (ViewController.swift:24-92) are presentation only. The button is the boolean `showsPause`.
- The timer text is the millisecond count it is computed from. `DateComponentsFormatter` and the `Double(ms) / 1000.0` conversion are floating point and library formatting.
- CoreBluetooth and the notification centre are foreign frameworks. Their calls are entries in the `requests` log, and their callbacks are the methods' inputs.
- The `print` calls at lines 257 and 268 and the `didWriteValueFor` handler only log.
- A nil `characteristic.value`, `service.characteristics` or `peripheral.services` (the last traps at ViewController.swift:185) is not modelled: payloads and characteristic lists are plain sequences. Alignment of Swift's `load(as:)` is not modelled either.
- `Serial`, `millis`, `delay`, `digitalWrite` and `analogRead` are hardware I/O. The time is the input of `Loop`, and the temperature is an input of `RunControl`. The heater pin is the field `acEnable`.
- The BLE server setup and advertising in bt.h are out of scope. Only its payload layout is modelled (`Payload`).
- Firmware.Controller.OnIncubationTimeWrite: values shorter than three bytes make the source read past the string's storage, which is undefined behaviour. The model keeps the old timer and reports `defined = false`.
- The two ends are modelled as separate objects. Radio delivery, ordering and loss between them are not modelled.
- Wire.LoadWord, App.Receive, App.ViewController.CookTimeUpdated, App.ViewController.IncubationTimeUpdated: a `load(as:)` past the end of a payload (ViewController.swift:234, 246) is modelled as a trap, which is what a debug build does; its bounds check is a debug-only precondition, so an optimized build reads past the payload instead (undefined behaviour). The subscripts of the temperatures arm (lines 255-256) trap in every build.
- Firmware.Controller.OnStatusWrite, Firmware.Controller.OnIncubationTimeWrite, Firmware.Controller.RunControl, Firmware.Controller.Loop: each write callback and each loop pass is atomic, and they interleave only between passes. On the device the write callbacks run on the Bluetooth task concurrently with `loop`, so a status write landing between main.cc:46 and the commit at lines 104-105 is overwritten by `next_status` (a pause can be lost), and an incubation-time write races the decrement at line 85. The model also reads `status` once per pass, where the source re-reads it at lines 49, 54, 58, 70 and 74.
- Some behaviours of the code that a reader might not expect, which the model keeps:
  - The incubation alert is posted on every status update with incubating set (level-triggered), not only on the transition into incubating.
  - A disconnect forgets only the device. The slots and the cached values survive until they are rebound or overwritten.
  - A duration payload of four or more bytes is read from its first four bytes.
  - A cook-time payload of fewer than four bytes, including an empty one, traps.
  - An empty incubation-time payload means 0.
