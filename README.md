# Mustang vehicle model, in Dafny

This project models the Mustang vehicle model of the TinCAN RP2040 CAN
simulator bench (`firmware/rp2040/MustangModel.cpp`). The model keeps a
simulated Mustang's state: engine and road speed, four tire pressures,
coolant and oil temperatures, the VIN, the turn-signal flags and the
steering-wheel button hold. On every clock tick it re-broadcasts that state as
rate-limited CAN frames on nine emitters: 0x81, 0x204, 0x202, 0x156, 0x3B5,
0x40A (three frames), 0x3B3/0x3B2, 0x109 and 0x416. Operator commands arrive as
tokens and update the state.

The project has these modules:

- `Bytes`: the firmware's fixed-width integers, with the C++ conversions
  written out. Division truncates toward zero, narrowing keeps the low eight
  bits, and `unsigned long` subtraction wraps modulo 2^32.
- `Encoders`: the pure payload builders, one per identifier, and the button
  code table.
- `VehicleState`: the `Snapshot` datatype, an abstract value of all the file's
  statics. Also the initial state and `mustang_init`'s effect on it.
- `Interpreter`: `mustang_handleCommand` as a function on snapshots, with its
  properties.
- `Scheduler`: `mustang_tick` as a function on snapshots. The tick is the run
  of nine blocks in the firmware's order. The module also holds the frames the
  tick hands over, and its properties: rate limiting, hold expiry, blink
  phase, and order independence of what a tick sends.
- `Mustang`: class `MustangModel`. Its fields are the statics, and its fixed
  buffers (`msgButton`, `vin`, `vinMessages`, tire pressures, `tempMessage`)
  are arrays written in place. The transport is a flag saying whether one is
  attached, plus the log `sent` of every frame handed to it. Each entry point
  is proved against the `Interpreter` and `Scheduler` functions through the
  ghost abstraction `Snap()`.

Behaviour of the firmware that the model keeps:

- The VIN goes out in three frames under 0x40A. The pad 0xFF is the last byte
  of the third frame.
- The button code table has six buttons: UP, DOWN, LEFT, RIGHT, OK and
  SETTINGS.
- The blink phase flips only inside `send3BMessages`. That function runs only
  when the 0x3B3/0x3B2 block is due, and it returns before the phase check
  when no transport is attached.
- The button hold window is inclusive: the button payload is still sent
  exactly 100 ms after the press (`<=`).
- Temperature and tire bytes wrap modulo 256 with no clamping, because the
  code narrows them to `unsigned char`. `Encoders.TempByteMeaning` gives the
  Fahrenheit range that does not wrap, and `Interpreter.TireRoundTrip` states
  the wrap for tires.
- The tick runs its nine blocks in a fixed order. No block depends on
  another's effects, so the order does not matter:
  - `Scheduler.AnyOrder` shows that every order of the nine blocks reaches the
    same final state.
  - `Scheduler.TickFramesFromEntry` shows that each block of the tick sends
    what it would send from the state the tick started in.

## Model

| member | source | states |
|---|---|---|
| Bytes.TruncDiv | firmware/rp2040/MustangModel.cpp:348 | C++ `int` division by a positive divisor. The remainder has the dividend's sign and is smaller than the divisor, so the quotient rounds toward zero. |
| Bytes.Low8 | firmware/rp2040/MustangModel.cpp:394 | Narrowing to `unsigned char` (`& 0xFF`) gives the byte congruent to the value modulo 256. |
| Bytes.BigEndian16 | firmware/rp2040/MustangModel.cpp:351-352 | The high byte `(x >> 8) & 0xFF` and the low byte `x & 0xFF`, read back high-first, give the low 16 bits of `x`, also for negative `x`. |
| Bytes.Elapsed | firmware/rp2040/MustangModel.cpp:85 | `now - last` on `unsigned long` is the true difference when the clock has not wrapped, and 2^32 plus the difference when it has. |
| Encoders.VinFrameAt | firmware/rp2040/MustangModel.cpp:232-246 | Every byte of each VIN frame: tag 0xC1 at 0, the frame index at 1, then VIN character `6k + j - 2` while there is one, and the pad after it. |
| Encoders.VinPadOnlyAtEnd | firmware/rp2040/MustangModel.cpp:235-245 | Every data byte but the last byte of the third frame carries VIN character `6k + j - 2`, and that last byte holds the pad 0xFF. |
| Encoders.VinRoundTrip | firmware/rp2040/MustangModel.cpp:235-242 | A receiver that reads bytes 2..7 of the three frames in order gets back every 17-character VIN whose characters fit in a byte. |
| Encoders.RpmPayload | firmware/rp2040/MustangModel.cpp:345-352 | Bytes 3 and 4 of frame 0x204 hold `rpm / 2` (truncated) big-endian modulo 2^16, overwriting the 0x09C4 template; every other byte is zero. |
| Encoders.RpmExample | firmware/rp2040/MustangModel.cpp:348-352 | RPM 6000 is sent as 0x0BB8 in bytes 3 and 4. |
| Encoders.SpeedPayload | firmware/rp2040/MustangModel.cpp:361-368 | Bytes 6 and 7 of frame 0x202 hold `speed * 159` big-endian modulo 2^16, after the fixed bytes 00 00 00 00 60 00. |
| Encoders.SpeedExample | firmware/rp2040/MustangModel.cpp:364-368 | Speed 60 is sent as 0x2544 in bytes 6 and 7. |
| Encoders.TempByteMeaning | firmware/rp2040/MustangModel.cpp:181-183 | For -77..384 F the stored byte does not wrap, and byte minus 60 is the Celsius reading truncated toward zero (both signs). |
| Encoders.TempExample | firmware/rp2040/MustangModel.cpp:182-186 | `TEMP COOLANT 212` stores 160. |
| Encoders.TirePayload | firmware/rp2040/MustangModel.cpp:387-395 | Frame 0x3B5 carries tire `i`'s kPa figure, narrowed to a byte, at byte `2i + 1`, with every even byte zero. |
| Encoders.BlinkerPayload | firmware/rp2040/MustangModel.cpp:312-325 | Byte 4 is 0x18 exactly when the phase is on and the right blinker is active (0x10 otherwise). Byte 6 is 0x40 exactly when the phase is on and the left blinker is active (0x00 otherwise). The other six bytes are the template. |
| Encoders.BlinkersInLockstep | firmware/rp2040/MustangModel.cpp:322-325 | With both blinkers on, the left and right bits are both set or both clear, exactly as the phase is. |
| Encoders.ButtonCodeDomain | firmware/rp2040/MustangModel.cpp:248-267 | Exactly UP, DOWN, LEFT, RIGHT, OK and SETTINGS have a code, and only SETTINGS sets byte 1. |
| Encoders.ButtonCodesDistinct | firmware/rp2040/MustangModel.cpp:248-267 | No two buttons share a code, so a receiver can tell which one was pressed. |
| VehicleState.Initial | firmware/rp2040/MustangModel.cpp:5-62 | The statics at start-up have the buffer sizes the model relies on, no transport, the placeholder VIN, a disarmed button, and both blinkers and the phase off. |
| VehicleState.Attach | firmware/rp2040/MustangModel.cpp:78-81 | `mustang_init` records the transport, repacks the VIN frames from the current VIN, and changes nothing else. |
| Interpreter.TireIndex | firmware/rp2040/MustangModel.cpp:150-151 | A name is matched to the slot of the tire with that name, and to none exactly when no tire has that name. |
| Interpreter.RejectedCommandsChangeNothing | firmware/rp2040/MustangModel.cpp:137-228 | An empty command, an unknown command word, or a known word with too few arguments leaves the whole state unchanged. |
| Interpreter.RpmAndSpeedCommands | firmware/rp2040/MustangModel.cpp:142-145 | `RPM n` and `SPEED n` store exactly `n` and change nothing else. |
| Interpreter.TireCommandTouchesOneSlot | firmware/rp2040/MustangModel.cpp:146-166 | A `TIRE` command with a known name overwrites exactly that tire's pressure; with an unknown name it changes nothing. |
| Interpreter.TireRoundTrip | firmware/rp2040/MustangModel.cpp:146-166 | After `TIRE name p`, frame 0x3B5 carries `p` modulo 256 in the named tire's byte, and the other tires' bytes as before. |
| Interpreter.VinCommand | firmware/rp2040/MustangModel.cpp:167-178 | A VIN of any length but 17 leaves the state untouched. A 17-character VIN replaces the old one, and the frames are repacked from it alone. |
| Interpreter.VinCommandIdempotent | firmware/rp2040/MustangModel.cpp:167-178 | Setting the same VIN twice gives the same state, and so the same three frames, as setting it once. |
| Interpreter.TempCommand | firmware/rp2040/MustangModel.cpp:179-192 | `TEMP COOLANT f` writes only byte 0 and `TEMP OIL f` only byte 1 of the temperature payload. Any other kind changes nothing. |
| Interpreter.BlinkerCommand | firmware/rp2040/MustangModel.cpp:201-215 | LEFT, RIGHT, BOTH and OFF set both flags as named. Any other argument changes nothing. |
| Interpreter.HazardsTwiceRestores | firmware/rp2040/MustangModel.cpp:216-218 | `HAZARDS` inverts both flags whatever they were, and a second `HAZARDS` restores the whole state. |
| Interpreter.ButtonCommand | firmware/rp2040/MustangModel.cpp:219-221 | A button command loads that button's code into bytes 0 and 1, arms the button and starts the hold at the press time. Bytes 2..7 and every other part of the state are untouched. |
| Scheduler.StepFrame | firmware/rp2040/MustangModel.cpp:83-135 | One block of the tick moves only its own timer, to `now` exactly when it was due. It changes the button only for block 0x81 and the blink phase only for block 0x3B3/0x3B2. No setting and no VIN frame changes. |
| Scheduler.FiresIffDue | firmware/rp2040/MustangModel.cpp:85-134 | A block hands frames over exactly when a transport is attached and its interval has passed. A due block records `now`; a block that is not due changes nothing. |
| Scheduler.RunTimer | firmware/rp2040/MustangModel.cpp:83-135 | In a run of distinct blocks, an emitter of the run that was due on entry records `now`, and every other timer keeps its time. |
| Scheduler.RunKeepsSettings | firmware/rp2040/MustangModel.cpp:83-135 | No run of blocks changes a vehicle setting, the VIN or its frames, the transport or the press time. |
| Scheduler.RunButton | firmware/rp2040/MustangModel.cpp:84-94 | A run resolves the button hold only through the 0x81 block, judged from the entry state, because no other block touches what it reads. |
| Scheduler.RunBlinker | firmware/rp2040/MustangModel.cpp:121-124 | A run flips the blink phase only through the blinker block, judged from the entry state. |
| Scheduler.TickOrderCovers | firmware/rp2040/MustangModel.cpp:83-135 | The tick runs one block per emitter, and no block twice. |
| Scheduler.TickTimer | firmware/rp2040/MustangModel.cpp:85-134 | After a tick, each emitter's timer is `now` exactly when it was due on entry, and is otherwise unchanged. |
| Scheduler.TickTimers | firmware/rp2040/MustangModel.cpp:85-134 | All nine timers after a tick, from the entry state alone. |
| Scheduler.TickStateIsOutcome | firmware/rp2040/MustangModel.cpp:83-135 | Running the nine blocks in turn equals a reference outcome computed from the entry state alone. |
| Scheduler.AnyOrder | firmware/rp2040/MustangModel.cpp:83-135 | Running all nine blocks once each, in any order, reaches the same reference outcome as the firmware's order. |
| Scheduler.AnyOrderTimers | firmware/rp2040/MustangModel.cpp:85-134 | Running all nine blocks once each, in any order, leaves every timer at `now` exactly when it was due on entry. |
| Scheduler.TickBlinkPhase | firmware/rp2040/MustangModel.cpp:121-124 | After a tick the phase is flipped, and the flip time is `now`, exactly when a transport is attached, the blinker block was due, and 500 ms had passed since the last flip. |
| Scheduler.TickButtonHold | firmware/rp2040/MustangModel.cpp:85-94 | When the 0x81 block was due and the hold had expired, a tick disarms the button and clears byte 1. Otherwise both are left as they were. |
| Scheduler.TickKeepsSettings | firmware/rp2040/MustangModel.cpp:83-135 | A tick changes no vehicle setting, VIN, VIN frame, blinker flag, transport or press time. |
| Scheduler.RunSilentWithoutTransport | firmware/rp2040/MustangModel.cpp:274 | With no transport, no run of blocks hands anything over. |
| Scheduler.NoTransportNoFrames | firmware/rp2040/MustangModel.cpp:83-135 | Without a transport, a tick sends nothing, but its timers still advance as if it had. |
| Scheduler.RunIdle | firmware/rp2040/MustangModel.cpp:83-135 | When nothing is due, a run changes nothing and sends nothing. |
| Scheduler.TickTwiceSameInstant | firmware/rp2040/MustangModel.cpp:83-135 | Rate limiting: a second tick at the same `now` finds nothing due, so it sends nothing and changes nothing. |
| Scheduler.StepKeepsEmission | firmware/rp2040/MustangModel.cpp:83-135 | One block never changes what a different block hands over. |
| Scheduler.StepKeepsDue | firmware/rp2040/MustangModel.cpp:83-135 | One block leaves the transport and another block's due-ness unchanged. |
| Scheduler.StepKeepsFrames | firmware/rp2040/MustangModel.cpp:83-135 | One block leaves unchanged the frames another block builds. |
| Scheduler.EntryFramesAgree | firmware/rp2040/MustangModel.cpp:83-135 | Two states where each block of a run would send the same frames send the same sequence over the run. |
| Scheduler.RunFramesFromEntry | firmware/rp2040/MustangModel.cpp:83-135 | The frames of a run of distinct blocks are the frames each block would send from the entry state, in run order. |
| Scheduler.TickFramesFromEntry | firmware/rp2040/MustangModel.cpp:83-135 | The frames of a tick are, in the firmware's order, what each block would send from the state the tick started in. |
| Scheduler.PressThenTick | firmware/rp2040/MustangModel.cpp:85-94 | After a button press and a tick where 0x81 is due, the first frame carries the button's payload while the 100 ms hold lasts. After that it carries the idle payload, and the button is disarmed with byte 1 cleared. |
| Mustang.MustangModel.constructor | firmware/rp2040/MustangModel.cpp:5-62 | The statics start at the initial snapshot, with an empty transport log. |
| Mustang.MustangModel.Init | firmware/rp2040/MustangModel.cpp:78-81 | `mustang_init` gives exactly `Attach`'s state and sends nothing. |
| Mustang.MustangModel.Tick | firmware/rp2040/MustangModel.cpp:83-135 | The in-place tick reaches exactly the state of the nine-block run. It appends exactly that run's frames to the transport log, so every Scheduler property above holds of it. |
| Mustang.MustangModel.TickButton | firmware/rp2040/MustangModel.cpp:84-94 | The 0x81 block in place equals the 0x81 step, and it appends what that step hands over. |
| Mustang.MustangModel.SendButtonFrame | firmware/rp2040/MustangModel.cpp:86-92 | Sends the button payload while the button is held. Otherwise it releases the button and sends the idle payload. |
| Mustang.MustangModel.ReleaseButton | firmware/rp2040/MustangModel.cpp:89-90 | Disarms the button and clears byte 1, nothing else. |
| Mustang.MustangModel.TickRpm | firmware/rp2040/MustangModel.cpp:96-99 | The 0x204 block in place equals its step, and appends its emission. |
| Mustang.MustangModel.TickSpeed | firmware/rp2040/MustangModel.cpp:101-104 | The 0x202 block in place equals its step, and appends its emission. |
| Mustang.MustangModel.TickTemperature | firmware/rp2040/MustangModel.cpp:106-109 | The 0x156 block in place equals its step, and appends its emission. |
| Mustang.MustangModel.TickTirePressure | firmware/rp2040/MustangModel.cpp:111-114 | The 0x3B5 block in place equals its step, and appends its emission. |
| Mustang.MustangModel.TickVin | firmware/rp2040/MustangModel.cpp:116-119 | The 0x40A block in place equals its step, and appends its emission. |
| Mustang.MustangModel.TickBlinkers | firmware/rp2040/MustangModel.cpp:121-124 | The 0x3B3/0x3B2 block in place equals its step, phase flip included, and appends its emission. |
| Mustang.MustangModel.TickDrive109 | firmware/rp2040/MustangModel.cpp:126-129 | The 0x109 block in place equals its step, and appends its emission. |
| Mustang.MustangModel.TickAbsTrac | firmware/rp2040/MustangModel.cpp:131-134 | The 0x416 block in place equals its step, and appends its emission. |
| Mustang.MustangModel.HandleCommand | firmware/rp2040/MustangModel.cpp:137-228 | The in-place interpreter reaches exactly the interpreter function's state and sends nothing, so every Interpreter property above holds of it. |
| Mustang.MustangModel.StoreRpm | firmware/rp2040/MustangModel.cpp:142-143 | Only the stored engine speed changes. |
| Mustang.MustangModel.StoreSpeed | firmware/rp2040/MustangModel.cpp:144-145 | Only the stored vehicle speed changes. |
| Mustang.MustangModel.SetTirePressure | firmware/rp2040/MustangModel.cpp:146-166 | The linear search over the tire names writes the first matching slot and nothing else. It writes nothing when no name matches. |
| Mustang.MustangModel.SetVin | firmware/rp2040/MustangModel.cpp:167-178 | A wrong-length VIN is refused untouched. Otherwise the VIN buffer takes the new text and the frames are repacked from it. |
| Mustang.MustangModel.SetTemperature | firmware/rp2040/MustangModel.cpp:179-192 | Writes the converted byte to byte 0 for COOLANT and byte 1 for OIL, and nothing for any other kind. |
| Mustang.MustangModel.SetBlinker | firmware/rp2040/MustangModel.cpp:201-215 | Sets the two flags as the interpreter function does. |
| Mustang.MustangModel.ToggleHazardLights | firmware/rp2040/MustangModel.cpp:216-218 | Inverts both blinker flags. |
| Mustang.MustangModel.PrepareVinMessages | firmware/rp2040/MustangModel.cpp:232-246 | The clearing pass, the character loop and the pad leave the VIN frame buffer equal to the reference packing of the current VIN. |
| Mustang.MustangModel.HandleButtonCommand | firmware/rp2040/MustangModel.cpp:248-271 | Loads the button's code if it has one, starts the hold at the press time and arms the button. |
| Mustang.MustangModel.LoadCommandCode | firmware/rp2040/MustangModel.cpp:249-267 | Bytes 0 and 1 take the code of the named button from the code table. An unknown name writes nothing. |
| Mustang.MustangModel.LoadButtonCode | firmware/rp2040/MustangModel.cpp:250-251 | Only bytes 0 and 1 of the button payload change. |
| Mustang.MustangModel.ArmButton | firmware/rp2040/MustangModel.cpp:269-270 | Only the press time and the armed flag change. |
| Mustang.MustangModel.Send | firmware/rp2040/MustangModel.cpp:275 | Hands one frame to the transport: the log grows by exactly that frame. |
| Mustang.MustangModel.SendButtonMessage | firmware/rp2040/MustangModel.cpp:273-280 | With a transport, frame 0x81 carries the current button payload. Without one, nothing is sent. |
| Mustang.MustangModel.SendDefaultMessage | firmware/rp2040/MustangModel.cpp:282-289 | With a transport, frame 0x81 carries the idle payload. Without one, nothing is sent. |
| Mustang.MustangModel.SendVinMessages | firmware/rp2040/MustangModel.cpp:291-307 | With a transport, the three VIN frames go out under 0x40A in order. Without one, nothing is sent. |
| Mustang.MustangModel.Send3BMessages | firmware/rp2040/MustangModel.cpp:309-329 | Without a transport it changes nothing and sends nothing. Otherwise it flips the phase when 500 ms have passed, then sends the same blinker payload under 0x3B3 and 0x3B2. |
| Mustang.MustangModel.FlipBlinkPhase | firmware/rp2040/MustangModel.cpp:314-317 | Inverts the phase and records the flip time. |
| Mustang.MustangModel.Send109Message | firmware/rp2040/MustangModel.cpp:331-336 | With a transport, the constant drivetrain frame 0x109 goes out. |
| Mustang.MustangModel.SendAbsTracMessage | firmware/rp2040/MustangModel.cpp:338-343 | With a transport, the constant stability-control frame 0x416 goes out. |
| Mustang.MustangModel.SendRpmMessage | firmware/rp2040/MustangModel.cpp:345-359 | With a transport, frame 0x204 carries the RPM payload of the given value. |
| Mustang.MustangModel.SendSpeedMessage | firmware/rp2040/MustangModel.cpp:361-375 | With a transport, frame 0x202 carries the speed payload of the given value. |
| Mustang.MustangModel.SendTemperatureMessage | firmware/rp2040/MustangModel.cpp:377-385 | With a transport, frame 0x156 carries the temperature buffer as it stands. |
| Mustang.MustangModel.SendTirePressureMessage | firmware/rp2040/MustangModel.cpp:387-397 | The loop over four tires builds exactly the reference tire payload, and with a transport it goes out under 0x3B5. |

## Left out

- The `MCP_CAN` driver is reduced to "attached or not" and a log of handed-over frames. The status code `sendMsgBuf` returns, and every send failure, are not modelled: the firmware only logs them.
- All `Serial` output, `g_verboseSerial` and the `canLog` throttle are left out. They produce diagnostics only and change no state.
- `millis()` is not called. The clock reading a button command takes is a `pressTime` parameter, and the tick's `now` is a parameter as in the firmware.
- Arduino `String::toInt` and `String::toFloat` are not modelled. A command arrives as tokens that already carry their decoded number (`Interpreter.Token`).
- Interpreter.SetTire: a tire's pressure is kept as the whole kPa figure that `(int)(psi * 6.895f + 0.5f)` gives when frame 0x3B5 is built, not as a `float` PSI value. The single-precision rounding of that conversion is not modelled. The default 35.0 PSI is held as its computed value, 241 kPa.
- A VIN character is a Dafny `char`, and its byte on the wire is its code modulo 256. The Arduino `String` byte encoding and the terminating NUL of the `vin[18]` buffer are not modelled.
- C++ signed `int` overflow (`speed * 159`, an out-of-range `toInt`) is undefined behaviour in the firmware. The model computes on unbounded integers and narrows explicitly where the firmware narrows to a byte.
- The F150 model and the headers are not part of this model.

