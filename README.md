# FET driver and chassis driver: a verified model

This project models two small drivers. Each one talks to a slave module over a
byte transport.

- **The FET driver (`Fets`).** It switches the outputs of a seven-output FET
  module. The outputs can be driven as digital, PWM or waveform, or set to
  follow a sensor input. The driver also reads the module's telemetry back.
  - Every instance shares one process-wide mode: Init, Module, Port or
    Conflict. Building a "module" instance (no port) and a "port" instance (a
    bound output port) in the same program puts the mode in Conflict, and it
    never leaves it.
  - Every call first resolves the output port it acts on, and the input port
    where it needs one. It then checks its arguments in a fixed order and
    returns the first failing check's negative code. Otherwise it sends one
    4-byte frame: `[code<<3 | port, parameter, XOR of the first two, address]`.
  - Telemetry arrives as the same kind of 4-byte frame. A 4-byte sliding
    window over the received bytes picks out the frames whose address and
    checksum match. Their first two bytes become the cached input and output
    state.
- **The chassis driver (`UnderBody`).** It commands an omnidirectional base,
  in rectangular coordinates (vX, vY, omega) or polar coordinates (speed,
  direction, omega).
  - Arguments are checked against 8000 mm/s and 500 deg/s. Each violation has
    its own code.
  - The polar direction is normalised.
  - The three values are packed in sign-magnitude form into an 8-byte frame:
    six payload bytes, an XOR checksum and a mode byte.

Modules:

| file | module | contents |
|---|---|---|
| `bytes.dfy` | `Bytes` | conversions between bytes (`bv8`) and integers |
| `transport.dfy` | `Transport` | class `Channel`: the physical send/receive pair, as a log of sent bytes and a queue of bytes to receive |
| `fets_protocol.dfy` | `FetsProtocol` | the FET driver's pure logic, as functions. It covers ports, the mode machine, port resolution, each command's checks as a `Plan` (reject with a code, or issue one command), the command frame and its parser, and the telemetry decoder, both as a byte-by-byte `Step` fold and as the reference `LastMatch` searched from the end |
| `fets_driver.dfy` | `FetsDriver` | class `ModeCell` (the shared mode) and class `Fets` with the driver's fields and methods. Each method is proved against the functions of `FetsProtocol` |
| `underbody_protocol.dfy` | `UnderBodyProtocol` | the chassis driver's pure logic. It covers the bounds and codes, direction normalisation, sign-magnitude packing with its inverse, the 8-byte frame with a decoder for the receiving side, and truncation of a real toward zero |
| `underbody_driver.dfy` | `UnderBodyDriver` | the chassis commands as methods over a `Channel`. The direction loops and the packing into an array are kept as the source writes them |

The model follows the code:

- **Direction normalisation.** A polar direction of exactly 360 (or any
  positive multiple of 360) is sent as 360, not 0, because the first loop runs
  only while the direction exceeds 360 (UnderBody.cpp:36).
- **PWM scaling.** The PWM byte is `duty * 127` truncated, not rounded
  (Fets.cpp:50).
- **Readers with no port named.** With no argument, each reader returns
  the bit of the port bound at construction whenever that number is a port of
  its kind (Out1..Out7 for `getOutputState()`, In1..In7 for
  `getInputState()`), whatever the instance's style. Otherwise it returns the
  whole byte, because resolution falls back to the bound port (Fets.cpp:86,
  95, 151, 166-167). The header says the whole byte is returned whenever no
  port is named (Fets.h:227, 241).
- **Constructor.** On a mode conflict the constructor does not store the
  address, and sets both ports to None (Fets.cpp:22-26). A module
  instance still stores its input port (Fets.cpp:31-32).
- **Sensor return value.** Both sensor commands compare the masked output bit
  with `actOutput` as given, so any `actOutput` other than 0 or 1 makes them
  return 0 (Fets.cpp:59).
- **Unmasked state byte.** The header documents the whole-state reading as
  a 7-bit value (Fets.h:229-230). The driver returns the stored byte without
  masking bit 7, and so does the model (Fets.cpp:86).
- **Uninitialised fields.** The constructor does not initialise the window or
  the cached state, so the model leaves them arbitrary (Fets.cpp:11-34).

How the source's structure is mapped:

- The shared static `mode` is one `ModeCell` object that every `Fets`
  instance references.
- Overloads get distinct names:
  - `write(double)` is `WritePwm`;
  - `moveXY(double)` and `movePolar(double)` are `MoveXYMetric` and
    `MovePolarMetric`;
  - `sensorResponce` is `SensorResponse`.
- Some repeated or long bodies are split into helper methods:
  - the three identical packing blocks of the chassis `sendData` are
    `PackValue`;
  - building the chassis frame is `PackFrame`;
  - one pass of the `recvData` loop is `TakeByte`;
  - the window shift is `ShiftWindow`.

  Each helper keeps the statements of the source.

## Model

| member | source | states |
|---|---|---|
| FetsProtocol.PortNumbering | Fets.h:60-80 | None and the separator are neither outputs nor inputs. Outputs 1..7 and inputs 9..15 are disjoint, and every port number is one of these four kinds |
| FetsProtocol.WaveCode | Fets.h:88-94 | every waveform is sent as a function code in 5..9 |
| FetsProtocol.WaveCodesDistinct | Fets.h:15-23 | distinct waveforms have distinct codes, and no waveform code equals the digital, PWM, sensor-response or sensor-trigger code |
| FetsProtocol.IntendedMode | Fets.cpp:13-20 | the intended mode is Module exactly when the output port is None, and Port otherwise |
| FetsProtocol.NextMode | Fets.cpp:22-33 | from Init or the intended mode, the new mode is the intended mode. Otherwise it is Conflict, and so is every mode after Conflict. Init is never returned |
| FetsProtocol.ModeAfterConstructions | Fets.cpp:13-33 | after any sequence of constructions, the mode is Conflict exactly when both a module and a port-bound instance were built. Otherwise it is the first instance's style, or Init if there was none |
| FetsProtocol.ConflictIsSticky | Fets.cpp:22-26 | once the mode is Conflict, no further construction leaves it |
| FetsProtocol.ResolveOutput | Fets.cpp:158-170 | the result is None or an output. It is None in Conflict. Otherwise a named output wins over the bound one, and None results exactly when neither is an output |
| FetsProtocol.ResolveInput | Fets.cpp:143-156 | the same as ResolveOutput for the inputs 9..15, with the fallback taken when the bound port is above the separator |
| FetsProtocol.ResolveIsIdempotent | Fets.cpp:100-103 | resolving an already resolved port again, as sendData does, returns it unchanged whatever port is bound |
| FetsProtocol.DigitalPlan | Fets.cpp:37-42 | -1 exactly when no output resolves, then -2 exactly when duty is not 0 or 1. Otherwise it issues the digital command to the resolved port with parameter equal to duty |
| FetsProtocol.PwmPlan | Fets.cpp:44-51 | -1, -2 (Out7), -3 (duty < 0), -4 (duty > 1), in that order and each exactly when it applies. Otherwise it issues a PWM command whose parameter is floor(duty*127), at most 127, with 0.0 giving 0 and 1.0 giving 127 |
| FetsProtocol.WavePlan | Fets.cpp:71-78 | -1, -2 (Out7), -3 (period < 100), -4 (period > 10000), in that order. Otherwise it issues the waveform's code with parameter period/100, which lies in 1..100 |
| FetsProtocol.SensorParam | Fets.cpp:57 | the byte is below 0x20. Bit 4 is the input level, bit 3 is the output level, and bits 0-2 are the input port minus 8 (1..7 for an input) |
| FetsProtocol.SensorPlan | Fets.cpp:53-57 | -1 exactly when no output resolves, then -2 exactly when no input resolves. Otherwise it issues the given sensor code to the output with the SensorParam byte |
| FetsProtocol.ConflictRejectsCommands | Fets.h:116-118 | in Conflict, every command plan is a rejection with -1 |
| FetsProtocol.StateBit | Fets.h:229-230 | the result is 0 or 1, and it is 1 exactly when bit k of the state is set |
| FetsProtocol.StateReading | Fets.cpp:86-88 | with no resolved port, the whole state byte. Otherwise 0 or 1, which is 1 exactly when the port's bit is set (counting from Out1 or In1 as bit 0) |
| FetsProtocol.SensorStatus | Fets.cpp:59 | the result is 0 or 1, and it is 1 exactly when the output port's cached bit equals actOutput. It is always 0 when actOutput > 1 |
| FetsProtocol.CommandFrame | Fets.cpp:105-108 | four bytes. Byte 1 is the parameter, byte 2 is the XOR of bytes 0 and 1, and byte 3 is the address |
| FetsProtocol.CommandByteFields | Fets.cpp:105 | the first byte is below 0x80. It carries the low four bits of the code in bits 3-6 and the port modulo 8 in bits 0-2 |
| FetsProtocol.ParseCommand | Fets.cpp:105-108 | a frame is accepted only with 4 bytes, the right address and a correct checksum. The parameter is byte 1 |
| FetsProtocol.CommandFrameRoundTrip | Fets.cpp:105-108 | the frame of any command the driver issues (code at most 15, an output port) parses back to that command |
| FetsProtocol.Step | Fets.cpp:124-134 | the new window is the old one shifted by one with the new byte last. The snapshot becomes the window's first two bytes exactly when those four bytes pass the address and checksum test, and is unchanged otherwise |
| FetsProtocol.LastMatchWithoutWindow | Fets.cpp:122-137 | when no 4-byte window of the history passes, the snapshot keeps its old value |
| FetsProtocol.LastMatchAtLastWindow | Fets.cpp:122-137 | when some window passes, the snapshot is the first two bytes of the last window that passes |
| FetsProtocol.LastMatchChoosesLastWindow | Fets.cpp:122-137 | LastMatch keeps the old snapshot exactly when no window passes, and otherwise takes the one of the last passing window |
| FetsProtocol.FeedTracksStream | Fets.cpp:116-140 | after any byte stream, the window's first three bytes are the last three bytes seen, counting those left from earlier calls. The snapshot is LastMatch of the whole history |
| FetsProtocol.FrameLocksOn | Fets.cpp:124-130 | whatever garbage precedes it, a frame built for this address is accepted on its last byte. Its first two bytes become the snapshot |
| FetsDriver.ModeCell.constructor | Fets.cpp:9 | the shared mode starts as Init |
| FetsDriver.Fets.constructor | Fets.cpp:11-34 | the shared mode moves on as NextMode says. On Conflict both ports are None. Otherwise the address and both ports are stored |
| FetsDriver.Fets.SendData | Fets.cpp:100-114 | when the port does not resolve, it returns -1 and sends nothing. Otherwise it returns 0 and sends exactly CommandFrame of the resolved port, in order |
| FetsDriver.Fets.Write | Fets.cpp:37-42 | it returns DigitalPlan's code, and the bytes sent are exactly that plan's frame (nothing on a rejection) |
| FetsDriver.Fets.WritePwm | Fets.cpp:44-51 | it returns PwmPlan's code and sends exactly that plan's frame |
| FetsDriver.Fets.SensorResponse | Fets.cpp:53-60 | on rejection it returns the plan's code and sends nothing. Otherwise it sends the sensor-response frame and returns SensorStatus of the cached output state |
| FetsDriver.Fets.SensorTrigger | Fets.cpp:62-69 | as SensorResponse, with the sensor-trigger code |
| FetsDriver.Fets.WriteWave | Fets.cpp:71-78 | it returns WavePlan's code and sends exactly that plan's frame |
| FetsDriver.Fets.ShiftWindow | Fets.cpp:132-134 | the window moves left by one byte, and the last byte stays in place |
| FetsDriver.Fets.TakeByte | Fets.cpp:124-134 | one pass of the receive loop is exactly one Step of the decoder. Ports and address are unchanged |
| FetsDriver.Fets.RecvData | Fets.cpp:116-140 | in Conflict it returns -1 and reads nothing. Otherwise it consumes every waiting byte, returns their count, and leaves the decoder at Feed of the old decoder over those bytes |
| FetsDriver.Fets.GetOutputState | Fets.cpp:82-89 | -1 in Conflict, with nothing read. Otherwise it reads every waiting byte as RecvData does, then returns StateReading of the new output state for the resolved output |
| FetsDriver.Fets.GetInputState | Fets.cpp:91-98 | as GetOutputState, for the input state and the resolved input |
| Transport.Channel.Send | Fets.h:271 | one byte is appended to the log of sent bytes, and the receive queue is unchanged |
| Transport.Channel.Receive | Fets.h:279-282 | -1 when nothing is waiting. Otherwise the oldest waiting byte as 0..255, which is removed from the queue |
| UnderBodyProtocol.MoveXYCode | UnderBody.cpp:14-21 | -1/-2 exactly when vX is above/below ±8000, then -3/-4 for vY, then -5/-6 for omega against ±500. The code is 0 exactly when all three are in bounds |
| UnderBodyProtocol.MovePolarCode | UnderBody.cpp:30-34 | -1/-2 for speed, then -3/-4 for omega. The code is 0 exactly when both are in bounds, and the direction is never rejected |
| UnderBodyProtocol.NormalizedIsCongruent | UnderBody.cpp:36-37 | the normalised direction lies in 0..360 and is congruent to the input modulo 360. An input already in 0..360 is kept, and the result is 360 exactly for positive multiples of 360 |
| UnderBodyProtocol.PackSteps | UnderBody.cpp:55-60 | the steps as written (0x40 and negate for a negative value, OR in bits 7-12, take bits 0-6) produce the high and low packed bytes |
| UnderBodyProtocol.SignMagBytes | UnderBody.cpp:55-60 | both bytes are below 0x80. Bit 6 of the high byte is set exactly for negative values. Its bits 0-5 are bits 7-12 of the magnitude, and the low byte is bits 0-6 |
| UnderBodyProtocol.UnpackKeepsThirteenBits | UnderBody.cpp:55-74 | unpacking returns the sign and the magnitude modulo 8192 |
| UnderBodyProtocol.PackRoundTrip | UnderBody.cpp:55-74 | every value of magnitude at most 8191 unpacks to itself |
| UnderBodyProtocol.ChassisFrame | UnderBody.cpp:53-77 | eight bytes: the packed payload, then the XOR of the six payload bytes, then the mode |
| UnderBodyProtocol.FrameBytesBelowMode | UnderBody.cpp:55-77 | bytes 0-6 of every frame are below 0x80, so none of them equals a mode byte of 0xF0 or above |
| UnderBodyProtocol.ModesDistinct | UnderBody.h:14-16 | the rectangular, polar and stop mode bytes are distinct, and all are at least 0xF0 |
| UnderBodyProtocol.DecodeChassis | UnderBody.cpp:76-77 | the receiving side accepts a frame exactly when it has 8 bytes and a correct checksum, and then reports its mode byte |
| UnderBodyProtocol.ChassisRoundTrip | UnderBody.cpp:51-77 | every frame of values with magnitude at most 8191 decodes to those values and that mode |
| UnderBodyProtocol.AcceptedArgumentsFit | UnderBody.h:18-19 | any argument that passes either command's checks (with a normalised direction) fits the 13-bit magnitude exactly |
| UnderBodyProtocol.StopFrame | UnderBody.cpp:47-49 | the stop frame is `[0,0,0,0,0,0,0,0xF0]` |
| UnderBodyProtocol.Truncate | UnderBody.cpp:27 | the conversion drops the fraction toward zero |
| UnderBodyProtocol.NineMetresPerSecondRejected | UnderBody.cpp:26-28 | 9 m/s as vX in the metric rectangular command is rejected as vX above its bound, for any vY, omega and π > 0 |
| UnderBodyDriver.PackValue | UnderBody.cpp:55-60 | one packing block writes the high and low packed bytes of its value into its two places, and touches no other byte |
| UnderBodyDriver.PackFrame | UnderBody.cpp:53-77 | the buffer holds exactly ChassisFrame of the arguments |
| UnderBodyDriver.SendData | UnderBody.cpp:51-81 | exactly the eight bytes of ChassisFrame are sent, in order |
| UnderBodyDriver.NormalizeDirection | UnderBody.cpp:36-37 | the two loops end with the direction in 0..360 and congruent to the input modulo 360. An input already in 0..360 is unchanged, and 360 results exactly for positive multiples of 360 (equal to Normalized) |
| UnderBodyDriver.MoveXY | UnderBody.cpp:14-24 | it returns MoveXYCode. On 0 it sends exactly the rectangular frame of (vX, vY, omega), and otherwise it sends nothing |
| UnderBodyDriver.MoveXYMetric | UnderBody.cpp:26-28 | as MoveXY on m/s×1000 and rad/s×180/π, each truncated toward zero |
| UnderBodyDriver.MovePolar | UnderBody.cpp:30-41 | it returns MovePolarCode. On 0 it sends exactly the polar frame of (speed, normalised direction, omega), and otherwise it sends nothing |
| UnderBodyDriver.MovePolarMetric | UnderBody.cpp:43-45 | as MovePolar on m/s×1000, rad×180/π and rad/s×180/π, each truncated toward zero |
| UnderBodyDriver.Stop | UnderBody.cpp:47-49 | exactly `[0,0,0,0,0,0,0,0xF0]` is sent |

## Left out

- **The serial-port implementation of the transport.** It is the pair of
  subclasses over `HardwareSerial` in Sakura_modules.h and Sakura_modules.cpp,
  which sits on an Arduino library. Sakura_modules is not part of this model.
  The transport is the abstract `Channel`.
- **Timing, interrupts and concurrency.** The header warns about these, but
  the code enforces nothing. The receive queue is a fixed sequence, so bytes
  that arrive while `RecvData` runs are not modelled.
- **Floating point.** `WritePwm` treats the duty as an exact real:
  - the checks compare it exactly;
  - the byte is floor(duty·127), where the source computes a double product.
- **Constants and conversions in the metric commands.**
  - MoveXYMetric and MovePolarMetric take π as a positive real parameter,
    because Arduino's `PI` constant is not part of this model.
  - They do not model double rounding.
  - They do not model the undefined behaviour of converting an out-of-range
    double to `int`.
- UnderBodyDriver.SendData: computes on unbounded integers, so it does not
  model the overflow of negating `INT_MIN` in C. No argument that passes the
  checks comes near it.
- **`char` signedness.** `dataBuff` and `id` are `char` in the source. All
  bytes here are unsigned `bv8`, and sign extension does not change any
  equality test the code makes.
- **The multi-instance decode caveat.** Only one instance per module may
  call `recvData` (Fets.h:253-254). Each instance has its own receive window,
  so two callers split the one byte stream and reception fails. The model
  behaves the same way: a first `RecvData` empties the shared `Channel`, and a
  second instance's window gets nothing. Each instance owns its own window,
  and nothing more is modelled.
