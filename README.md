# Sunshine rotator driver — a Dafny model

The INDI "Sunshine" rotator driver does two things:

- **Motion.** A goto request stores a target angle, mirrored (`360 - angle`) when the reverse switch is on and normalised by `range360`. Each timer tick then moves the current angle toward the target. When the linear difference is within 10°, the tick snaps exactly onto the target and sets the goto state to Ok. Otherwise it steps 10° in the direction chosen by a sign rule and wraps the result. The motion is simulated locally: no movement command ever goes to the device.
- **Serial framing.** A command frame (`:P#` or `:V#`) is written, then the reply is read into a 20-byte buffer, up to the stop character `#` with a timeout of 3. A failed write is reported without reading, and a failed read is reported too. On success, the last byte read is overwritten with NUL. The firmware text is built from reply offsets 2, 3 and 4 as `D.D.D`.

Files:

- `angles.dfy` (module `Angles`) holds the contract of `range360`, residues modulo 360, the forward arc and the circular distance. Angles are exact reals.
- `motion.dfy` (module `Motion`) holds the tick function, the sign rule, the move-target function and their lemmas, including convergence.
- `protocol.dfy` (module `Protocol`) holds the constants, the abstract transport, the round trip `Send`, C-string reading and firmware decoding.
- `driver.dfy` (module `Driver`) holds class `Sunshine`, whose fields are the driver state. Each method that changes state has an `ensures` tying the new state to a function of `Motion` or `Protocol`.

`range360` belongs to indicom, and its definition is not part of this model. It is passed in as a function `wrap` that meets the predicate `Angles.IsRange360`. That predicate only says the result lies in [0, 360] and differs from the argument by whole turns. No lemma depends on whether 360 wraps to 0 or stays 360.

The serial port is a `Protocol.Transport` value with two parts:

- whether writing a frame succeeds;
- what a read section with given capacity, stop character and timeout returns.

`SendCommand` also returns the list of port calls it made. That list shows directly when no read was attempted and which parameters the read was given.

What the code does, and what is proved about it:

- A successful round trip replaces only the last byte read with NUL (sunshine.cpp:200). Everything before it is kept as the transport stored it.
- The only failures are a write error, reported without reading, and a read error (sunshine.cpp:182-198).
- `AbortRotator`, `SyncRotator` and `ReverseRotator` return true and change nothing in the driver (sunshine.cpp:97-112).
- The snap test compares the linear difference with 10° (sunshine.cpp:124). Near 0/360 a step can therefore pass the target: 352° toward 1° first steps to 2° (`Motion.OvershootAcrossZero`). Current 0° with target 360° steps away to 350° before snapping (`Motion.FullTurnStepsAway`).
- A Busy driver still always settles exactly on its target. `Motion.Settles` bounds the number of ticks by `2 + ⌊distance/10⌋`, at most 20, where the distance is the circular distance.

## Model

| member | source | states |
|---|---|---|
| `Angles.WrapNear` | drivers/rotator/sunshine.cpp:137 | for an argument less than one turn outside [0, 360], any `range360` returns it moved by at most one turn |
| `Angles.WrapFixesInterior` | drivers/rotator/sunshine.cpp:93 | any `range360` leaves an angle strictly inside (0, 360) unchanged |
| `Angles.CircularDistance` | drivers/rotator/sunshine.cpp:131 | the result lies in [0, 180] and is the shorter of the forward and backward arcs, the measure the shortest-distance comment refers to |
| `Motion.StepSign` | drivers/rotator/sunshine.cpp:134 | the step direction is always +1 or −1; which one is stated against the forward arc by `Motion.StepSignIsShortestArc` |
| `Motion.WithinTolerance` | drivers/rotator/sunshine.cpp:124 | the snap test holds exactly when the linear difference target − current lies in [−10, 10] |
| `Motion.MoveTarget` | drivers/rotator/sunshine.cpp:90-93 | the stored target is `range360` of the request, or of 360 minus it when reversed; with the `range360` contract it lies in [0, 360] and is never the sentinel −1 |
| `Motion.StepSignIsShortestArc` | drivers/rotator/sunshine.cpp:131-134 | for angles in [0, 360] other than target 360 with current 0, the sign is +1 exactly when the forward arc `(target - current) mod 360` is at most 180° |
| `Motion.FullTurnStepsBackward` | drivers/rotator/sunshine.cpp:134 | for target 360 and current 0 the forward arc is 0, yet the sign is −1 |
| `Motion.MoveTargetLands` | drivers/rotator/sunshine.cpp:88-95 | a stored target lies in [0, 360] and is never the sentinel −1; it is congruent to `angle`, or to `360 - angle` when the reverse switch is on |
| `Motion.MoveTargetInterior` | drivers/rotator/sunshine.cpp:90-93 | a request strictly inside (0, 360) is stored exactly as given, or as `360 - angle` when reversed |
| `Motion.ReversedThirtyIsThreeThirty` | drivers/rotator/sunshine.cpp:90-91 | with the reverse switch on, a request for 30° stores 330° |
| `Motion.Tick` | drivers/rotator/sunshine.cpp:114-144 | a tick never changes the target; the state either stays as it was or goes from Busy to Ok, and it goes to Ok only with the current angle on the target |
| `Motion.TickWhenNotMoving` | drivers/rotator/sunshine.cpp:116-122 | while disconnected or not Busy, a tick leaves current angle, target and state unchanged |
| `Motion.TickSnaps` | drivers/rotator/sunshine.cpp:124-128 | a Busy tick with `|target - current| <= 10` sets current to target exactly and the state to Ok |
| `Motion.TickSteps` | drivers/rotator/sunshine.cpp:130-137 | any other Busy tick stays Busy, keeps the target, and moves by +10° or −10° up to whole turns into [0, 360] |
| `Motion.TickKeepsInCircle` | drivers/rotator/sunshine.cpp:124-137 | a tick keeps the current angle in [0, 360] when a Busy driver's target lies there |
| `Motion.StepProgress` | drivers/rotator/sunshine.cpp:130-137 | a non-snapping Busy step cuts the circular distance by exactly 10° when it is at least 10°; otherwise it ends within tolerance of the target (passing it when crossing 0/360) |
| `Motion.FullTurnStepsAway` | drivers/rotator/sunshine.cpp:124-137 | from current 0° toward target 360° the first tick steps away to 350° and the second snaps onto 360° with state Ok |
| `Motion.Run` | drivers/rotator/sunshine.cpp:114-144 | repeated ticks never change the target, change nothing unless Busy, and end either in the starting state or in Ok on the target |
| `Motion.StepDecreasesMeasure` | drivers/rotator/sunshine.cpp:124-137 | each non-snapping Busy step strictly decreases the termination measure |
| `Motion.Settles` | drivers/rotator/sunshine.cpp:124-137 | from Busy with both angles in [0, 360], repeated ticks reach Ok with current equal to target, after at most `Measure` (at most 20) ticks, and the state stays Busy until then |
| `Motion.ThreeFiftyToTenGoesForward` | drivers/rotator/sunshine.cpp:131-137 | from 350° toward 10° the step is forward, to 0 or 360, not backward |
| `Motion.OvershootAcrossZero` | drivers/rotator/sunshine.cpp:124-137 | from 352° toward 1° the first tick lands on 2° (past the target) and the second snaps onto 1° with state Ok |
| `Motion.BusyOnTargetResolves` | drivers/rotator/sunshine.cpp:124-128 | a Busy driver already on its target reaches Ok on the next tick without moving |
| `Protocol.Send` | drivers/rotator/sunshine.cpp:174-204 | the reply buffer keeps its 20 bytes, success implies the write succeeded, and every round trip begins with the flush and one write of the frame |
| `Protocol.SendWriteError` | drivers/rotator/sunshine.cpp:180-188 | a failed write returns false with the buffer untouched, and the only port calls are the flush and the write |
| `Protocol.SendCalls` | drivers/rotator/sunshine.cpp:180-190 | a round trip flushes and writes once, then reads once only if the write succeeded, with capacity 20, stop character `#` and timeout 3 |
| `Protocol.SendReadError` | drivers/rotator/sunshine.cpp:190-198 | a failed read returns false; the buffer holds only what the transport stored |
| `Protocol.SendSuccess` | drivers/rotator/sunshine.cpp:200-203 | on success the buffer holds the bytes read with the last one replaced by NUL, and the rest of the buffer is as before |
| `Protocol.SendOkIffBothSucceed` | drivers/rotator/sunshine.cpp:182-203 | the verdict is true exactly when both the write and the read succeeded |
| `Protocol.FramesEndWithStopChar` | drivers/rotator/sunshine.h:59 | the stop character 0x23 is `#` and is the last character of both `:P#` and `:V#` |
| `Protocol.CString` | drivers/rotator/sunshine.cpp:167 | the text a NUL-terminated buffer denotes is its longest NUL-free prefix, ended by a NUL or by the buffer's end |
| `Protocol.ReplyReadsAsPayload` | drivers/rotator/sunshine.cpp:200-201 | a reply made of a NUL-free payload and a final byte reads back, as a C string, as exactly the payload |
| `Protocol.FirmwareFormat` | drivers/rotator/sunshine.cpp:162-165 | `fmt_fw` has six characters and ends in NUL |
| `Protocol.FirmwareText` | drivers/rotator/sunshine.cpp:162-167 | the saved text is NUL-free, at most five characters long, and starts with reply offset 2 unless it is empty |
| `Protocol.FirmwareTextCases` | drivers/rotator/sunshine.cpp:162-167 | the saved text is `D.D.D` from offsets 2, 3 and 4 when none is NUL, and is cut at the first of them that is |
| `Protocol.FirmwareFromVersionReply` | drivers/rotator/sunshine.cpp:157-167 | a reply of five NUL-free bytes and a terminator gives `[b2, '.', b3, '.', b4]` |
| `Protocol.FirmwareExample` | drivers/rotator/sunshine.cpp:157-167 | the reply `xx210#` gives the firmware text `2.1.0` |
| `Protocol.FirmwareShortReply` | drivers/rotator/sunshine.cpp:159-165 | a short reply `xx1#` is read at fixed offsets without a length check and gives `1.` |
| `Driver.Sunshine.constructor` | drivers/rotator/sunshine.h:52 | a fresh driver has target −1 (no target), is Idle at 0°, is disconnected, and has the firmware text "NA" that property set-up fills in |
| `Driver.Sunshine.MoveRotator` | drivers/rotator/sunshine.cpp:88-95 | it stores `MoveTarget(angle, reversed, range360)`, returns Busy and writes only the target |
| `Driver.Sunshine.SyncRotator` | drivers/rotator/sunshine.cpp:97-101 | it returns true and changes no driver state |
| `Driver.Sunshine.AbortRotator` | drivers/rotator/sunshine.cpp:103-106 | it returns true and changes no driver state |
| `Driver.Sunshine.ReverseRotator` | drivers/rotator/sunshine.cpp:108-112 | it returns true and changes no driver state |
| `Driver.Sunshine.TimerHit` | drivers/rotator/sunshine.cpp:114-144 | the new motion state is `Tick` of the old one, the timer is re-armed on every path, and target, switch, connection and firmware are unchanged |
| `Driver.Sunshine.SendCommand` | drivers/rotator/sunshine.cpp:174-204 | verdict, reply buffer and port calls are those of `Send` on the buffer's old contents |
| `Driver.Sunshine.Ping` | drivers/rotator/sunshine.cpp:146-155 | `:P#` in a zeroed buffer; true exactly when the write and the read both succeed |
| `Driver.Sunshine.Handshake` | drivers/rotator/sunshine.cpp:83-86 | returns exactly the ping's verdict |
| `Driver.Sunshine.GetFirmware` | drivers/rotator/sunshine.cpp:157-172 | on success saves `FirmwareText` of the reply buffer and returns true; on failure returns false with the firmware text unchanged |

## Left out

- Property registration, publishing and UI are not modelled: `initProperties`, `updateProperties`, `getDefaultName`, `IUFill*`, `defineProperty`/`deleteProperty`, `IDSetNumber` and the global driver instance. The polling period is not modelled either; `TimerHit` only counts how often it re-arms the timer.
- The serial calls (`tcflush`, `tty_write_string`, `tty_nread_section`, `tty_error_msg`) belong to indicom and are not part of this model. Only their success flags and the bytes they store enter the model, through `Protocol.Transport`.
- Logging is not modelled; it is observability only.
- `range360` belongs to indicom. The model knows only its contract (`Angles.IsRange360`), not its definition.
- Angles are exact reals, so IEEE-754 double rounding is not modelled.
- The framework base class is not part of this model. It owns the reverse switch, the connection flag, storing `MoveRotator`'s returned state in the goto property, the initial current angle and any Busy-to-Idle change on abort. The model treats its fields as written by the host. The constructor assumes the base class starts at 0° and Idle. It also starts the firmware text at "NA", the placeholder `initProperties` fills in (sunshine.cpp:52), so a fresh model object is the driver after property set-up.
- `Driver.Sunshine.SendCommand` and `Protocol.Send` assume the transport keeps its promise (`Protocol.Honours`): a read never stores more than the 20-byte capacity, and a successful read has read at least one byte. The source writes `res[nbytes_read - 1]` with no check of its own.
- `Driver.Sunshine.GetFirmware` stores the firmware text as the C string `IUSaveText` would copy. The contents of indicom's `IText` record are not modelled.
- `hexDump` is declared but has no definition in the source, so it is not modelled.
