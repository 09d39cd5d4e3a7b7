# Sky-tracker: clock crossing, stepper, hashing, wire protocol and resource management

A Dafny model of the parts of the telescope mount controller whose correctness spans many steps,
many functions or both ends of a connection, and proofs about it. It covers the VHDL that drives
the motors and talks to the host (`hdl/`) and the server and client that command it
(`koheron-server/`).

Every stateful component appears twice. A class has the component's registers or fields and one
method per process or function of the source; each method is proved to move the state exactly as a
specification function says. The theorems are about those functions, over all inputs, all
interleavings and runs of any length.

| file | what it is |
|---|---|
| `SyncToClock.dfy` | the two-clock toggle handshake `sync_Vector`, for any depth N >= 2 and any interleaving of the two clocks |
| `Drv8825.dfy` | the stepper controller, one 50 MHz tick at a time, all registers at once |
| `StepClock.dfy` | the step clock: closed form of its edges, speed changes |
| `AccelLevels.dfy` | the acceleration levels: the table of periods, the timer, the divider, the registers behind them |
| `LevelClock.dfy` | the step clock of an accelerated motor, from the level in use to the pulses |
| `BacklashEpisode.dfy` | the backlash machine |
| `RelativeCommand.dfy` | commands inside the range: exactly n steps, for every speed and phase of the clock |
| `WrapAround.dfy`, `LoadTiming.dfy`, `PulseAfterWrap.dfy` | the position counter at its limits, loads from outside, and the pulses that either costs |
| `WrappingCommand.dfy` | commands whose way leads over an end of the range |
| `CommandEnds.dfy` | which commands end, and relative commands of every length |
| `StepPin.dfy` | pulses on the step pin against counted steps |
| `Tracking.dfy` | tracking, from the sampled ports to the counted steps |
| `Controls.dfy` | what the other ports do: commands, parks, cancels, loads, maxima, modes, turns |
| `Parking.dfy` | a park runs like a command to position 0 |
| `TrackingRamp.dfy` | the register words of `enable_tracking` and `disable_tracking` as the hardware decodes them |
| `I2cMaster.dfy` | the I2C master with clock stretching |
| `I2cTransaction.dfy` | whole transactions, acknowledge errors, busy |
| `SpiSlave.dfy` | register access over SPI, from the bytes of the driver to the wishbone bus and back |
| `Sha1.dfy` | the streaming SHA-1 against FIPS 180-4 |
| `Base64.dfy` | the codec against section 4 of RFC 4648 |
| `Bytes.dfy` | big-endian integers, shifts, exclusive or |
| `WireFormat.dfy` | argument encoding, the generator's packs, what they read back |
| `KoheronClient.dfy` | the Python client's encoder, with its exceptions |
| `Session.dfy` | the TCP session: fragmented reads, parsers, run loop |
| `EndToEnd.dfy` | the client and the TCP session together |
| `CommandBuffer.dfy` | the payload buffer and the WebSocket session's readers |
| `Serializer.dfy` | the server's reply builder with its deferred scalars |
| `WebSocketFrames.dfy` | frames as sections 5.2 and 5.3 of RFC 6455 lay them out |
| `WebSocket.dfy` | the frame reader and writer over partial reads and writes |
| `WebSocketSession.dfy` | the WebSocket session, one command a frame |
| `DriversManager.dfy` | construction of drivers on demand, with cycle detection |
| `SessionManager.dfy` | session identifiers |
| `Sequences.dfy` | sequences without repetition |

`dafny verify dfyconfig.toml` checks everything.

## What the proofs say

- The crossing delivers: the values captured are the values announced, in order and once each, with
  at most one in flight (`Delivery`); one handshake takes exactly N + 1 edges of the reader's clock
  and N more of the writer's (`HandshakeTiming`); a constant input reaches the output from any
  reachable state (`Convergence`).
- A command with its target n >= 1 steps ahead inside the range and period >= 3 makes exactly n counted
  steps, through all pipeline delays and from any earlier speed (`StepsToTarget`, and `ExactSteps` for
  relative commands). For n = 0 this fails in one phase of the step clock; `ZeroSteps` and
  `ZeroStepsNewSpeed` say exactly which.
- Such a command puts one pulse on the step pin for every step it counts, and one more if and only if
  the step clock and `counter_clk` are both high when it starts (`PulsesOfCommand`): that pulse
  is not counted.
- With M loaded, one unit per step and period >= 3, a command to T from position x is given up if and
  only if T is x, or, going up, 1 from 0 or one of 2..M + 1, or, going down, one of 0..M - 1 or
  2^30 - 1 (`GivenUpExactlyThere`; `RelativeGivenUp` says which relative commands these are). It then
  makes exactly the steps on its way, wraps and lost pulses included (`StepsOverTheEnd`). A relative
  command over n < M that passes an end makes n steps going down and n - 1 going up
  (`RelativeOverTheEnd`, and `RelativeCounts` for every n). M + 1 and 2^30 - 1 are met outside the
  range, and the position becomes 2 and M - 1 (`EndsOutside`).
- The position leaves 0..M by one unit at most (`RangeInEveryRun`, for M >= 1; `ZeroMaximum` shows that
  M = 0 fails) and is replaced before the next step (`OutIsReplaced`). For every period the pulse after
  a wrap is lost if and only if the step clock is low for at most six ticks before it
  (`PulseAfterWrap.PulseAfterWrap`); from period 13 on none is (`NoPulseLost`, `WhichPeriods`). For
  every period a load from outside loses the next pulse exactly when that pulse rises within six ticks
  (`PulseAfterLoad`, `PulseLostToLoad`). With M = 1 or M = 0 the counter can get stuck outside the
  range for ever (`StuckForEver`).
- The step clock of an accelerated motor with commanded period s has exactly one pulse in every
  (s + 1) * 2^I ticks while the motor is on level I, from seven ticks after the level was chosen
  (`OneStepPerLevelCycle`); from the start of a command the levels 7 to 1 take 12500001 ticks each
  (`Ramp`, `StepsOnTheRamp`).
- With tracking enabled at the ports, seven ticks later the motor tracks in their direction, mode and
  period, PEC included, and from then on counts exactly one step in every period + 1 ticks, each by
  the mode's units in that direction (`TrackingStarts`, `TrackingMoves`, `OneStepPerPeriod`); three
  ticks after it is disabled the motor is idle (`TrackingStops`). A park makes exactly the steps to
  position 0 (`ParkArrives`), a cancel ends a command but never a park (`CancelEnds`,
  `ParkIgnoresCancel`), and a turn with backlash starts an episode (`TurnTakesUpBacklash`).
- What a Python program calls is what the drivers get, for any list of calls and any fragmentation
  (`Delivered`, `Conversation`), as long as strings are ASCII; `PayloadEncodes` shows that this is
  exactly the condition and `NonAsciiString` what becomes of other strings.
- A stream of masked frames is served as the payloads ask for, one command a frame, up to the first
  frame that is not accepted (`WebSocketSession.WebSocketSession.Run`). What the server sends arrives
  whole if and only if no write is refused, however the writes split it (`SendRequest`, `Send`).
- A masked frame becomes a command exactly when its opcode is text or binary, its payload has 8 to
  262088 bytes and its total size is not 16384 (`WebSocket.WebSocket.ReadCommand`), whichever of the
  three length encodings it uses.
- `exit_all` is set exactly when a cycle of drivers that are not yet started can be reached from the
  request (`Request`); drivers are constructed at most once and, without such a cycle, after
  everything they depend on.
- An I2C request puts address and rw on the wire, then dataWr if rw is 0, or eight released bits if rw
  is 1, which end up in data_rd as the slave sent them (`Transaction`), within 18 SCL cycles when
  no slave stretches (`TransactionEnds`); ack_error tells exactly whether a slot went without an
  acknowledge (`AckErrorTells`).
- The I2C master moves SDA while SCL is high only for start and stop conditions, provided that an
  acknowledged read byte is followed by another request (`SteadyRun`); otherwise, and only then, it
  makes a start condition nobody asked for when the transfer ends (`EndOfRead`).
- `read_at` returns the 32-bit word that the bus acknowledges last inside the holdoff
  (`ReadReturnsWord`).
- The stopping ramp goes on for as long as the next two periods fit into 25000 ticks (`RampEnds`). It
  has the periods p * 2, p * 3, ... with PEC off exactly when PEC was off or the
  ramp has at most one word (`SoftStop`, `PecStaysOff`). The starting ramp is packed one bit lower
  than the hardware reads it and ends at half the target period (`StartRampDecodes`).

## Where the code departs from what it says

- `issue_command` looks at a cancel of a park (`hdl/drv8825.vhd:624-653`), but the sampled bit is
  cleared whenever the motor is not in `command` (`hdl/drv8825.vhd:757-776`), so that none arrives.
- `write_at` does not use its `offset` (`koheron-server/context/spi_dev.hpp:78`); the model follows it.
- `append(len(args[i]), 4)` announces the characters of a string, not its bytes
  (`koheron-server/scripts/koheron.py:164`).
- `read_n_bytes` refuses a frame that is complete with exactly 16384 bytes in the buffer
  (`koheron-server/core/websocket.cpp:367`), although the buffer holds 262144.
- `read_header` records the FIN and MASK bits but does not act on them
  (`koheron-server/core/websocket.cpp:278-280`); the theorems about reading are about masked frames.
- `send_request` tests for a closed connection inside a loop that a result of 0 has already left
  (`koheron-server/core/websocket.cpp:390-400`), so it returns 0 without marking the connection closed.

## Model

| member | source | states |
|---|---|---|
| SyncToClock.SyncVector.RisingBoth | hdl/SyncToClock.vhd:229-263 | simultaneous edges of both clocks move all registers from the old values on both sides |
| SyncToClock.BoundaryMoves | hdl/SyncToClock.vhd:229-263 | where the one boundary of the ring goes on each edge; busy and changed are read off its position |
| SyncToClock.RingInEveryRun | hdl/SyncToClock.vhd:229-263 | in every run from power-up the ring T1, chain, D2, chain has at most one boundary |
| SyncToClock.Conservation | hdl/SyncToClock.vhd:229-263 | for every run: in flight before plus sent is captured plus in flight after, as sequences |
| SyncToClock.Delivery | hdl/SyncToClock.vhd:229-263 | from power-up the captured values are the sent values in order, once each, except at most one in flight; Output shows the last one |
| SyncToClock.HandshakeTiming | hdl/SyncToClock.vhd:154-162 | a sent value is captured on exactly the (N+1)-th edge of Clock2 and Busy falls with exactly the N-th edge of Clock1 after that |
| SyncToClock.Convergence | hdl/SyncToClock.vhd:229-263 | with Input held at x for 3N+3 rounds of at least one edge of each clock, Output is x, from any reachable state |
| SyncToClock.OutputFollows | hdl/SyncToClock.vhd:240-251 | whenever nothing is in flight, Output equals D0 |
| Drv8825.Controller.RisingClk50 | hdl/drv8825.vhd:311-900 | one tick of the class is one Tick of all registers at once, the counter on counter_clk reading its neighbours' new values |
| Drv8825.RunsConcatenate | hdl/drv8825.vhd:809-900 | a run in two parts ends where the whole run ends and counts as many steps |
| StepClock.ClockTick | hdl/drv8825.vhd:311-330 | the countdowns of the step clock run by one on every tick, and its half cycles alternate |
| StepClock.EdgeCount | hdl/drv8825.vhd:311-330 | closed form of the number of rising edges in any run with constant period P |
| StepClock.OneEdgePerCycle | hdl/drv8825.vhd:311-330 | any P+1 consecutive ticks hold exactly one rising edge |
| StepClock.SpeedChange | hdl/drv8825.vhd:332-372 | a new speed reaches counter_buf on the tick on which the step clock restarts |
| AccelLevels.AccelControl.RisingClk50 | hdl/drv8825.vhd:436-540 | one tick of the level table, divider, timer, done flag and the speed, direction and mode registers is Next |
| AccelLevels.SoundInEveryRun | hdl/drv8825.vhd:495-522 | in every run the divider is in 0..7, at least 1 while acceleration is not done, and the timer is then in range |
| AccelLevels.TableSettles | hdl/drv8825.vhd:459-477 | after two ticks with period s, for all s and I that fit the registers, level I of the table holds (s+1)*2^I - 1 |
| AccelLevels.Ramp | hdl/drv8825.vhd:495-514 | the level drops from 7 by one every 12500001 ticks, and acceleration is done exactly when it reaches 0 |
| AccelLevels.HighestHit | hdl/drv8825.vhd:515-522 | of the deceleration points reached the highest level is chosen |
| LevelClock.SameWithoutAcceleration | hdl/drv8825.vhd:450-536 | without acceleration one tick of the speed path, trigger, step clock and backlash machine is that of Drv8825 |
| LevelClock.PeriodTravels | hdl/drv8825.vhd:453-472 | n ticks on a level, from any state of any run, bring its period n registers far: scaled value, table, two speed registers, trigger |
| LevelClock.OneStepPerLevelCycle | hdl/drv8825.vhd:311-372 | while the level stays at I, five ticks after it was chosen and with no backlash being taken up, counter_buf gets (s+1)*2^I - 1, the step clock is not reset again, and every (s+1)*2^I ticks hold exactly one pulse |
| LevelClock.StepsOnTheRamp | hdl/drv8825.vhd:495-522 | from the start of a command, stretch k = 0..6 of 12500001 ticks has exactly one pulse in every (s+1)*2^(7-k) ticks, from seven ticks into it |
| BacklashEpisode.Episode | hdl/drv8825.vhd:332-372 | an episode lasts exactly D+1 ticks, then one in done, then seek; its parameters are frozen and no step is counted |
| BacklashEpisode.DuringEpisode | hdl/drv8825.vhd:332-372 | the invariant of an episode, after each of its ticks and for any inputs |
| RelativeCommand.StepsToTarget | hdl/drv8825.vhd:589-681 | period >= 3, target n >= 1 steps ahead inside the range, relative or absolute: the command ends in bounded time, the position is on the path at every tick, exactly n steps are counted |
| RelativeCommand.ExactSteps | hdl/drv8825.vhd:658-681 | the same for every relative command over n steps whose path does not wrap |
| RelativeCommand.SteadyRun | hdl/drv8825.vhd:658-681 | the same from any point of a command whose speed has arrived |
| RelativeCommand.ZeroSteps | hdl/drv8825.vhd:589-681 | a command of no steps at an unchanged speed is kept unless the step clock is two ticks short of rising, and then it overruns |
| RelativeCommand.ZeroStepsNewSpeed | hdl/drv8825.vhd:589-681 | the same for a command that changes the speed: kept if and only if the old step clock does not rise too soon |
| WrapAround.MaximumLoaded | hdl/drv8825.vhd:846-856 | loading a maximum from 1 to 2^30 - 2 establishes the range invariant |
| WrapAround.RangeInEveryRun | hdl/drv8825.vhd:809-900 | for M from 1 to 2^30 - 2 the position is in 0..M, M+1 or 2^30-1 in every state of every run, and no step is counted out of range |
| WrapAround.ZeroMaximum | hdl/drv8825.vhd:839-845 | with M = 0 the range is left: position 1 is replaced by 2 |
| WrapAround.OutIsReplaced | hdl/drv8825.vhd:839-845 | an out-of-range position is replaced by 2 or M-1 within a half cycle and two ticks, no step counted in between |
| WrapAround.NoPulseLost | hdl/drv8825.vhd:809-900 | with period >= 13 and no outside loads every rise of the step clock is counted exactly when the motor is in use and no backlash is taken up |
| WrapAround.NeverEnds | hdl/drv8825.vhd:839-845 | a command or park never ends unless cancelled when its target is 0 or 1 going up from beyond it, M going down from below, or beyond the first position outside the range |
| WrapAround.DownToZeroNeverEnds | hdl/drv8825.vhd:666-681 | a relative command down by the present position, 0 included, aims at M and never ends from below M |
| WrapAround.UpToOneNeverEnds | hdl/drv8825.vhd:666-681 | a relative command up by just enough to reach M + 1 aims at 1 and never ends |
| WrapAround.StuckForEver | hdl/drv8825.vhd:839-845 | with M = 1 at position 2, or M = 0 at position 2^30-1, no step is ever counted again, whatever the inputs |
| WrapAround.GetsStuck | hdl/drv8825.vhd:886-900 | the first counted step up from M = 1, or down from M = 0, gets there |
| PulseAfterWrap.PulseAfterWrap | hdl/drv8825.vhd:809-900 | every period, both wraps, from the tick that counts the wrapping pulse: with seven or more low ticks ahead the next pulse is counted as usual, with six or fewer nothing is counted until it is over |
| PulseAfterWrap.WhichPeriods | hdl/drv8825.vhd:311-330 | periods from 13 leave seven low ticks, periods up to 11 never do, 12 does in one half of the cycle |
| WrappingCommand.StepsOverTheEnd | hdl/drv8825.vhd:589-681 | period >= 3, M loaded, any target that is met, relative or absolute: the command is given up in bounded time, at the target, after exactly the steps on its way, from any earlier speed and whatever pulses the load sequence costs |
| WrappingCommand.UnderwayRun | hdl/drv8825.vhd:839-882 | the same from any point of a command whose speed has arrived, load sequence included |
| WrappingCommand.RelativeOverTheEnd | hdl/drv8825.vhd:658-681 | relative commands over n < M that pass an end and whose target is not skipped: n - 1 counted steps going up, n going down |
| WrappingCommand.MoreThanARound | hdl/drv8825.vhd:658-681 | a relative command over n >= M whose n - M steps from its start stay inside the range aims at their end |
| CommandEnds.GivenUpExactlyThere | hdl/drv8825.vhd:589-681 | period >= 3, any position in 0..M, direction and 30-bit target T: given up if and only if T is the position, or up and position < T <= 1 or 2 <= T <= M+1, or down and T <= M-1 or T = 2^30-1 |
| CommandEnds.EndsOutside | hdl/drv8825.vhd:839-845 | M+1 going up and 2^30-1 going down are met after M+1-position and position+1 counted steps, and the position becomes 2 and M-1 |
| CommandEnds.RelativeGivenUp | hdl/drv8825.vhd:658-681 | the lengths n for which a relative command ends, as an if-and-only-if over all 30-bit n, sums beyond 30 bits included |
| CommandEnds.RelativeCounts | hdl/drv8825.vhd:658-681 | the counted steps of every relative command that ends away from its start: n, n - 1 over the upper end, n - M for n >= M, and less what a 30-bit sum loses |
| CommandEnds.DownByPosition | hdl/drv8825.vhd:666-681 | a relative command down by exactly the present position is given up if and only if that position is M |
| StepPin.PulsesOfCommand | hdl/drv8825.vhd:249-296 | over a whole command inside the range the step pin has one pulse for every counted step, and one more if and only if the step clock and counter_clk are both high when state_motor enters command |
| Tracking.TrackingStarts | hdl/drv8825.vhd:689-699 | from rest, seven ticks after the ports ask for it the motor tracks in their direction and mode, and the step clock runs on trackTick, plus pec when enabled |
| Tracking.TrackingMoves | hdl/drv8825.vhd:809-900 | from then on the counted steps are those of a clock of that period in closed form, and the position is start plus or minus the mode's units for each |
| Tracking.OneStepPerPeriod | hdl/drv8825.vhd:886-900 | every period + 1 ticks count exactly one step, up for direction 1 and down for direction 0 |
| Tracking.TrackingStops | hdl/drv8825.vhd:700-702 | three ticks after tracking is disabled the motor is idle, and no step is counted while it stays so |
| Controls.CommandTaken | hdl/drv8825.vhd:657-681 | the rising command bit: two ticks later direction, period, mode and target are those of the ports, and the command executes on the third |
| Controls.ParkTaken | hdl/drv8825.vhd:682-688 | the rising park bit: the same with target 0 |
| Controls.CancelEnds | hdl/drv8825.vhd:591-623 | a cancelled command is given up within two ticks, and the motor leaves it on the next |
| Controls.ParkIgnoresCancel | hdl/drv8825.vhd:757-779 | a park is given up only at its target, whatever the cancel bit does |
| Controls.CommandIsKept | hdl/drv8825.vhd:757-779 | target, direction, period and mode of a command do not change while it executes, whatever the ports do |
| Controls.LoadArrives | hdl/drv8825.vhd:846-882 | two ticks after a load is accepted its value is the position |
| Controls.MaximumArrives | hdl/drv8825.vhd:850-853 | a maximum is in force two ticks after its strobe if the loader listens |
| Controls.MaximumIsKept | hdl/drv8825.vhd:846-856 | the maximum changes only while the loader listens and a strobe has been sampled |
| Controls.HeldLoadIsTakenOnce | hdl/drv8825.vhd:846-855 | a load strobe that stays high is accepted once, whatever else happens |
| Controls.LoadIsArmed | hdl/drv8825.vhd:846-855 | a strobe that goes down while the loader listens arms it for the next load |
| Controls.PecIsSampled | hdl/drv8825.vhd:753 | the correction for periodic errors is sampled in every state |
| Controls.UnitsPerStep | hdl/drv8825.vhd:100-168 | units times microsteps is 32, or 64 with the finer driver, in every mode that the driver has |
| Controls.WaitsForTurn | hdl/drv8825.vhd:341-365 | without a turn the backlash machine seeks exactly while there is backlash to take up |
| Controls.SpeedArrives | hdl/drv8825.vhd:332-372 | with backlash or without, outside episodes a new speed is in counter_buf three ticks later and a new mode in current_mode_out two ticks later |
| Controls.TurnTakesUpBacklash | hdl/drv8825.vhd:332-372 | a change of direction starts an episode three ticks later with tick, duration and mode of the ports, and no step is counted in it |
| Parking.ParkArrives | hdl/drv8825.vhd:624-656 | a park from n >= 1 steps away makes exactly n counted steps, the position on the way at every tick, and stops at 0 |
| LoadTiming.LoadSequence | hdl/drv8825.vhd:857-882 | the load sequence counts nothing and leaves the counter in range with counter_clk high |
| LoadTiming.PulseAfterLoad | hdl/drv8825.vhd:846-882 | for every period a pulse at least seven ticks after an accepted load is counted like any other, and nothing before it |
| LoadTiming.PulseLostToLoad | hdl/drv8825.vhd:846-882 | for every period nothing is counted of a pulse within six ticks of an accepted load, until it is over |
| TrackingRamp.MotorDriver.DisableTracking | koheron-server/drivers/motor_driver.hpp:76-99 | the words written are the ramp for the register read, then 0 |
| TrackingRamp.MotorDriver.EnableTracking | koheron-server/drivers/motor_driver.hpp:101-123 | the words written are the optional stop, the start ramp and the target word |
| TrackingRamp.TargetDecodes | koheron-server/drivers/motor_driver.hpp:119-121 | the target word decodes to the direction, mode, PEC bit and period asked for |
| TrackingRamp.SoftStop | koheron-server/drivers/motor_driver.hpp:80-96 | with PEC off, word k of the stopping ramp decodes to the same direction and mode, PEC off, period p*(k+2) < 12500 |
| TrackingRamp.Rising | koheron-server/drivers/motor_driver.hpp:80-96 | the periods of the stopping ramp strictly increase |
| TrackingRamp.RampEnds | koheron-server/drivers/motor_driver.hpp:80-96 | the stopping ramp has n words with h(n+2) <= 25000 < h(n+3) for the register h above bit 4, and none when 2h > 25000 |
| TrackingRamp.StartRampFills | koheron-server/drivers/motor_driver.hpp:107-118 | the starting ramp has n words with p n <= 25000 < p(n+1), and none from 25000 on |
| TrackingRamp.PecStaysOff | koheron-server/drivers/motor_driver.hpp:80-96 | the ramp keeps PEC off if and only if it was off or the ramp has at most one word |
| TrackingRamp.StopAfterStart | koheron-server/drivers/motor_driver.hpp:76-123 | the two together: stopping what enable_tracking started |
| TrackingRamp.StartRampDecodes | koheron-server/drivers/motor_driver.hpp:107-118 | word for i of the starting ramp decodes to period p*i/2 and PEC equal to the low bit of p*i |
| I2cMaster.Controller.RisingClk | hdl/i2c_master.vhd:73-252 | one clock of the entity, both processes reading old values |
| I2cMaster.SoundInEveryRun | hdl/i2c_master.vhd:73-252 | clock phase, framing and the bits sent so far agree in every state of every run, for divider >= 2 |
| I2cMaster.BytesOnTheWire | hdl/i2c_master.vhd:127-199 | address and data bytes are driven on SDA bits 7 down to 0, one per SCL pulse; data_rd is the eight bits heard, most significant first |
| I2cMaster.WiredAndInEveryRun | hdl/i2c_master.vhd:244-252 | in every run a heard bit is high exactly when neither the master nor another device pulls SDA low |
| I2cMaster.StretchHolds | hdl/i2c_master.vhd:80-100 | a slave that holds SCL stops count, state and bytes for as long as it does |
| I2cMaster.StretchBegins | hdl/i2c_master.vhd:90-97 | in the third quarter the clock is held exactly when SCL is not high |
| I2cTransaction.Transaction | hdl/i2c_master.vhd:127-216 | after a request taken in ready, slv_ack2 or mstr_ack the phases are start, address and rw, acknowledge slot, and dataWr for rw = 0 or eight released bits into data_rd for rw = 1; a repeated address and rw goes straight to the byte |
| I2cTransaction.TransactionFromReset | hdl/i2c_master.vhd:127-216 | the same for every request of every run from reset |
| I2cTransaction.TransactionEnds | hdl/i2c_master.vhd:73-106 | without stretching all phases are over within 18 cycles of 4 * divider + 1 clocks |
| I2cTransaction.ToRiseTick | hdl/i2c_master.vhd:73-106 | with SCL enabled and not stretched the data clock rises exactly every 4 * divider + 1 clocks |
| I2cTransaction.AckErrorTells | hdl/i2c_master.vhd:217-240 | ack_err is set exactly when an acknowledge slot since the request heard SDA high |
| I2cTransaction.BusyTick | hdl/i2c_master.vhd:127-216 | when busy is high and when it is low, on every clock |
| I2cMaster.SteadyRun | hdl/i2c_master.vhd:244-252 | SDA moves while SCL is high only as a start condition in start and a stop condition in stop |
| I2cMaster.ConditionsAreMade | hdl/i2c_master.vhd:244-252 | on the falling edge of the data clock start and stop make their condition: SDA moves the right way while SCL is high |
| I2cMaster.SclIsIdle | hdl/i2c_master.vhd:217-225 | SCL is left high from ready to the start condition of a new transfer |
| I2cMaster.EndOfRead | hdl/i2c_master.vhd:170-216 | when a transfer ends after a read byte, leaving stop moves SDA while SCL is high if and only if the byte was acknowledged |
| SpiSlave.Slave.RisingSpiClk | hdl/spi_slave.vhd:131-238 | one edge of the SPI clock moves all registers of both processes as Edge says |
| SpiSlave.Slave.Transfer | hdl/spi_slave.vhd:131-238 | a whole transfer of the class ends in the state, and returns the bits, that the theorems about transfers are about |
| SpiSlave.OneStrobe | hdl/spi_slave.vhd:162-196 | exactly one strobe begins in any transfer, and where |
| SpiSlave.WriteBuffer | koheron-server/context/spi_dev.hpp:76-88 | the bytes that write_at sends |
| SpiSlave.ReadBuffer | koheron-server/context/spi_dev.hpp:108-115 | the bytes that read_at sends |
| SpiSlave.WriteReachesBus | koheron-server/context/spi_dev.hpp:76-89 | from any earlier state and for any bus answers, write_at makes one write strobe with its value and the low seven address bits on the bus |
| SpiSlave.ReadStrobe | hdl/spi_slave.vhd:162-169 | read_at makes one read strobe right after the address, if and only if the low byte of addr + offset is below 128 |
| SpiSlave.ReadReturnsBus | koheron-server/context/spi_dev.hpp:108-119 | read_at returns the bus value of the last acknowledge inside the holdoff, and zero when there is none |
| SpiSlave.ReadReturnsWord | koheron-server/context/spi_dev.hpp:108-119 | read_at returns v when the bus acknowledges the 32 bits of v last, for every 32-bit v |
| SpiSlave.BitsOfAt | hdl/spi_slave.vhd:110-112 | the bits on the line are the binary digits, most significant first |
| SpiSlave.SwappedStream | hdl/spi_slave.vhd:110-112 | byte reversal undoes the little-endian order of the driver |
| Sha1.BooleanFunctions | koheron-server/core/sha1.cpp:108-111 | the coded F functions are Ch, Parity and Maj of section 4.1.1 of FIPS 180-4 |
| Sha1.CircularStep | koheron-server/core/sha1.cpp:129-214 | the 16-word circular buffer holds the last sixteen words of the 80-word schedule at every step |
| Sha1.Sha1Context.Step | koheron-server/core/sha1.cpp:129-214 | one step is the compression of section 6.1.2 of FIPS 180-4 and clears the buffer |
| Sha1.Sha1Context.Pad | koheron-server/core/sha1.cpp:229-261 | padding feeds exactly the padded message of section 5.1.1 |
| Sha1.PaddingIs | koheron-server/core/sha1.cpp:229-261 | both branches of the padding give the number of zeros of the standard, for every length |
| Sha1.Sha1Context.Loop | koheron-server/core/sha1.cpp:263-286 | feeding a message in any pieces leaves the same context |
| Sha1.PutBytes | koheron-server/core/sha1.cpp:263-286 | writing behind the buffered bytes leaves either nothing to do or one compression |
| Sha1.SHA1 | koheron-server/core/sha1.cpp:316-325 | the result is the digest of the standard, for every message below 2^61 bytes |
| Sha1.RootsOfK | koheron-server/core/sha1.cpp:105-106 | the round constants are the square roots of 2, 3, 5 and 10 scaled by 2^30 |
| Sha1.RoundFunctions | koheron-server/core/sha1.cpp:129-214 | which function belongs to which of the 80 rounds |
| Sha1.ChooseSelects | koheron-server/core/sha1.cpp:108 | Ch takes the bits of y where x is set and those of z elsewhere |
| Sha1.MajorityDecides | koheron-server/core/sha1.cpp:110 | Maj agrees with x and y where they agree and with z elsewhere |
| Sha1.SumIs | koheron-server/core/sha1.cpp:129-214 | the five terms of a round are added modulo 2^32 |
| Sha1.AddIs | koheron-server/core/sha1.cpp:129-214 | words are added modulo 2^32 |
| Sha1.PlusIs | koheron-server/core/sha1.cpp:207-214 | the words of the rounds are added to those of the hash value one by one |
| Sha1.WordIs | koheron-server/core/sha1.cpp:129-160 | four bytes are a big-endian word |
| Sha1.MixRotates | koheron-server/core/sha1.cpp:129-214 | the rotation of the message schedule is by one bit |
| Sha1.InitialDigits | koheron-server/core/sha1.cpp:222-226 | the initial hash value, byte by byte |
| Sha1.RoundRotates | koheron-server/core/sha1.cpp:129-214 | the rotations of a round are by 5 and by 30 bits |
| Sha1.LengthIs | koheron-server/core/sha1.cpp:229-261 | the length ends the message as a big-endian 64-bit number |
| Base64.Encode | koheron-server/core/base64.cpp:41-82 | the output is the encoding of section 4 of RFC 4648 |
| Base64.DigitsAreTheAlphabet | koheron-server/core/base64.cpp:31-34 | the digits are table 1 of RFC 4648 |
| Base64.Decode | koheron-server/core/base64.cpp:84-123 | the output is the decoding of the longest prefix in the alphabet, with its partial group |
| Base64.SplitIsQuad | koheron-server/core/base64.cpp:51-54 | the masks and shifts cut a 24-bit group into its four 6-bit groups |
| Base64.RoundTrip | koheron-server/core/base64.cpp:41-123 | decoding an encoded byte string gives it back, for every length |
| WireFormat.BuildArgsPacks | koheron-server/scripts/server.py:301-328 | the packs flatten to the signature; runs of scalars are maximal and containers stand alone |
| WireFormat.PacksAreUnique | koheron-server/scripts/server.py:301-328 | there is only one such list of packs for a signature |
| WireFormat.ScalarRoundTrip | koheron-server/core/serializer_deserializer.hpp:36-253 | extract gives back every value of every scalar type |
| WireFormat.RangesAre | koheron-server/core/serializer_deserializer.hpp:36-253 | the size of every scalar type, and its range in plain numbers |
| WireFormat.HeaderBytes | koheron-server/scripts/koheron.py:84-94 | the eight bytes of a command header |
| Bytes.BigEndianAt | koheron-server/scripts/koheron.py:96-102 | byte k from the right is the value shifted by 8k bits, cut to a byte |
| WireFormat.DeserializeScalars | koheron-server/core/serializer_deserializer.hpp:259-306 | consecutive extracts give back a run of scalars and need exactly its bytes |
| WireFormat.PacksWithMore | koheron-server/scripts/server.py:236-264 | bytes behind the arguments do not change what is parsed |
| WireFormat.PacksRoundTrip | koheron-server/scripts/server.py:236-264 | parsing with the packs recovers the arguments and consumes exactly their bytes, whatever follows |
| KoheronClient.ByteArray.Append | koheron-server/scripts/koheron.py:96-102 | the low bytes of the value, most significant first, for sizes up to 4 and 8; nothing for others |
| KoheronClient.ByteArray.AppendVector | koheron-server/scripts/koheron.py:104-111 | the dtype check, then length and bytes |
| KoheronClient.ByteArray.AppendArray | koheron-server/scripts/koheron.py:113-122 | length check before dtype check, then the bytes |
| KoheronClient.CastKeepsBytes | koheron-server/scripts/koheron.py:141-148 | an integer out of range is sent as its C cast |
| KoheronClient.SignedPattern | koheron-server/scripts/koheron.py:125-129 | sending a float's bits as a signed integer changes no byte |
| KoheronClient.SignedBitsAre | koheron-server/scripts/koheron.py:125-129 | the pattern as a signed number is in range and differs by nothing or by 2^(8 size) |
| KoheronClient.BuildPayload | koheron-server/scripts/koheron.py:131-169 | the payload, or the first exception from the left |
| KoheronClient.MakeCommand | koheron-server/scripts/koheron.py:84-94 | header and payload, with all error cases |
| KoheronClient.PayloadEncodes | koheron-server/scripts/koheron.py:131-169 | the payload is the encoding of the arguments if and only if every string is ASCII |
| KoheronClient.Utf8CharIs | koheron-server/scripts/koheron.py:163-165 | the bytes of a character are the shortest form of RFC 3629 and stand for it |
| KoheronClient.SurrogatesAre | koheron-server/scripts/koheron.py:163-165 | the code points that cannot be encoded |
| KoheronClient.SurrogateAnywhere | koheron-server/scripts/koheron.py:163-165 | a string is rejected exactly when one of them stands anywhere in it |
| KoheronClient.NonAsciiString | koheron-server/scripts/koheron.py:163-165 | any other string is cut, and its remaining bytes precede what the server reads next |
| Session.TcpSession.RcvNBytes | koheron-server/core/session.cpp:43-69 | exactly n bytes for any fragmentation, or 0 and a drained stream |
| Session.TcpSession.Recv | koheron-server/core/session.hpp:183-245 | a container is read as the pack says, or the stream is drained |
| Session.TcpSession.ParseArguments | koheron-server/scripts/server.py:236-264 | the generated parser computes ParsePacks on the stream, or drains it |
| Session.TcpSession.ReadCommand | koheron-server/core/session.cpp:14-41 | driver and operation of the next command |
| Session.TcpSession.Run | koheron-server/core/session.hpp:143-180 | the calls executed are those the stream asks for, in order; one more with undefined arguments when the stream ends inside a command |
| Session.CallsAreServed | koheron-server/core/session.hpp:143-180 | a stream of encoded calls is served as exactly these calls, then as whatever follows |
| EndToEnd.Delivered | koheron-server/scripts/koheron.py:345-348 | any list of client calls reaches the drivers in order with the arguments meant |
| EndToEnd.Conversation | koheron-server/core/session.hpp:143-180 | client, fragmented stream and run loop together execute exactly the calls |
| CommandBuffer.Buffer.Deserialize | koheron-server/core/commands.hpp:36-43 | a scalar pack read at the cursor, which moves past it |
| CommandBuffer.Buffer.Recv | koheron-server/core/session.hpp:290-327 | the WebSocket readers give what the pack reads; the length guard never fires inside the buffer |
| CommandBuffer.Buffer.ParseArguments | koheron-server/core/session.hpp:290-341 | the parser over the buffer gives the same arguments as over the TCP stream |
| CommandBuffer.LengthFits | koheron-server/core/session.hpp:298-327 | arguments that end inside the buffer announce no length above the guard |
| Serializer.Append | koheron-server/core/serializer_deserializer.hpp:36-253 | append writes the big-endian bytes of a value and nothing else |
| Serializer.EndsAtNul | koheron-server/core/serializer_deserializer.hpp:540-555 | a C string is what stands in front of the first NUL |
| Serializer.DynamicSerializer.DumpContainer | koheron-server/core/serializer_deserializer.hpp:480-493 | byte length modulo 2^32, then that many bytes |
| Serializer.DynamicSerializer.CommandSerializer | koheron-server/core/serializer_deserializer.hpp:451-555 | dumped bytes and scalars put aside together grow by the plain encoding of the arguments |
| Serializer.DynamicSerializer.BuildCommand | koheron-server/core/serializer_deserializer.hpp:568-590 | the buffer is the header followed by the plain concatenation of the argument encodings, whatever earlier calls left |
| Serializer.ReplyRoundTrip | koheron-server/core/serializer_deserializer.hpp:568-590 | a reply parses back to its arguments |
| WebSocketFrames.FrameRoundTrip | koheron-server/core/websocket.cpp:270-334 | sections 5.2 and 5.3 of RFC 6455: decoding an encoded frame gives the frame, its length form and the rest |
| WebSocketFrames.MaskedTwice | koheron-server/core/websocket.cpp:187-196 | unmasking undoes masking |
| Bytes.XorIsBitwise | koheron-server/core/websocket.cpp:187-196 | the exclusive or of the masking, bit by bit |
| WebSocketFrames.MinimalIsShortest | koheron-server/core/websocket.cpp:122-154 | the form of the length that is written is the shortest that holds it |
| WebSocket.WebSocket.ReadNBytes | koheron-server/core/websocket.cpp:336-374 | n bytes appended for any fragmentation; -1 exactly when the buffer then holds 16384; closed when the stream ends |
| WebSocket.WebSocket.ReadHeader | koheron-server/core/websocket.cpp:270-334 | the header that HeadOf finds, for all opcodes, length forms and short streams |
| WebSocket.WebSocket.ReadStream | koheron-server/core/websocket.cpp:216-241 | header and payload in the buffer, or which error |
| WebSocket.WebSocket.DecodeRawStreamCmd | koheron-server/core/websocket.cpp:182-199 | the two buffers of the command carry the unmasked payload |
| WebSocket.HeadOfDecoded | koheron-server/core/websocket.cpp:270-334 | the code's view of a stream against the decoding of section 5.2 |
| WebSocket.Signed64Is | koheron-server/core/websocket.cpp:311-325 | the 64-bit length is a two's complement number |
| WebSocket.CutFrameCloses | koheron-server/core/websocket.cpp:270-374 | a masked text or binary frame that is cut anywhere closes the connection |
| WebSocket.WebSocket.ReadCommand | koheron-server/core/session.cpp:93-121 | a masked frame yields a command if and only if it is accepted, with exactly its payload, and the stream continues behind it |
| WebSocket.WebSocket.SetSendHeader | koheron-server/core/websocket.cpp:122-154 | FIN and opcode byte, no mask, the length in its minimal form |
| WebSocket.WebSocket.SendRequest | koheron-server/core/websocket.cpp:381-412 | on an open connection, positive if and only if no write was refused, for any partial writes; then exactly the bytes were written, otherwise a proper prefix; nothing for no bytes or a closed connection |
| WebSocket.WebSocket.Send | koheron-server/core/websocket.hpp:107-121 | exactly one frame of section 5.2 with FIN, binary, minimal length and the data, if and only if no write was refused; nothing when too long or closed |
| WebSocket.WebSocket.Exit | koheron-server/core/websocket.cpp:156-159 | a close frame without payload, whole if and only if no write was refused |
| WebSocketSession.WebSocketSession.Run | koheron-server/core/session.hpp:143-180 | any stream of masked frames is executed as its payloads ask for, frame by frame, up to the first frame that is not accepted or names no driver |
| WebSocketSession.CarriedCallsAreServed | koheron-server/core/session.hpp:143-180 | frames that carry one call each ask for exactly these calls |
| DriversManager.DriverManager.Get | koheron-server/core/drivers_manager.hpp:61-67 | terminates; the reference is that of a constructed driver exactly when the driver has been constructed, always without exit_all; a new exit_all has a cycle behind it |
| DriversManager.DriverManager.Alloc | koheron-server/core/drivers_manager.cpp:17-37 | fails exactly for a driver under construction, and then a cycle is closed |
| DriversManager.NoCycleBehind | koheron-server/core/drivers_manager.cpp:17-37 | no cycle can be reached from a driver constructed after its dependencies |
| DriversManager.Request | koheron-server/core/drivers_manager.cpp:52-77 | nothing is constructed twice; without exit_all everything is after its dependencies; exit_all if and only if a cycle of drivers not yet started is reachable |
| SessionManager.SessionManager.CreateSession | koheron-server/core/session_manager.hpp:62-84 | the new identifier is fresh, taken from the stack or equal to the counter |
| SessionManager.SessionManager.DeleteSession | koheron-server/core/session_manager.cpp:59-93 | a live identifier moves to the stack; an unknown one changes nothing |
| SessionManager.SessionManager.DeleteAll | koheron-server/core/session_manager.cpp:95-110 | the pool is empty and the counter 0 |
| SessionManager.SessionManager.GetSessionIds | koheron-server/core/session_manager.cpp:47-57 | the live identifiers, ascending |
| SessionManager.RunKeeps | koheron-server/core/session_manager.hpp:62-84 | after every run pool and stack share out 0..k-1 without repetition, k is the peak number of sessions, the counter is the pool's size |
| SessionManager.PeakIsReached | koheron-server/core/session_manager.hpp:62-84 | some moment of the run had exactly that many sessions |
| SessionManager.FreshIds | koheron-server/core/session_manager.hpp:67-76 | a new identifier is never live, and grows the range exactly when every identifier is taken |
| SessionManager.LastFreedFirst | koheron-server/core/session_manager.hpp:67-76 | the identifier freed last is used first |

## Left out

- AccelLevels.AccelControl.RisingClk50: does not compute the deceleration points of `hdl/drv8825.vhd:478-493`; which of them the position has reached is an input.
- Drv8825.Controller.RisingClk50: is about commands without the acceleration flag, whose branches in `issue_command` (cancel, issue_stop, cutoff) it omits.
- LevelClock.OneStepPerLevelCycle: takes period, direction, mode and backlash settings of the command as inputs, since `issue_command` for accelerated commands is not modelled.
- RelativeCommand.ExactSteps: asks for no external load on the first two ticks, no new maximum on the first, and modes of equal step size before and during the command.
- WrapAround.MaximumLoaded: leaves out M = 0, for which the invariant fails (`ZeroMaximum`), and M = 2^30 - 1, which puts no maximum in force.
- WrapAround.OutIsReplaced: asks for 2 <= M <= 2^30 - 3, as the theorems about commands do. With M = 1 the replacement 2 lies outside the range (`StuckForEver`), and with M = 2^30 - 2 both ends of the range are one position.
- WrappingCommand.StepsOverTheEnd: is for one unit per step.
- StepPin.PulsesOfCommand: is about commands that do not leave the range; a wrap shorter than the load sequence puts pulses on the pin that are not counted.
- WrapAround.NoPulseLost: is about runs without loads from outside; `LoadTiming` says exactly when such a load costs a pulse.
- The output stage of `hdl/drv8825.vhd:187-298` but for the step pin: direction, mode, sleep and reset pins, status word.
- Periods that PEC makes negative, and the range checks of VHDL integer subtypes in simulation.
- Reset of the VHDL entities in the middle of a run, metastability, and the skew between separately synchronised buses in `hdl/top.vhd`.
- The slave address bits of `sync_Vector` (SLAVE_BITS), which every instance sets to 0.
- I2cMaster.Controller.RisingClk: an asynchronous reset in the middle of a cycle is not modelled.
- Failing `read` and `write` calls on sockets: a read gives bytes or the end of the stream. The WebSocket reader retries a failing read for ever.
- CommandBuffer.Buffer.Recv: asks for arguments that end inside the buffer, because the source reads past it otherwise.
- CommandBuffer.Buffer.ParseArguments: asks for the same.
- WebSocketSession.WebSocketSession.Run: asks that a frame which names an operation holds all of its arguments, because the source reads what earlier frames left in the buffer otherwise.
- EndToEnd.Delivered: hands every command over whole; `koheron-server/scripts/koheron.py:347` ignores the count that `send` returns, so a short write loses the bytes behind it.
- EndToEnd.Conversation: the same.
- Session.TcpSession.Run: does not have the exit signal, the status a failed reply leaves, or the server as driver 1.
- Driver 1 is served with a parser like any other; `koheron-server/core/drivers_manager.cpp:152` sends it to the server's own `execute`.
- WebSocket.WebSocket.ReadCommand: says nothing about frames without a mask beyond its three results; the code reads four bytes of them as a mask.
- Serializer.DynamicSerializer.CommandSerializer: asks that no run of scalars outgrows the 1024-byte array.
- Serializer.DynamicSerializer.BuildCommand: asks that no run of scalars outgrows the 1024-byte array and no container reaches 2^32 bytes, where the source writes past the array or cuts the length; complex numbers are not among the scalar types.
- KoheronClient.BuildPayload: asks for the Python type that each branch assumes; floats are bit patterns.
- KoheronClient.MakeCommand: asks for the same.
- Sha1.Sha1Context.Step: reads the buffer as big-endian words where the source swaps bytes through a union, and runs one loop over the 80 steps where the source has four.
- The exit signal that ends `run` early, the sending of replies from inside it and the status that a failed reply leaves.
- What a constructor does with a reference to a driver that is still under construction; mutexes and threads.
- The C++ client, whose serialiser and parser are twins of the server's; the HTTP handshake around SHA-1 and base64; the configuration, logging and setter layers.
