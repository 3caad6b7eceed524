# brics payload controller: a Dafny model

This project models the sequencing core of the brics payload, a Raspberry Pi
experiment that opens pinch valves with servos on a fixed schedule and logs
humidity and temperature from bme680 sensors behind a TCA9548A I2C
multiplexer. Three parts of the Python program are modelled:

- the `Payload` controller (`payload_controller.py`):
  - channel selection on the multiplexer;
  - `secure_sleep`;
  - the servo bank and its open/close protocol;
  - `configure_servos`;
  - the binding pass and the poll sweeps of the sensor thread;
- the `Runner` test sequencer (`payload_runner.py`):
  - its state fields, `update_step`, `cleanup` and `end_sensor_logging`;
  - `start_testing`, including its exception handler;
- the stand-alone servo script `src/servos.py`:
  - its configuration, `set_valve`, `open_valve`/`close_valve` and its
    main sequence.

Hardware is not executable here. Each smbus, RPi.GPIO or bme680 call, each
sleep and each status report of a caught error becomes an `Action` appended to
a trace. An operation is a pure function from the old state to the new state,
the trace it issues, and the exception it raises, if any. Other values are
represented as follows:

- durations are milliseconds;
- duty cycles are tenths of a percent: 95, 50, 20 and 0;
- sensor readings are opaque values;
- a Ctrl-C is a parameter saying during which blocking call it arrives: a
  sleep, or the join of the sensor thread;
- the wall clock of `secure_sleep` is a parameter, a function from the index
  of a `time.time()` call to its reading.

| module | file | models |
|---|---|---|
| `Actions` | actions.dfy | the action vocabulary, exceptions, Ctrl-C, sequential composition |
| `Multiplexer` | multiplexer.dfy | `MULTIPLEXER_CHANNEL_ARRAY`, `change_multiplexer_channel` |
| `SecureSleep` | secure_sleep.dfy | `secure_sleep` as a loop over an abstract clock |
| `Decimal` | decimal.dfy | `"{num}".format(num=n)` for the pair numbers in servo names |
| `Controller` | controller.dfy | the servo bank, `open_valve`, `close_valve`, `configure_servos` |
| `Sensors` | sensors.dfy | `log_sense`: binding pass, sweeps, `get_humidity`/`get_temperature` |
| `TestRunner` | runner.dfy | `Runner`: fields, `update_step`, `cleanup`, `end_sensor_logging`, `start_testing` |
| `ServoScript` | servo_script.dfy | `src/servos.py` |

## Behaviour as written

The model follows the code, including where the code does less than its
docstrings and design suggest:

- `start_testing` catches only a Ctrl-C. Its handler reads
  `except Exception and KeyboardInterrupt`. The `and` evaluates to
  `KeyboardInterrupt`, so any other exception propagates to the caller. An
  example is the IndexError of a port list that is too short.
- A caught Ctrl-C is reported, and that is all the handler does. There is no
  best-effort clean-up. A Ctrl-C inside the `try` body, before the clean-up
  call, leaves things as follows:
  - GPIO is not released;
  - the sensor thread is neither stopped nor joined;
  - the runner stays `active`.

  A Ctrl-C during a move leaves that servo energized at its move duty
  (`TestRunner.InterruptMidMove`).
- The clean-up call is inside the same `try`, and `end_sensor_logging`
  blocks in `join`. A Ctrl-C there arrives after GPIO is released and both
  flags are cleared, so the report follows `GpioCleanup, JoinSensorThread`.
  The step is not cleared, because `update_step("")` never runs
  (`TestRunner.InterruptDuringJoin`).
- An unknown servo name raises KeyError at the dictionary lookup, before
  any command. No dedicated "unknown valve" error exists.
- A binding pass over more than eight channels raises IndexError when it
  selects channel 8. The raise is outside the `try` blocks, so it ends the
  sensor thread.
- The stop flag of the sensor thread is read only before a sweep starts,
  so every sweep that starts completes.
- The nested loop of `configure_servos` in `src/servos.py` is modelled as
  one loop over the servo index `k = 2p + i`. Servo `k` is leg `i` of pair
  `p`.

## Model

| member | source | states |
|---|---|---|
| `Multiplexer.PowerIsOneHot` | payload_controller.py:18 | `2^c` has bit `b` set exactly when `b == c`, so every table entry selects one bus |
| `Multiplexer.ChannelMaskSpec` | payload_controller.py:17-18 | channels 0..7 give a mask with exactly their own bit set; -8..-1 count from the end of the table; any other channel is IndexError carrying the channel |
| `Multiplexer.SelectSpec` | payload_controller.py:112-114 | selecting channel 0..7 writes `2^c` to address 0x70; selection fails exactly for channels outside the table, with IndexError |
| `Multiplexer.ChannelMask` | payload_controller.py:18 | the lookup `MULTIPLEXER_CHANNEL_ARRAY[channel]`, with Python's negative indices and IndexError; `Multiplexer.ChannelMaskSpec` states its contract |
| `Multiplexer.Select` | payload_controller.py:112-114 | `change_multiplexer_channel`: one byte write of the channel's mask to address 0x70, or the lookup's IndexError; `Multiplexer.SelectSpec` states its contract |
| `Multiplexer.MaskRoundTrip` | payload_controller.py:18 | the mask of each channel 0..7 decodes back to that channel |
| `Multiplexer.ChannelOfSound` | payload_controller.py:18 | a mask that decodes to a channel is that channel's table entry |
| `SecureSleep.Nap` | payload_controller.py:43-46 | each sleep is at most a minute and at most the time measured so far, and exactly a minute once that time reaches a minute |
| `SecureSleep.Wait` | payload_controller.py:38-47 | on an advancing clock, returns only once the measured elapsed time reaches the requested length; every measurement before the last was short of it; each sleep is at most a minute and is derived from the measurement before it; a length of at most 0 issues no sleep |
| `Decimal.ShowDigits` | payload_controller.py:160-161 | the decimal text of a pair number is a non-empty string of digits with no leading zero |
| `Decimal.ParseShow` | payload_controller.py:160-161 | parsing the decimal text gives the number back |
| `Decimal.ShowInjective` | payload_controller.py:160-161 | two numbers have the same decimal text exactly when they are equal |
| `Controller.ServoNameInjective` | payload_controller.py:160-161 | `"{p}a"`/`"{p}b"` names are equal exactly when pair and leg are |
| `Controller.ValveOrderShape` | payload_runner.py:95-103 | the valve order has 2n entries, entry i is leg a/b (i even/odd) of pair i/2+1, and no name repeats |
| `Controller.ValveOrderFromMember` | payload_controller.py:158-161 | a name is in the order of pairs `pair..n` exactly when its pair is in range and its leg is a or b |
| `Controller.Actuate` | payload_controller.py:74-91 | an unknown servo raises KeyError before any command; otherwise the protocol is move duty, 2 s, duty 0, 1.5 s, ending at duty 0; a Ctrl-C in the first wait leaves the servo at its move duty; no servo appears or disappears |
| `Controller.ActuateReplay` | payload_controller.py:74-91 | however an actuation ends, the bank it leaves is the one its commands replay to |
| `Controller.ActuateMoves` | payload_controller.py:74-91 | an actuation, however Ctrl-C cuts it, issues a prefix of the protocol: duty commands and sleeps only |
| `Controller.ActuateStops` | payload_controller.py:77-80 | a completed actuation leaves every servo that was at rest at rest |
| `Controller.ActuateKeepsPairs` | payload_controller.py:74-91 | an actuation keeps every configured pair on its ports |
| `Controller.CommandedActuation` | payload_controller.py:77-79 | one actuation commands its servo once to the move duty and once to duty 0 |
| `Controller.OpenValve` | payload_controller.py:74-81 | `open_valve`: KeyError and no effect on an unknown servo; otherwise duty 95, 2 s, duty 0, 1.5 s, ending at duty 0 |
| `Controller.CloseValve` | payload_controller.py:84-91 | `close_valve`: KeyError and no effect on an unknown servo; otherwise duty 50, 2 s, duty 0, 1.5 s, ending at duty 0 |
| `Controller.ConfigureServosReplay` | payload_controller.py:155-177 | however configuration ends, the bank it leaves is the one its commands replay to |
| `Controller.ConfigurePairQuiet` | payload_controller.py:160-177 | one pair with both ports present: both servos added on ports `2(p-1)` and `2(p-1)+1` at duty 0, with exactly the PWM starts and the two closes |
| `Controller.ConfigurePair` | payload_controller.py:159-177 | one pass of the loop over pairs: both port lookups, the set-up and PWM start of `a` then `b`, the two dictionary entries, then `close_valve` on each; `Controller.ConfigurePairQuiet`, `Controller.ConfigurePairPorts`, `Controller.ConfigurePairRaises` and `Controller.ConfigurePairCommandsOnly` state its contract |
| `Controller.ConfigurePairs` | payload_controller.py:158-177 | the loop over pairs `pair..n`, stopping at the first exception; `Controller.ConfigurePairsQuiet`, `Controller.ConfigurePairsKeepsPorts`, `Controller.ConfigurePairsCompletes` and `Controller.ConfigurePairsRaises` state its contract |
| `Controller.ConfigureServos` | payload_controller.py:155-177 | `configure_servos`: BCM mode, then the loop over pairs `1..n`; `Controller.ConfigureServosNormal`, `Controller.ConfigureServosQuiet`, `Controller.ConfigureServosShort`, `Controller.ConfigureServosPorts` and `Controller.ConfigureServosRaises` state its contract |
| `Controller.ConfigurePairsQuiet` | payload_controller.py:158-177 | configuring pairs `pair..n` without Ctrl-C equals the reference bank and commands, and raises IndexError at `len(ports)` exactly when the ports run out |
| `Controller.PairSetupCommands` | payload_controller.py:166-177 | a pair's set-up closes `a` then `b` and opens nothing |
| `Controller.ConfigurationCommands` | payload_controller.py:158-177 | the configuration closes `1a, 1b, ..., na, nb` in order and opens nothing |
| `Controller.StoppedPairsKeys` | payload_controller.py:173-174 | configuration adds exactly the names of the configured pairs and keeps every other servo |
| `Controller.StoppedPairsValues` | payload_controller.py:163-174 | every configured servo sits on its port at duty 0 |
| `Controller.StoppedPairsStops` | payload_controller.py:168-177 | configuration energizes no servo that was at rest |
| `Controller.ConfigureServosNormal` | payload_controller.py:155-177 | with at least 2n ports and no Ctrl-C: BCM mode first; closes exactly `1a, 1b, ..., na, nb` in order; opens none; adds exactly those names; keeps other servos; leaves every added servo on its port at duty 0 |
| `Controller.ConfigureServosQuiet` | payload_controller.py:155-177 | with at least 2n ports and no Ctrl-C, configuration is the reference, and its bank is configured |
| `Controller.ConfigureServosShort` | payload_controller.py:163-164 | with fewer than 2n ports, configuration raises IndexError at `len(ports)` and has opened no valve |
| `Controller.ConfigurePairPorts` | payload_controller.py:160-174 | one pair under any Ctrl-C: no servo lost; others keep their ports; once both ports are found both servos exist on them |
| `Controller.ConfigurePairsKeepsPorts` | payload_controller.py:158-177 | configuring pairs under any Ctrl-C loses no servo and keeps the ports of servos it does not configure |
| `Controller.ConfigurePairsCompletes` | payload_controller.py:158-177 | a configuration of pairs that returns normally leaves every pair on its ports |
| `Controller.ConfigureServosPorts` | payload_controller.py:155-177 | a configuration that returns normally leaves the bank configured, and no servo is ever lost |
| `Controller.ConfigurePairCommandsOnly` | payload_controller.py:157-177 | one pair issues only servo set-up, duty commands and sleeps |
| `Controller.ConfigurePairRaises` | payload_controller.py:163-177 | one pair raises only IndexError at `len(ports)` or a Ctrl-C, never KeyError |
| `Controller.ConfigurePairsRaises` | payload_controller.py:158-177 | configuring pairs issues only servo commands and raises only IndexError at `len(ports)` or a Ctrl-C |
| `Controller.ConfigureServosRaises` | payload_controller.py:155-177 | `configure_servos` under any Ctrl-C issues only servo commands, and only IndexError at `len(ports)` or the Ctrl-C escapes |
| `Controller.ActuateSamePorts` | payload_controller.py:74-91 | an actuation, however a Ctrl-C cuts it, keeps exactly the same servos, each on its own port |
| `Controller.RestedSpec` | payload_controller.py:74-91 | resting the listed servos in turn, as completed actuations do, keeps every servo on its port, leaves each listed one at duty 0 and every other unchanged, and changes nothing on a bank at rest |
| `Controller.ValveOrderInBank` | payload_controller.py:158-174 | on a bank with pairs `1..n` configured, every name of the valve order from any pair is a servo of the bank |
| `Sensors.BindChannelSpec` | payload_controller.py:123-138 | binding a channel selects it first and probes the primary address next; the secondary is probed only after a RuntimeError or IOError there; the entry is the primary handle, the secondary handle or the placeholder, as `BindsAs` says; every access is on the selected channel |
| `Sensors.BindChannel` | payload_controller.py:123-138 | binding one channel: select it, try the primary address, fall back to the secondary after RuntimeError or IOError, tune the sensor, and record the placeholder on any other failure; `Sensors.BindChannelSpec` states its contract |
| `Sensors.BindFrom` | payload_controller.py:122-138 | the binding loop from channel `device` on; `Sensors.BindFromShape` states its contract |
| `Sensors.BindPass` | payload_controller.py:122-138 | the binding pass from an empty sensor list; `Sensors.BindPassShape` states its contract |
| `Sensors.BindFromShape` | payload_controller.py:122-138 | the binding loop appends one entry per channel in channel order; it selects each channel once, in ascending order; it raises IndexError only past the eighth channel |
| `Sensors.BindPassShape` | payload_controller.py:122-138 | the binding pass has one entry per channel, each bound as `BindsAs` says; channels are selected in ascending order before they are probed; IndexError(8) exactly when the count exceeds eight |
| `Sensors.AscendingMasksShape` | payload_controller.py:122-124 | the masks of channels `from..to-1` in order, the i-th selecting channel `from + i` |
| `Sensors.BoundChannelsSound` | payload_controller.py:50-71 | only channels in range with a driver handle are read, each twice |
| `Sensors.ReadQuantity` | payload_controller.py:50-71 | `get_humidity` / `get_temperature`: the bound driver's reading (None when that read raises), or None when the entry is the placeholder or missing; `Sensors.ReadChannelSpec` and `Sensors.SweepFromShape` state its contract, and `Sensors.LogSenseReadings` relates the values to the hardware |
| `Sensors.ReadChannelSpec` | payload_controller.py:141-145 | polling a channel: selects it first, sleeps once to settle, logs the expected value of both quantities, and reads the bus twice exactly when a handle is bound there |
| `Sensors.ReadChannel` | payload_controller.py:141-145 | one channel of a sweep: select, settle 0.1 s, humidity, temperature; `Sensors.ReadChannelSpec` states its contract |
| `Sensors.SweepFrom` | payload_controller.py:140-145 | the channels `device..count-1` of one sweep; `Sensors.SweepFromShape` states its contract |
| `Sensors.SweepSpecShape` | payload_controller.py:141-145 | the expected sweep has one record per channel, the i-th for channel `from + i` |
| `Sensors.SweepFromShape` | payload_controller.py:50-71 | a sweep: one record per channel, a failed or placeholder read logged as None; channels selected in order with every read on the selected channel; one settle sleep per channel; reads only of bound channels |
| `Sensors.SweepShape` | payload_controller.py:141-145 | a sweep over `count` channels: `count` records in channel order, masks in ascending order, `count` settle sleeps, never raises |
| `Sensors.SweepLoopShape` | payload_controller.py:139-146 | the poll loop runs whole sweeps, sweep j logging the expected records; selection is kept throughout; one settle sleep per channel plus one poll wait per sweep |
| `Sensors.SweepLoop` | payload_controller.py:139-146 | the poll loop: a sweep and the wait for each time it finds the flag set; `Sensors.SweepLoopShape` states its contract |
| `Sensors.LogSense` | payload_controller.py:117-147 | `log_sense`: the binding pass, then the poll loop; `Sensors.LogSenseShape` states its contract |
| `Sensors.LogSenseShape` | payload_controller.py:117-147 | `log_sense` with at most eight channels: the pass's bindings, then as many whole sweeps as the flag allows, each logging the expected records, every access on the selected channel; with more channels IndexError(8) and no sweep |
| `Sensors.BoundIffAnswers` | payload_controller.py:123-138 | a channel is bound to a driver handle exactly when a sensor answers at the primary address, or at the secondary after a RuntimeError or IOError at the primary, and accepts its settings |
| `Sensors.LogSenseReadings` | payload_controller.py:117-147 | with at most eight channels, stated from the hardware alone: each sweep logs one record per channel, and a channel logs the sample of each quantity exactly when it has a working sensor, None otherwise |
| `TestRunner.NewRunner` | payload_runner.py:22-33 | a new runner is inactive, unconfigured, at step "initialized", with an empty bank and the sensor flag as the constructor leaves it, cleared, before the sensor thread runs |
| `TestRunner.UpdateStep` | payload_runner.py:57-60 | `update_step` sets the step and changes no other field |
| `TestRunner.UpdateStepLastWins` | payload_runner.py:57-60 | only the last recorded step survives, and recording the current step changes nothing |
| `TestRunner.EndSensorLogging` | payload_runner.py:72-75 | clears only the payload's sensor flag, then joins the thread; the join raises Ctrl-C exactly when it is the blocking call the Ctrl-C arrives in, and only a Ctrl-C can escape |
| `TestRunner.Cleanup` | payload_runner.py:63-75 | releases GPIO and joins the thread; `active`, `valves_configured` and the sensor flag are cleared whether or not the join is interrupted; step "" is recorded exactly when no Ctrl-C arrives in the join, which is the only way it raises; nothing else changes |
| `TestRunner.ConfigurePhase` | payload_runner.py:85-89 | configures only when not configured yet; the flag is set afterwards exactly when configuration returned normally |
| `TestRunner.StartWaitPhase` | payload_runner.py:91-93 | sleeps `test_start_time` only when asked, recording the waiting step |
| `TestRunner.EndWaitPhase` | payload_runner.py:105-107 | sleeps `test_end_time` only when asked, recording the logging step |
| `TestRunner.CleanupPhase` | payload_runner.py:108-109 | cleans up only when asked, and leaves the runner alone otherwise; raises only a Ctrl-C, exactly when it cleans up and the Ctrl-C arrives in the join |
| `TestRunner.StartTesting` | payload_runner.py:111-112 | a Ctrl-C never escapes `start_testing` |
| `TestRunner.ScheduleCommands` | payload_runner.py:95-103 | the valve schedule opens every name once, in order, stops each once, and closes none |
| `TestRunner.OpenLegSafe` | payload_runner.py:96-99 | opening a known valve under any Ctrl-C: duty commands and sleeps only, only a Ctrl-C escapes, ports unchanged |
| `TestRunner.OpenLeg` | payload_runner.py:96-103 | one leg of the loop: `open_valve`, `secure_sleep` of the gap, then the step; its bank is the one `open_valve` leaves; `TestRunner.OpenLegSafe` and `TestRunner.OpenLegNormal` state the rest |
| `TestRunner.OpenLegNormal` | payload_runner.py:96-99 | opening a known valve when no Ctrl-C arrives in its three sleeps: the full protocol and the delay, the valve left at duty 0, three blocking calls consumed |
| `TestRunner.OpenPairsSafe` | payload_runner.py:95-103 | the valve loop on a configured bank, any Ctrl-C: only moves and sleeps, never a KeyError, ports unchanged |
| `TestRunner.OpenPairs` | payload_runner.py:95-103 | the loop over pairs `pair..n`, leg `a` then leg `b`, stopping at the first exception; `TestRunner.OpenPairsSafe`, `TestRunner.OpenPairsQuiet` and `TestRunner.OpenPairsStep` state its contract |
| `TestRunner.OpenPairsQuiet` | payload_runner.py:95-103 | the valve loop without Ctrl-C on a configured bank is the schedule `{p}a` + intra delay, `{p}b` + inter delay for each pair in order, leaving each opened valve at duty 0 and every other servo unchanged |
| `TestRunner.OpenPairsStep` | payload_runner.py:97-102 | the valve loop leaves the step as it was or at one of the two valve steps it records |
| `TestRunner.ConfigurePhaseSafe` | payload_runner.py:85-89 | configuring under any Ctrl-C: only servo commands; only a Ctrl-C or IndexError at `len(ports)` escapes; the flag is set only over a configured bank |
| `TestRunner.ConfigurePhaseQuiet` | payload_runner.py:85-89 | without Ctrl-C a fresh runner gets the configured bank and the flag; a configured one is left alone |
| `TestRunner.ValveLoopSafe` | payload_runner.py:95-103 | the valve loop on a configured runner under any Ctrl-C changes only duties and the step |
| `TestRunner.ValveLoopQuiet` | payload_runner.py:95-103 | without Ctrl-C on a configured runner: exactly the schedule `1a, 1b, ..., na, nb` with intra delays after `a` and inter delays after `b`; every opened valve ends at duty 0, every other servo unchanged |
| `TestRunner.ValveLoop` | payload_runner.py:95-103 | the loop over pairs `1..valve_num` on the runner's bank; `TestRunner.ValveLoopSafe` and `TestRunner.ValveLoopQuiet` state its contract |
| `TestRunner.ConfiguredBankReady` | payload_runner.py:85-89 | the bank after configuration is configured, and at rest when the old bank was |
| `TestRunner.FinalBankReady` | payload_runner.py:85-103 | after configuration and the schedule the bank is configured with every valve of the order at duty 0, and it is the configured bank when the old bank was at rest |
| `TestRunner.PhasesQuiet` | payload_runner.py:83-107 | the `try` body without Ctrl-C: configuration only when needed, the optional start wait, the schedule, the optional end wait, ending on the bank of `FinalBankReady` |
| `TestRunner.PhasesStep` | payload_runner.py:83-107 | the `try` body never records the cleared step |
| `TestRunner.Phases` | payload_runner.py:83-107 | the `try` body before the clean-up: configuration phase, start wait, valve loop, end wait, stopping at the first exception; `TestRunner.PhasesQuiet`, `TestRunner.PhasesTrace`, `TestRunner.PhasesRaises`, `TestRunner.PhasesKeeps` and `TestRunner.PhasesStep` state its contract |
| `TestRunner.StartTestingQuiet` | payload_runner.py:78-112 | `start_testing` without Ctrl-C: the reference trace; with clean-up every flag reset and the step cleared; without it active and configured; every valve of the order at duty 0, every servo at rest when all were at the start |
| `TestRunner.RunTraceCommands` | payload_runner.py:85-103 | a run opens `1a, 1b, ..., na, nb` exactly once each in order, and closes valves only when it configures |
| `TestRunner.SetupCommands` | payload_runner.py:85-89 | the configuration phase closes the valves in order when it runs, and opens none |
| `TestRunner.PhasesTrace` | payload_runner.py:83-107 | the `try` body under any Ctrl-C issues only servo commands and sleeps |
| `TestRunner.PhasesMoves` | payload_runner.py:85-103 | on a configured runner, nothing is set up again: duty commands and sleeps only |
| `TestRunner.PhasesRaises` | payload_runner.py:83-107 | only a Ctrl-C or IndexError at `len(ports)` escapes the `try` body, and only a Ctrl-C on a configured runner |
| `TestRunner.PhasesKeeps` | payload_runner.py:83-107 | only the bank, the flag and the step change; the flag is set only over a configured bank and always on success; no servo lost |
| `TestRunner.StartTestingSafe` | payload_runner.py:78-112 | the runner stays consistent; only IndexError at `len(ports)` escapes, and never from a configured runner |
| `TestRunner.StartTestingShort` | payload_runner.py:85-112 | an unconfigured runner with fewer than two ports per pair and no Ctrl-C: IndexError at `len(ports)` escapes `start_testing`; the runner stays active and unconfigured at the configuring step; nothing is released, joined, reported or opened |
| `TestRunner.NoReport` | payload_runner.py:83-109 | nothing the `try` body or the clean-up issues is an error report |
| `TestRunner.StartTestingInterrupted` | payload_runner.py:63-112 | a caught Ctrl-C is reported last. Either it came from the `try` body: GPIO not released, the thread neither stopped nor joined, the runner active. Or it came from the clean-up's join: GPIO release and join just before the report, every flag cleared, the step not cleared |
| `TestRunner.StartTestingJoinInterrupted` | payload_runner.py:108-112 | when the `try` body completes and the Ctrl-C arrives in the clean-up's join: the body's trace, GPIO release, join and the report; flags cleared; the body's step kept; nothing escapes |
| `TestRunner.StartTestingCompletes` | payload_runner.py:108-109 | a run that returns normally without a report: with clean-up, GPIO release and join come last, every flag is reset and the step cleared; without it, the runner stays active and configured and the sensor flag is unchanged |
| `TestRunner.ValveRangeIgnored` | payload_runner.py:78-82 | `first_valve` and `last_valve` change nothing: only the status message at line 82 uses `first_valve`, and the loop always covers pairs `1..valve_num` |
| `TestRunner.InterruptMidMove` | payload_runner.py:95-112 | a Ctrl-C during the first move of a configured one-pair runner: the report follows the half actuation and `1a` stays at duty 95 |
| `TestRunner.InterruptDuringJoin` | payload_runner.py:95-112 | a configured one-pair runner whose Ctrl-C arrives in the join: both legs, GPIO release, join and report; flags cleared, step left at the last valve |
| `ServoScript.NameInjective` | src/servos.py:23-26 | servo names are equal exactly when their indices are |
| `ServoScript.PairNames` | src/servos.py:23-27 | `"{p}A"` and `"{p}B"` are servos `2p` and `2p+1` |
| `ServoScript.ConfigureFromTrace` | src/servos.py:21-33 | the loop from servo k raises exactly when the ports run out before m, at index `len(ports)`, and starts the servos it gets through in order |
| `ServoScript.StartedKeeps` | src/servos.py:33 | installing servos adds exactly their names and keeps every other servo |
| `ServoScript.StartedInstalls` | src/servos.py:27-33 | every installed servo sits on its own port at duty 0 |
| `ServoScript.ConfigureSpec` | src/servos.py:18-33 | `configure_servos(n)` succeeds exactly with at least 2n ports, else IndexError at `len(ports)`; BCM mode then one PWM start per servo; servo k on `PORTS[k]` at duty 0; no other name added |
| `ServoScript.Configure` | src/servos.py:18-34 | `configure_servos(n)`: BCM mode, then PWM start and dictionary entry of servos `0..2n-1`; `ServoScript.ConfigureSpec` and `ServoScript.ConfigureMovesNothing` state its contract |
| `ServoScript.ConfigureMovesNothing` | src/servos.py:29-34 | configuration commands no duty at all, the close being commented out |
| `ServoScript.SetValveSpec` | src/servos.py:49-53 | `set_valve` raises KeyError, before any command, exactly on an unknown servo; otherwise that servo ends at duty 0 on its port and others are unchanged |
| `ServoScript.SetValveReplay` | src/servos.py:49-53 | the bank is the one the commands replay to, and `stopVal` changes nothing |
| `ServoScript.SetValve` | src/servos.py:49-53 | `set_valve`: move duty, 0.25 s, duty 0, 1.5 s; `ServoScript.SetValveSpec`, `ServoScript.SetValveReplay` and `ServoScript.MoveCommands` state its contract |
| `ServoScript.MoveCommands` | src/servos.py:50-52 | a movement commands its move duty and then duty 0, once each |
| `ServoScript.ValveCommands` | src/servos.py:42-47 | open commands 9.5 and close 2.0, each once, each followed by duty 0 |
| `ServoScript.OpenValveFails` | src/servos.py:36-42 | the script's `open_valve` raises NameError and commands nothing; the intended one opens the servo and leaves it at duty 0 |
| `ServoScript.OpenValveAsWritten` | src/servos.py:36-37 | `open_valve` as written, ending with NameError at its first line; `ServoScript.OpenValveFails` states its contract |
| `ServoScript.OpenValve` | src/servos.py:36-42 | `open_valve` as evidently intended: `set_valve(name, 9.5, 0.0)`; `ServoScript.OpenValveFails` and `ServoScript.ValveCommands` state its contract |
| `ServoScript.CloseValve` | src/servos.py:44-47 | `close_valve`: `set_valve(name, 2.0, 0.0)`; `ServoScript.ValveCommands` states its contract |
| `ServoScript.OpenPairsSchedule` | src/servos.py:62-66 | with the servos at rest, the intended loop issues the schedule `{i}A` + intra, `{i}B` + inter for each pair in order, and leaves the bank as it was |
| `ServoScript.ScheduleCommands` | src/servos.py:62-66 | the schedule opens every name once in order, stops each once, and closes none |
| `ServoScript.ScheduleSleeps` | src/servos.py:51-66 | the schedule sleeps three times per servo |
| `ServoScript.RunIntended` | src/servos.py:60-66 | the intended main sequence configures, sleeps `EXP_WAIT_TIME`, follows the schedule, raises nothing and leaves every servo installed at rest |
| `ServoScript.RunAsWritten` | src/servos.py:60-63 | as written, the main sequence configures, sleeps and stops with NameError before any servo moves |
| `ServoScript.Run` | src/servos.py:60-66 | the main sequence with its constants as parameters: configure, sleep, then open `{i}A`, intra wait, `{i}B`, inter wait for each pair; `ServoScript.RunIntended` and `ServoScript.RunAsWritten` state its contract |
| `ServoScript.Main` | src/servos.py:56-66 | the `__main__` block with the script's constants; `ServoScript.MainOpens` states its contract |
| `ServoScript.FirstNames` | src/servos.py:62-65 | the first six names are `0A, 0B, 1A, 1B, 2A, 2B` |
| `ServoScript.MainOpens` | src/servos.py:56-66 | the script as written opens nothing; as intended it opens `0A, 0B, 1A, 1B, 2A, 2B` in order and closes none |

## Left out

- Threading. The sensor thread runs sequentially after the binding pass. How many times it finds the `active` flag set is a parameter, because the flag is written by another thread.
- The sensor thread's own `self.active = True` (payload_controller.py:120) is not modelled. The flag in `TestRunner.NewRunner` is its value before the thread runs, and no modelled operation sets it. So after a run without clean-up, the model's sensor flag is still cleared, where the program has it set once the thread has started.
- Logger construction, log file names and the text of status and data messages. These are output only. A caught Ctrl-C appears as one `ReportError` action.
- The hardware libraries. GPIO, PWM, smbus and bme680 calls are trace actions. The oversampling and filter settings become one `TuneSensor` action, and their failure is a parameter.
- Sensor values are floats. They are opaque readings, and a read that raises yields None.
- The runner's timing fields are whole seconds, as its defaults are. Fractional timings passed to `Runner` are not modelled. The fixed fractional waits (0.1 s, 1.5 s, 0.25 s) are exact in milliseconds.
- In the runner and controller, `secure_sleep` is one `Sleep` of the requested length. Its inner loop is modelled separately in `SecureSleep.Wait`.
- `Runner.change_timing` calls the status logger as a function (payload_runner.py:43), so it cannot run.
- `Runner.get_sensor_data` calls the getters without their argument (payload_runner.py:51-54), so it cannot run.
- `get_current_step` only logs.
- `Runner.__init__` passes two arguments to the three-parameter `Payload` constructor (payload_runner.py:30 against payload_controller.py:21). As written, that call raises TypeError, so `Runner(...)` never returns a runner and `start_testing` cannot be reached through it. The constructor's failure is not modelled: `TestRunner.NewRunner` models the evidently intended constructor, with the sensor count given explicitly, and every runner lemma starts from such a runner.
- The step messages that embed `float(...)/60.0` or `/3600.0` are kept as structured steps carrying the number of seconds.
- In `src/servos.py`, `open_valve` and `close_valve` log the time, and `open_valve` redirects `sys.stdout`. That output is left out, since it never reaches a servo. The NameError that the first line of `open_valve` raises is modelled, by `ServoScript.OpenValveAsWritten`.
- The hardware calls other than the bme680 probes and reads are assumed never to fail:
  - the smbus `write_byte` of a channel selection (payload_controller.py:114). A failure at the selects on lines 124 or 142 would end the sensor thread;
  - `GPIO.setup`, `GPIO.PWM`, `start` and `ChangeDutyCycle`. A failure would propagate out of `configure_servos`, `open_valve` or `close_valve`.
- A Ctrl-C is modelled only inside a blocking call: a sleep or the join of the sensor thread. One that arrives between two statements outside such a call is not modelled.
- `secure_sleep(0)` issues no `time.sleep` at all (payload_controller.py:42). The runner model still emits `Sleep(0)` for a zero delay, and a Ctrl-C can be placed on that action.
- The clock of `SecureSleep.Wait` strictly advances. A wall clock that steps backwards is excluded; it would make `time.sleep` receive a negative length, which raises ValueError.
- A Ctrl-C in `src/servos.py` simply ends the script, which has no handler. The script model has no interrupts.
- `main.py`, `src/sensors.py`, `SingleSensor.py`, `TestSingleServo.py` and `src/screencode.py` are not part of this model. They are a superseded prototype, print-only sensor scripts and user-interface loops.

## Findings

| source | as written | input that shows it | evidently intended | confidence | as-written member | corrected member |
|---|---|---|---|---|---|---|
| src/servos.py:36-42 | `open_valve` first evaluates `os.popen(...)`, but the script never imports `os`, so every call raises NameError before `set_valve`. Line 40 would also fail, since it calls `strftime` on the string that line 37 reads. The `__main__` block therefore configures, sleeps and dies at the first valve without opening any. | `open_valve("0A")` after `configure_servos(3)`, as the `__main__` block does | log the time, then `set_valve(name, 9.5, 0.0)`: open the valve and stop the servo | not executed | `ServoScript.OpenValveAsWritten` (with `ServoScript.OpenValveFails`, `ServoScript.RunAsWritten`, `ServoScript.MainOpens`) | `ServoScript.OpenValve` (with `ServoScript.RunIntended`, `ServoScript.OpenPairsSchedule`, `ServoScript.MainOpens`) |
