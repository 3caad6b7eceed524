/**
  The `Runner` test sequencer: it owns a `Payload`, configures the servo bank
  once, waits, opens the valves pair by pair with the intra- and inter-valve
  delays, waits again while the sensors keep logging, and cleans up.

  Timing fields are whole seconds, as the constructor's defaults are; each
  `secure_sleep(t)` appears in the trace as one `Sleep` of `t` seconds in
  milliseconds. The step descriptions the runner records are kept as
  structured values: the ones whose text embeds a number carry that number
  instead of its floating-point rendering.
*/
module TestRunner {
  import opened Actions
  import Controller
  import Decimal

  /** The constructor's defaults: seconds, pairs and GPIO ports. */
  const DefaultSensorSpeed: nat := 1
  const DefaultStartWait: nat := 3600
  const DefaultEndWait: nat := 3600 * 120
  const DefaultShortGap: nat := 10
  const DefaultLongGap: nat := 3600 * 48
  const DefaultValveQuantity: nat := 3
  const DefaultValvePorts: seq<int> := [4, 17, 27, 22, 10, 9]

  /** The value of `current_step`. */
  datatype Step =
    | Text(text: string)                   // a literal message
    | WaitingToStart(seconds: nat)         // "waiting {m} minutes before beginning first valve movement"
    | OpenedA(pair: nat, seconds: nat)     // "just opened valve {p}a, waiting {s}s before moving on"
    | OpenedB(pair: nat, seconds: nat)     // "just opened valve {p}b, waiting {h} hours before moving on"
    | LoggingContinues(seconds: nat)       // "active testing done, data logging will continue for {h}hours"

  const Initialized: Step := Text("initialized")
  const Starting: Step := Text("starting testing")
  const Configuring: Step := Text("configuring servos")
  const Cleared: Step := Text("")

  datatype Runner = Runner(
    senseReportTime: nat,
    testStartTime: nat,
    testEndTime: nat,
    intraValveTime: nat,
    interValveTime: nat,
    valveNum: nat,
    payload: Controller.Payload,
    active: bool,
    valvesConfigured: bool,
    currentStep: Step)

  /** `valves_configured` is set only while every servo the test sequence
      opens exists on its port. */
  predicate Consistent(r: Runner) {
    r.valvesConfigured ==> Controller.Configured(r.payload.servos, r.payload.servoPorts, r.valveNum)
  }

  /** The bank a configuration without Ctrl-C leaves: the runner's own if
      it is configured already, else the reference configuration. */
  function ConfiguredBank(r: Runner): Controller.Bank {
    if r.valvesConfigured then r.payload.servos
    else Controller.StoppedPairs(r.payload.servos, r.payload.servoPorts, 1, r.valveNum)
  }

  /** `o` differs from `r` at most in the servo bank, the configured flag and
      the recorded step. */
  predicate SameSetup(r: Runner, o: Runner) {
    o == r.(payload := r.payload.(servos := o.payload.servos),
            valvesConfigured := o.valvesConfigured, currentStep := o.currentStep)
  }

  /** `Runner(...)`, with the sensor count the payload needs given explicitly. */
  function NewRunner(senseRep: nat, testStart: nat, testEnd: nat, intra: nat, inter: nat,
                     valveQuantity: nat, ports: seq<int>, sensorCount: nat): (r: Runner)
    ensures !r.active && !r.valvesConfigured && r.currentStep == Initialized
    ensures !r.payload.active && r.payload.servos == map[] && r.payload.servoPorts == ports
    ensures Consistent(r) && Controller.AllStopped(r.payload.servos)
  {
    Runner(senseRep, testStart, testEnd, intra, inter, valveQuantity,
           Controller.NewPayload(ports, sensorCount), false, false, Initialized)
  }

  /** `update_step`: records the step and changes nothing else. */
  function UpdateStep(r: Runner, step: Step): (o: Runner)
    ensures o.currentStep == step
    ensures o.(currentStep := r.currentStep) == r
  {
    r.(currentStep := step)
  }

  /** Only the last recorded step survives. */
  lemma UpdateStepLastWins(r: Runner, s1: Step, s2: Step)
    ensures UpdateStep(UpdateStep(r, s1), s2) == UpdateStep(r, s2)
    ensures UpdateStep(r, r.currentStep) == r
  {
  }

  /** `end_sensor_logging`: clears the flag the sensor thread polls between
      sweeps, then joins the thread. The main thread blocks in the join
      until the thread finishes its sweep and its wait, so a Ctrl-C can
      arrive there. */
  function EndSensorLogging(r: Runner, irq: Interrupt): (o: Outcome<Runner>)
    ensures o.trace == [JoinSensorThread]
    ensures o.raised == Some(KeyboardInterrupt) <==> irq == AfterBlocks(0)
    ensures o.raised.None? || o.raised == Some(KeyboardInterrupt)
    ensures irq.Never? ==> o.raised.None? && o.irq.Never?
    ensures !o.state.payload.active
    ensures o.state.(payload := r.payload) == r && o.state.payload.(active := r.payload.active) == r.payload
  {
    Block(r.(payload := r.payload.(active := false)), JoinSensorThread, irq)
  }

  /** `cleanup`: `active` cleared, GPIO released, `valves_configured`
      cleared, the sensor thread stopped and joined, the step cleared. A
      Ctrl-C during the join leaves everything but the step done. */
  function Cleanup(r: Runner, irq: Interrupt): (o: Outcome<Runner>)
    ensures o.trace == [GpioCleanup, JoinSensorThread]
    ensures o.raised == Some(KeyboardInterrupt) <==> irq == AfterBlocks(0)
    ensures o.raised.None? || o.raised == Some(KeyboardInterrupt)
    ensures irq.Never? ==> o.raised.None? && o.irq.Never?
    ensures !o.state.active && !o.state.valvesConfigured && !o.state.payload.active
    ensures o.state.currentStep == if o.raised.None? then Cleared else r.currentStep
    ensures o.state.(active := r.active, valvesConfigured := r.valvesConfigured, currentStep := r.currentStep,
                     payload := r.payload) == r
    ensures o.state.payload.(active := r.payload.active) == r.payload
    ensures Consistent(o.state)
  {
    var stopped := r.(active := false, valvesConfigured := false);
    var ended := EndSensorLogging(stopped, irq);
    if ended.raised.Some? then Outcome(ended.state, [GpioCleanup] + ended.trace, ended.irq, ended.raised)
    else Outcome(UpdateStep(ended.state, Cleared), [GpioCleanup] + ended.trace, ended.irq, None)
  }

  /** A bank operation run on the runner's payload. */
  function Lift(r: Runner, o: Outcome<Controller.Bank>): Outcome<Runner> {
    Outcome(r.(payload := r.payload.(servos := o.state)), o.trace, o.irq, o.raised)
  }

  // ---------------------------------------------------------------------
  // The phases of start_testing

  /** Configure the bank unless it already is. */
  function ConfigurePhase(r: Runner, irq: Interrupt): (o: Outcome<Runner>)
    ensures o.state.(payload := r.payload, currentStep := r.currentStep, valvesConfigured := r.valvesConfigured) == r
    ensures o.state.payload.(servos := r.payload.servos) == r.payload
    ensures r.valvesConfigured ==> o == Done(r, irq)
    ensures o.state.valvesConfigured <==> r.valvesConfigured || o.raised.None?
  {
    if r.valvesConfigured then Done(r, irq)
    else
      var r1 := UpdateStep(r, Configuring);
      var c := Controller.ConfigureServos(r1.payload.servos, r1.payload.servoPorts, r1.valveNum, irq);
      var lifted := Lift(r1, c);
      if c.raised.Some? then lifted
      else lifted.(state := lifted.state.(valvesConfigured := true))
  }

  /** The optional wait of `test_start_time` before the first valve. */
  function StartWaitPhase(r: Runner, startWait: bool, irq: Interrupt): (o: Outcome<Runner>)
    ensures o.state.(currentStep := r.currentStep) == r
    ensures o.trace == if startWait then [Sleep(Millis(r.testStartTime))] else []
    ensures o.raised.None? || o.raised == Some(KeyboardInterrupt)
    ensures irq.Never? ==> o.raised.None? && o.irq.Never?
    ensures startWait ==> o.state.currentStep == WaitingToStart(r.testStartTime)
    ensures !startWait ==> o == Done(r, irq)
  {
    if startWait then Pause(UpdateStep(r, WaitingToStart(r.testStartTime)), Millis(r.testStartTime), irq)
    else Done(r, irq)
  }

  /** The optional wait of `test_end_time` after the last valve. */
  function EndWaitPhase(r: Runner, endWait: bool, irq: Interrupt): (o: Outcome<Runner>)
    ensures o.state.(currentStep := r.currentStep) == r
    ensures o.trace == if endWait then [Sleep(Millis(r.testEndTime))] else []
    ensures o.raised.None? || o.raised == Some(KeyboardInterrupt)
    ensures irq.Never? ==> o.raised.None? && o.irq.Never?
    ensures endWait ==> o.state.currentStep == LoggingContinues(r.testEndTime)
    ensures !endWait ==> o == Done(r, irq)
  {
    if endWait then Pause(UpdateStep(r, LoggingContinues(r.testEndTime)), Millis(r.testEndTime), irq)
    else Done(r, irq)
  }

  /** What the valve loop changes: the servo bank and the recorded step. */
  datatype Valves = Valves(servos: Controller.Bank, step: Step)

  /** Open one valve, sleep `gap` seconds, record `step`. */
  function OpenLeg(v: Valves, name: string, gap: nat, step: Step, irq: Interrupt): (o: Outcome<Valves>)
    ensures o.state.servos == Controller.OpenValve(v.servos, name, irq).state
  {
    var m := Controller.OpenValve(v.servos, name, irq);
    if m.raised.Some? then Outcome(v.(servos := m.state), m.trace, m.irq, m.raised)
    else if m.irq == AfterBlocks(0) then
      Outcome(v.(servos := m.state), m.trace + [Sleep(Millis(gap))], m.irq, Some(KeyboardInterrupt))
    else Outcome(Valves(m.state, step), m.trace + [Sleep(Millis(gap))], Consume(m.irq, 1), None)
  }

  /** The valve loop over pairs `pair..n`. */
  function OpenPairs(v: Valves, pair: nat, n: nat, intra: nat, inter: nat, irq: Interrupt): Outcome<Valves>
    requires pair >= 1
    decreases n + 1 - pair, 1
  {
    if pair > n then Done(v, irq) else OpenPairAndRest(v, pair, n, intra, inter, irq)
  }

  /** One iteration of the valve loop (`{p}a`, the intra-valve delay, `{p}b`,
      the inter-valve delay) followed by the rest of the loop. */
  function OpenPairAndRest(v: Valves, pair: nat, n: nat, intra: nat, inter: nat, irq: Interrupt): Outcome<Valves>
    requires 1 <= pair <= n
    decreases n + 1 - pair, 0
  {
    var a := OpenLeg(v, Controller.ServoName(pair, 'a'), intra, OpenedA(pair, intra), irq);
    if a.raised.Some? then a
    else
      var b := OpenLeg(a.state, Controller.ServoName(pair, 'b'), inter, OpenedB(pair, inter), a.irq);
      if b.raised.Some? then Outcome(b.state, a.trace + b.trace, b.irq, b.raised)
      else
        var rest := OpenPairs(b.state, pair + 1, n, intra, inter, b.irq);
        Outcome(rest.state, a.trace + b.trace + rest.trace, rest.irq, rest.raised)
  }

  /** `for pair_num in range(1, valve_num + 1)` on the runner. */
  function ValveLoop(r: Runner, irq: Interrupt): Outcome<Runner> {
    var o := OpenPairs(Valves(r.payload.servos, r.currentStep), 1, r.valveNum,
                       r.intraValveTime, r.interValveTime, irq);
    Outcome(r.(payload := r.payload.(servos := o.state.servos), currentStep := o.state.step),
            o.trace, o.irq, o.raised)
  }

  /** The body of the `try` block up to the clean-up. */
  function Phases(r: Runner, startWait: bool, endWait: bool, irq: Interrupt): Outcome<Runner> {
    var c := ConfigurePhase(r, irq);
    if c.raised.Some? then c
    else
      var w := StartWaitPhase(c.state, startWait, c.irq);
      if w.raised.Some? then Outcome(w.state, c.trace + w.trace, w.irq, w.raised)
      else
        var v := ValveLoop(w.state, w.irq);
        if v.raised.Some? then Outcome(v.state, c.trace + w.trace + v.trace, v.irq, v.raised)
        else
          var e := EndWaitPhase(v.state, endWait, v.irq);
          Outcome(e.state, c.trace + w.trace + v.trace + e.trace, e.irq, e.raised)
  }

  /** The optional clean-up at the end of the `try` block. */
  function CleanupPhase(r: Runner, cleanup: bool, irq: Interrupt): (o: Outcome<Runner>)
    ensures o.trace == if cleanup then [GpioCleanup, JoinSensorThread] else []
    ensures o.raised == Some(KeyboardInterrupt) <==> cleanup && irq == AfterBlocks(0)
    ensures o.raised.None? || o.raised == Some(KeyboardInterrupt)
    ensures irq.Never? ==> o.raised.None? && o.irq.Never?
    ensures !cleanup ==> o == Done(r, irq)
  {
    if cleanup then Cleanup(r, irq) else Done(r, irq)
  }

  /** `start_testing`. The handler `except Exception and KeyboardInterrupt`
      evaluates its `and` to `KeyboardInterrupt`, so only a Ctrl-C is caught
      (and reported, without clean-up); every other exception propagates.
      `first_valve` and `last_valve` are accepted and ignored. */
  function StartTesting(r: Runner, startWait: bool, endWait: bool, cleanup: bool,
                        firstValve: int, lastValve: int, irq: Interrupt): (o: Outcome<Runner>)
    ensures o.raised != Some(KeyboardInterrupt)
  {
    var r0 := r.(active := true, currentStep := Starting);
    var e := Phases(r0, startWait, endWait, irq);
    var body := Then(e, CleanupPhase(e.state, cleanup, e.irq));
    if body.raised == Some(KeyboardInterrupt)
    then Outcome(body.state, body.trace + [ReportError(KeyboardInterrupt)], Never, None)
    else body
  }

  // ---------------------------------------------------------------------
  // The valve schedule

  /** The reference protocol of the valve loop: the names opened in turn,
      each followed by a wait, the waits alternating `first` and `second`. */
  function Schedule(names: seq<string>, first: nat, second: nat): (t: seq<Action>)
    ensures |t| == 5 * |names|
    decreases |names|
  {
    if names == [] then []
    else Controller.ActuationTrace(names[0], Controller.OpenDuty) + [Sleep(first)] + Schedule(names[1..], second, first)
  }

  /** One leg of the schedule opens and stops its servo, and closes none. */
  lemma LegCommands(name: string, d: nat, duty: int)
    ensures Commanded(Controller.ActuationTrace(name, Controller.OpenDuty) + [Sleep(d)], duty)
            == if duty == Controller.OpenDuty || duty == Controller.StopDuty then [name] else []
  {
    Controller.CommandedActuation(name, Controller.OpenDuty, duty);
    CommandedSingle(Sleep(d), duty);
    CommandedAppend(Controller.ActuationTrace(name, Controller.OpenDuty), [Sleep(d)], duty);
  }

  /** The schedule opens every name once, in order, stops every one of them
      once, and closes none. */
  lemma {:induction false} ScheduleCommands(names: seq<string>, first: nat, second: nat, duty: int)
    ensures Commanded(Schedule(names, first, second), duty)
            == if duty == Controller.OpenDuty || duty == Controller.StopDuty then names else []
    decreases |names|
  {
    if names != [] {
      var head := Controller.ActuationTrace(names[0], Controller.OpenDuty) + [Sleep(first)];
      var rest := Schedule(names[1..], second, first);
      ScheduleCommands(names[1..], second, first, duty);
      LegCommands(names[0], first, duty);
      CommandedAppend(head, rest, duty);
      assert [names[0]] + names[1..] == names;
    }
  }

  /** Two legs in front of a schedule. */
  lemma SchedulePair(a: string, b: string, rest: seq<string>, first: nat, second: nat)
    ensures Schedule([a, b] + rest, first, second)
            == Controller.ActuationTrace(a, Controller.OpenDuty) + [Sleep(first)]
               + Controller.ActuationTrace(b, Controller.OpenDuty) + [Sleep(second)]
               + Schedule(rest, first, second)
  {
    var names := [a, b] + rest;
    assert names[0] == a && names[1..] == [b] + rest;
    assert names[1..][0] == b && names[1..][1..] == rest;
  }

  // ---------------------------------------------------------------------
  // The valve loop, whatever Ctrl-C does

  /** One valve that exists, whatever Ctrl-C does: only duty commands and
      sleeps, only a Ctrl-C can escape, and no servo appears, disappears or
      changes port. */
  lemma OpenLegSafe(v: Valves, name: string, gap: nat, step: Step, irq: Interrupt)
    requires name in v.servos
    ensures var o := OpenLeg(v, name, gap, step, irq);
      && Controller.MovesOnly(o.trace)
      && (o.raised.None? || o.raised == Some(KeyboardInterrupt))
      && Controller.SamePorts(v.servos, o.state.servos)
  {
    var m := Controller.OpenValve(v.servos, name, irq);
    Controller.ActuateMoves(v.servos, name, Controller.OpenDuty, irq);
    Controller.ActuateSamePorts(v.servos, name, Controller.OpenDuty, irq);
    Controller.MovesOnlyAppend(m.trace, [Sleep(Millis(gap))]);
  }

  /** The names of pair `p` exist in a bank configured for at least `p` pairs. */
  lemma PairNames(bank: Controller.Bank, ports: seq<int>, p: nat, n: nat)
    requires 1 <= p <= n && Controller.PairsOn(bank, ports, 1, n)
    ensures Controller.ServoName(p, 'a') in bank && Controller.ServoName(p, 'b') in bank
  {
  }

  /** A step the valve loop records. */
  predicate ValveStep(step: Step) {
    step.OpenedA? || step.OpenedB?
  }

  /** The valve loop on a configured bank, whatever Ctrl-C does: only duty
      commands and sleeps, only a Ctrl-C can escape (never a KeyError), and
      no servo appears, disappears or changes port. */
  lemma {:induction false} OpenPairsSafe(v: Valves, ports: seq<int>, pair: nat, n: nat, intra: nat, inter: nat, irq: Interrupt)
    requires pair >= 1 && Controller.PairsOn(v.servos, ports, 1, n)
    ensures var o := OpenPairs(v, pair, n, intra, inter, irq);
      && Controller.MovesOnly(o.trace)
      && (o.raised.None? || o.raised == Some(KeyboardInterrupt))
      && Controller.SamePorts(v.servos, o.state.servos)
    decreases n + 1 - pair, 1
  {
    if pair <= n {
      OpenPairAndRestSafe(v, ports, pair, n, intra, inter, irq);
    }
  }

  lemma {:induction false} OpenPairAndRestSafe(v: Valves, ports: seq<int>, pair: nat, n: nat, intra: nat, inter: nat, irq: Interrupt)
    requires 1 <= pair <= n && Controller.PairsOn(v.servos, ports, 1, n)
    ensures var o := OpenPairAndRest(v, pair, n, intra, inter, irq);
      && Controller.MovesOnly(o.trace)
      && (o.raised.None? || o.raised == Some(KeyboardInterrupt))
      && Controller.SamePorts(v.servos, o.state.servos)
    decreases n + 1 - pair, 0
  {
    PairNames(v.servos, ports, pair, n);
    var a := OpenLeg(v, Controller.ServoName(pair, 'a'), intra, OpenedA(pair, intra), irq);
    OpenLegSafe(v, Controller.ServoName(pair, 'a'), intra, OpenedA(pair, intra), irq);
    if a.raised.None? {
      var b := OpenLeg(a.state, Controller.ServoName(pair, 'b'), inter, OpenedB(pair, inter), a.irq);
      OpenLegSafe(a.state, Controller.ServoName(pair, 'b'), inter, OpenedB(pair, inter), a.irq);
      Controller.MovesOnlyAppend(a.trace, b.trace);
      Controller.SamePortsTrans(v.servos, a.state.servos, b.state.servos);
      if b.raised.None? {
        var rest := OpenPairs(b.state, pair + 1, n, intra, inter, b.irq);
        Controller.PairsOnSamePorts(v.servos, b.state.servos, ports, 1, n);
        OpenPairsSafe(b.state, ports, pair + 1, n, intra, inter, b.irq);
        Controller.MovesOnlyAppend(a.trace + b.trace, rest.trace);
        Controller.SamePortsTrans(v.servos, b.state.servos, rest.state.servos);
      }
    }
  }

  /** Whatever Ctrl-C does, the valve loop leaves the step alone or records
      one of its own. */
  lemma {:induction false} OpenPairsStep(v: Valves, pair: nat, n: nat, intra: nat, inter: nat, irq: Interrupt)
    requires pair >= 1
    ensures var o := OpenPairs(v, pair, n, intra, inter, irq);
      o.state.step == v.step || ValveStep(o.state.step)
    decreases n + 1 - pair, 1
  {
    if pair <= n {
      OpenPairAndRestStep(v, pair, n, intra, inter, irq);
    }
  }

  lemma {:induction false} OpenPairAndRestStep(v: Valves, pair: nat, n: nat, intra: nat, inter: nat, irq: Interrupt)
    requires 1 <= pair <= n
    ensures var o := OpenPairAndRest(v, pair, n, intra, inter, irq);
      o.state.step == v.step || ValveStep(o.state.step)
    decreases n + 1 - pair, 0
  {
    var a := OpenLeg(v, Controller.ServoName(pair, 'a'), intra, OpenedA(pair, intra), irq);
    if a.raised.None? {
      var b := OpenLeg(a.state, Controller.ServoName(pair, 'b'), inter, OpenedB(pair, inter), a.irq);
      if b.raised.None? {
        OpenPairsStep(b.state, pair + 1, n, intra, inter, b.irq);
      }
    }
  }

  // ---------------------------------------------------------------------
  // The valve loop without Ctrl-C

  /** One valve that exists, with no Ctrl-C during its three blocking calls:
      the full protocol and the delay, the servo left at duty 0 and every
      other one as it was, and the interrupt moved on by three calls. */
  lemma OpenLegNormal(v: Valves, name: string, gap: nat, step: Step, irq: Interrupt)
    requires name in v.servos && Quiet(irq, 3)
    ensures OpenLeg(v, name, gap, step, irq)
            == Outcome(Valves(Controller.Rest(v.servos, name), step),
                       Controller.ActuationTrace(name, Controller.OpenDuty) + [Sleep(Millis(gap))],
                       Consume(irq, 3), None)
  {
  }

  /** The valve loop on a configured bank, no Ctrl-C, whatever duty a servo
      was left at: exactly the schedule of pairs `pair..n`, nothing escapes,
      every servo of those pairs ends at duty 0 and the last pair's step is
      recorded. */
  lemma {:induction false} OpenPairsQuiet(v: Valves, ports: seq<int>, pair: nat, n: nat, intra: nat, inter: nat)
    requires pair >= 1 && Controller.PairsOn(v.servos, ports, 1, n)
    ensures OpenPairs(v, pair, n, intra, inter, Never)
            == Outcome(Valves(Controller.Rested(v.servos, Controller.ValveOrderFrom(pair, n)),
                              if pair <= n then OpenedB(n, inter) else v.step),
                       Schedule(Controller.ValveOrderFrom(pair, n), Millis(intra), Millis(inter)), Never, None)
    decreases n + 1 - pair, 1
  {
    if pair <= n {
      OpenPairAndRestQuiet(v, ports, pair, n, intra, inter);
    }
  }

  lemma {:induction false} OpenPairAndRestQuiet(v: Valves, ports: seq<int>, pair: nat, n: nat, intra: nat, inter: nat)
    requires 1 <= pair <= n && Controller.PairsOn(v.servos, ports, 1, n)
    ensures OpenPairAndRest(v, pair, n, intra, inter, Never)
            == Outcome(Valves(Controller.Rested(v.servos, Controller.ValveOrderFrom(pair, n)), OpenedB(n, inter)),
                       Schedule(Controller.ValveOrderFrom(pair, n), Millis(intra), Millis(inter)), Never, None)
    decreases n + 1 - pair, 0
  {
    var na, nb := Controller.ServoName(pair, 'a'), Controller.ServoName(pair, 'b');
    PairNames(v.servos, ports, pair, n);
    var a := OpenLeg(v, na, intra, OpenedA(pair, intra), Never);
    OpenLegNormal(v, na, intra, OpenedA(pair, intra), Never);
    OpenLegNormal(a.state, nb, inter, OpenedB(pair, inter), Never);
    var banked := Controller.Rest(Controller.Rest(v.servos, na), nb);
    Controller.RestedSpec(v.servos, [na, nb]);
    Controller.RestedPair(v.servos, na, nb, []);
    assert [na, nb] + [] == [na, nb];
    Controller.PairsOnSamePorts(v.servos, banked, ports, 1, n);
    OpenPairsQuiet(Valves(banked, OpenedB(pair, inter)), ports, pair + 1, n, intra, inter);
    SchedulePair(na, nb, Controller.ValveOrderFrom(pair + 1, n), Millis(intra), Millis(inter));
    Controller.RestedPair(v.servos, na, nb, Controller.ValveOrderFrom(pair + 1, n));
  }

  // ---------------------------------------------------------------------
  // The phases of start_testing, one by one

  /** Configuring, whatever Ctrl-C does: only servo commands, only a Ctrl-C
      or IndexError at `len(ports)` escapes, no servo is lost, and
      `valves_configured` is set only over a configured bank. */
  lemma ConfigurePhaseSafe(r: Runner, irq: Interrupt)
    requires Consistent(r)
    ensures var o := ConfigurePhase(r, irq);
      && Controller.ServoCommands(o.trace)
      && (o.raised.None? || o.raised == Some(KeyboardInterrupt) || o.raised == Some(IndexError(|r.payload.servoPorts|)))
      && Consistent(o.state)
      && (forall k :: k in r.payload.servos ==> k in o.state.payload.servos)
  {
    if !r.valvesConfigured {
      Controller.ConfigureServosRaises(r.payload.servos, r.payload.servoPorts, r.valveNum, irq);
      Controller.ConfigureServosPorts(r.payload.servos, r.payload.servoPorts, r.valveNum, irq);
    }
  }

  /** Configuring a fresh runner with enough ports and no Ctrl-C: the
      bank becomes the configured one and the flag is set; an already
      configured runner is left alone. */
  lemma ConfigurePhaseQuiet(r: Runner)
    requires r.valvesConfigured || 2 * r.valveNum <= |r.payload.servoPorts|
    ensures ConfigurePhase(r, Never)
            == if r.valvesConfigured then Done(r, Never)
               else Outcome(r.(payload := r.payload.(servos := ConfiguredBank(r)), valvesConfigured := true,
                               currentStep := Configuring),
                            [SetBcmMode] + Controller.ConfigurationTrace(r.payload.servoPorts, 1, r.valveNum), Never, None)
  {
    if !r.valvesConfigured {
      Controller.ConfigureServosQuiet(r.payload.servos, r.payload.servoPorts, r.valveNum);
    }
  }

  /** The valve loop on a configured runner, whatever Ctrl-C does: only duty
      commands and sleeps, only a Ctrl-C escapes, and only the servo duties
      and the recorded step change. */
  lemma ValveLoopSafe(r: Runner, irq: Interrupt)
    requires Controller.Configured(r.payload.servos, r.payload.servoPorts, r.valveNum)
    ensures var o := ValveLoop(r, irq);
      && Controller.MovesOnly(o.trace)
      && (o.raised.None? || o.raised == Some(KeyboardInterrupt))
      && Controller.SamePorts(r.payload.servos, o.state.payload.servos)
      && o.state == r.(payload := r.payload.(servos := o.state.payload.servos), currentStep := o.state.currentStep)
  {
    OpenPairsSafe(Valves(r.payload.servos, r.currentStep), r.payload.servoPorts, 1, r.valveNum,
                  r.intraValveTime, r.interValveTime, irq);
  }

  /** The valve loop on a configured runner, no Ctrl-C, whatever duty a
      servo was left at: exactly the schedule `1a, 1b, ..., na, nb` with the
      intra-valve delay after each `a` and the inter-valve delay after each
      `b`, every one of those servos ends at duty 0, and nothing but the
      bank and the recorded step changes. */
  lemma ValveLoopQuiet(r: Runner)
    requires Controller.Configured(r.payload.servos, r.payload.servoPorts, r.valveNum)
    ensures ValveLoop(r, Never)
            == Outcome(r.(payload := r.payload.(servos := Controller.Rested(r.payload.servos, Controller.ValveOrder(r.valveNum))),
                          currentStep := if r.valveNum >= 1 then OpenedB(r.valveNum, r.interValveTime) else r.currentStep),
                       Schedule(Controller.ValveOrder(r.valveNum), Millis(r.intraValveTime), Millis(r.interValveTime)),
                       Never, None)
  {
    OpenPairsQuiet(Valves(r.payload.servos, r.currentStep), r.payload.servoPorts, 1, r.valveNum,
                   r.intraValveTime, r.interValveTime);
  }

  // ---------------------------------------------------------------------
  // start_testing without Ctrl-C

  /** The commands of the configuration phase without Ctrl-C: none when the
      runner is configured already. */
  function SetupTrace(r: Runner): seq<Action> {
    if r.valvesConfigured then []
    else [SetBcmMode] + Controller.ConfigurationTrace(r.payload.servoPorts, 1, r.valveNum)
  }

  /** An optional wait of `seconds`. */
  function Wait(flag: bool, seconds: nat): seq<Action> {
    if flag then [Sleep(Millis(seconds))] else []
  }

  /** Reference for `start_testing` without Ctrl-C: the configuration when
      needed, the optional start wait, the valve schedule, the optional end
      wait and the optional clean-up. */
  function RunTrace(r: Runner, startWait: bool, endWait: bool, cleanup: bool): seq<Action> {
    SetupTrace(r) + Wait(startWait, r.testStartTime)
    + Schedule(Controller.ValveOrder(r.valveNum), Millis(r.intraValveTime), Millis(r.interValveTime))
    + Wait(endWait, r.testEndTime)
    + (if cleanup then [GpioCleanup, JoinSensorThread] else [])
  }

  /** The step recorded last by the phases without Ctrl-C. */
  function LastStep(r: Runner, startWait: bool, endWait: bool): Step {
    if endWait then LoggingContinues(r.testEndTime)
    else if r.valveNum >= 1 then OpenedB(r.valveNum, r.interValveTime)
    else if startWait then WaitingToStart(r.testStartTime)
    else if r.valvesConfigured then r.currentStep
    else Configuring
  }

  /** The bank after configuration without Ctrl-C is configured, and at
      rest when the runner's bank was. */
  lemma ConfiguredBankReady(r: Runner)
    requires Consistent(r)
    requires r.valvesConfigured || 2 * r.valveNum <= |r.payload.servoPorts|
    ensures Controller.Configured(ConfiguredBank(r), r.payload.servoPorts, r.valveNum)
    ensures Controller.AllStopped(r.payload.servos) ==> Controller.AllStopped(ConfiguredBank(r))
  {
    if !r.valvesConfigured {
      Controller.ConfigureServosQuiet(r.payload.servos, r.payload.servoPorts, r.valveNum);
    }
  }

  /** The bank `start_testing` without Ctrl-C leaves: configured when
      needed, then every valve opened and stopped. */
  function FinalBank(r: Runner): Controller.Bank {
    Controller.Rested(ConfiguredBank(r), Controller.ValveOrder(r.valveNum))
  }

  /** The final bank keeps every servo on its port, is configured, holds
      every valve at duty 0, and equals the configured bank when the runner's
      bank was at rest. */
  lemma FinalBankReady(r: Runner)
    requires Consistent(r)
    requires r.valvesConfigured || 2 * r.valveNum <= |r.payload.servoPorts|
    ensures Controller.Configured(FinalBank(r), r.payload.servoPorts, r.valveNum)
    ensures forall k :: k in Controller.ValveOrder(r.valveNum) ==>
              k in FinalBank(r) && FinalBank(r)[k].duty == Controller.StopDuty
    ensures Controller.AllStopped(r.payload.servos) ==>
              FinalBank(r) == ConfiguredBank(r) && Controller.AllStopped(FinalBank(r))
  {
    ConfiguredBankReady(r);
    var bank := ConfiguredBank(r);
    Controller.RestedSpec(bank, Controller.ValveOrder(r.valveNum));
    Controller.ValveOrderInBank(bank, r.payload.servoPorts, 1, r.valveNum);
    Controller.PairsOnSamePorts(bank, FinalBank(r), r.payload.servoPorts, 1, r.valveNum);
  }

  /** The body of the `try` block without Ctrl-C, on a runner that is
      configured or has the ports it needs, whatever duty a servo was left
      at: configuration only when needed, the optional start wait, the valve
      schedule, the optional end wait, and only the bank, the flag and the
      step change. */
  lemma PhasesQuiet(r: Runner, startWait: bool, endWait: bool)
    requires Consistent(r)
    requires r.valvesConfigured || 2 * r.valveNum <= |r.payload.servoPorts|
    ensures Phases(r, startWait, endWait, Never)
            == Outcome(r.(payload := r.payload.(servos := FinalBank(r)), valvesConfigured := true,
                          currentStep := LastStep(r, startWait, endWait)),
                       SetupTrace(r) + Wait(startWait, r.testStartTime)
                       + Schedule(Controller.ValveOrder(r.valveNum), Millis(r.intraValveTime), Millis(r.interValveTime))
                       + Wait(endWait, r.testEndTime),
                       Never, None)
  {
    ConfiguredBankReady(r);
    ConfigurePhaseQuiet(r);
    var c := ConfigurePhase(r, Never);
    var w := StartWaitPhase(c.state, startWait, Never);
    ValveLoopQuiet(w.state);
  }

  /** `start_testing` without Ctrl-C, on a runner that is configured or has
      the ports it needs, whatever duty a servo was left at: nothing
      escapes, the actions are the configuration (only when needed), the
      optional start wait, the valve schedule, the optional end wait and the
      optional clean-up; with clean-up every flag is reset and the step
      cleared, without it the runner stays active and configured; every
      valve ends at duty 0, and a bank at rest stays at rest. */
  lemma StartTestingQuiet(r: Runner, startWait: bool, endWait: bool, cleanup: bool, firstValve: int, lastValve: int)
    requires Consistent(r)
    requires r.valvesConfigured || 2 * r.valveNum <= |r.payload.servoPorts|
    ensures var o := StartTesting(r, startWait, endWait, cleanup, firstValve, lastValve, Never);
      && o.raised.None? && o.irq.Never?
      && o.trace == RunTrace(r, startWait, endWait, cleanup)
      && (cleanup ==> !o.state.active && !o.state.valvesConfigured && !o.state.payload.active
                      && o.state.currentStep == Cleared)
      && (!cleanup ==> o.state.active && o.state.valvesConfigured && o.state.payload.active == r.payload.active
                       && o.state.currentStep == LastStep(r.(currentStep := Starting), startWait, endWait))
      && o.state.payload.servos == FinalBank(r)
      && Consistent(o.state)
      && (forall k :: k in Controller.ValveOrder(r.valveNum) ==>
            k in o.state.payload.servos && o.state.payload.servos[k].duty == Controller.StopDuty)
      && (Controller.AllStopped(r.payload.servos) ==>
            o.state.payload.servos == ConfiguredBank(r) && Controller.AllStopped(o.state.payload.servos))
  {
    var r0 := r.(active := true, currentStep := Starting);
    PhasesQuiet(r0, startWait, endWait);
    FinalBankReady(r0);
  }

  /** A trace without duty commands commands no servo. */
  lemma {:induction false} CommandedNone(t: seq<Action>, duty: int)
    requires forall i :: 0 <= i < |t| ==> !t[i].SetDuty?
    ensures Commanded(t, duty) == []
    decreases |t|
  {
    if t != [] {
      CommandedNone(t[1..], duty);
    }
  }

  /** The reference run opens every valve exactly once, in the order
      `1a, 1b, ..., na, nb`, and closes valves only in the configuration,
      which it includes only for a runner not configured yet. */
  lemma RunTraceCommands(r: Runner, startWait: bool, endWait: bool, cleanup: bool, duty: int)
    requires r.valvesConfigured || 2 * r.valveNum <= |r.payload.servoPorts|
    requires duty == Controller.OpenDuty || duty == Controller.CloseDuty
    ensures Commanded(RunTrace(r, startWait, endWait, cleanup), duty)
            == if duty == Controller.OpenDuty then Controller.ValveOrder(r.valveNum)
               else if r.valvesConfigured then [] else Controller.ValveOrder(r.valveNum)
  {
    CommandedSkipping(SetupTrace(r), Wait(startWait, r.testStartTime),
                      Schedule(Controller.ValveOrder(r.valveNum), Millis(r.intraValveTime), Millis(r.interValveTime)),
                      Wait(endWait, r.testEndTime), if cleanup then [GpioCleanup, JoinSensorThread] else [], duty);
    ScheduleCommands(Controller.ValveOrder(r.valveNum), Millis(r.intraValveTime), Millis(r.interValveTime), duty);
    SetupCommands(r, duty);
  }

  /** Waits and clean-up command no duty. */
  lemma CommandedSkipping(a: seq<Action>, w1: seq<Action>, b: seq<Action>, w2: seq<Action>, tail: seq<Action>, duty: int)
    requires forall i :: 0 <= i < |w1| ==> !w1[i].SetDuty?
    requires forall i :: 0 <= i < |w2| ==> !w2[i].SetDuty?
    requires forall i :: 0 <= i < |tail| ==> !tail[i].SetDuty?
    ensures Commanded(a + w1 + b + w2 + tail, duty) == Commanded(a, duty) + Commanded(b, duty)
  {
    CommandedNone(w1, duty);
    CommandedNone(w2, duty);
    CommandedNone(tail, duty);
    CommandedAppend(a, w1, duty);
    CommandedAppend(a + w1, b, duty);
    CommandedAppend(a + w1 + b, w2, duty);
    CommandedAppend(a + w1 + b + w2, tail, duty);
  }

  /** The configuration phase without Ctrl-C closes the valves in order
      when it runs, and opens none. */
  lemma SetupCommands(r: Runner, duty: int)
    requires r.valvesConfigured || 2 * r.valveNum <= |r.payload.servoPorts|
    requires duty == Controller.OpenDuty || duty == Controller.CloseDuty
    ensures Commanded(SetupTrace(r), duty)
            == if duty == Controller.OpenDuty || r.valvesConfigured then [] else Controller.ValveOrder(r.valveNum)
  {
    if !r.valvesConfigured {
      var t := Controller.ConfigurationTrace(r.payload.servoPorts, 1, r.valveNum);
      Controller.ConfigurationCommands(r.payload.servoPorts, 1, r.valveNum);
      CommandedSingle(SetBcmMode, duty);
      CommandedAppend([SetBcmMode], t, duty);
    }
  }

  // ---------------------------------------------------------------------
  // start_testing, whatever Ctrl-C does

  /** The body of the `try` block, whatever Ctrl-C does: only servo
      commands and sleeps. */
  lemma PhasesTrace(r: Runner, startWait: bool, endWait: bool, irq: Interrupt)
    requires Consistent(r)
    ensures Controller.ServoCommands(Phases(r, startWait, endWait, irq).trace)
  {
    var c := ConfigurePhase(r, irq);
    ConfigurePhaseSafe(r, irq);
    if c.raised.None? {
      var w := StartWaitPhase(c.state, startWait, c.irq);
      var v := ValveLoop(w.state, w.irq);
      var e := EndWaitPhase(v.state, endWait, v.irq);
      var rest := if w.raised.Some? then w.trace else if v.raised.Some? then w.trace + v.trace else w.trace + v.trace + e.trace;
      if w.raised.None? {
        ValveLoopSafe(w.state, w.irq);
        Controller.MovesOnlyAppend(w.trace, v.trace);
        Controller.MovesOnlyAppend(w.trace + v.trace, e.trace);
      }
      Controller.MovesAreServoCommands(rest);
      Controller.ServoCommandsAppend(c.trace, rest);
    }
  }

  /** On a runner already configured, whatever Ctrl-C does, the body of the
      `try` block sets nothing up again: only duty commands and sleeps. */
  lemma PhasesMoves(r: Runner, startWait: bool, endWait: bool, irq: Interrupt)
    requires Consistent(r) && r.valvesConfigured
    ensures Controller.MovesOnly(Phases(r, startWait, endWait, irq).trace)
  {
    var w := StartWaitPhase(r, startWait, irq);
    var v := ValveLoop(w.state, w.irq);
    var e := EndWaitPhase(v.state, endWait, v.irq);
    if w.raised.None? {
      ValveLoopSafe(w.state, w.irq);
      Controller.MovesOnlyAppend(w.trace, v.trace);
      Controller.MovesOnlyAppend(w.trace + v.trace, e.trace);
    }
    assert [] + w.trace == w.trace;
  }

  /** The body of the `try` block, whatever Ctrl-C does: only a Ctrl-C or
      IndexError at `len(ports)` escapes, and a runner already configured
      raises nothing but a Ctrl-C. */
  lemma PhasesRaises(r: Runner, startWait: bool, endWait: bool, irq: Interrupt)
    requires Consistent(r)
    ensures var o := Phases(r, startWait, endWait, irq);
      && (o.raised.None? || o.raised == Some(KeyboardInterrupt) || o.raised == Some(IndexError(|r.payload.servoPorts|)))
      && (r.valvesConfigured ==> o.raised.None? || o.raised == Some(KeyboardInterrupt))
  {
    var c := ConfigurePhase(r, irq);
    ConfigurePhaseSafe(r, irq);
    if c.raised.None? {
      var w := StartWaitPhase(c.state, startWait, c.irq);
      if w.raised.None? {
        ValveLoopSafe(w.state, w.irq);
      }
    }
  }

  /** The body of the `try` block, whatever Ctrl-C does: only the bank, the
      flag and the step change; the flag is set only over a configured
      bank, and always when nothing escaped; no servo is lost, on a runner
      already configured every servo keeps its port. */
  lemma PhasesKeeps(r: Runner, startWait: bool, endWait: bool, irq: Interrupt)
    requires Consistent(r)
    ensures var o := Phases(r, startWait, endWait, irq);
      && SameSetup(r, o.state) && Consistent(o.state)
      && (o.raised.None? ==> o.state.valvesConfigured)
      && (forall k :: k in r.payload.servos ==> k in o.state.payload.servos)
      && (r.valvesConfigured ==> Controller.SamePorts(r.payload.servos, o.state.payload.servos))
  {
    var c := ConfigurePhase(r, irq);
    ConfigurePhaseSafe(r, irq);
    if c.raised.None? {
      var w := StartWaitPhase(c.state, startWait, c.irq);
      if w.raised.None? {
        var v := ValveLoop(w.state, w.irq);
        ValveLoopSafe(w.state, w.irq);
        Controller.PairsOnSamePorts(w.state.payload.servos, v.state.payload.servos, r.payload.servoPorts, 1, r.valveNum);
      }
    }
  }

  /** The body of the `try` block, whatever Ctrl-C does, never clears the
      step. */
  lemma PhasesStep(r: Runner, startWait: bool, endWait: bool, irq: Interrupt)
    requires r.currentStep != Cleared
    ensures Phases(r, startWait, endWait, irq).state.currentStep != Cleared
  {
    var c := ConfigurePhase(r, irq);
    if c.raised.None? {
      var w := StartWaitPhase(c.state, startWait, c.irq);
      if w.raised.None? {
        OpenPairsStep(Valves(w.state.payload.servos, w.state.currentStep), 1, w.state.valveNum,
                      w.state.intraValveTime, w.state.interValveTime, w.irq);
      }
    }
  }

  /** `start_testing`, whatever Ctrl-C does: the runner stays consistent, a
      Ctrl-C never escapes, IndexError at `len(ports)` is the only exception
      that does, and a runner already configured raises nothing. */
  lemma StartTestingSafe(r: Runner, startWait: bool, endWait: bool, cleanup: bool, firstValve: int, lastValve: int, irq: Interrupt)
    requires Consistent(r)
    ensures var o := StartTesting(r, startWait, endWait, cleanup, firstValve, lastValve, irq);
      && Consistent(o.state)
      && (o.raised.None? || o.raised == Some(IndexError(|r.payload.servoPorts|)))
      && (r.valvesConfigured ==> o.raised.None?)
  {
    var r0 := r.(active := true, currentStep := Starting);
    PhasesRaises(r0, startWait, endWait, irq);
    PhasesKeeps(r0, startWait, endWait, irq);
  }

  /** `start_testing` that returns normally with no error reported: with
      clean-up, GPIO release and the join come last, every flag is reset
      and the step is cleared; without it, the runner stays active and
      configured and the sensor thread keeps running. */
  lemma StartTestingCompletes(r: Runner, startWait: bool, endWait: bool, cleanup: bool, firstValve: int, lastValve: int, irq: Interrupt)
    requires Consistent(r)
    ensures var o := StartTesting(r, startWait, endWait, cleanup, firstValve, lastValve, irq);
      o.raised.None? && ReportError(KeyboardInterrupt) !in o.trace ==>
        && (cleanup ==>
              && |o.trace| >= 2 && o.trace[|o.trace| - 2..] == [GpioCleanup, JoinSensorThread]
              && !o.state.active && !o.state.valvesConfigured && !o.state.payload.active
              && o.state.currentStep == Cleared)
        && (!cleanup ==> o.state.active && o.state.valvesConfigured && o.state.payload.active == r.payload.active)
  {
    var r0 := r.(active := true, currentStep := Starting);
    var e := Phases(r0, startWait, endWait, irq);
    var c := CleanupPhase(e.state, cleanup, e.irq);
    var body := Then(e, c);
    var o := StartTesting(r, startWait, endWait, cleanup, firstValve, lastValve, irq);
    if body.raised == Some(KeyboardInterrupt) {
      assert o.trace == body.trace + [ReportError(KeyboardInterrupt)];
      assert o.trace[|o.trace| - 1] == ReportError(KeyboardInterrupt);
    } else if body.raised.None? {
      assert o == body;
      PhasesKeeps(r0, startWait, endWait, irq);
      if cleanup {
        var t := o.trace;
        assert t == e.trace + [GpioCleanup, JoinSensorThread];
        assert t[|t| - 2..] == [GpioCleanup, JoinSensorThread];
      }
    }
  }

  /** `first_valve` and `last_valve` change nothing: they are accepted but
      never read, and the loop always covers pairs `1..valve_num`. */
  lemma ValveRangeIgnored(r: Runner, startWait: bool, endWait: bool, cleanup: bool,
                          first1: int, last1: int, first2: int, last2: int, irq: Interrupt)
    ensures StartTesting(r, startWait, endWait, cleanup, first1, last1, irq)
         == StartTesting(r, startWait, endWait, cleanup, first2, last2, irq)
  {
  }

  /** `start_testing` on an unconfigured runner with fewer than two ports
      per pair and no Ctrl-C: the IndexError of the first missing port is
      not caught; the runner is left active and unconfigured at the
      configuring step, nothing is cleaned up, reported or opened. */
  lemma StartTestingShort(r: Runner, startWait: bool, endWait: bool, cleanup: bool, firstValve: int, lastValve: int)
    requires !r.valvesConfigured && |r.payload.servoPorts| < 2 * r.valveNum
    ensures var o := StartTesting(r, startWait, endWait, cleanup, firstValve, lastValve, Never);
      && o.raised == Some(IndexError(|r.payload.servoPorts|))
      && o.state.active && !o.state.valvesConfigured && o.state.currentStep == Configuring
      && o.state.payload.active == r.payload.active
      && GpioCleanup !in o.trace && JoinSensorThread !in o.trace && ReportError(KeyboardInterrupt) !in o.trace
      && Commanded(o.trace, Controller.OpenDuty) == []
  {
    var r0 := r.(active := true, currentStep := Starting);
    var r1 := UpdateStep(r0, Configuring);
    var c := Controller.ConfigureServos(r1.payload.servos, r1.payload.servoPorts, r1.valveNum, Never);
    Controller.ConfigureServosShort(r1.payload.servos, r1.payload.servoPorts, r1.valveNum);
    Controller.ConfigureServosRaises(r1.payload.servos, r1.payload.servoPorts, r1.valveNum, Never);
    var o := StartTesting(r, startWait, endWait, cleanup, firstValve, lastValve, Never);
    assert o.trace == c.trace;
    assert forall i :: 0 <= i < |c.trace| ==> c.trace[i].SetBcmMode? || c.trace[i].StartPwm? || c.trace[i].SetDuty? || c.trace[i].Sleep?;
  }

  /** No action of the body of the `try` block or of the clean-up is an
      error report. */
  lemma NoReport(t: seq<Action>, cleanup: bool)
    requires Controller.ServoCommands(t)
    ensures ReportError(KeyboardInterrupt) !in t + if cleanup then [GpioCleanup, JoinSensorThread] else []
  {
    var tail := if cleanup then [GpioCleanup, JoinSensorThread] else [];
    assert forall i :: 0 <= i < |t + tail| ==> (t + tail)[i] != ReportError(KeyboardInterrupt) by {
      forall i | 0 <= i < |t + tail|
        ensures (t + tail)[i] != ReportError(KeyboardInterrupt)
      {
        if i < |t| { assert (t + tail)[i] == t[i]; }
      }
    }
  }

  /** `start_testing` interrupted by Ctrl-C, whatever the interrupt hits:
      the error is reported last and nothing escapes. A Ctrl-C inside the
      phases cleans nothing up: GPIO is not released, the sensor thread is
      neither stopped nor joined, and the runner stays active. The only
      other place it can land is the join of the clean-up, after GPIO is
      released and every flag reset, and then the step is not cleared. */
  lemma StartTestingInterrupted(r: Runner, startWait: bool, endWait: bool, cleanup: bool, firstValve: int, lastValve: int, irq: Interrupt)
    requires Consistent(r)
    ensures var o := StartTesting(r, startWait, endWait, cleanup, firstValve, lastValve, irq);
      ReportError(KeyboardInterrupt) in o.trace ==>
        && o.raised.None?
        && o.trace[|o.trace| - 1] == ReportError(KeyboardInterrupt)
        && ((&& GpioCleanup !in o.trace && JoinSensorThread !in o.trace
             && o.state.active && o.state.payload.active == r.payload.active)
            || (&& cleanup && |o.trace| >= 3
                && o.trace[|o.trace| - 3..] == [GpioCleanup, JoinSensorThread, ReportError(KeyboardInterrupt)]
                && !o.state.active && !o.state.valvesConfigured && !o.state.payload.active
                && o.state.currentStep != Cleared))
  {
    var r0 := r.(active := true, currentStep := Starting);
    var e := Phases(r0, startWait, endWait, irq);
    var c := CleanupPhase(e.state, cleanup, e.irq);
    var body := Then(e, c);
    var o := StartTesting(r, startWait, endWait, cleanup, firstValve, lastValve, irq);
    var report := ReportError(KeyboardInterrupt);
    assert o == if body.raised == Some(KeyboardInterrupt) then Outcome(body.state, body.trace + [report], Never, None)
                else body;
    PhasesTrace(r0, startWait, endWait, irq);
    PhasesKeeps(r0, startWait, endWait, irq);
    PhasesStep(r0, startWait, endWait, irq);
    NoReport(e.trace, cleanup);
    if e.raised == Some(KeyboardInterrupt) {
      NoCleanupCalls(e.trace, report);
    } else if e.raised.None? && c.raised == Some(KeyboardInterrupt) {
      assert o.trace == e.trace + [GpioCleanup, JoinSensorThread] + [report];
      var t := o.trace;
      assert t[|t| - 3..] == [GpioCleanup, JoinSensorThread, report];
    } else if e.raised.None? {
      assert o.trace == e.trace + c.trace;
    }
  }

  /** Servo commands followed by a report hold no GPIO release and no join. */
  lemma NoCleanupCalls(t: seq<Action>, last: Action)
    requires Controller.ServoCommands(t) && last.ReportError?
    ensures GpioCleanup !in t + [last] && JoinSensorThread !in t + [last]
  {
    assert forall i :: 0 <= i < |t + [last]| ==> (t + [last])[i] == if i < |t| then t[i] else last;
  }

  /** `start_testing` with clean-up whose phases complete with a Ctrl-C due
      at the next blocking call: it lands in the join, after GPIO is
      released and every flag reset, and is reported; the step the phases
      recorded stays. */
  lemma StartTestingJoinInterrupted(r: Runner, startWait: bool, endWait: bool, firstValve: int, lastValve: int, irq: Interrupt)
    requires var e := Phases(r.(active := true, currentStep := Starting), startWait, endWait, irq);
      e.raised.None? && e.irq == AfterBlocks(0)
    ensures var e := Phases(r.(active := true, currentStep := Starting), startWait, endWait, irq);
      StartTesting(r, startWait, endWait, true, firstValve, lastValve, irq)
      == Outcome(e.state.(active := false, valvesConfigured := false, payload := e.state.payload.(active := false)),
                 e.trace + [GpioCleanup, JoinSensorThread, ReportError(KeyboardInterrupt)], Never, None)
  {
    var e := Phases(r.(active := true, currentStep := Starting), startWait, endWait, irq);
    assert e.trace + [GpioCleanup, JoinSensorThread] + [ReportError(KeyboardInterrupt)]
        == e.trace + [GpioCleanup, JoinSensorThread, ReportError(KeyboardInterrupt)];
  }

  /** A configured one-pair runner on the first two ports, both servos at
      rest and the sensor thread running: 10 s between `1a` and `1b`, 60 s
      after `1b`, 60 s start and end waits. */
  function OnePairRunner(ports: seq<int>, sensorCount: nat): Runner
    requires |ports| >= 2
  {
    var bank := map["1a" := Controller.Servo(ports[0], Controller.StopDuty),
                    "1b" := Controller.Servo(ports[1], Controller.StopDuty)];
    Runner(1, 60, 60, 10, 60, 1, Controller.Payload(true, ports, bank, sensorCount), false, true, Initialized)
  }

  /** The one-pair runner with no waits and with clean-up, interrupted
      while the clean-up joins the sensor thread (the blocking call after
      the six sleeps of the valve loop): GPIO is released and every flag
      reset, but the step still names the last valve. */
  lemma InterruptDuringJoin(ports: seq<int>, sensorCount: nat)
    requires |ports| >= 2
    ensures var o := StartTesting(OnePairRunner(ports, sensorCount), false, false, true, 1, 3, AfterBlocks(6));
      && o.trace == Controller.ActuationTrace("1a", 95) + [Sleep(10000)] + Controller.ActuationTrace("1b", 95) + [Sleep(60000)]
                    + [GpioCleanup, JoinSensorThread, ReportError(KeyboardInterrupt)]
      && o.raised.None?
      && !o.state.active && !o.state.valvesConfigured && !o.state.payload.active
      && o.state.currentStep == OpenedB(1, 60)
  {
    var r := OnePairRunner(ports, sensorCount);
    var bank := r.payload.servos;
    var r0 := r.(active := true, currentStep := Starting);
    assert Controller.ServoName(1, 'a') == "1a" && Controller.ServoName(1, 'b') == "1b" by {
      assert Decimal.Show(1) == "1";
    }
    assert Controller.Rest(bank, "1a") == bank && Controller.Rest(bank, "1b") == bank;
    OpenLegNormal(Valves(bank, Starting), "1a", 10, OpenedA(1, 10), AfterBlocks(6));
    var a := OpenLeg(Valves(bank, Starting), "1a", 10, OpenedA(1, 10), AfterBlocks(6));
    OpenLegNormal(a.state, "1b", 60, OpenedB(1, 60), AfterBlocks(3));
    var b := OpenLeg(a.state, "1b", 60, OpenedB(1, 60), AfterBlocks(3));
    var loop := OpenPairs(Valves(bank, Starting), 1, 1, 10, 60, AfterBlocks(6));
    assert loop == Outcome(b.state, a.trace + b.trace, AfterBlocks(0), None);
    var e := Phases(r0, false, false, AfterBlocks(6));
    assert e == Outcome(r0.(currentStep := OpenedB(1, 60)), a.trace + b.trace, AfterBlocks(0), None);
    StartTestingJoinInterrupted(r, false, false, 1, 3, AfterBlocks(6));
  }

  /** The one-pair runner with no start wait, interrupted during the first
      move: the report follows the half-finished actuation, and servo `1a`
      is left energized at the open duty, since nothing stops it. */
  lemma InterruptMidMove(ports: seq<int>, sensorCount: nat)
    requires |ports| >= 2
    ensures var o := StartTesting(OnePairRunner(ports, sensorCount), false, true, true, 1, 3, AfterBlocks(0));
      && o.trace == [SetDuty("1a", 95), Sleep(2000), ReportError(KeyboardInterrupt)]
      && o.raised.None?
      && "1a" in o.state.payload.servos && o.state.payload.servos["1a"].duty == 95
      && o.state.active && o.state.valvesConfigured && o.state.payload.active
  {
    assert Controller.ServoName(1, 'a') == "1a" by {
      assert Decimal.Show(1) == "1";
    }
  }
}
