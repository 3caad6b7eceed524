/**
  The effect vocabulary shared by every part of the payload model.

  The controller talks to hardware through smbus, RPi.GPIO and the bme680
  driver, and blocks in `time.sleep`. None of that is executable here: each
  call becomes an `Action` appended to a trace, and an operation returns the
  new state together with the trace it would have issued.

  Python exceptions that the source raises or catches are values of
  `Exception`. A Ctrl-C (KeyboardInterrupt) is modelled where the main thread
  blocks: during a sleep, or while it joins the sensor thread. `Interrupt`
  says during which of these blocking calls it arrives.
*/
module Actions {

  datatype Option<+T> = None | Some(value: T)

  /** The Python exceptions that matter to the control flow of the core. */
  datatype Exception =
    | KeyError(key: string)
    | IndexError(index: int)
    | NameError(name: string)
    | KeyboardInterrupt

  datatype Result<+T> = Ok(value: T) | Err(error: Exception)

  /** One hardware (or thread) interaction. Durations are milliseconds, duty
      cycles are tenths of a percent. */
  datatype Action =
    | MuxWrite(address: nat, mask: nat)                            // bus.write_byte on the multiplexer
    | Probe(channel: nat, address: nat)                            // bme680.BME680(address)
    | TuneSensor(channel: nat)                                     // oversampling and filter settings
    | ReadSensor(channel: nat)                                     // sensor.get_sensor_data()
    | SetBcmMode                                                   // GPIO.setmode(GPIO.BCM)
    | StartPwm(servo: string, port: int, frequency: nat, duty: int) // GPIO.setup, GPIO.PWM, start
    | SetDuty(servo: string, duty: int)                            // ChangeDutyCycle
    | Sleep(duration: nat)                                         // secure_sleep or time.sleep
    | GpioCleanup                                                  // GPIO.cleanup()
    | JoinSensorThread                                             // sense_thread.join()
    | ReportError(error: Exception)                                // the status log of a caught error

  /** A whole number of seconds in milliseconds, the unit of `Sleep`. */
  function Millis(seconds: nat): nat {
    seconds * 1000
  }

  /** When a Ctrl-C reaches the main thread: never, or during the blocking
      call (a sleep or a join) that follows `n` completed ones. */
  datatype Interrupt = Never | AfterBlocks(n: nat)

  /** What an operation leaves behind: the state reached, the actions issued,
      the interrupt still pending and the exception it raised, if any. When an
      exception is raised, `state` and `trace` are those at the raise. */
  datatype Outcome<S> = Outcome(state: S, trace: seq<Action>, irq: Interrupt, raised: Option<Exception>)

  /** True when no interrupt fires during the next `k` blocking calls. */
  predicate Quiet(irq: Interrupt, k: nat) {
    irq.Never? || irq.n >= k
  }

  /** The interrupt still pending after `k` blocking calls that it did not
      cut short. */
  function Consume(irq: Interrupt, k: nat): (r: Interrupt)
    requires Quiet(irq, k)
    ensures r.Never? <==> irq.Never?
  {
    match irq
    case Never => Never
    case AfterBlocks(n) => AfterBlocks(n - k)
  }

  /** Finishes without effects. */
  function Done<S>(state: S, irq: Interrupt): Outcome<S> {
    Outcome(state, [], irq, None)
  }

  /** One blocking call, issued as `call`, cut short by a pending Ctrl-C:
      the call is issued either way, and the Ctrl-C raises inside it. */
  function Block<S>(state: S, call: Action, irq: Interrupt): (o: Outcome<S>)
    ensures o.state == state && o.trace == [call]
    ensures o.raised == Some(KeyboardInterrupt) <==> irq == AfterBlocks(0)
    ensures o.raised.None? <==> o.raised != Some(KeyboardInterrupt)
    ensures irq.Never? ==> o.irq.Never?
    ensures irq.AfterBlocks? && irq.n > 0 ==> o.irq == AfterBlocks(irq.n - 1)
  {
    match irq
    case Never => Outcome(state, [call], Never, None)
    case AfterBlocks(n) =>
      if n == 0 then Outcome(state, [call], irq, Some(KeyboardInterrupt))
      else Outcome(state, [call], AfterBlocks(n - 1), None)
  }

  /** One blocking sleep of `d` milliseconds. */
  function Pause<S>(state: S, d: nat, irq: Interrupt): (o: Outcome<S>)
    ensures o.state == state && o.trace == [Sleep(d)]
    ensures o.raised == Some(KeyboardInterrupt) <==> irq == AfterBlocks(0)
    ensures o.raised.None? <==> o.raised != Some(KeyboardInterrupt)
    ensures irq.Never? ==> o.irq.Never?
    ensures irq.AfterBlocks? && irq.n > 0 ==> o.irq == AfterBlocks(irq.n - 1)
  {
    Block(state, Sleep(d), irq)
  }

  /** Sequential composition: `next` runs from `first`'s state only when
      `first` raised nothing; the traces add up. */
  function Then<S>(first: Outcome<S>, next: Outcome<S>): (o: Outcome<S>)
    ensures first.raised.Some? ==> o == first
    ensures first.raised.None? ==> o.trace == first.trace + next.trace && o.state == next.state
                                   && o.raised == next.raised && o.irq == next.irq
  {
    if first.raised.Some? then first
    else Outcome(next.state, first.trace + next.trace, next.irq, next.raised)
  }

  /** The number of sleeps in a trace. */
  function SleepCount(trace: seq<Action>): nat {
    if trace == [] then 0
    else (if trace[0].Sleep? then 1 else 0) + SleepCount(trace[1..])
  }

  /** The names of the servos commanded to `duty`, in command order. */
  function Commanded(trace: seq<Action>, duty: int): (names: seq<string>)
    ensures |names| <= |trace|
  {
    if trace == [] then []
    else (if trace[0].SetDuty? && trace[0].duty == duty then [trace[0].servo] else [])
         + Commanded(trace[1..], duty)
  }

  lemma CommandedSingle(a: Action, duty: int)
    ensures Commanded([a], duty) == if a.SetDuty? && a.duty == duty then [a.servo] else []
  {
    assert [a][1..] == [];
  }

  lemma {:induction false} CommandedAppend(t1: seq<Action>, t2: seq<Action>, duty: int)
    ensures Commanded(t1 + t2, duty) == Commanded(t1, duty) + Commanded(t2, duty)
  {
    if t1 == [] {
      assert t1 + t2 == t2;
    } else {
      assert (t1 + t2)[1..] == t1[1..] + t2;
      CommandedAppend(t1[1..], t2, duty);
    }
  }

  lemma {:induction false} SleepCountAppend(t1: seq<Action>, t2: seq<Action>)
    ensures SleepCount(t1 + t2) == SleepCount(t1) + SleepCount(t2)
  {
    if t1 == [] {
      assert t1 + t2 == t2;
    } else {
      assert (t1 + t2)[1..] == t1[1..] + t2;
      SleepCountAppend(t1[1..], t2);
    }
  }
}
