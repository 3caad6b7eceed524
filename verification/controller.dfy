/**
  The servo side of the `Payload` controller: the bank of named pinch-valve
  servos, their two-phase actuation protocol and their configuration.

  A servo is moved by commanding a "move" duty cycle, waiting for the move,
  commanding duty 0 and waiting for it to stop. The bank records the last
  duty commanded to each servo; `Replay` rebuilds the bank from the trace of
  commands alone, and every operation here leaves exactly the bank its trace
  replays to.
*/
module Controller {
  import opened Actions
  import Decimal

  datatype Servo = Servo(port: int, duty: int)

  /** The `servos` dictionary: servo name to GPIO port and last commanded duty. */
  type Bank = map<string, Servo>

  /** The fields of a `Payload` object that the sequencing logic reads and
      writes. `active` is the flag the sensor thread polls between sweeps. */
  datatype Payload = Payload(active: bool, servoPorts: seq<int>, servos: Bank, sensorCount: nat)

  const OpenDuty: int := 95
  const CloseDuty: int := 50
  const StopDuty: int := 0
  /** secure_sleep(2) after the move command. */
  const MoveWait: nat := 2000
  /** secure_sleep(1.5) after the stop command. */
  const StopWait: nat := 1500
  const PwmFrequency: nat := 50

  /** The payload as its constructor leaves it, before the sensor thread
      it starts has set the flag. */
  function NewPayload(ports: seq<int>, sensorCount: nat): Payload {
    Payload(false, ports, map[], sensorCount)
  }

  /** `"{num}a"` / `"{num}b"`. */
  function ServoName(pair: nat, leg: char): string {
    Decimal.Show(pair) + [leg]
  }

  lemma ServoNameInjective(p: nat, x: char, q: nat, y: char)
    ensures ServoName(p, x) == ServoName(q, y) <==> p == q && x == y
  {
    if ServoName(p, x) == ServoName(q, y) {
      var s, t := ServoName(p, x), ServoName(q, y);
      assert s[|s| - 1] == x && t[|t| - 1] == y;
      assert s[..|s| - 1] == Decimal.Show(p);
      assert t[..|t| - 1] == Decimal.Show(q);
      Decimal.ShowInjective(p, q);
    }
  }

  /** The servo names of pairs `pair..n`, `a` before `b`. */
  function ValveOrderFrom(pair: nat, n: nat): seq<string>
    decreases n + 1 - pair
  {
    if pair == 0 || pair > n then []
    else [ServoName(pair, 'a'), ServoName(pair, 'b')] + ValveOrderFrom(pair + 1, n)
  }

  /** `1a, 1b, 2a, 2b, ..., na, nb`. */
  function ValveOrder(n: nat): seq<string> {
    ValveOrderFrom(1, n)
  }

  lemma {:induction false} ValveOrderFromAt(pair: nat, n: nat)
    requires pair >= 1
    ensures pair <= n + 1 ==> |ValveOrderFrom(pair, n)| == 2 * (n + 1 - pair)
    ensures forall i :: 0 <= i < |ValveOrderFrom(pair, n)| ==>
              ValveOrderFrom(pair, n)[i] == ServoName(pair + i / 2, if i % 2 == 0 then 'a' else 'b')
    decreases n + 1 - pair
  {
    if pair <= n {
      ValveOrderFromAt(pair + 1, n);
    }
  }

  /** The closed form of the valve order: entry i is leg i%2 of pair i/2+1,
      and no name appears twice. */
  lemma ValveOrderShape(n: nat)
    ensures |ValveOrder(n)| == 2 * n
    ensures forall i :: 0 <= i < 2 * n ==>
              ValveOrder(n)[i] == ServoName(i / 2 + 1, if i % 2 == 0 then 'a' else 'b')
    ensures forall i, j :: 0 <= i < j < 2 * n ==> ValveOrder(n)[i] != ValveOrder(n)[j]
  {
    ValveOrderFromAt(1, n);
    forall i, j | 0 <= i < j < 2 * n
      ensures ValveOrder(n)[i] != ValveOrder(n)[j]
    {
      ServoNameInjective(i / 2 + 1, if i % 2 == 0 then 'a' else 'b', j / 2 + 1, if j % 2 == 0 then 'a' else 'b');
    }
  }

  lemma {:induction false} ValveOrderFromMember(p: nat, x: char, pair: nat, n: nat)
    requires pair >= 1
    ensures ServoName(p, x) in ValveOrderFrom(pair, n) <==> pair <= p <= n && (x == 'a' || x == 'b')
    decreases n + 1 - pair
  {
    if pair <= n {
      ServoNameInjective(p, x, pair, 'a');
      ServoNameInjective(p, x, pair, 'b');
      ValveOrderFromMember(p, x, pair + 1, n);
    }
  }

  /** The effect of one action on the bank: a started PWM adds (or replaces)
      the servo at the started duty, a duty command changes a known servo's
      duty. */
  function Apply(bank: Bank, a: Action): Bank {
    match a
    case StartPwm(name, port, _, duty) => bank[name := Servo(port, duty)]
    case SetDuty(name, duty) => if name in bank then bank[name := bank[name].(duty := duty)] else bank
    case _ => bank
  }

  /** The bank a trace of commands leaves behind. */
  function Replay(bank: Bank, trace: seq<Action>): Bank
    decreases |trace|
  {
    if trace == [] then bank else Replay(Apply(bank, trace[0]), trace[1..])
  }

  lemma {:induction false} ReplayAppend(bank: Bank, t1: seq<Action>, t2: seq<Action>)
    ensures Replay(bank, t1 + t2) == Replay(Replay(bank, t1), t2)
    decreases |t1|
  {
    if t1 == [] {
      assert t1 + t2 == t2;
    } else {
      assert (t1 + t2)[1..] == t1[1..] + t2;
      ReplayAppend(Apply(bank, t1[0]), t1[1..], t2);
    }
  }

  lemma ThenReplay(bank: Bank, first: Outcome<Bank>, next: Outcome<Bank>)
    requires first.state == Replay(bank, first.trace)
    requires first.raised.None? ==> next.state == Replay(first.state, next.trace)
    ensures Then(first, next).state == Replay(bank, Then(first, next).trace)
  {
    if first.raised.None? {
      ReplayAppend(bank, first.trace, next.trace);
    }
  }

  /** The full protocol for one actuation. */
  function ActuationTrace(name: string, move: int): seq<Action> {
    [SetDuty(name, move), Sleep(MoveWait), SetDuty(name, StopDuty), Sleep(StopWait)]
  }

  /** Looks the servo up (KeyError when unknown, before any command), then
      moves it and stops it. */
  function Actuate(bank: Bank, name: string, move: int, irq: Interrupt): (o: Outcome<Bank>)
    ensures name !in bank ==> o == Outcome(bank, [], irq, Some(KeyError(name)))
    ensures name in bank && Quiet(irq, 2) ==>
              && o.raised.None?
              && o.trace == ActuationTrace(name, move)
              && o.state == bank[name := Servo(bank[name].port, StopDuty)]
              && o.irq == Consume(irq, 2)
    ensures name in bank && irq == AfterBlocks(0) ==>
              && o.raised == Some(KeyboardInterrupt)
              && o.trace == [SetDuty(name, move), Sleep(MoveWait)]
              && o.state == bank[name := Servo(bank[name].port, move)]
    ensures name in bank && irq == AfterBlocks(1) ==>
              && o.raised == Some(KeyboardInterrupt)
              && o.trace == ActuationTrace(name, move)
              && o.state == bank[name := Servo(bank[name].port, StopDuty)]
    ensures o.state.Keys == bank.Keys
  {
    if name !in bank then Outcome(bank, [], irq, Some(KeyError(name)))
    else
      var port := bank[name].port;
      if irq == AfterBlocks(0) then
        Outcome(bank[name := Servo(port, move)], [SetDuty(name, move), Sleep(MoveWait)], irq, Some(KeyboardInterrupt))
      else if irq == AfterBlocks(1) then
        Outcome(bank[name := Servo(port, StopDuty)], ActuationTrace(name, move), irq, Some(KeyboardInterrupt))
      else
        Outcome(bank[name := Servo(port, StopDuty)], ActuationTrace(name, move), Consume(irq, 2), None)
  }

  lemma ReplaySingle(bank: Bank, a: Action)
    ensures Replay(bank, [a]) == Apply(bank, a)
  {
    assert [a][1..] == [];
  }

  lemma ActuateReplay(bank: Bank, name: string, move: int, irq: Interrupt)
    ensures Actuate(bank, name, move, irq).state == Replay(bank, Actuate(bank, name, move, irq).trace)
  {
    if name in bank {
      var port := bank[name].port;
      var moving := bank[name := Servo(port, move)];
      var stopped := bank[name := Servo(port, StopDuty)];
      var t := ActuationTrace(name, move);
      assert t[1..] == [t[1], t[2], t[3]] && t[2..] == [t[2], t[3]] && t[3..] == [t[3]];
      assert Apply(bank, t[0]) == moving;
      assert Replay(moving, [t[3]]) == moving by { ReplaySingle(moving, t[3]); }
      assert Apply(moving, t[2]) == stopped;
      assert Replay(stopped, [t[3]]) == stopped by { ReplaySingle(stopped, t[3]); }
      assert Replay(bank, t[..2]) == moving by {
        assert t[..2][1..] == [t[1]];
        ReplaySingle(moving, t[1]);
      }
      assert Replay(bank, t) == stopped by {
        assert Replay(moving, t[1..]) == Replay(moving, t[2..]);
        assert Replay(moving, t[2..]) == Replay(stopped, t[3..]);
      }
      assert [SetDuty(name, move), Sleep(MoveWait)] == t[..2];
    }
  }

  /** The servos a protocol run commands to `duty`: the servo once for its
      move duty, once for the stop duty. */
  lemma CommandedActuation(name: string, move: int, duty: int)
    ensures Commanded(ActuationTrace(name, move), duty)
            == (if move == duty then [name] else []) + (if StopDuty == duty then [name] else [])
  {
    var t := ActuationTrace(name, move);
    assert t == [t[0]] + [t[1]] + [t[2]] + [t[3]];
    CommandedAppend([t[0]] + [t[1]] + [t[2]], [t[3]], duty);
    CommandedAppend([t[0]] + [t[1]], [t[2]], duty);
    CommandedAppend([t[0]], [t[1]], duty);
    CommandedSingle(t[0], duty);
    CommandedSingle(t[1], duty);
    CommandedSingle(t[2], duty);
    CommandedSingle(t[3], duty);
  }

  /** `open_valve`. */
  function OpenValve(bank: Bank, name: string, irq: Interrupt): (o: Outcome<Bank>)
    ensures o.state.Keys == bank.Keys
    ensures name !in bank ==> o.raised == Some(KeyError(name)) && o.trace == [] && o.state == bank
    ensures name in bank && Quiet(irq, 2) ==>
              && o.raised.None?
              && o.trace == [SetDuty(name, 95), Sleep(2000), SetDuty(name, 0), Sleep(1500)]
              && o.state == bank[name := Servo(bank[name].port, 0)]
  {
    Actuate(bank, name, OpenDuty, irq)
  }

  /** `close_valve`. */
  function CloseValve(bank: Bank, name: string, irq: Interrupt): (o: Outcome<Bank>)
    ensures o.state.Keys == bank.Keys
    ensures name !in bank ==> o.raised == Some(KeyError(name)) && o.trace == [] && o.state == bank
    ensures name in bank && Quiet(irq, 2) ==>
              && o.raised.None?
              && o.trace == [SetDuty(name, 50), Sleep(2000), SetDuty(name, 0), Sleep(1500)]
              && o.state == bank[name := Servo(bank[name].port, 0)]
  {
    Actuate(bank, name, CloseDuty, irq)
  }

  /** One iteration of the configuration loop: look both ports up
      (IndexError when the port list is too short), start both PWMs at duty
      0, record both servos, close `a`, close `b`. */
  function ConfigurePair(bank: Bank, ports: seq<int>, pair: nat, irq: Interrupt): (o: Outcome<Bank>)
    requires pair >= 1
  {
    var ia := (pair - 1) * 2;
    var ib := ia + 1;
    if ia >= |ports| then Outcome(bank, [], irq, Some(IndexError(ia)))
    else if ib >= |ports| then Outcome(bank, [], irq, Some(IndexError(ib)))
    else
      var a, b := ServoName(pair, 'a'), ServoName(pair, 'b');
      var started := bank[a := Servo(ports[ia], StopDuty)][b := Servo(ports[ib], StopDuty)];
      var setup := [StartPwm(a, ports[ia], PwmFrequency, StopDuty), StartPwm(b, ports[ib], PwmFrequency, StopDuty)];
      var ca := CloseValve(started, a, irq);
      if ca.raised.Some? then Outcome(ca.state, setup + ca.trace, ca.irq, ca.raised)
      else
        var cb := CloseValve(ca.state, b, ca.irq);
        Outcome(cb.state, setup + ca.trace + cb.trace, cb.irq, cb.raised)
  }

  /** The configuration loop over pairs `pair..n`. */
  function ConfigurePairs(bank: Bank, ports: seq<int>, pair: nat, n: nat, irq: Interrupt): (o: Outcome<Bank>)
    requires pair >= 1
    decreases n + 1 - pair, 1
  {
    if pair > n then Done(bank, irq) else ConfigurePairAndRest(bank, ports, pair, n, irq)
  }

  /** One iteration of the configuration loop followed by the rest of it. */
  function ConfigurePairAndRest(bank: Bank, ports: seq<int>, pair: nat, n: nat, irq: Interrupt): (o: Outcome<Bank>)
    requires 1 <= pair <= n
    decreases n + 1 - pair, 0
  {
    var step := ConfigurePair(bank, ports, pair, irq);
    Then(step, ConfigurePairs(step.state, ports, pair + 1, n, step.irq))
  }

  /** `configure_servos(n)` on the bank, with the port list `ports`. */
  function ConfigureServos(bank: Bank, ports: seq<int>, n: nat, irq: Interrupt): Outcome<Bank> {
    Then(Outcome(bank, [SetBcmMode], irq, None), ConfigurePairs(bank, ports, 1, n, irq))
  }

  lemma ConfigurePairReplay(bank: Bank, ports: seq<int>, pair: nat, irq: Interrupt)
    requires pair >= 1
    ensures ConfigurePair(bank, ports, pair, irq).state == Replay(bank, ConfigurePair(bank, ports, pair, irq).trace)
  {
    var ia := (pair - 1) * 2;
    var ib := ia + 1;
    if ib < |ports| {
      var a, b := ServoName(pair, 'a'), ServoName(pair, 'b');
      var started := bank[a := Servo(ports[ia], StopDuty)][b := Servo(ports[ib], StopDuty)];
      var setup := [StartPwm(a, ports[ia], PwmFrequency, StopDuty), StartPwm(b, ports[ib], PwmFrequency, StopDuty)];
      assert setup == [setup[0]] + [setup[1]];
      ReplayAppend(bank, [setup[0]], [setup[1]]);
      ReplaySingle(bank, setup[0]);
      ReplaySingle(Apply(bank, setup[0]), setup[1]);
      var ca := CloseValve(started, a, irq);
      ActuateReplay(started, a, CloseDuty, irq);
      ReplayAppend(bank, setup, ca.trace);
      if ca.raised.None? {
        ActuateReplay(ca.state, b, CloseDuty, ca.irq);
        ReplayAppend(bank, setup + ca.trace, CloseValve(ca.state, b, ca.irq).trace);
      }
    }
  }

  lemma {:induction false} ConfigurePairsReplay(bank: Bank, ports: seq<int>, pair: nat, n: nat, irq: Interrupt)
    requires pair >= 1
    ensures ConfigurePairs(bank, ports, pair, n, irq).state == Replay(bank, ConfigurePairs(bank, ports, pair, n, irq).trace)
    decreases n + 1 - pair
  {
    if pair <= n {
      var step := ConfigurePair(bank, ports, pair, irq);
      ConfigurePairReplay(bank, ports, pair, irq);
      ConfigurePairsReplay(step.state, ports, pair + 1, n, step.irq);
      ThenReplay(bank, step, ConfigurePairs(step.state, ports, pair + 1, n, step.irq));
    }
  }

  /** Every configuration, whatever exception ends it, leaves the bank its
      commands replay to. */
  lemma ConfigureServosReplay(bank: Bank, ports: seq<int>, n: nat, irq: Interrupt)
    ensures ConfigureServos(bank, ports, n, irq).state == Replay(bank, ConfigureServos(bank, ports, n, irq).trace)
  {
    ConfigurePairsReplay(bank, ports, 1, n, irq);
    ThenReplay(bank, Outcome(bank, [SetBcmMode], irq, None), ConfigurePairs(bank, ports, 1, n, irq));
  }

  // ---------------------------------------------------------------------
  // Configuration without Ctrl-C, against a reference definition

  /** The commands of one pair whose ports both exist: both PWMs started at
      duty 0, then the full closing protocol of `a` and of `b`. */
  function PairSetup(ports: seq<int>, pair: nat): seq<Action>
    requires 1 <= pair && 2 * pair <= |ports|
  {
    var a, b := ServoName(pair, 'a'), ServoName(pair, 'b');
    [StartPwm(a, ports[2 * (pair - 1)], PwmFrequency, StopDuty),
     StartPwm(b, ports[2 * (pair - 1) + 1], PwmFrequency, StopDuty)]
    + ActuationTrace(a, CloseDuty) + ActuationTrace(b, CloseDuty)
  }

  /** Reference: the commands for the pairs `pair..n` whose ports exist. */
  function ConfigurationTrace(ports: seq<int>, pair: nat, n: nat): seq<Action>
    requires pair >= 1
    decreases n + 1 - pair
  {
    if pair > n || 2 * pair > |ports| then []
    else PairSetup(ports, pair) + ConfigurationTrace(ports, pair + 1, n)
  }

  /** Reference: the bank with the pairs `pair..n` whose ports exist added
      on their ports at duty 0. */
  function StoppedPairs(bank: Bank, ports: seq<int>, pair: nat, n: nat): Bank
    requires pair >= 1
    decreases n + 1 - pair
  {
    if pair > n || 2 * pair > |ports| then bank
    else StoppedPairs(bank[ServoName(pair, 'a') := Servo(ports[2 * (pair - 1)], StopDuty)]
                          [ServoName(pair, 'b') := Servo(ports[2 * (pair - 1) + 1], StopDuty)],
                      ports, pair + 1, n)
  }

  /** One pair with both ports present and no Ctrl-C: both servos added on
      their ports and left at duty 0, with exactly the set-up commands. */
  lemma ConfigurePairQuiet(bank: Bank, ports: seq<int>, pair: nat)
    requires pair >= 1 && 2 * pair <= |ports|
    ensures ConfigurePair(bank, ports, pair, Never)
            == Outcome(bank[ServoName(pair, 'a') := Servo(ports[2 * (pair - 1)], StopDuty)]
                           [ServoName(pair, 'b') := Servo(ports[2 * (pair - 1) + 1], StopDuty)],
                       PairSetup(ports, pair), Never, None)
  {
    var ia := (pair - 1) * 2;
    var ib := ia + 1;
    var a, b := ServoName(pair, 'a'), ServoName(pair, 'b');
    ServoNameInjective(pair, 'a', pair, 'b');
    var s0 := bank[a := Servo(ports[ia], StopDuty)][b := Servo(ports[ib], StopDuty)];
    var ca := CloseValve(s0, a, Never);
    assert ca.state == s0;
    var cb := CloseValve(ca.state, b, Never);
    assert cb.state == s0;
  }

  /** Configuration of pairs `pair..n` without Ctrl-C is the reference: the
      bank and the commands of the pairs whose ports exist, and IndexError at
      `len(ports)` when the ports run out before pair `n`. */
  lemma {:induction false} ConfigurePairsQuiet(bank: Bank, ports: seq<int>, pair: nat, n: nat)
    requires pair >= 1 && 2 * (pair - 1) <= |ports|
    ensures ConfigurePairs(bank, ports, pair, n, Never)
            == Outcome(StoppedPairs(bank, ports, pair, n), ConfigurationTrace(ports, pair, n), Never,
                       if pair > n || 2 * n <= |ports| then None else Some(IndexError(|ports|)))
    decreases n + 1 - pair
  {
    if pair <= n && 2 * pair <= |ports| {
      ConfigurePairQuiet(bank, ports, pair);
      var step := ConfigurePair(bank, ports, pair, Never);
      ConfigurePairsQuiet(step.state, ports, pair + 1, n);
    }
  }

  /** One pair's set-up closes `a`, then `b`, and opens nothing. */
  lemma PairSetupCommands(ports: seq<int>, pair: nat)
    requires 1 <= pair && 2 * pair <= |ports|
    ensures Commanded(PairSetup(ports, pair), CloseDuty) == [ServoName(pair, 'a'), ServoName(pair, 'b')]
    ensures Commanded(PairSetup(ports, pair), OpenDuty) == []
  {
    var a, b := ServoName(pair, 'a'), ServoName(pair, 'b');
    var setup := [StartPwm(a, ports[2 * (pair - 1)], PwmFrequency, StopDuty),
                  StartPwm(b, ports[2 * (pair - 1) + 1], PwmFrequency, StopDuty)];
    assert setup == [setup[0]] + [setup[1]];
    forall duty | duty == CloseDuty || duty == OpenDuty
      ensures Commanded(PairSetup(ports, pair), duty) == if duty == CloseDuty then [a, b] else []
    {
      CommandedSingle(setup[0], duty);
      CommandedSingle(setup[1], duty);
      CommandedAppend([setup[0]], [setup[1]], duty);
      CommandedActuation(a, CloseDuty, duty);
      CommandedActuation(b, CloseDuty, duty);
      CommandedAppend(setup, ActuationTrace(a, CloseDuty), duty);
      CommandedAppend(setup + ActuationTrace(a, CloseDuty), ActuationTrace(b, CloseDuty), duty);
    }
  }

  /** The reference commands close pairs `pair..n` in order, and open none. */
  lemma {:induction false} ConfigurationCommands(ports: seq<int>, pair: nat, n: nat)
    requires pair >= 1
    ensures 2 * n <= |ports| ==> Commanded(ConfigurationTrace(ports, pair, n), CloseDuty) == ValveOrderFrom(pair, n)
    ensures Commanded(ConfigurationTrace(ports, pair, n), OpenDuty) == []
    decreases n + 1 - pair
  {
    if pair <= n && 2 * pair <= |ports| {
      var rest := ConfigurationTrace(ports, pair + 1, n);
      ConfigurationCommands(ports, pair + 1, n);
      PairSetupCommands(ports, pair);
      CommandedAppend(PairSetup(ports, pair), rest, CloseDuty);
      CommandedAppend(PairSetup(ports, pair), rest, OpenDuty);
    }
  }

  /** The reference bank holds the old servos and the added names, and
      keeps every old servo it does not configure. */
  lemma {:induction false} StoppedPairsKeys(bank: Bank, ports: seq<int>, pair: nat, n: nat)
    requires pair >= 1 && 2 * n <= |ports|
    ensures var s := StoppedPairs(bank, ports, pair, n);
      && (forall k :: k in s <==> k in bank || k in ValveOrderFrom(pair, n))
      && (forall k :: k in bank && k !in ValveOrderFrom(pair, n) ==> s[k] == bank[k])
    decreases n + 1 - pair
  {
    if pair <= n {
      var a, b := ServoName(pair, 'a'), ServoName(pair, 'b');
      var st := bank[a := Servo(ports[2 * (pair - 1)], StopDuty)][b := Servo(ports[2 * (pair - 1) + 1], StopDuty)];
      var s := StoppedPairs(st, ports, pair + 1, n);
      StoppedPairsKeys(st, ports, pair + 1, n);
      assert StoppedPairs(bank, ports, pair, n) == s;
      var later := ValveOrderFrom(pair + 1, n);
      assert ValveOrderFrom(pair, n) == [a, b] + later;
      forall k
        ensures k in s <==> k in bank || k in ValveOrderFrom(pair, n)
        ensures k in bank && k !in ValveOrderFrom(pair, n) ==> s[k] == bank[k]
      {
        assert k in ValveOrderFrom(pair, n) <==> k == a || k == b || k in later;
        assert k in s <==> k in st || k in later;
        assert k in st <==> k in bank || k == a || k == b;
        if k in bank && k !in ValveOrderFrom(pair, n) {
          assert st[k] == bank[k];
        }
      }
    }
  }

  /** Pairs `from..n` are present, each leg on its port and at duty 0. */
  predicate PairsStopped(bank: Bank, ports: seq<int>, from: nat, n: nat) {
    forall p :: 1 <= p && from <= p <= n ==>
      && 2 * p <= |ports|
      && ServoName(p, 'a') in bank && bank[ServoName(p, 'a')] == Servo(ports[2 * (p - 1)], StopDuty)
      && ServoName(p, 'b') in bank && bank[ServoName(p, 'b')] == Servo(ports[2 * (p - 1) + 1], StopDuty)
  }

  /** Adding pair `pair`, stopped on its ports, in front of pairs that the
      later steps leave in place. */
  lemma PairsStoppedExtend(st: Bank, last: Bank, ports: seq<int>, pair: nat, n: nat)
    requires 1 <= pair <= n && 2 * n <= |ports|
    requires ServoName(pair, 'a') in st && st[ServoName(pair, 'a')] == Servo(ports[2 * (pair - 1)], StopDuty)
    requires ServoName(pair, 'b') in st && st[ServoName(pair, 'b')] == Servo(ports[2 * (pair - 1) + 1], StopDuty)
    requires forall k :: k in st && k !in ValveOrderFrom(pair + 1, n) ==> k in last && last[k] == st[k]
    requires PairsStopped(last, ports, pair + 1, n)
    ensures PairsStopped(last, ports, pair, n)
  {
    ValveOrderFromMember(pair, 'a', pair + 1, n);
    ValveOrderFromMember(pair, 'b', pair + 1, n);
  }

  /** The reference bank binds every added name to its port at duty 0. */
  lemma {:induction false} StoppedPairsValues(bank: Bank, ports: seq<int>, pair: nat, n: nat)
    requires pair >= 1 && 2 * n <= |ports|
    ensures PairsStopped(StoppedPairs(bank, ports, pair, n), ports, pair, n)
    decreases n + 1 - pair
  {
    if pair <= n {
      ServoNameInjective(pair, 'a', pair, 'b');
      var st := bank[ServoName(pair, 'a') := Servo(ports[2 * (pair - 1)], StopDuty)]
                    [ServoName(pair, 'b') := Servo(ports[2 * (pair - 1) + 1], StopDuty)];
      StoppedPairsValues(st, ports, pair + 1, n);
      StoppedPairsKeys(st, ports, pair + 1, n);
      PairsStoppedExtend(st, StoppedPairs(st, ports, pair + 1, n), ports, pair, n);
    }
  }

  /** The reference bank energizes no servo that was at rest. */
  lemma {:induction false} StoppedPairsStops(bank: Bank, ports: seq<int>, pair: nat, n: nat)
    requires pair >= 1 && AllStopped(bank)
    ensures AllStopped(StoppedPairs(bank, ports, pair, n))
    decreases n + 1 - pair
  {
    if pair <= n && 2 * pair <= |ports| {
      StoppedPairsStops(bank[ServoName(pair, 'a') := Servo(ports[2 * (pair - 1)], StopDuty)]
                            [ServoName(pair, 'b') := Servo(ports[2 * (pair - 1) + 1], StopDuty)],
                        ports, pair + 1, n);
    }
  }

  /** `configure_servos(n)` with at least 2n ports and no Ctrl-C: exactly the
      2n servos `1a, 1b, ..., na, nb` are added, `{p}a` on `ports[2(p-1)]` and
      `{p}b` on `ports[2(p-1)+1]`, every one of them closed in that order and
      left at duty 0, no valve opened, and other servos kept. */
  lemma ConfigureServosNormal(bank: Bank, ports: seq<int>, n: nat)
    requires 2 * n <= |ports|
    ensures var o := ConfigureServos(bank, ports, n, Never);
      && o.raised.None? && o.irq.Never?
      && o.trace[0] == SetBcmMode
      && Commanded(o.trace, CloseDuty) == ValveOrder(n)
      && Commanded(o.trace, OpenDuty) == []
      && (forall k :: k in o.state <==> k in bank || k in ValveOrder(n))
      && (forall k :: k in bank && k !in ValveOrder(n) ==> o.state[k] == bank[k])
      && PairsStopped(o.state, ports, 1, n)
      && (AllStopped(bank) ==> AllStopped(o.state))
  {
    var t := ConfigurationTrace(ports, 1, n);
    ConfigurePairsQuiet(bank, ports, 1, n);
    ConfigurationCommands(ports, 1, n);
    StoppedPairsKeys(bank, ports, 1, n);
    StoppedPairsValues(bank, ports, 1, n);
    if AllStopped(bank) {
      StoppedPairsStops(bank, ports, 1, n);
    }
    CommandedAppend([SetBcmMode], t, CloseDuty);
    CommandedAppend([SetBcmMode], t, OpenDuty);
  }

  /** `configure_servos(n)` with at least 2n ports and no Ctrl-C is the
      reference: BCM mode, then the set-up of pairs `1..n`; the bank it
      leaves is configured, and at rest when the old one was. */
  lemma ConfigureServosQuiet(bank: Bank, ports: seq<int>, n: nat)
    requires 2 * n <= |ports|
    ensures ConfigureServos(bank, ports, n, Never)
            == Outcome(StoppedPairs(bank, ports, 1, n), [SetBcmMode] + ConfigurationTrace(ports, 1, n), Never, None)
    ensures Configured(StoppedPairs(bank, ports, 1, n), ports, n)
    ensures AllStopped(bank) ==> AllStopped(StoppedPairs(bank, ports, 1, n))
  {
    ConfigurePairsQuiet(bank, ports, 1, n);
    StoppedPairsValues(bank, ports, 1, n);
    if AllStopped(bank) {
      StoppedPairsStops(bank, ports, 1, n);
    }
  }

  /** `configure_servos(n)` with fewer than 2n ports: the lookup of the first
      missing port raises IndexError at index `len(ports)`, and no valve has
      been opened. */
  lemma ConfigureServosShort(bank: Bank, ports: seq<int>, n: nat)
    requires |ports| < 2 * n
    ensures var o := ConfigureServos(bank, ports, n, Never);
      o.raised == Some(IndexError(|ports|)) && Commanded(o.trace, OpenDuty) == []
  {
    ConfigurePairsQuiet(bank, ports, 1, n);
    ConfigurationCommands(ports, 1, n);
    CommandedAppend([SetBcmMode], ConfigurationTrace(ports, 1, n), OpenDuty);
  }

  /** Servos `{p}a` and `{p}b` exist for every pair `p` in `from..n`, `{p}a`
      on `ports[2(p-1)]` and `{p}b` on `ports[2(p-1)+1]`. */
  predicate PairsOn(bank: Bank, ports: seq<int>, from: nat, n: nat) {
    forall p :: 1 <= p && from <= p <= n ==>
      && 2 * p <= |ports|
      && ServoName(p, 'a') in bank && bank[ServoName(p, 'a')].port == ports[2 * (p - 1)]
      && ServoName(p, 'b') in bank && bank[ServoName(p, 'b')].port == ports[2 * (p - 1) + 1]
  }

  /** What a completed `configure_servos(n)` leaves behind: servos
      `1a, 1b, ..., na, nb` on their ports. */
  predicate Configured(bank: Bank, ports: seq<int>, n: nat) {
    PairsOn(bank, ports, 1, n)
  }

  lemma PairsOnExtend(bank: Bank, ports: seq<int>, pair: nat, n: nat)
    requires pair >= 1 && 2 * pair <= |ports| && PairsOn(bank, ports, pair + 1, n)
    requires ServoName(pair, 'a') in bank && bank[ServoName(pair, 'a')].port == ports[2 * (pair - 1)]
    requires ServoName(pair, 'b') in bank && bank[ServoName(pair, 'b')].port == ports[2 * (pair - 1) + 1]
    ensures PairsOn(bank, ports, pair, n)
  {
  }

  /** One pair, whatever Ctrl-C does: no servo is lost, servos other than
      the pair's keep their ports, and once both ports were found both
      servos of the pair exist on them. */
  lemma ConfigurePairPorts(bank: Bank, ports: seq<int>, pair: nat, irq: Interrupt)
    requires pair >= 1
    ensures var o := ConfigurePair(bank, ports, pair, irq);
      && (forall k :: k in bank ==> k in o.state)
      && (forall k :: k in bank && k != ServoName(pair, 'a') && k != ServoName(pair, 'b') ==>
            o.state[k].port == bank[k].port)
      && (o.raised.None? ==> 2 * pair <= |ports|)
      && (2 * pair <= |ports| ==>
            && ServoName(pair, 'a') in o.state && o.state[ServoName(pair, 'a')].port == ports[2 * (pair - 1)]
            && ServoName(pair, 'b') in o.state && o.state[ServoName(pair, 'b')].port == ports[2 * (pair - 1) + 1])
  {
    var ia := (pair - 1) * 2;
    var ib := ia + 1;
    if ib < |ports| {
      var a, b := ServoName(pair, 'a'), ServoName(pair, 'b');
      var s0 := bank[a := Servo(ports[ia], StopDuty)][b := Servo(ports[ib], StopDuty)];
      ServoNameInjective(pair, 'a', pair, 'b');
      assert s0[a].port == ports[ia] && s0[b].port == ports[ib];
      ActuateSamePorts(s0, a, CloseDuty, irq);
      var ca := CloseValve(s0, a, irq);
      if ca.raised.None? {
        ActuateSamePorts(ca.state, b, CloseDuty, ca.irq);
        SamePortsTrans(s0, ca.state, CloseValve(ca.state, b, ca.irq).state);
      }
    }
  }

  /** Configuration of pairs `pair..n`, whatever Ctrl-C does: no servo is
      lost, and servos it does not configure keep their ports. */
  lemma {:induction false} ConfigurePairsKeepsPorts(bank: Bank, ports: seq<int>, pair: nat, n: nat, irq: Interrupt)
    requires pair >= 1
    ensures var o := ConfigurePairs(bank, ports, pair, n, irq);
      && (forall k :: k in bank ==> k in o.state)
      && (forall k :: k in bank && k !in ValveOrderFrom(pair, n) ==> o.state[k].port == bank[k].port)
    decreases n + 1 - pair
  {
    if pair <= n {
      var a, b := ServoName(pair, 'a'), ServoName(pair, 'b');
      var step := ConfigurePair(bank, ports, pair, irq);
      ConfigurePairPorts(bank, ports, pair, irq);
      if step.raised.None? {
        var rest := ConfigurePairs(step.state, ports, pair + 1, n, step.irq);
        ConfigurePairsKeepsPorts(step.state, ports, pair + 1, n, step.irq);
        assert ValveOrderFrom(pair, n) == [a, b] + ValveOrderFrom(pair + 1, n);
      }
    }
  }

  /** Configuration of pairs `pair..n` that completes, whatever Ctrl-C did
      before: every pair exists on its ports. */
  lemma {:induction false} ConfigurePairsCompletes(bank: Bank, ports: seq<int>, pair: nat, n: nat, irq: Interrupt)
    requires pair >= 1
    ensures var o := ConfigurePairs(bank, ports, pair, n, irq);
      o.raised.None? ==> PairsOn(o.state, ports, pair, n)
    decreases n + 1 - pair
  {
    if pair <= n {
      var a, b := ServoName(pair, 'a'), ServoName(pair, 'b');
      var step := ConfigurePair(bank, ports, pair, irq);
      ConfigurePairPorts(bank, ports, pair, irq);
      if step.raised.None? {
        var rest := ConfigurePairs(step.state, ports, pair + 1, n, step.irq);
        ConfigurePairsCompletes(step.state, ports, pair + 1, n, step.irq);
        ConfigurePairsKeepsPorts(step.state, ports, pair + 1, n, step.irq);
        if rest.raised.None? {
          ValveOrderFromMember(pair, 'a', pair + 1, n);
          ValveOrderFromMember(pair, 'b', pair + 1, n);
          PairsOnExtend(rest.state, ports, pair, n);
        }
      }
    }
  }

  /** `configure_servos(n)` that returns normally, whatever Ctrl-C did before
      it returned, leaves the bank `Configured`; and no servo is ever lost. */
  lemma ConfigureServosPorts(bank: Bank, ports: seq<int>, n: nat, irq: Interrupt)
    ensures var o := ConfigureServos(bank, ports, n, irq);
      && (forall k :: k in bank ==> k in o.state)
      && (o.raised.None? ==> Configured(o.state, ports, n))
  {
    ConfigurePairsKeepsPorts(bank, ports, 1, n, irq);
    ConfigurePairsCompletes(bank, ports, 1, n, irq);
  }

  /** Only duty commands and sleeps: what moving known servos issues. */
  predicate MovesOnly(trace: seq<Action>) {
    forall i :: 0 <= i < |trace| ==> trace[i].SetDuty? || trace[i].Sleep?
  }

  /** Only servo set-up, duty commands and sleeps: what configuring issues. */
  predicate ServoCommands(trace: seq<Action>) {
    forall i :: 0 <= i < |trace| ==> trace[i].SetBcmMode? || trace[i].StartPwm? || trace[i].SetDuty? || trace[i].Sleep?
  }

  /** Every servo in the bank is at duty 0: none is left energized. */
  predicate AllStopped(bank: Bank) {
    forall k :: k in bank ==> bank[k].duty == StopDuty
  }

  /** The bank after a completed actuation of `name`: the servo, when the
      bank holds it, at duty 0 on its port. */
  function Rest(bank: Bank, name: string): Bank {
    if name in bank then bank[name := Servo(bank[name].port, StopDuty)] else bank
  }

  /** Reference: the bank after completed actuations of `names`, in order. */
  function Rested(bank: Bank, names: seq<string>): Bank
    decreases |names|
  {
    if names == [] then bank else Rested(Rest(bank, names[0]), names[1..])
  }

  /** Completed actuations of `names` keep every servo on its port, leave
      each listed servo at duty 0 and every other one as it was; on a bank at
      rest they change nothing. */
  lemma {:induction false} RestedSpec(bank: Bank, names: seq<string>)
    ensures var s := Rested(bank, names);
      && SamePorts(bank, s)
      && (forall k :: k in bank && k in names ==> s[k] == Servo(bank[k].port, StopDuty))
      && (forall k :: k in bank && k !in names ==> s[k] == bank[k])
      && (AllStopped(bank) ==> s == bank)
    decreases |names|
  {
    if names != [] {
      var first := Rest(bank, names[0]);
      RestedSpec(first, names[1..]);
      assert forall k :: k in names <==> k == names[0] || k in names[1..];
    }
  }

  /** Two completed actuations in front of a list. */
  lemma RestedPair(bank: Bank, a: string, b: string, rest: seq<string>)
    ensures Rested(bank, [a, b] + rest) == Rested(Rest(Rest(bank, a), b), rest)
  {
    var names := [a, b] + rest;
    assert names[0] == a && names[1..] == [b] + rest;
    assert names[1..][0] == b && names[1..][1..] == rest;
  }

  /** Every servo of pairs `pair..n` is in a bank configured for `n` pairs. */
  lemma {:induction false} ValveOrderInBank(bank: Bank, ports: seq<int>, pair: nat, n: nat)
    requires pair >= 1 && PairsOn(bank, ports, 1, n)
    ensures forall k :: k in ValveOrderFrom(pair, n) ==> k in bank
    decreases n + 1 - pair
  {
    if pair <= n {
      ValveOrderInBank(bank, ports, pair + 1, n);
    }
  }

  /** An actuation, however Ctrl-C cuts it, issues only duty commands and
      sleeps, a prefix of the full protocol. */
  lemma ActuateMoves(bank: Bank, name: string, move: int, irq: Interrupt)
    ensures var o := Actuate(bank, name, move, irq);
      && MovesOnly(o.trace)
      && |o.trace| <= 4 && o.trace == ActuationTrace(name, move)[..|o.trace|]
  {
    var o := Actuate(bank, name, move, irq);
    if name in bank && !Quiet(irq, 2) {
      assert irq == AfterBlocks(0) || irq == AfterBlocks(1);
    }
  }

  /** A completed actuation under no Ctrl-C leaves no servo energized. */
  lemma ActuateStops(bank: Bank, name: string, move: int)
    requires AllStopped(bank)
    ensures AllStopped(Actuate(bank, name, move, Never).state)
  {
  }

  /** An actuation keeps every configured pair on its ports. */
  lemma ActuateKeepsPairs(bank: Bank, ports: seq<int>, from: nat, n: nat, name: string, move: int, irq: Interrupt)
    requires PairsOn(bank, ports, from, n)
    ensures PairsOn(Actuate(bank, name, move, irq).state, ports, from, n)
  {
    ActuateSamePorts(bank, name, move, irq);
    PairsOnSamePorts(bank, Actuate(bank, name, move, irq).state, ports, from, n);
  }

  lemma ServoCommandsAppend(t1: seq<Action>, t2: seq<Action>)
    requires ServoCommands(t1) && ServoCommands(t2)
    ensures ServoCommands(t1 + t2)
  {
    assert forall i :: |t1| <= i < |t1 + t2| ==> (t1 + t2)[i] == t2[i - |t1|];
  }

  lemma MovesOnlyAppend(t1: seq<Action>, t2: seq<Action>)
    requires MovesOnly(t1) && MovesOnly(t2)
    ensures MovesOnly(t1 + t2)
  {
    assert forall i :: |t1| <= i < |t1 + t2| ==> (t1 + t2)[i] == t2[i - |t1|];
  }

  lemma MovesAreServoCommands(trace: seq<Action>)
    requires MovesOnly(trace)
    ensures ServoCommands(trace)
  {
  }

  /** One pair issues only servo commands. */
  lemma ConfigurePairCommandsOnly(bank: Bank, ports: seq<int>, pair: nat, irq: Interrupt)
    requires pair >= 1
    ensures ServoCommands(ConfigurePair(bank, ports, pair, irq).trace)
  {
    var ia := (pair - 1) * 2;
    var ib := ia + 1;
    if ib < |ports| {
      var a, b := ServoName(pair, 'a'), ServoName(pair, 'b');
      var s0 := bank[a := Servo(ports[ia], StopDuty)][b := Servo(ports[ib], StopDuty)];
      var setup := [StartPwm(a, ports[ia], PwmFrequency, StopDuty), StartPwm(b, ports[ib], PwmFrequency, StopDuty)];
      var ca := CloseValve(s0, a, irq);
      ActuateMoves(s0, a, CloseDuty, irq);
      MovesAreServoCommands(ca.trace);
      ServoCommandsAppend(setup, ca.trace);
      if ca.raised.None? {
        var cb := CloseValve(ca.state, b, ca.irq);
        ActuateMoves(ca.state, b, CloseDuty, ca.irq);
        MovesAreServoCommands(cb.trace);
        ServoCommandsAppend(setup + ca.trace, cb.trace);
      }
    }
  }

  /** One pair raises nothing but IndexError at the first missing port or a
      Ctrl-C: never KeyError, because both servos it closes were just added. */
  lemma ConfigurePairRaises(bank: Bank, ports: seq<int>, pair: nat, irq: Interrupt)
    requires pair >= 1 && 2 * (pair - 1) <= |ports|
    ensures var o := ConfigurePair(bank, ports, pair, irq);
      o.raised.None? || o.raised == Some(KeyboardInterrupt) || o.raised == Some(IndexError(|ports|))
  {
    var ia := (pair - 1) * 2;
    var ib := ia + 1;
    if ib < |ports| {
      var a, b := ServoName(pair, 'a'), ServoName(pair, 'b');
      var s0 := bank[a := Servo(ports[ia], StopDuty)][b := Servo(ports[ib], StopDuty)];
      var ca := CloseValve(s0, a, irq);
      assert ca.raised.None? ==> b in ca.state;
    }
  }

  /** Configuration of pairs `pair..n`, whatever Ctrl-C does, issues only
      servo commands and raises nothing but IndexError at `len(ports)` or a
      Ctrl-C. */
  lemma {:induction false} ConfigurePairsRaises(bank: Bank, ports: seq<int>, pair: nat, n: nat, irq: Interrupt)
    requires pair >= 1 && 2 * (pair - 1) <= |ports|
    ensures var o := ConfigurePairs(bank, ports, pair, n, irq);
      && ServoCommands(o.trace)
      && (o.raised.None? || o.raised == Some(KeyboardInterrupt) || o.raised == Some(IndexError(|ports|)))
    decreases n + 1 - pair
  {
    if pair <= n {
      var step := ConfigurePair(bank, ports, pair, irq);
      ConfigurePairRaises(bank, ports, pair, irq);
      ConfigurePairCommandsOnly(bank, ports, pair, irq);
      if step.raised.None? {
        ConfigurePairPorts(bank, ports, pair, irq);
        var rest := ConfigurePairs(step.state, ports, pair + 1, n, step.irq);
        ConfigurePairsRaises(step.state, ports, pair + 1, n, step.irq);
        ServoCommandsAppend(step.trace, rest.trace);
      }
    }
  }

  /** `configure_servos(n)` under any Ctrl-C: only servo commands, and only
      IndexError at `len(ports)` or the Ctrl-C itself can escape. */
  lemma ConfigureServosRaises(bank: Bank, ports: seq<int>, n: nat, irq: Interrupt)
    ensures var o := ConfigureServos(bank, ports, n, irq);
      && ServoCommands(o.trace)
      && (o.raised.None? || o.raised == Some(KeyboardInterrupt) || o.raised == Some(IndexError(|ports|)))
  {
    ConfigurePairsRaises(bank, ports, 1, n, irq);
    ServoCommandsAppend([SetBcmMode], ConfigurePairs(bank, ports, 1, n, irq).trace);
  }

  /** The same servos on the same ports, whatever their duties. */
  predicate SamePorts(b1: Bank, b2: Bank) {
    b1.Keys == b2.Keys && forall k :: k in b1 ==> b2[k].port == b1[k].port
  }

  lemma SamePortsTrans(b1: Bank, b2: Bank, b3: Bank)
    requires SamePorts(b1, b2) && SamePorts(b2, b3)
    ensures SamePorts(b1, b3)
  {
  }

  lemma PairsOnSamePorts(b1: Bank, b2: Bank, ports: seq<int>, from: nat, n: nat)
    requires PairsOn(b1, ports, from, n) && SamePorts(b1, b2)
    ensures PairsOn(b2, ports, from, n)
  {
  }

  /** An actuation, however it ends, keeps the same servos on the same
      ports. */
  lemma ActuateSamePorts(bank: Bank, name: string, move: int, irq: Interrupt)
    ensures SamePorts(bank, Actuate(bank, name, move, irq).state)
  {
  }
}
