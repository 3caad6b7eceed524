/**
  The stand-alone servo script: a smaller, zero-indexed copy of the servo
  logic with its own constants. The servos of pair `p` (from 0) are named
  `"{p}A"` and `"{p}B"`, so the k-th servo configured is pair `k / 2`, leg A
  when k is even, and it sits on the k-th port. Configuration only starts
  the PWM signals at duty 0: the close that would follow is commented out.
  Every movement commands a move duty, waits a quarter second, commands
  duty 0 and waits a second and a half.

  The script's global `servos` dictionary is the same bank of named servos
  the controller keeps, and starts empty. The script has no exception
  handler, so a Ctrl-C simply ends it; the model has no interrupts.
*/
module ServoScript {
  import opened Actions
  import Controller
  import Decimal

  const Ports: seq<int> := [14, 15, 4, 23, 17, 27]
  const NumValves: nat := 3
  /** EXP_WAIT_TIME, INTRA_WAIT_TIME and INTER_WAIT_TIME, in seconds. */
  const ExpWait: nat := 1
  const IntraWait: nat := 10
  const InterWait: nat := 60

  /** Duty cycles in tenths of a percent: 9.5 and 2.0. */
  const OpenDuty: int := 95
  const CloseDuty: int := 20
  /** time.sleep(0.25) after the move, time.sleep(1.5) after the stop. */
  const MoveWait: nat := 250
  const StopWait: nat := 1500

  /** What a step of the script leaves: the bank, the actions issued and
      the exception that ended it, if any. */
  datatype Effect = Effect(bank: Controller.Bank, trace: seq<Action>, raised: Option<Exception>)

  // ---------------------------------------------------------------------
  // Names and the reference configuration

  /** The name of the k-th servo configured. */
  function Name(k: nat): string {
    Controller.ServoName(k / 2, if k % 2 == 0 then 'A' else 'B')
  }

  lemma NameInjective(j: nat, k: nat)
    ensures Name(j) == Name(k) <==> j == k
  {
    Controller.ServoNameInjective(j / 2, if j % 2 == 0 then 'A' else 'B', k / 2, if k % 2 == 0 then 'A' else 'B');
  }

  /** `"{p}A"` and `"{p}B"` are servos `2p` and `2p + 1`. */
  lemma PairNames(p: nat)
    ensures Controller.ServoName(p, 'A') == Name(2 * p)
    ensures Controller.ServoName(p, 'B') == Name(2 * p + 1)
  {
    assert (2 * p) / 2 == p && (2 * p + 1) / 2 == p;
  }

  /** The names of servos `lo..hi-1`, in configuration order. */
  function Names(lo: nat, hi: nat): (s: seq<string>)
    ensures |s| == (if lo <= hi then hi - lo else 0)
    decreases hi as int - lo as int
  {
    if lo >= hi then [] else [Name(lo)] + Names(lo + 1, hi)
  }

  /** The PWM starts for servos `lo..hi-1`, each on its own port at duty 0. */
  function StartTrace(ports: seq<int>, lo: nat, hi: nat): seq<Action>
    requires hi <= |ports|
    decreases hi as int - lo as int
  {
    if lo >= hi then []
    else [StartPwm(Name(lo), ports[lo], Controller.PwmFrequency, Controller.StopDuty)] + StartTrace(ports, lo + 1, hi)
  }

  /** Servos `lo..hi-1` are in the bank, on their ports, stopped. */
  predicate Installed(bank: Controller.Bank, ports: seq<int>, lo: nat, hi: nat)
    requires hi <= |ports|
  {
    forall k :: lo <= k < hi ==> Name(k) in bank && bank[Name(k)] == Controller.Servo(ports[k], Controller.StopDuty)
  }

  // ---------------------------------------------------------------------
  // configure_servos

  /** One pass of the inner loop: look the port up (IndexError past the
      end of the list), start its PWM at duty 0 and record the servo. */
  function StartServo(bank: Controller.Bank, ports: seq<int>, k: nat): Effect {
    if k >= |ports| then Effect(bank, [], Some(IndexError(k)))
    else
      Effect(bank[Name(k) := Controller.Servo(ports[k], Controller.StopDuty)],
             [StartPwm(Name(k), ports[k], Controller.PwmFrequency, Controller.StopDuty)], None)
  }

  /** The two nested loops, over pairs and then over legs, visit servos
      `k..m-1` in turn; servo `2p + i` is leg `i` of pair `p`. */
  function ConfigureFrom(bank: Controller.Bank, ports: seq<int>, k: nat, m: nat): Effect
    decreases m as int - k as int
  {
    if k >= m then Effect(bank, [], None)
    else
      var s := StartServo(bank, ports, k);
      if s.raised.Some? then s
      else
        var rest := ConfigureFrom(s.bank, ports, k + 1, m);
        Effect(rest.bank, s.trace + rest.trace, rest.raised)
  }

  /** `configure_servos(num_valves)` on the port list `ports`. */
  function Configure(bank: Controller.Bank, ports: seq<int>, n: nat): Effect {
    var e := ConfigureFrom(bank, ports, 0, 2 * n);
    Effect(e.bank, [SetBcmMode] + e.trace, e.raised)
  }

  /** Where the loop from servo `k` stops: at `m`, or at the end of the
      port list. */
  function Reach(ports: seq<int>, k: nat, m: nat): nat {
    if k >= m then k else if m <= |ports| then m else |ports|
  }

  /** The loop from servo `k` runs out of ports exactly when the list is
      shorter than `m`, and then at index `len(ports)`; it starts the
      servos it gets through, in order, and issues no other action. */
  lemma {:induction false} ConfigureFromTrace(bank: Controller.Bank, ports: seq<int>, k: nat, m: nat)
    requires k <= |ports|
    ensures var e := ConfigureFrom(bank, ports, k, m);
      && (e.raised.None? <==> k >= m || m <= |ports|)
      && (e.raised.Some? ==> e.raised == Some(IndexError(|ports|)))
      && e.trace == StartTrace(ports, k, Reach(ports, k, m))
      && e.bank == Started(bank, ports, k, Reach(ports, k, m))
    decreases m as int - k as int
  {
    if k < m && k < |ports| {
      var s := StartServo(bank, ports, k);
      ConfigureFromTrace(s.bank, ports, k + 1, m);
    }
  }

  /** No servo is named twice: servo `k` is not among those after it. */
  lemma {:induction false} NameNotLater(k: nat, lo: nat, hi: nat)
    requires k < lo
    ensures Name(k) !in Names(lo, hi)
    decreases hi as int - lo as int
  {
    if lo < hi {
      NameInjective(k, lo);
      NameNotLater(k, lo + 1, hi);
    }
  }

  /** The servos `lo..hi-1` installed into `bank`, in turn. */
  function Started(bank: Controller.Bank, ports: seq<int>, lo: nat, hi: nat): Controller.Bank
    requires hi <= |ports|
    decreases hi as int - lo as int
  {
    if lo >= hi then bank
    else Started(bank[Name(lo) := Controller.Servo(ports[lo], Controller.StopDuty)], ports, lo + 1, hi)
  }

  /** Installing servos `lo..hi-1` adds no other name and leaves every
      other servo alone. */
  lemma {:induction false} StartedKeeps(bank: Controller.Bank, ports: seq<int>, lo: nat, hi: nat)
    requires hi <= |ports|
    ensures var b := Started(bank, ports, lo, hi);
      && (forall key :: key in b <==> key in bank || key in Names(lo, hi))
      && (forall key :: key in bank && key !in Names(lo, hi) ==> b[key] == bank[key])
    decreases hi as int - lo as int
  {
    if lo < hi {
      var next := bank[Name(lo) := Controller.Servo(ports[lo], Controller.StopDuty)];
      StartedKeeps(next, ports, lo + 1, hi);
      assert Started(bank, ports, lo, hi) == Started(next, ports, lo + 1, hi);
      assert Names(lo, hi) == [Name(lo)] + Names(lo + 1, hi);
      forall key ensures key in Names(lo, hi) <==> key == Name(lo) || key in Names(lo + 1, hi) {
      }
    }
  }

  /** Installing servos `lo..hi-1` leaves each of them on its port at
      duty 0. */
  lemma {:induction false} StartedInstalls(bank: Controller.Bank, ports: seq<int>, lo: nat, hi: nat)
    requires hi <= |ports|
    ensures Installed(Started(bank, ports, lo, hi), ports, lo, hi)
    decreases hi as int - lo as int
  {
    if lo < hi {
      var next := bank[Name(lo) := Controller.Servo(ports[lo], Controller.StopDuty)];
      StartedInstalls(next, ports, lo + 1, hi);
      StartedKeeps(next, ports, lo + 1, hi);
      NameNotLater(lo, lo + 1, hi);
      assert Started(next, ports, lo + 1, hi)[Name(lo)] == next[Name(lo)];
    }
  }

  /** `configure_servos(n)` succeeds exactly when there are `2n` ports, and
      otherwise fails at index `len(ports)`. Servo k gets port k and is
      started at duty 0; no other servo is added. */
  lemma ConfigureSpec(bank: Controller.Bank, ports: seq<int>, n: nat)
    ensures var e := Configure(bank, ports, n);
      var reach := if 2 * n <= |ports| then 2 * n else |ports|;
      && (e.raised.None? <==> 2 * n <= |ports|)
      && (e.raised.Some? ==> e.raised == Some(IndexError(|ports|)))
      && e.trace == [SetBcmMode] + StartTrace(ports, 0, reach)
      && Installed(e.bank, ports, 0, reach)
      && (forall key :: key in e.bank <==> key in bank || key in Names(0, reach))
  {
    ConfigureFromTrace(bank, ports, 0, 2 * n);
    var reach := if 2 * n <= |ports| then 2 * n else |ports|;
    StartedInstalls(bank, ports, 0, reach);
    StartedKeeps(bank, ports, 0, reach);
  }

  /** Starting the PWM signals commands no duty. */
  lemma {:induction false} StartTraceCommands(ports: seq<int>, lo: nat, hi: nat, d: int)
    requires hi <= |ports|
    ensures Commanded(StartTrace(ports, lo, hi), d) == []
    decreases hi as int - lo as int
  {
    if lo < hi {
      var t := StartTrace(ports, lo, hi);
      assert t[1..] == StartTrace(ports, lo + 1, hi);
      StartTraceCommands(ports, lo + 1, hi, d);
    }
  }

  /** Configuration moves no servo: the close that would follow each start
      is commented out, so no duty is commanded at all. */
  lemma ConfigureMovesNothing(bank: Controller.Bank, ports: seq<int>, n: nat, d: int)
    ensures Commanded(Configure(bank, ports, n).trace, d) == []
  {
    ConfigureFromTrace(bank, ports, 0, 2 * n);
    var reach := if 2 * n <= |ports| then 2 * n else |ports|;
    var t := [SetBcmMode] + StartTrace(ports, 0, reach);
    assert t[1..] == StartTrace(ports, 0, reach);
    StartTraceCommands(ports, 0, reach, d);
  }

  // ---------------------------------------------------------------------
  // set_valve, open_valve and close_valve

  /** The actions of one movement of servo `name`. */
  function MoveTrace(name: string, move: int): seq<Action> {
    [SetDuty(name, move), Sleep(MoveWait), SetDuty(name, Controller.StopDuty), Sleep(StopWait)]
  }

  /** `set_valve(name, moveVal, stopVal)`: KeyError on an unknown servo;
      otherwise the servo moves and is stopped, whatever `stop` says. */
  function SetValve(bank: Controller.Bank, name: string, move: int, stop: int): Effect {
    if name !in bank then Effect(bank, [], Some(KeyError(name)))
    else Effect(bank[name := Controller.Servo(bank[name].port, Controller.StopDuty)], MoveTrace(name, move), None)
  }

  /** `set_valve` fails only on an unknown servo, and then before any
      command; otherwise it leaves that servo on its port at duty 0 and
      every other servo as it was. */
  lemma SetValveSpec(bank: Controller.Bank, name: string, move: int, stop: int)
    ensures var e := SetValve(bank, name, move, stop);
      && (e.raised.None? <==> name in bank)
      && (e.raised.Some? ==> e == Effect(bank, [], Some(KeyError(name))))
      && e.bank.Keys == bank.Keys
      && (name in bank ==> e.bank[name] == Controller.Servo(bank[name].port, Controller.StopDuty))
      && (forall k :: k in bank && k != name ==> e.bank[k] == bank[k])
  {
  }

  /** The bank `set_valve` leaves is the one its commands replay to, and
      the `stop` argument changes nothing. */
  lemma SetValveReplay(bank: Controller.Bank, name: string, move: int, stop: int, other: int)
    ensures SetValve(bank, name, move, stop).bank == Controller.Replay(bank, SetValve(bank, name, move, stop).trace)
    ensures SetValve(bank, name, move, stop) == SetValve(bank, name, move, other)
  {
    if name in bank {
      var t := MoveTrace(name, move);
      var port := bank[name].port;
      var moving := bank[name := Controller.Servo(port, move)];
      var stopped := bank[name := Controller.Servo(port, Controller.StopDuty)];
      assert t[1..] == [t[1], t[2], t[3]] && t[2..] == [t[2], t[3]] && t[3..] == [t[3]];
      assert Controller.Apply(bank, t[0]) == moving;
      assert Controller.Apply(moving, t[2]) == stopped;
      calc {
        Controller.Replay(bank, t);
        Controller.Replay(moving, t[1..]);
        Controller.Replay(moving, t[2..]);
        Controller.Replay(stopped, t[3..]);
        { Controller.ReplaySingle(stopped, t[3]); }
        stopped;
      }
    }
  }

  /** One movement commands its move duty and then the stop duty. */
  lemma MoveCommands(name: string, move: int, d: int)
    requires move != Controller.StopDuty
    ensures Commanded(MoveTrace(name, move), d) == if d == move || d == Controller.StopDuty then [name] else []
  {
    var t := MoveTrace(name, move);
    assert t[3..][1..] == [];
    assert Commanded(t[3..], d) == [];
    assert t[2..][1..] == t[3..];
    assert Commanded(t[2..], d) == if d == Controller.StopDuty then [name] else [];
    assert t[1..][1..] == t[2..];
  }

  /** `open_valve` as the script has it: its first statement names `os`,
      which the script never imports, so every call raises NameError
      before anything else happens. */
  function OpenValveAsWritten(bank: Controller.Bank, name: string): Effect {
    Effect(bank, [], Some(NameError("os")))
  }

  /** `open_valve` as evidently intended: after logging the time, the
      movement `set_valve(name, 9.5, 0.0)`. */
  function OpenValve(bank: Controller.Bank, name: string): Effect {
    SetValve(bank, name, OpenDuty, Controller.StopDuty)
  }

  /** `close_valve`: the movement `set_valve(name, 2.0, 0.0)`. */
  function CloseValve(bank: Controller.Bank, name: string): Effect {
    SetValve(bank, name, CloseDuty, Controller.StopDuty)
  }

  /** On a configured servo, the script's `open_valve` fails and moves
      nothing, where the intended one commands the servo open and back to
      rest. */
  lemma OpenValveFails(bank: Controller.Bank, name: string)
    requires name in bank
    ensures OpenValveAsWritten(bank, name).raised == Some(NameError("os"))
    ensures forall d :: Commanded(OpenValveAsWritten(bank, name).trace, d) == []
    ensures OpenValve(bank, name).raised.None?
    ensures Commanded(OpenValve(bank, name).trace, OpenDuty) == [name]
    ensures OpenValve(bank, name).bank[name].duty == Controller.StopDuty
  {
    MoveCommands(name, OpenDuty, OpenDuty);
  }

  /** Opening and closing command their own move duty, and each ends with
      the servo commanded to rest. */
  lemma ValveCommands(bank: Controller.Bank, name: string)
    requires name in bank
    ensures Commanded(OpenValve(bank, name).trace, OpenDuty) == [name]
    ensures Commanded(OpenValve(bank, name).trace, CloseDuty) == []
    ensures Commanded(CloseValve(bank, name).trace, CloseDuty) == [name]
    ensures Commanded(CloseValve(bank, name).trace, OpenDuty) == []
    ensures Commanded(OpenValve(bank, name).trace, Controller.StopDuty) == [name]
    ensures Commanded(CloseValve(bank, name).trace, Controller.StopDuty) == [name]
  {
    MoveCommands(name, OpenDuty, OpenDuty);
    MoveCommands(name, OpenDuty, CloseDuty);
    MoveCommands(name, OpenDuty, Controller.StopDuty);
    MoveCommands(name, CloseDuty, CloseDuty);
    MoveCommands(name, CloseDuty, OpenDuty);
    MoveCommands(name, CloseDuty, Controller.StopDuty);
  }

  // ---------------------------------------------------------------------
  // The main sequence

  /** Which `open_valve` the main sequence calls. */
  datatype Opener = AsWritten | Intended

  function Open(opener: Opener, bank: Controller.Bank, name: string): Effect {
    match opener
    case AsWritten => OpenValveAsWritten(bank, name)
    case Intended => OpenValve(bank, name)
  }

  /** The loop of the main sequence over pairs `pair..n-1`. */
  function OpenPairs(opener: Opener, bank: Controller.Bank, pair: nat, n: nat, intra: nat, inter: nat): Effect
    decreases n as int - pair as int, 1
  {
    if pair >= n then Effect(bank, [], None) else OpenPairAndRest(opener, bank, pair, n, intra, inter)
  }

  /** One iteration: open `"{p}A"`, sleep `intra` seconds, open `"{p}B"`,
      sleep `inter` seconds; then the rest of the loop. */
  function OpenPairAndRest(opener: Opener, bank: Controller.Bank, pair: nat, n: nat, intra: nat, inter: nat): Effect
    requires pair < n
    decreases n as int - pair as int, 0
  {
    var a := Open(opener, bank, Controller.ServoName(pair, 'A'));
    if a.raised.Some? then a
    else
      var b := Open(opener, a.bank, Controller.ServoName(pair, 'B'));
      if b.raised.Some? then Effect(b.bank, a.trace + [Sleep(Millis(intra))] + b.trace, b.raised)
      else
        var rest := OpenPairs(opener, b.bank, pair + 1, n, intra, inter);
        Effect(rest.bank, a.trace + [Sleep(Millis(intra))] + b.trace + [Sleep(Millis(inter))] + rest.trace, rest.raised)
  }

  /** The main sequence with its constants as parameters: configure,
      sleep `expWait` seconds, then open the pairs in turn. */
  function Run(opener: Opener, bank: Controller.Bank, ports: seq<int>, n: nat, expWait: nat, intra: nat, inter: nat): Effect {
    var c := Configure(bank, ports, n);
    if c.raised.Some? then c
    else
      var o := OpenPairs(opener, c.bank, 0, n, intra, inter);
      Effect(o.bank, c.trace + [Sleep(Millis(expWait))] + o.trace, o.raised)
  }

  /** The script's `__main__` block, from an empty `servos` dictionary. */
  function Main(opener: Opener): Effect {
    Run(opener, map[], Ports, NumValves, ExpWait, IntraWait, InterWait)
  }

  /** One leg of the schedule: open the servo, then sleep `d` milliseconds. */
  function Leg(name: string, d: nat): seq<Action> {
    MoveTrace(name, OpenDuty) + [Sleep(d)]
  }

  /** The reference schedule: the names opened in turn, each followed by
      a sleep, the sleeps alternating `first` and `second` milliseconds. */
  function Schedule(names: seq<string>, first: nat, second: nat): (t: seq<Action>)
    ensures |t| == 5 * |names|
    decreases |names|
  {
    if names == [] then [] else Leg(names[0], first) + Schedule(names[1..], second, first)
  }

  /** Two legs in front of a schedule. */
  lemma SchedulePair(a: string, b: string, rest: seq<string>, first: nat, second: nat)
    ensures Schedule([a, b] + rest, first, second) == Leg(a, first) + (Leg(b, second) + Schedule(rest, first, second))
  {
    var names := [a, b] + rest;
    assert names[0] == a && names[1..] == [b] + rest;
    assert names[1..][0] == b && names[1..][1..] == rest;
  }

  /** One iteration on two servos at rest opens both, leaves them at
      rest and goes on with the same bank. */
  lemma OpenPairQuiet(bank: Controller.Bank, pair: nat, n: nat, intra: nat, inter: nat)
    requires pair < n
    requires Name(2 * pair) in bank && bank[Name(2 * pair)].duty == Controller.StopDuty
    requires Name(2 * pair + 1) in bank && bank[Name(2 * pair + 1)].duty == Controller.StopDuty
    ensures var rest := OpenPairs(Intended, bank, pair + 1, n, intra, inter);
      OpenPairAndRest(Intended, bank, pair, n, intra, inter)
      == Effect(rest.bank, Leg(Name(2 * pair), Millis(intra)) + (Leg(Name(2 * pair + 1), Millis(inter)) + rest.trace), rest.raised)
  {
    PairNames(pair);
    var na, nb := Name(2 * pair), Name(2 * pair + 1);
    assert bank[na := Controller.Servo(bank[na].port, Controller.StopDuty)] == bank;
    assert bank[nb := Controller.Servo(bank[nb].port, Controller.StopDuty)] == bank;
    var rest := OpenPairs(Intended, bank, pair + 1, n, intra, inter);
    assert MoveTrace(na, OpenDuty) + [Sleep(Millis(intra))] + MoveTrace(nb, OpenDuty) + [Sleep(Millis(inter))] + rest.trace
        == Leg(na, Millis(intra)) + (Leg(nb, Millis(inter)) + rest.trace);
  }

  /** The names of pairs `pair..n-1` start with the two of `pair`. */
  lemma NamesPair(pair: nat, n: nat)
    requires pair < n
    ensures Names(2 * pair, 2 * n) == [Name(2 * pair), Name(2 * pair + 1)] + Names(2 * pair + 2, 2 * n)
  {
    assert Names(2 * pair, 2 * n) == [Name(2 * pair)] + Names(2 * pair + 1, 2 * n);
  }

  /** Servos `lo..hi-1` are all in the bank and at duty 0. */
  predicate AtRest(bank: Controller.Bank, lo: nat, hi: nat)
    decreases hi as int - lo as int
  {
    lo >= hi || (Name(lo) in bank && bank[Name(lo)].duty == Controller.StopDuty && AtRest(bank, lo + 1, hi))
  }

  /** Installed servos are at rest. */
  lemma {:induction false} InstalledAtRest(bank: Controller.Bank, ports: seq<int>, lo: nat, hi: nat)
    requires hi <= |ports| && Installed(bank, ports, lo, hi)
    ensures AtRest(bank, lo, hi)
    decreases hi as int - lo as int
  {
    if lo < hi {
      InstalledAtRest(bank, ports, lo + 1, hi);
    }
  }

  /** An iteration in front of a loop that follows the schedule follows
      the schedule. */
  lemma ScheduleGlue(x: Effect, rest: Effect, bank: Controller.Bank, a: string, b: string,
                     later: seq<string>, first: nat, second: nat)
    requires x == Effect(rest.bank, Leg(a, first) + (Leg(b, second) + rest.trace), rest.raised)
    requires rest == Effect(bank, Schedule(later, first, second), None)
    ensures x == Effect(bank, Schedule([a, b] + later, first, second), None)
  {
    SchedulePair(a, b, later, first, second);
  }

  /** With every servo of pairs `pair..n-1` present and at rest, the loop
      issues the reference schedule of their names, raises nothing and
      leaves the bank as it found it. */
  lemma {:induction false} OpenPairsSchedule(bank: Controller.Bank, pair: nat, n: nat, intra: nat, inter: nat)
    requires AtRest(bank, 2 * pair, 2 * n)
    ensures OpenPairs(Intended, bank, pair, n, intra, inter)
            == Effect(bank, Schedule(Names(2 * pair, 2 * n), Millis(intra), Millis(inter)), None)
    decreases n as int - pair as int
  {
    if pair < n {
      assert AtRest(bank, 2 * pair + 1, 2 * n);
      OpenPairsSchedule(bank, pair + 1, n, intra, inter);
      OpenPairQuiet(bank, pair, n, intra, inter);
      NamesPair(pair, n);
      ScheduleGlue(OpenPairAndRest(Intended, bank, pair, n, intra, inter), OpenPairs(Intended, bank, pair + 1, n, intra, inter),
                   bank, Name(2 * pair), Name(2 * pair + 1), Names(2 * pair + 2, 2 * n), Millis(intra), Millis(inter));
    } else {
      assert Names(2 * pair, 2 * n) == [];
    }
  }

  /** One leg of the schedule opens and stops its servo, and closes none. */
  lemma LegCommands(name: string, d: nat, duty: int)
    ensures Commanded(Leg(name, d), duty)
            == if duty == OpenDuty || duty == Controller.StopDuty then [name] else []
  {
    MoveCommands(name, OpenDuty, duty);
    CommandedSingle(Sleep(d), duty);
    CommandedAppend(MoveTrace(name, OpenDuty), [Sleep(d)], duty);
  }

  /** The schedule opens every name once, in order, stops every one of them
      once, and closes none. */
  lemma {:induction false} ScheduleCommands(names: seq<string>, first: nat, second: nat, duty: int)
    ensures Commanded(Schedule(names, first, second), duty)
            == if duty == OpenDuty || duty == Controller.StopDuty then names else []
    decreases |names|
  {
    if names != [] {
      var head := Leg(names[0], first);
      ScheduleCommands(names[1..], second, first, duty);
      LegCommands(names[0], first, duty);
      CommandedAppend(head, Schedule(names[1..], second, first), duty);
      assert [names[0]] + names[1..] == names;
    }
  }

  /** One leg sleeps three times. */
  lemma LegSleeps(name: string, d: nat)
    ensures SleepCount(Leg(name, d)) == 3
  {
    var t := Leg(name, d);
    assert t[4..][1..] == [];
    assert SleepCount(t[4..]) == 1;
    assert t[3..][1..] == t[4..];
    assert t[2..][1..] == t[3..];
    assert SleepCount(t[2..]) == 2;
    assert t[1..][1..] == t[2..];
  }

  /** The schedule sleeps three times per name. */
  lemma {:induction false} ScheduleSleeps(names: seq<string>, first: nat, second: nat)
    ensures SleepCount(Schedule(names, first, second)) == 3 * |names|
    decreases |names|
  {
    if names != [] {
      ScheduleSleeps(names[1..], second, first);
      LegSleeps(names[0], first);
      SleepCountAppend(Leg(names[0], first), Schedule(names[1..], second, first));
    }
  }

  /** The intended main sequence with enough ports: it configures, sleeps,
      follows the reference schedule, raises nothing, and leaves every
      servo installed on its port and at rest. */
  lemma RunIntended(bank: Controller.Bank, ports: seq<int>, n: nat, expWait: nat, intra: nat, inter: nat)
    requires 2 * n <= |ports|
    ensures var e := Run(Intended, bank, ports, n, expWait, intra, inter);
      && e.raised.None?
      && e.trace == [SetBcmMode] + StartTrace(ports, 0, 2 * n) + [Sleep(Millis(expWait))]
                   + Schedule(Names(0, 2 * n), Millis(intra), Millis(inter))
      && Installed(e.bank, ports, 0, 2 * n)
      && (forall key :: key in e.bank <==> key in bank || key in Names(0, 2 * n))
      && e.bank == Configure(bank, ports, n).bank
  {
    ConfigureSpec(bank, ports, n);
    InstalledAtRest(Configure(bank, ports, n).bank, ports, 0, 2 * n);
    OpenPairsSchedule(Configure(bank, ports, n).bank, 0, n, intra, inter);
  }

  /** As written, with enough ports and at least one pair, the main sequence
      configures, sleeps and then stops with NameError before any servo
      moves. */
  lemma RunAsWritten(bank: Controller.Bank, ports: seq<int>, n: nat, expWait: nat, intra: nat, inter: nat, d: int)
    requires 1 <= n && 2 * n <= |ports|
    ensures var e := Run(AsWritten, bank, ports, n, expWait, intra, inter);
      && e.raised == Some(NameError("os"))
      && e.trace == Configure(bank, ports, n).trace + [Sleep(Millis(expWait))]
      && Commanded(e.trace, d) == []
  {
    ConfigureSpec(bank, ports, n);
    var c := Configure(bank, ports, n);
    assert OpenPairs(AsWritten, c.bank, 0, n, intra, inter) == OpenPairAndRest(AsWritten, c.bank, 0, n, intra, inter);
    ConfigureMovesNothing(bank, ports, n, d);
    CommandedAppend(Configure(bank, ports, n).trace, [Sleep(Millis(expWait))], d);
    CommandedSingle(Sleep(Millis(expWait)), d);
  }

  /** The first servo names, as the script formats them. */
  lemma FirstNames()
    ensures Names(0, 6) == ["0A", "0B", "1A", "1B", "2A", "2B"]
  {
    assert Decimal.Show(0) == "0" && Decimal.Show(1) == "1" && Decimal.Show(2) == "2";
    assert Name(0) == "0A" && Name(1) == "0B";
    assert Name(2) == "1A" && Name(3) == "1B";
    assert Name(4) == "2A" && Name(5) == "2B";
    assert Names(6, 6) == [];
    assert Names(4, 6) == [Name(4)] + Names(5, 6) == ["2A", "2B"];
    assert Names(2, 6) == [Name(2)] + Names(3, 6) == ["1A", "1B", "2A", "2B"];
    assert Names(0, 6) == [Name(0)] + Names(1, 6);
  }

  /** The script itself: as written it opens nothing; as intended it opens
      `0A, 0B, 1A, 1B, 2A, 2B` in that order and closes none. */
  lemma MainOpens()
    ensures Main(AsWritten).raised == Some(NameError("os"))
    ensures Commanded(Main(AsWritten).trace, OpenDuty) == []
    ensures Main(Intended).raised.None?
    ensures Commanded(Main(Intended).trace, OpenDuty) == ["0A", "0B", "1A", "1B", "2A", "2B"]
    ensures Commanded(Main(Intended).trace, CloseDuty) == []
  {
    RunAsWritten(map[], Ports, NumValves, ExpWait, IntraWait, InterWait, OpenDuty);
    RunIntended(map[], Ports, NumValves, ExpWait, IntraWait, InterWait);
    FirstNames();
    var names := Names(0, 6);
    var schedule := Schedule(names, Millis(IntraWait), Millis(InterWait));
    var head := Configure(map[], Ports, NumValves).trace + [Sleep(Millis(ExpWait))];
    assert Main(Intended).trace == head + schedule;
    RunAsWritten(map[], Ports, NumValves, ExpWait, IntraWait, InterWait, CloseDuty);
    ScheduleCommands(names, Millis(IntraWait), Millis(InterWait), OpenDuty);
    ScheduleCommands(names, Millis(IntraWait), Millis(InterWait), CloseDuty);
    CommandedAppend(head, schedule, OpenDuty);
    CommandedAppend(head, schedule, CloseDuty);
  }
}
