/**
  The sensor thread of the `Payload` controller (`log_sense`): one binding
  pass over the multiplexer channels, then poll sweeps until the `active`
  flag is found cleared.

  The bme680 driver is a parameter. `probe(c, addr)` says how constructing a
  sensor at `addr` on channel `c` ends: it finds one, it fails with
  RuntimeError or IOError (the errors the inner handler catches), or it fails
  some other way. `tune(c)` says whether the oversampling and filter settings
  succeed. `sample(k, c, q)` is what reading quantity `q` on channel `c`
  yields in sweep `k`; `None` stands for any exception the read raises.
  Readings are opaque stand-ins for the driver's floating-point values.

  The flag is written by another thread; the model fixes instead how many
  times the sweep loop finds it set. Because it is only read before a sweep
  starts, every started sweep completes.
*/
module Sensors {
  import opened Actions
  import Multiplexer

  /** bme680.I2C_ADDR_PRIMARY and bme680.I2C_ADDR_SECONDARY of the driver. */
  const PrimaryAddress: nat := 0x76
  const SecondaryAddress: nat := 0x77

  /** secure_sleep(0.1) between selecting a channel and reading it. */
  const ChannelSettle: nat := 100

  /** An entry of the `sensors` list: a driver handle at an address, or the
      "No sensor connected" placeholder. */
  datatype Binding = Bound(address: nat) | Placeholder

  datatype ProbeOutcome = Detected | BusFault | OtherFault

  datatype Reading = Reading(raw: int)

  datatype Quantity = Humidity | Temperature

  /** The two values one sweep logs for one channel. */
  datatype Record = Record(channel: nat, humidity: Option<Reading>, temperature: Option<Reading>)

  /** A step of the sensor thread: its result, the actions issued, and the
      exception that ended the thread, if any. */
  datatype Progress<T> = Progress(value: T, trace: seq<Action>, raised: Option<Exception>)

  // ---------------------------------------------------------------------
  // Channel selection discipline

  /** Actions addressed to whatever sensor the multiplexer currently routes to. */
  predicate Addressed(a: Action) {
    a.Probe? || a.TuneSensor? || a.ReadSensor?
  }

  function AddressedChannel(a: Action): nat
    requires Addressed(a)
  {
    match a
    case Probe(c, _) => c
    case TuneSensor(c) => c
    case ReadSensor(c) => c
  }

  /** Every sensor access in `trace` happens while the multiplexer selects
      that sensor's channel, given that `mask` is selected at the start. */
  predicate OnSelectedChannel(trace: seq<Action>, mask: Option<nat>)
    decreases |trace|
  {
    if trace == [] then true
    else if trace[0].MuxWrite? then OnSelectedChannel(trace[1..], Some(trace[0].mask))
    else if Addressed(trace[0]) then
      mask == Some(Multiplexer.Pow2(AddressedChannel(trace[0]))) && OnSelectedChannel(trace[1..], mask)
    else OnSelectedChannel(trace[1..], mask)
  }

  /** The mask selected after `trace`. */
  function SelectionAfter(trace: seq<Action>, mask: Option<nat>): Option<nat>
    decreases |trace|
  {
    if trace == [] then mask
    else SelectionAfter(trace[1..], if trace[0].MuxWrite? then Some(trace[0].mask) else mask)
  }

  /** No sensor is accessed before the first multiplexer write. */
  predicate SelectsFirst(trace: seq<Action>)
    decreases |trace|
  {
    trace == [] || trace[0].MuxWrite? || (!Addressed(trace[0]) && SelectsFirst(trace[1..]))
  }

  /** A trace that selects before it accesses a sensor keeps the selection
      discipline whatever was selected before it. */
  lemma {:induction false} SelectionIrrelevant(trace: seq<Action>, m1: Option<nat>, m2: Option<nat>)
    requires SelectsFirst(trace)
    ensures OnSelectedChannel(trace, m1) <==> OnSelectedChannel(trace, m2)
    decreases |trace|
  {
    if trace != [] && !trace[0].MuxWrite? {
      SelectionIrrelevant(trace[1..], m1, m2);
    }
  }

  lemma {:induction false} OnSelectedChannelAppend(t1: seq<Action>, t2: seq<Action>, mask: Option<nat>)
    ensures OnSelectedChannel(t1 + t2, mask)
            <==> OnSelectedChannel(t1, mask) && OnSelectedChannel(t2, SelectionAfter(t1, mask))
    decreases |t1|
  {
    if t1 == [] {
      assert t1 + t2 == t2;
    } else {
      assert (t1 + t2)[1..] == t1[1..] + t2;
      var next := if t1[0].MuxWrite? then Some(t1[0].mask) else mask;
      OnSelectedChannelAppend(t1[1..], t2, next);
    }
  }

  lemma {:induction false} SelectsFirstAppend(t1: seq<Action>, t2: seq<Action>)
    requires SelectsFirst(t1) && SelectsFirst(t2)
    ensures SelectsFirst(t1 + t2)
    decreases |t1|
  {
    if t1 == [] {
      assert t1 + t2 == t2;
    } else if !t1[0].MuxWrite? {
      assert (t1 + t2)[1..] == t1[1..] + t2;
      SelectsFirstAppend(t1[1..], t2);
    }
  }

  /** A step that selects channel `c` and then only touches that channel,
      followed by a trace that selects channels `c+1..count-1` in order with
      the discipline kept, selects channels `c..count-1` in order with the
      discipline kept. */
  lemma SelectionGlue(t: seq<Action>, rest: seq<Action>, c: nat, count: nat)
    requires |t| >= 1 && t[0].MuxWrite? && MuxMasks(t) == [Multiplexer.Pow2(c)] && OnSelectedChannel(t, None)
    requires MuxMasks(rest) == AscendingMasks(c + 1, count) && OnSelectedChannel(rest, None) && SelectsFirst(rest)
    requires c < count
    ensures MuxMasks(t + rest) == AscendingMasks(c, count)
    ensures OnSelectedChannel(t + rest, None)
    ensures SelectsFirst(t + rest)
  {
    MuxMasksAppend(t, rest);
    OnSelectedChannelAppend(t, rest, None);
    SelectionIrrelevant(rest, None, SelectionAfter(t, None));
    assert (t + rest)[0] == t[0];
  }

  /** The masks written to the multiplexer, in order. */
  function MuxMasks(trace: seq<Action>): seq<nat> {
    if trace == [] then []
    else (if trace[0].MuxWrite? then [trace[0].mask] else []) + MuxMasks(trace[1..])
  }

  lemma {:induction false} MuxMasksAppend(t1: seq<Action>, t2: seq<Action>)
    ensures MuxMasks(t1 + t2) == MuxMasks(t1) + MuxMasks(t2)
  {
    if t1 == [] {
      assert t1 + t2 == t2;
    } else {
      var head := if t1[0].MuxWrite? then [t1[0].mask] else [];
      assert (t1 + t2)[0] == t1[0];
      assert (t1 + t2)[1..] == t1[1..] + t2;
      MuxMasksAppend(t1[1..], t2);
      assert MuxMasks(t1 + t2) == head + (MuxMasks(t1[1..]) + MuxMasks(t2));
      assert MuxMasks(t1) == head + MuxMasks(t1[1..]);
    }
  }

  /** The masks selecting channels `from..to-1`, in ascending order. */
  function AscendingMasks(from: nat, to: nat): seq<nat>
    decreases if from <= to then to - from else 0
  {
    if from >= to then [] else [Multiplexer.Pow2(from)] + AscendingMasks(from + 1, to)
  }

  /** One mask per channel, the `i`-th selecting channel `from + i`. */
  lemma {:induction false} AscendingMasksShape(from: nat, to: nat)
    ensures from <= to ==> |AscendingMasks(from, to)| == to - from
    ensures forall i :: 0 <= i < |AscendingMasks(from, to)| ==> AscendingMasks(from, to)[i] == Multiplexer.Pow2(from + i)
    decreases if from <= to then to - from else 0
  {
    if from < to {
      AscendingMasksShape(from + 1, to);
    }
  }

  function Min(a: nat, b: nat): nat {
    if a <= b then a else b
  }

  // ---------------------------------------------------------------------
  // Binding pass

  /** Whether binding channel `c` yields `b`: the primary address wins when a
      sensor answers there and can be tuned; the secondary address is used
      only after the primary failed with RuntimeError or IOError; anything
      else leaves the placeholder. */
  ghost predicate BindsAs(b: Binding, c: nat, probe: (nat, nat) -> ProbeOutcome, tune: nat -> bool) {
    && (b == Bound(PrimaryAddress) <==> probe(c, PrimaryAddress) == Detected && tune(c))
    && (b == Bound(SecondaryAddress) <==>
          probe(c, PrimaryAddress) == BusFault && probe(c, SecondaryAddress) == Detected && tune(c))
    && (b.Bound? ==> b.address == PrimaryAddress || b.address == SecondaryAddress)
  }

  /** The nested try blocks for one sensor: the driver handle, or nothing,
      with the probes made. */
  function Construct(c: nat, probe: (nat, nat) -> ProbeOutcome): (Option<nat>, seq<Action>) {
    match probe(c, PrimaryAddress)
    case Detected => (Some(PrimaryAddress), [Probe(c, PrimaryAddress)])
    case BusFault =>
      if probe(c, SecondaryAddress) == Detected
      then (Some(SecondaryAddress), [Probe(c, PrimaryAddress), Probe(c, SecondaryAddress)])
      else (None, [Probe(c, PrimaryAddress), Probe(c, SecondaryAddress)])
    case OtherFault => (None, [Probe(c, PrimaryAddress)])
  }

  /** One iteration of the binding loop for a channel the multiplexer has:
      select it, construct, tune, and append the handle or the placeholder. */
  function BindChannel(c: nat, probe: (nat, nat) -> ProbeOutcome, tune: nat -> bool): (Binding, seq<Action>) {
    var select := MuxWrite(Multiplexer.Address, Multiplexer.Pow2(c));
    var (handle, probes) := Construct(c, probe);
    match handle
    case None => (Placeholder, [select] + probes)
    case Some(addr) => (if tune(c) then Bound(addr) else Placeholder, [select] + probes + [TuneSensor(c)])
  }

  /** Binding a channel selects it first and then probes the primary address;
      the secondary address is probed only after a RuntimeError or IOError
      there; the result is what `BindsAs` says; every access is on the
      selected channel. */
  lemma BindChannelSpec(c: nat, probe: (nat, nat) -> ProbeOutcome, tune: nat -> bool)
    ensures BindsAs(BindChannel(c, probe, tune).0, c, probe, tune)
    ensures var t := BindChannel(c, probe, tune).1;
      |t| >= 2 && t[0] == MuxWrite(Multiplexer.Address, Multiplexer.Pow2(c)) && t[1] == Probe(c, PrimaryAddress)
    ensures Probe(c, SecondaryAddress) in BindChannel(c, probe, tune).1 <==> probe(c, PrimaryAddress) == BusFault
    ensures MuxMasks(BindChannel(c, probe, tune).1) == [Multiplexer.Pow2(c)]
    ensures OnSelectedChannel(BindChannel(c, probe, tune).1, None)
  {
    var r := BindChannel(c, probe, tune);
    assert r.1[1..][1..] == r.1[2..];
    assert MuxMasks(r.1[1..]) == [] by {
      assert forall j :: 1 <= j < |r.1| ==> !r.1[j].MuxWrite?;
      NoMuxWrites(r.1[1..]);
    }
    assert OnSelectedChannel(r.1[1..], Some(Multiplexer.Pow2(c))) by {
      assert forall j :: 1 <= j < |r.1| ==> (r.1[j].Probe? && r.1[j].channel == c) || r.1[j] == TuneSensor(c);
      AllOnChannel(r.1[1..], c);
    }
  }

  lemma {:induction false} NoMuxWrites(trace: seq<Action>)
    requires forall j :: 0 <= j < |trace| ==> !trace[j].MuxWrite?
    ensures MuxMasks(trace) == []
  {
    if trace != [] {
      NoMuxWrites(trace[1..]);
    }
  }

  lemma {:induction false} AllOnChannel(trace: seq<Action>, c: nat)
    requires forall j :: 0 <= j < |trace| ==> !trace[j].MuxWrite? && (!Addressed(trace[j]) || AddressedChannel(trace[j]) == c)
    ensures OnSelectedChannel(trace, Some(Multiplexer.Pow2(c)))
  {
    if trace != [] {
      AllOnChannel(trace[1..], c);
    }
  }

  /** The binding loop from channel `device` on, appending to `sensors`. A
      channel the multiplexer table lacks raises IndexError outside the try
      blocks, which ends the sensor thread. */
  function BindFrom(sensors: seq<Binding>, device: nat, count: nat,
                    probe: (nat, nat) -> ProbeOutcome, tune: nat -> bool): (o: Progress<seq<Binding>>)
    decreases count - device
  {
    if device >= count then Progress(sensors, [], None)
    else match Multiplexer.Select(device)
      case Err(e) => Progress(sensors, [], Some(e))
      case Ok(_) =>
        var (b, t) := BindChannel(device, probe, tune);
        var rest := BindFrom(sensors + [b], device + 1, count, probe, tune);
        Progress(rest.value, t + rest.trace, rest.raised)
  }

  /** The binding pass of `log_sense` on a fresh sensor list. */
  function BindPass(count: nat, probe: (nat, nat) -> ProbeOutcome, tune: nat -> bool): Progress<seq<Binding>> {
    BindFrom([], 0, count, probe, tune)
  }

  lemma {:induction false} BindFromShape(sensors: seq<Binding>, device: nat, count: nat,
                                         probe: (nat, nat) -> ProbeOutcome, tune: nat -> bool)
    requires device <= Min(count, Multiplexer.ChannelCount)
    requires |sensors| == device
    ensures var o := BindFrom(sensors, device, count, probe, tune);
      && |o.value| == Min(count, Multiplexer.ChannelCount)
      && o.value[..device] == sensors
      && (forall i :: device <= i < |o.value| ==> BindsAs(o.value[i], i, probe, tune))
      && (o.raised.None? <==> count <= Multiplexer.ChannelCount)
      && (o.raised.Some? ==> o.raised == Some(IndexError(Multiplexer.ChannelCount)))
      && MuxMasks(o.trace) == AscendingMasks(device, Min(count, Multiplexer.ChannelCount))
      && OnSelectedChannel(o.trace, None)
      && SelectsFirst(o.trace)
    decreases count - device
  {
    var o := BindFrom(sensors, device, count, probe, tune);
    Multiplexer.SelectSpec(device);
    if device < count && device < Multiplexer.ChannelCount {
      var (b, t) := BindChannel(device, probe, tune);
      BindChannelSpec(device, probe, tune);
      var rest := BindFrom(sensors + [b], device + 1, count, probe, tune);
      BindFromShape(sensors + [b], device + 1, count, probe, tune);
      assert o.value == rest.value && o.trace == t + rest.trace;
      assert rest.value[..device + 1] == sensors + [b];
      assert o.value[..device] == (sensors + [b])[..device];
      assert o.value[device] == (sensors + [b])[device] == b;
      forall i | device <= i < |o.value|
        ensures BindsAs(o.value[i], i, probe, tune)
      {
        if i == device {
          assert BindsAs(b, device, probe, tune);
        }
      }
      SelectionGlue(t, rest.trace, device, Min(count, Multiplexer.ChannelCount));
    }
  }

  /** The binding pass: one entry per channel, in channel order, each the
      primary handle, the secondary handle or the placeholder as `BindsAs`
      says, channels selected once each in ascending order before they are
      probed, and a pass over more channels than the multiplexer has ends
      with IndexError after the eighth. */
  lemma BindPassShape(count: nat, probe: (nat, nat) -> ProbeOutcome, tune: nat -> bool)
    ensures var o := BindPass(count, probe, tune);
      && |o.value| == Min(count, Multiplexer.ChannelCount)
      && (forall i :: 0 <= i < |o.value| ==> BindsAs(o.value[i], i, probe, tune))
      && (count <= Multiplexer.ChannelCount ==> o.raised.None?)
      && (count > Multiplexer.ChannelCount ==> o.raised == Some(IndexError(8)))
      && MuxMasks(o.trace) == AscendingMasks(0, Min(count, Multiplexer.ChannelCount))
      && OnSelectedChannel(o.trace, None)
  {
    BindFromShape([], 0, count, probe, tune);
  }

  // ---------------------------------------------------------------------
  // Reads and sweeps

  /** The value a read of `q` on `device` yields, as a function of the
      bindings: the sample when a driver handle is bound there, None for the
      placeholder or a missing entry. It mirrors `ReadQuantity`'s case split
      and only names that value for `SweepSpec`; `Logged` below gives the
      reference stated from the hardware alone. */
  function Expected(sensors: seq<Binding>, device: nat, k: nat, q: Quantity,
                    sample: (nat, nat, Quantity) -> Option<Reading>): Option<Reading> {
    if device < |sensors| && sensors[device].Bound? then sample(k, device, q) else None
  }

  /** `get_humidity` / `get_temperature` in sweep `k`: a read through the
      handle, or None when the entry is the placeholder string (whose
      attribute lookup fails) or missing (IndexError); both are swallowed. */
  function ReadQuantity(sensors: seq<Binding>, device: nat, k: nat, q: Quantity,
                        sample: (nat, nat, Quantity) -> Option<Reading>): (Option<Reading>, seq<Action>)
  {
    if device >= |sensors| then (None, [])
    else match sensors[device]
      case Placeholder => (None, [])
      case Bound(_) => (sample(k, device, q), [ReadSensor(device)])
  }

  /** The channels read, in order. */
  function ReadChannels(trace: seq<Action>): seq<nat> {
    if trace == [] then []
    else (if trace[0].ReadSensor? then [trace[0].channel] else []) + ReadChannels(trace[1..])
  }

  lemma {:induction false} ReadChannelsAppend(t1: seq<Action>, t2: seq<Action>)
    ensures ReadChannels(t1 + t2) == ReadChannels(t1) + ReadChannels(t2)
  {
    if t1 == [] {
      assert t1 + t2 == t2;
    } else {
      var head := if t1[0].ReadSensor? then [t1[0].channel] else [];
      assert (t1 + t2)[0] == t1[0];
      assert (t1 + t2)[1..] == t1[1..] + t2;
      ReadChannelsAppend(t1[1..], t2);
      assert ReadChannels(t1 + t2) == head + ReadChannels(t1[1..] + t2);
      assert ReadChannels(t1) == head + ReadChannels(t1[1..]);
    }
  }

  /** The reads a sweep over channels `from..count-1` should make: two
      (humidity, then temperature) for each channel with a driver handle,
      none for a placeholder or a missing entry. */
  function BoundChannels(sensors: seq<Binding>, from: nat, count: nat): seq<nat>
    decreases count - from
  {
    if from >= count then []
    else (if from < |sensors| && sensors[from].Bound? then [from, from] else []) + BoundChannels(sensors, from + 1, count)
  }

  /** Only channels in range with a driver handle are read, each twice. */
  lemma {:induction false} BoundChannelsSound(sensors: seq<Binding>, from: nat, count: nat)
    ensures forall i :: 0 <= i < |BoundChannels(sensors, from, count)| ==>
              var c := BoundChannels(sensors, from, count)[i];
              from <= c < count && c < |sensors| && sensors[c].Bound?
    ensures from < count && from < |sensors| && sensors[from].Bound? ==>
              BoundChannels(sensors, from, count)[..2] == [from, from]
    decreases count - from
  {
    if from < count {
      BoundChannelsSound(sensors, from + 1, count);
    }
  }

  /** One iteration of the poll loop for a channel the multiplexer has:
      select it, settle, read humidity, read temperature. */
  function ReadChannel(sensors: seq<Binding>, device: nat, k: nat,
                       sample: (nat, nat, Quantity) -> Option<Reading>): (Record, seq<Action>)
  {
    var select := MuxWrite(Multiplexer.Address, Multiplexer.Pow2(device));
    var (h, th) := ReadQuantity(sensors, device, k, Humidity, sample);
    var (t, tt) := ReadQuantity(sensors, device, k, Temperature, sample);
    (Record(device, h, t), [select, Sleep(ChannelSettle)] + th + tt)
  }

  /** Polling a channel logs what `Expected` gives for both quantities,
      selects the channel before anything else, sleeps once to let it settle,
      and reads the bus twice exactly when a driver handle is bound there. */
  lemma ReadChannelSpec(sensors: seq<Binding>, device: nat, k: nat,
                        sample: (nat, nat, Quantity) -> Option<Reading>)
    ensures ReadChannel(sensors, device, k, sample).0
              == Record(device, Expected(sensors, device, k, Humidity, sample),
                                Expected(sensors, device, k, Temperature, sample))
    ensures var t := ReadChannel(sensors, device, k, sample).1;
      |t| >= 2 && t[0] == MuxWrite(Multiplexer.Address, Multiplexer.Pow2(device))
    ensures MuxMasks(ReadChannel(sensors, device, k, sample).1) == [Multiplexer.Pow2(device)]
    ensures OnSelectedChannel(ReadChannel(sensors, device, k, sample).1, None)
    ensures SleepCount(ReadChannel(sensors, device, k, sample).1) == 1
    ensures ReadChannels(ReadChannel(sensors, device, k, sample).1)
              == if device < |sensors| && sensors[device].Bound? then [device, device] else []
  {
    var r := ReadChannel(sensors, device, k, sample);
    var (h, th) := ReadQuantity(sensors, device, k, Humidity, sample);
    var (t, tt) := ReadQuantity(sensors, device, k, Temperature, sample);
    var probes := th + tt;
    assert r.1 == [r.1[0], Sleep(ChannelSettle)] + probes;
    assert forall j :: 0 <= j < |probes| ==> probes[j] == ReadSensor(device);
    NoMuxWrites(probes);
    AllOnChannel(probes, device);
    SleepFree(probes);
    assert r.1[1..] == [Sleep(ChannelSettle)] + probes;
    assert r.1[1..][1..] == probes;
    assert ReadChannels(probes) == if device < |sensors| && sensors[device].Bound? then [device, device] else [] by {
      if device < |sensors| && sensors[device].Bound? {
        assert probes == [ReadSensor(device), ReadSensor(device)];
        assert probes[1..] == [ReadSensor(device)] && probes[1..][1..] == [];
        assert ReadChannels(probes[1..]) == [device] + ReadChannels(probes[1..][1..]);
      } else {
        assert probes == [];
      }
    }
  }

  /** One sweep from channel `device` on. */
  function SweepFrom(sensors: seq<Binding>, device: nat, count: nat, k: nat,
                     sample: (nat, nat, Quantity) -> Option<Reading>): (o: Progress<seq<Record>>)
    decreases count - device
  {
    if device >= count then Progress([], [], None)
    else match Multiplexer.Select(device)
      case Err(e) => Progress([], [], Some(e))
      case Ok(_) =>
        var (record, t) := ReadChannel(sensors, device, k, sample);
        var rest := SweepFrom(sensors, device + 1, count, k, sample);
        Progress([record] + rest.value, t + rest.trace, rest.raised)
  }

  /** The records sweep `k` should log for channels `from..count-1`. */
  function SweepSpec(sensors: seq<Binding>, from: nat, count: nat, k: nat,
                     sample: (nat, nat, Quantity) -> Option<Reading>): seq<Record>
    decreases count - from
  {
    if from >= count then []
    else [Record(from, Expected(sensors, from, k, Humidity, sample), Expected(sensors, from, k, Temperature, sample))]
         + SweepSpec(sensors, from + 1, count, k, sample)
  }

  /** One record per channel, the `i`-th for channel `from + i`. */
  lemma {:induction false} SweepSpecShape(sensors: seq<Binding>, from: nat, count: nat, k: nat,
                                          sample: (nat, nat, Quantity) -> Option<Reading>)
    ensures from <= count ==> |SweepSpec(sensors, from, count, k, sample)| == count - from
    ensures forall i :: 0 <= i < |SweepSpec(sensors, from, count, k, sample)| ==>
              SweepSpec(sensors, from, count, k, sample)[i]
                == Record(from + i, Expected(sensors, from + i, k, Humidity, sample),
                                    Expected(sensors, from + i, k, Temperature, sample))
    decreases count - from
  {
    if from < count {
      SweepSpecShape(sensors, from + 1, count, k, sample);
    }
  }

  lemma {:induction false} SweepFromRecords(sensors: seq<Binding>, device: nat, count: nat, k: nat,
                                            sample: (nat, nat, Quantity) -> Option<Reading>)
    requires count <= Multiplexer.ChannelCount
    ensures var o := SweepFrom(sensors, device, count, k, sample);
      && o.raised.None?
      && o.value == SweepSpec(sensors, device, count, k, sample)
    decreases count - device
  {
    if device < count {
      Multiplexer.SelectSpec(device);
      ReadChannelSpec(sensors, device, k, sample);
      var record := ReadChannel(sensors, device, k, sample).0;
      var rest := SweepFrom(sensors, device + 1, count, k, sample);
      SweepFromRecords(sensors, device + 1, count, k, sample);
      assert SweepFrom(sensors, device, count, k, sample).value == [record] + rest.value;
      assert SweepFrom(sensors, device, count, k, sample).raised == rest.raised;
    }
  }

  lemma {:induction false} SweepFromTrace(sensors: seq<Binding>, device: nat, count: nat, k: nat,
                                          sample: (nat, nat, Quantity) -> Option<Reading>)
    requires count <= Multiplexer.ChannelCount
    ensures var o := SweepFrom(sensors, device, count, k, sample);
      && MuxMasks(o.trace) == AscendingMasks(device, count)
      && OnSelectedChannel(o.trace, None)
      && SelectsFirst(o.trace)
    decreases count - device
  {
    if device < count {
      Multiplexer.SelectSpec(device);
      ReadChannelSpec(sensors, device, k, sample);
      var t := ReadChannel(sensors, device, k, sample).1;
      var rest := SweepFrom(sensors, device + 1, count, k, sample);
      SweepFromTrace(sensors, device + 1, count, k, sample);
      assert SweepFrom(sensors, device, count, k, sample).trace == t + rest.trace;
      SelectionGlue(t, rest.trace, device, count);
    }
  }

  lemma {:induction false} SweepFromSleeps(sensors: seq<Binding>, device: nat, count: nat, k: nat,
                                           sample: (nat, nat, Quantity) -> Option<Reading>)
    requires count <= Multiplexer.ChannelCount
    ensures SleepCount(SweepFrom(sensors, device, count, k, sample).trace) == if device <= count then count - device else 0
    decreases count - device
  {
    if device < count {
      Multiplexer.SelectSpec(device);
      ReadChannelSpec(sensors, device, k, sample);
      var (record, t) := ReadChannel(sensors, device, k, sample);
      var rest := SweepFrom(sensors, device + 1, count, k, sample);
      SweepFromSleeps(sensors, device + 1, count, k, sample);
      SleepCountAppend(t, rest.trace);
    }
  }

  lemma {:induction false} SweepFromReads(sensors: seq<Binding>, device: nat, count: nat, k: nat,
                                          sample: (nat, nat, Quantity) -> Option<Reading>)
    requires count <= Multiplexer.ChannelCount
    ensures ReadChannels(SweepFrom(sensors, device, count, k, sample).trace) == BoundChannels(sensors, device, count)
    decreases count - device
  {
    if device < count {
      Multiplexer.SelectSpec(device);
      ReadChannelSpec(sensors, device, k, sample);
      var (record, t) := ReadChannel(sensors, device, k, sample);
      var rest := SweepFrom(sensors, device + 1, count, k, sample);
      SweepFromReads(sensors, device + 1, count, k, sample);
      ReadChannelsAppend(t, rest.trace);
    }
  }

  lemma {:induction false} SleepFree(trace: seq<Action>)
    requires forall j :: 0 <= j < |trace| ==> trace[j].ReadSensor?
    ensures SleepCount(trace) == 0
  {
    if trace != [] {
      SleepFree(trace[1..]);
    }
  }

  lemma SweepFromShape(sensors: seq<Binding>, device: nat, count: nat, k: nat,
                       sample: (nat, nat, Quantity) -> Option<Reading>)
    requires count <= Multiplexer.ChannelCount
    ensures var o := SweepFrom(sensors, device, count, k, sample);
      && o.raised.None?
      && o.value == SweepSpec(sensors, device, count, k, sample)
      && MuxMasks(o.trace) == AscendingMasks(device, count)
      && OnSelectedChannel(o.trace, None)
      && SelectsFirst(o.trace)
      && SleepCount(o.trace) == (if device <= count then count - device else 0)
      && ReadChannels(o.trace) == BoundChannels(sensors, device, count)
  {
    SweepFromRecords(sensors, device, count, k, sample);
    SweepFromTrace(sensors, device, count, k, sample);
    SweepFromSleeps(sensors, device, count, k, sample);
    SweepFromReads(sensors, device, count, k, sample);
  }

  /** One poll sweep over `count` channels: exactly one record per channel in
      channel order, a failed or placeholder read logged as None, channels
      selected in ascending order with every read made on the selected
      channel, no bus read of a placeholder, and one settle sleep per channel. */
  lemma SweepShape(sensors: seq<Binding>, count: nat, k: nat, sample: (nat, nat, Quantity) -> Option<Reading>)
    requires count <= Multiplexer.ChannelCount
    ensures var o := SweepFrom(sensors, 0, count, k, sample);
      && o.raised.None?
      && |o.value| == count
      && (forall i :: 0 <= i < count ==>
            o.value[i] == Record(i, Expected(sensors, i, k, Humidity, sample), Expected(sensors, i, k, Temperature, sample)))
      && MuxMasks(o.trace) == AscendingMasks(0, count)
      && OnSelectedChannel(o.trace, None)
      && SleepCount(o.trace) == count
      && ReadChannels(o.trace) == BoundChannels(sensors, 0, count)
  {
    SweepFromShape(sensors, 0, count, k, sample);
    SweepSpecShape(sensors, 0, count, k, sample);
  }

  // ---------------------------------------------------------------------
  // The sensor thread

  /** Sweeps `k..sweeps-1`, each followed by the poll wait; the records are
      grouped by sweep. */
  function SweepLoop(sensors: seq<Binding>, count: nat, wait: nat, k: nat, sweeps: nat,
                     sample: (nat, nat, Quantity) -> Option<Reading>): (o: Progress<seq<seq<Record>>>)
    decreases sweeps - k
  {
    if k >= sweeps then Progress([], [], None)
    else
      var sweep := SweepFrom(sensors, 0, count, k, sample);
      if sweep.raised.Some? then Progress([sweep.value], sweep.trace, sweep.raised)
      else
        var rest := SweepLoop(sensors, count, wait, k + 1, sweeps, sample);
        Progress([sweep.value] + rest.value, sweep.trace + [Sleep(wait)] + rest.trace, rest.raised)
  }

  /** A sweep over at most eight channels never raises, so the loop goes on
      with the poll wait and the later sweeps. */
  lemma SweepLoopStep(sensors: seq<Binding>, count: nat, wait: nat, k: nat, sweeps: nat,
                      sample: (nat, nat, Quantity) -> Option<Reading>)
    requires count <= Multiplexer.ChannelCount && k < sweeps
    ensures var sweep := SweepFrom(sensors, 0, count, k, sample);
            var rest := SweepLoop(sensors, count, wait, k + 1, sweeps, sample);
      SweepLoop(sensors, count, wait, k, sweeps, sample)
        == Progress([sweep.value] + rest.value, sweep.trace + ([Sleep(wait)] + rest.trace), rest.raised)
  {
    var sweep := SweepFrom(sensors, 0, count, k, sample);
    var rest := SweepLoop(sensors, count, wait, k + 1, sweeps, sample);
    SweepFromRecords(sensors, 0, count, k, sample);
    assert sweep.trace + [Sleep(wait)] + rest.trace == sweep.trace + ([Sleep(wait)] + rest.trace);
  }

  /** The records of the loop from sweep `k`: the expected records of
      sweep `k`, then those of the later sweeps. */
  lemma SweepLoopValue(sensors: seq<Binding>, count: nat, wait: nat, k: nat, sweeps: nat,
                       sample: (nat, nat, Quantity) -> Option<Reading>)
    requires count <= Multiplexer.ChannelCount && k < sweeps
    ensures var rest := SweepLoop(sensors, count, wait, k + 1, sweeps, sample);
      && SweepLoop(sensors, count, wait, k, sweeps, sample).value == [SweepSpec(sensors, 0, count, k, sample)] + rest.value
      && SweepLoop(sensors, count, wait, k, sweeps, sample).raised == rest.raised
  {
    SweepFromRecords(sensors, 0, count, k, sample);
  }

  lemma {:induction false} SweepLoopRecords(sensors: seq<Binding>, count: nat, wait: nat, k: nat, sweeps: nat,
                                            sample: (nat, nat, Quantity) -> Option<Reading>)
    requires count <= Multiplexer.ChannelCount && k <= sweeps
    ensures var o := SweepLoop(sensors, count, wait, k, sweeps, sample);
      && o.raised.None?
      && |o.value| == sweeps - k
      && (forall j :: 0 <= j < sweeps - k ==> o.value[j] == SweepSpec(sensors, 0, count, k + j, sample))
    decreases sweeps - k
  {
    if k < sweeps {
      var o := SweepLoop(sensors, count, wait, k, sweeps, sample);
      var rest := SweepLoop(sensors, count, wait, k + 1, sweeps, sample);
      var head := SweepSpec(sensors, 0, count, k, sample);
      SweepLoopValue(sensors, count, wait, k, sweeps, sample);
      SweepLoopRecords(sensors, count, wait, k + 1, sweeps, sample);
      assert forall j :: 1 <= j < sweeps - k ==> o.value[j] == rest.value[j - 1];
    }
  }

  lemma {:induction false} SweepLoopSelection(sensors: seq<Binding>, count: nat, wait: nat, k: nat, sweeps: nat,
                                              sample: (nat, nat, Quantity) -> Option<Reading>)
    requires count <= Multiplexer.ChannelCount && k <= sweeps
    ensures var o := SweepLoop(sensors, count, wait, k, sweeps, sample);
      && OnSelectedChannel(o.trace, None)
      && SelectsFirst(o.trace)
    decreases sweeps - k
  {
    if k < sweeps {
      SweepLoopStep(sensors, count, wait, k, sweeps, sample);
      var sweep := SweepFrom(sensors, 0, count, k, sample);
      SweepFromTrace(sensors, 0, count, k, sample);
      var rest := SweepLoop(sensors, count, wait, k + 1, sweeps, sample);
      SweepLoopSelection(sensors, count, wait, k + 1, sweeps, sample);
      PauseGlue(sweep.trace, wait, rest.trace);
    }
  }

  /** A sweep that keeps the selection discipline and selects before it
      reads, the poll wait, and a rest that does the same, together do the
      same. */
  lemma PauseGlue(sweep: seq<Action>, wait: nat, rest: seq<Action>)
    requires OnSelectedChannel(sweep, None) && SelectsFirst(sweep)
    requires OnSelectedChannel(rest, None) && SelectsFirst(rest)
    ensures OnSelectedChannel(sweep + ([Sleep(wait)] + rest), None)
    ensures SelectsFirst(sweep + ([Sleep(wait)] + rest))
  {
    var tail := [Sleep(wait)] + rest;
    assert tail[1..] == rest;
    OnSelectedChannelAppend(sweep, tail, None);
    SelectionIrrelevant(tail, None, SelectionAfter(sweep, None));
    SelectsFirstAppend(sweep, tail);
  }

  lemma {:induction false} SweepLoopSleeps(sensors: seq<Binding>, count: nat, wait: nat, k: nat, sweeps: nat,
                                           sample: (nat, nat, Quantity) -> Option<Reading>)
    requires count <= Multiplexer.ChannelCount && k <= sweeps
    ensures SleepCount(SweepLoop(sensors, count, wait, k, sweeps, sample).trace) == (sweeps - k) * (count + 1)
    decreases sweeps - k
  {
    if k < sweeps {
      SweepLoopStep(sensors, count, wait, k, sweeps, sample);
      var sweep := SweepFrom(sensors, 0, count, k, sample);
      SweepFromSleeps(sensors, 0, count, k, sample);
      var rest := SweepLoop(sensors, count, wait, k + 1, sweeps, sample);
      SweepLoopSleeps(sensors, count, wait, k + 1, sweeps, sample);
      SleepCountAppend(sweep.trace, [Sleep(wait)] + rest.trace);
      SleepCountAppend([Sleep(wait)], rest.trace);
      assert SleepCount([Sleep(wait)]) == 1;
      var later := sweeps - (k + 1);
      assert (later + 1) * (count + 1) == (count + 1) + later * (count + 1);
    }
  }

  /** Sweeps `k..sweeps-1` of the poll loop: `sweeps - k` whole sweeps, sweep
      `j` logging what `SweepSpec` gives for it, every sensor access on the
      selected channel, and one settle sleep per channel plus one poll wait
      per sweep. */
  lemma SweepLoopShape(sensors: seq<Binding>, count: nat, wait: nat, k: nat, sweeps: nat,
                       sample: (nat, nat, Quantity) -> Option<Reading>)
    requires count <= Multiplexer.ChannelCount && k <= sweeps
    ensures var o := SweepLoop(sensors, count, wait, k, sweeps, sample);
      && o.raised.None?
      && |o.value| == sweeps - k
      && (forall j :: 0 <= j < sweeps - k ==> o.value[j] == SweepSpec(sensors, 0, count, k + j, sample))
      && OnSelectedChannel(o.trace, None)
      && SelectsFirst(o.trace)
      && SleepCount(o.trace) == (sweeps - k) * (count + 1)
  {
    SweepLoopRecords(sensors, count, wait, k, sweeps, sample);
    SweepLoopSelection(sensors, count, wait, k, sweeps, sample);
    SweepLoopSleeps(sensors, count, wait, k, sweeps, sample);
  }

  /** `log_sense` on a fresh sensor list, for a flag found set `sweeps` times:
      the bindings of the pass, the records of the sweeps, the actions, and the
      exception that ended the thread. */
  function LogSense(count: nat, wait: nat, sweeps: nat, probe: (nat, nat) -> ProbeOutcome, tune: nat -> bool,
                    sample: (nat, nat, Quantity) -> Option<Reading>): (seq<Binding>, Progress<seq<seq<Record>>>)
  {
    var bind := BindPass(count, probe, tune);
    if bind.raised.Some? then (bind.value, Progress([], bind.trace, bind.raised))
    else
      var loop := SweepLoop(bind.value, count, wait, 0, sweeps, sample);
      (bind.value, Progress(loop.value, bind.trace + loop.trace, loop.raised))
  }

  /** `log_sense` with at most eight channels: the bindings are exactly the
      binding pass's, the thread logs `sweeps` whole sweeps (a stop request
      never cuts one short), sweep `j` logs the records `SweepSpec` gives for
      it, and every sensor access happens on the selected channel. With more
      than eight channels the pass raises IndexError and no sweep runs. */
  lemma LogSenseShape(count: nat, wait: nat, sweeps: nat, probe: (nat, nat) -> ProbeOutcome, tune: nat -> bool,
                      sample: (nat, nat, Quantity) -> Option<Reading>)
    ensures var (bindings, o) := LogSense(count, wait, sweeps, probe, tune, sample);
      && (count <= Multiplexer.ChannelCount ==>
            && o.raised.None?
            && |bindings| == count
            && (forall i :: 0 <= i < count ==> BindsAs(bindings[i], i, probe, tune))
            && |o.value| == sweeps
            && (forall j :: 0 <= j < sweeps ==> o.value[j] == SweepSpec(bindings, 0, count, j, sample))
            && OnSelectedChannel(o.trace, None))
      && (count > Multiplexer.ChannelCount ==> o.raised == Some(IndexError(8)) && o.value == [])
  {
    var (bindings, o) := LogSense(count, wait, sweeps, probe, tune, sample);
    var bind := BindPass(count, probe, tune);
    BindPassShape(count, probe, tune);
    if count <= Multiplexer.ChannelCount {
      var loop := SweepLoop(bind.value, count, wait, 0, sweeps, sample);
      SweepLoopShape(bind.value, count, wait, 0, sweeps, sample);
      OnSelectedChannelAppend(bind.trace, loop.trace, None);
      SelectionIrrelevant(loop.trace, None, SelectionAfter(bind.trace, None));
    }
  }

  /** Channel `c` has a working sensor: one answers at the primary address,
      or at the secondary after a bus fault at the primary, and it accepts
      its settings. */
  predicate Answers(c: nat, probe: (nat, nat) -> ProbeOutcome, tune: nat -> bool) {
    && tune(c)
    && (|| probe(c, PrimaryAddress) == Detected
        || (probe(c, PrimaryAddress) == BusFault && probe(c, SecondaryAddress) == Detected))
  }

  /** A binding made as `BindsAs` says is a driver handle exactly when the
      channel has a working sensor. */
  lemma BoundIffAnswers(b: Binding, c: nat, probe: (nat, nat) -> ProbeOutcome, tune: nat -> bool)
    requires BindsAs(b, c, probe, tune)
    ensures b.Bound? <==> Answers(c, probe, tune)
  {
    if b.Bound? {
      assert b == Bound(PrimaryAddress) || b == Bound(SecondaryAddress);
    }
  }

  /** What channel `c` logs for `q` in sweep `k`, from the hardware alone:
      the sample when it has a working sensor, None otherwise. */
  function Logged(c: nat, k: nat, q: Quantity, probe: (nat, nat) -> ProbeOutcome, tune: nat -> bool,
                  sample: (nat, nat, Quantity) -> Option<Reading>): Option<Reading> {
    if Answers(c, probe, tune) then sample(k, c, q) else None
  }

  /** What `log_sense` logs, in terms of the hardware rather than the
      bindings: sweep `j` holds one record per channel, and channel `i`
      logs the sample of each quantity when it has a working sensor and
      None for both otherwise. */
  lemma LogSenseReadings(count: nat, wait: nat, sweeps: nat, probe: (nat, nat) -> ProbeOutcome, tune: nat -> bool,
                         sample: (nat, nat, Quantity) -> Option<Reading>)
    requires count <= Multiplexer.ChannelCount
    ensures var o := LogSense(count, wait, sweeps, probe, tune, sample).1;
      && |o.value| == sweeps
      && (forall j :: 0 <= j < sweeps ==> |o.value[j]| == count)
      && (forall j, i :: 0 <= j < sweeps && 0 <= i < count ==>
            o.value[j][i] == Record(i, Logged(i, j, Humidity, probe, tune, sample), Logged(i, j, Temperature, probe, tune, sample)))
  {
    var ls := LogSense(count, wait, sweeps, probe, tune, sample);
    var bindings, o := ls.0, ls.1;
    LogSenseShape(count, wait, sweeps, probe, tune, sample);
    forall j | 0 <= j < sweeps
      ensures |o.value[j]| == count
    {
      SweepSpecShape(bindings, 0, count, j, sample);
    }
    forall j, i | 0 <= j < sweeps && 0 <= i < count
      ensures o.value[j][i] == Record(i, Logged(i, j, Humidity, probe, tune, sample), Logged(i, j, Temperature, probe, tune, sample))
    {
      SweepSpecShape(bindings, 0, count, j, sample);
      BoundIffAnswers(bindings[i], i, probe, tune);
    }
  }
}
