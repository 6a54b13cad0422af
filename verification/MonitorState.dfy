/** The monitoring view of plugins/http/monitor-state.go: device presence and
    one sample ring per device and sensor, kept by three callbacks. */
module MonitorState {
  import opened Words
  import opened Protocol
  import opened SampleRings

  datatype Callback =
    | Connected(id: nat, mac: Mac)
    | Disconnected(id: nat, mac: Mac)
    | Observed(mac: Mac, sensorType: Byte, transport: Byte, sample: Sample)

  datatype DeviceState = DeviceState(transport: Byte, connectionID: nat, connected: bool, lastSeenAt: Int64)

  /** A connection event published to subscribers. */
  datatype Transition = Transition(mac: Mac, id: nat, connected: bool)

  const NEW_DEVICE := DeviceState(0, 0, false, 0)

  function DeviceOf(devices: map<Mac, DeviceState>, mac: Mac): (d: DeviceState)
  {
    if mac in devices then devices[mac] else NEW_DEVICE
  }

  /** What one callback makes of the devices. */
  function StepDevices(devices: map<Mac, DeviceState>, c: Callback): (r: map<Mac, DeviceState>)
  {
    var d := DeviceOf(devices, c.mac);
    match c
    case Connected(id, mac) => devices[mac := d.(connectionID := id, connected := true, transport := TRANSPORT_TCP)]
    case Disconnected(id, mac) =>
      if d.connected && d.connectionID == id then devices[mac := d.(connectionID := 0, connected := false)] else devices
    case Observed(mac, _, transport, sample) =>
      devices[mac := d.(transport := transport, lastSeenAt := sample.timestamp)]
  }

  function Devices(log: seq<Callback>): (devices: map<Mac, DeviceState>)
  {
    if log == [] then map[] else StepDevices(Devices(log[..|log| - 1]), log[|log| - 1])
  }

  function StepTransitions(devices: map<Mac, DeviceState>, c: Callback): (ts: seq<Transition>)
  {
    var d := DeviceOf(devices, c.mac);
    if c.Connected? && !d.connected then [Transition(c.mac, c.id, true)]
    else if c.Disconnected? && d.connected && d.connectionID == c.id then [Transition(c.mac, c.id, false)]
    else []
  }

  /** The connection events published over a run of callbacks. */
  function Transitions(log: seq<Callback>): (ts: seq<Transition>)
  {
    if log == [] then []
    else Transitions(log[..|log| - 1]) + StepTransitions(Devices(log[..|log| - 1]), log[|log| - 1])
  }

  /** The samples observed for one sensor of one device, in order. */
  function SamplesOf(log: seq<Callback>, mac: Mac, sensorType: Byte): (s: seq<Sample>)
  {
    if log == [] then []
    else
      var front, c := SamplesOf(log[..|log| - 1], mac, sensorType), log[|log| - 1];
      if c.Observed? && c.mac == mac && c.sensorType == sensorType then front + [c.sample] else front
  }

  /** Callback i is the latest connect of the device, and its connection has not
      disconnected since. */
  ghost predicate Live(log: seq<Callback>, mac: Mac, i: nat)
  {
    && i < |log| && log[i].Connected? && log[i].mac == mac
    && forall j :: i < j < |log| && log[j].mac == mac ==>
                     !log[j].Connected? && !(log[j].Disconnected? && log[j].id == log[i].id)
  }

  lemma {:induction false} LiveIsConnected(log: seq<Callback>, mac: Mac, i: nat)
    requires Live(log, mac, i)
    ensures var d := DeviceOf(Devices(log), mac); d.connected && d.connectionID == log[i].id
    decreases |log|
  {
    if i < |log| - 1 {
      LiveIsConnected(log[..|log| - 1], mac, i);
    }
  }

  lemma {:induction false} ConnectedIsLive(log: seq<Callback>, mac: Mac) returns (i: nat)
    requires DeviceOf(Devices(log), mac).connected
    ensures Live(log, mac, i) && DeviceOf(Devices(log), mac).connectionID == log[i].id
    decreases |log|
  {
    var c := log[|log| - 1];
    if c.Connected? && c.mac == mac {
      i := |log| - 1;
    } else {
      i := ConnectedIsLive(log[..|log| - 1], mac);
    }
  }

  /** A device shows as connected exactly when the latest connection opened for
      its MAC has not since been reported closed; a late report about an older
      connection changes nothing. */
  lemma ConnectedExactlyWhenLive(log: seq<Callback>, mac: Mac)
    ensures DeviceOf(Devices(log), mac).connected <==> exists i: nat :: Live(log, mac, i)
  {
    if DeviceOf(Devices(log), mac).connected {
      var i := ConnectedIsLive(log, mac);
    }
    forall i: nat | Live(log, mac, i)
      ensures DeviceOf(Devices(log), mac).connected
    {
      LiveIsConnected(log, mac, i);
    }
  }

  /** The published transitions of one device. */
  function TransitionsOf(ts: seq<Transition>, mac: Mac): (r: seq<Transition>)
  {
    if ts == [] then []
    else
      var front := TransitionsOf(ts[..|ts| - 1], mac);
      if ts[|ts| - 1].mac == mac then front + [ts[|ts| - 1]] else front
  }

  lemma TransitionsOfAppend(ts: seq<Transition>, t: Transition, mac: Mac)
    ensures TransitionsOf(ts + [t], mac) == TransitionsOf(ts, mac) + if t.mac == mac then [t] else []
  {
    assert (ts + [t])[..|ts|] == ts;
  }

  ghost predicate AlternatesTo(ts: seq<Transition>, connected: bool)
  {
    && (forall k :: 0 <= k < |ts| ==> (ts[k].connected <==> k % 2 == 0))
    && (connected <==> |ts| % 2 == 1)
  }

  /** The transitions published for a device strictly alternate, beginning with
      a connect, and the last one tells the device's present state. */
  lemma {:induction false} TransitionsAlternate(log: seq<Callback>, mac: Mac)
    ensures AlternatesTo(TransitionsOf(Transitions(log), mac), DeviceOf(Devices(log), mac).connected)
  {
    if log != [] {
      hide *;
      var front, c := log[..|log| - 1], log[|log| - 1];
      assert log == front + [c];
      TransitionsAlternate(front, mac);
      AppendStep(front, c);
      TransitionsOfStep(Devices(front), c, Transitions(front), mac);
    }
  }

  /** One callback publishes at most one transition, for its own device, whose
      state it flips. */
  lemma TransitionsOfStep(devices: map<Mac, DeviceState>, c: Callback, ts: seq<Transition>, mac: Mac)
    requires AlternatesTo(TransitionsOf(ts, mac), DeviceOf(devices, mac).connected)
    ensures AlternatesTo(TransitionsOf(ts + StepTransitions(devices, c), mac),
                         DeviceOf(StepDevices(devices, c), mac).connected)
  {
    hide AlternatesTo, TransitionsOf;
    var step := StepTransitions(devices, c);
    if step != [] {
      TransitionsOfAppend(ts, step[0], mac);
      assert ts + step == ts + [step[0]];
      if c.mac == mac {
        AlternatesFurther(TransitionsOf(ts, mac), DeviceOf(devices, mac).connected, step[0]);
      } else {
        assert TransitionsOf(ts, mac) + [] == TransitionsOf(ts, mac);
      }
    } else {
      assert ts + step == ts;
    }
  }

  lemma AlternatesFurther(ts: seq<Transition>, connected: bool, t: Transition)
    requires AlternatesTo(ts, connected) && t.connected != connected
    ensures AlternatesTo(ts + [t], t.connected)
  {
  }

  /** The views after one more callback. */
  lemma AppendStep(log: seq<Callback>, c: Callback)
    ensures Devices(log + [c]) == StepDevices(Devices(log), c)
    ensures Transitions(log + [c]) == Transitions(log) + StepTransitions(Devices(log), c)
    ensures StepTransitions(Devices(log), c) == [] ==> Transitions(log + [c]) == Transitions(log)
  {
    assert (log + [c])[..|log|] == log;
  }

  lemma AppendSamples(log: seq<Callback>, c: Callback)
    ensures forall mac: Mac, t: Byte :: SamplesOf(log + [c], mac, t) ==
              if c.Observed? && c.mac == mac && c.sensorType == t
              then SamplesOf(log, mac, t) + [c.sample]
              else SamplesOf(log, mac, t)
  {
    assert (log + [c])[..|log|] == log;
  }

  // ---- what the views mean ----

  lemma {:induction false} SamplesConcat(a: seq<Callback>, b: seq<Callback>, mac: Mac, t: Byte)
    ensures SamplesOf(a + b, mac, t) == SamplesOf(a, mac, t) + SamplesOf(b, mac, t)
    decreases |b|
  {
    if b == [] {
      assert a + b == a;
    } else {
      var c := a + b;
      SamplesConcat(a, b[..|b| - 1], mac, t);
      assert c[..|c| - 1] == a + b[..|b| - 1] && c[|c| - 1] == b[|b| - 1];
    }
  }

  /** The samples of a sensor are those of the observations of exactly this device
      and sensor: each adds its own, and no other callback adds any. */
  lemma SamplesMean(before: seq<Callback>, c: Callback, after: seq<Callback>, mac: Mac, t: Byte)
    ensures SamplesOf(before + [c] + after, mac, t) ==
            SamplesOf(before, mac, t)
            + (if c.Observed? && c.mac == mac && c.sensorType == t then [c.sample] else [])
            + SamplesOf(after, mac, t)
  {
    SamplesConcat(before + [c], after, mac, t);
    SamplesConcat(before, [c], mac, t);
    assert [c][..0] == [];
    assert SamplesOf([c][..0], mac, t) == [];
  }

  /** What a device shows: the time of its latest observation, and the transport of
      its latest observation or connection. */
  lemma {:induction false} LastSeen(before: seq<Callback>, c: Callback, after: seq<Callback>)
    requires forall i :: 0 <= i < |after| ==> after[i].mac != c.mac || after[i].Disconnected?
    ensures var d := DeviceOf(Devices(before + [c] + after), c.mac);
            && (c.Observed? ==> d.lastSeenAt == c.sample.timestamp && d.transport == c.transport)
            && (c.Connected? ==> d.transport == 1 && d.lastSeenAt == DeviceOf(Devices(before), c.mac).lastSeenAt)
    decreases |after|
  {
    hide Devices, StepDevices, DeviceOf;
    if after == [] {
      assert before + [c] + after == before + [c];
      AppendStep(before, c);
      SeenStep(Devices(before), c, c.mac);
    } else {
      var front, last := after[..|after| - 1], after[|after| - 1];
      LastSeen(before, c, front);
      AppendStep(before + [c] + front, last);
      SeenStep(Devices(before + [c] + front), last, c.mac);
      assert before + [c] + after == before + [c] + front + [last];
    }
  }

  lemma SeenStep(devices: map<Mac, DeviceState>, c: Callback, mac: Mac)
    ensures var d, t := DeviceOf(devices, mac), DeviceOf(StepDevices(devices, c), mac);
            && (c.mac != mac || c.Disconnected? ==> t.lastSeenAt == d.lastSeenAt && t.transport == d.transport)
            && (c.Observed? && c.mac == mac ==> t.lastSeenAt == c.sample.timestamp && t.transport == c.transport)
            && (c.Connected? && c.mac == mac ==> t.lastSeenAt == d.lastSeenAt && t.transport == 1)
  {
  }

  /** Every transition is that of a callback for its device and connection. */
  lemma {:induction false} TransitionsComeFromCallbacks(log: seq<Callback>, k: nat)
    requires k < |Transitions(log)|
    ensures var t := Transitions(log)[k];
            (if t.connected then Connected(t.id, t.mac) else Disconnected(t.id, t.mac)) in log
    decreases |log|
  {
    var front, c := log[..|log| - 1], log[|log| - 1];
    assert log == front + [c];
    if k < |Transitions(front)| {
      TransitionsComeFromCallbacks(front, k);
    }
  }

  type Histories = map<(Mac, Byte), SampleRing>

  ghost predicate RingHolds(ring: SampleRing, repr: set<object>, capacity: nat, samples: seq<Sample>)
    reads repr
  {
    ring in repr && ring.samples in repr && ring.samples.Length == capacity && ring.Valid() && ring.history == samples
  }

  /** Each ring holds the samples of its own sensor, every observed sensor has
      a ring, and rings share no storage. */
  ghost predicate RingsHold(histories: Histories, repr: set<object>, capacity: nat, log: seq<Callback>)
    reads repr
  {
    && (forall mac: Mac, t: Byte :: SamplesOf(log, mac, t) != [] ==> (mac, t) in histories)
    && (forall key :: key in histories ==> RingHolds(histories[key], repr, capacity, SamplesOf(log, key.0, key.1)))
    && Separate(histories)
  }

  ghost predicate Separate(histories: Histories)
  {
    forall k1, k2 :: k1 in histories && k2 in histories && k1 != k2 ==>
                       histories[k1] != histories[k2] && histories[k1].samples != histories[k2].samples
  }

  ghost predicate OnlyObserved(histories: Histories, log: seq<Callback>)
  {
    forall key :: key in histories ==> SamplesOf(log, key.0, key.1) != []
  }

  lemma NoObservation(histories: Histories, repr: set<object>, capacity: nat, log: seq<Callback>, c: Callback)
    requires RingsHold(histories, repr, capacity, log) && OnlyObserved(histories, log) && !c.Observed?
    ensures RingsHold(histories, repr, capacity, log + [c]) && OnlyObserved(histories, log + [c])
  {
    AppendSamples(log, c);
    hide RingHolds, SamplesOf;
  }

  /** Finds the ring of a sensor, making an empty one on its first sample. */
  method EnsureRing(histories: Histories, ghost repr: set<object>, capacity: nat, ghost log: seq<Callback>,
                    key: (Mac, Byte))
      returns (result: Histories, ghost grown: set<object>)
    requires capacity >= 1 && RingsHold(histories, repr, capacity, log)
    ensures RingsHold(result, grown, capacity, log) && fresh(grown - repr) && repr <= grown
    ensures result.Keys == histories.Keys + {key}
  {
    hide SamplesOf, SampleRing.Valid;
    if key in histories {
      return histories, repr;
    }
    var ring := new SampleRing(capacity);
    result := histories[key := ring];
    grown := repr + {ring, ring.samples};
  }

  /** Appends a sample to one sensor's ring and to no other. */
  method AppendSample(histories: Histories, ghost repr: set<object>, capacity: nat, ghost log: seq<Callback>,
                      ghost c: Callback, key: (Mac, Byte), sample: Sample)
    requires RingsHold(histories, repr, capacity, log) && key in histories
    requires c.Observed? && key == (c.mac, c.sensorType) && c.sample == sample
    modifies repr
    ensures RingsHold(histories, repr, capacity, log + [c])
  {
    AppendSamples(log, c);
    hide SamplesOf, SampleRing.Valid;
    histories[key].Append(sample);
  }

  class MonitoringState {
    const capacity: nat
    var devices: map<Mac, DeviceState>
    var histories: Histories
    var published: seq<Transition>
    ghost var log: seq<Callback>
    ghost var repr: set<object>

    ghost predicate Valid()
      reads this, repr
    {
      && capacity >= 1 && this !in repr
      && devices == Devices(log) && published == Transitions(log)
      && RingsHold(histories, repr, capacity, log) && OnlyObserved(histories, log)
    }

    constructor (capacity: nat)
      requires 1 <= capacity <= 100000
      ensures Valid() && this.capacity == capacity && log == [] && repr == {}
    {
      this.capacity := capacity;
      devices, histories, published, log, repr := map[], map[], [], [], {};
    }

    /** The latest connection owns the device; only a change is published. */
    method OnDeviceConnected(id: nat, mac: Mac)
      requires Valid()
      modifies this
      ensures Valid() && log == old(log) + [Connected(id, mac)] && repr == old(repr)
    {
      ghost var c := Connected(id, mac);
      hide Devices, Transitions, RingsHold, OnlyObserved;
      AppendStep(log, c);
      NoObservation(histories, repr, capacity, log, c);
      var device := DeviceOf(devices, mac);
      var changed := !device.connected;
      devices := devices[mac := device.(connectionID := id, connected := true, transport := TRANSPORT_TCP)];
      if changed {
        published := published + [Transition(mac, id, true)];
      }
      log := log + [c];
    }

    /** Only the connection that owns the device can disconnect it. */
    method OnDeviceDisconnected(id: nat, mac: Mac)
      requires Valid()
      modifies this
      ensures Valid() && log == old(log) + [Disconnected(id, mac)] && repr == old(repr)
    {
      hide Devices, Transitions, RingsHold, OnlyObserved;
      AppendStep(log, Disconnected(id, mac));
      NoObservation(histories, repr, capacity, log, Disconnected(id, mac));
      var changed := mac in devices && devices[mac].connected && devices[mac].connectionID == id;
      if changed {
        devices := devices[mac := devices[mac].(connectionID := 0, connected := false)];
        published := published + [Transition(mac, id, false)];
      }
      log := log + [Disconnected(id, mac)];
    }

    method OnSensorObservation(mac: Mac, sensorType: Byte, transport: Byte, sample: Sample)
      requires Valid()
      modifies this, repr
      ensures Valid() && log == old(log) + [Observed(mac, sensorType, transport, sample)]
      ensures fresh(repr - old(repr))
    {
      ghost var c := Observed(mac, sensorType, transport, sample);
      AppendStep(log, c);
      AppendSamples(log, c);
      hide Devices, Transitions, SamplesOf, RingsHold;
      devices := devices[mac := DeviceOf(devices, mac).(transport := transport, lastSeenAt := sample.timestamp)];
      histories, repr := EnsureRing(histories, repr, capacity, log, (mac, sensorType));
      AppendSample(histories, repr, capacity, log, c, (mac, sensorType), sample);
      log := log + [c];
    }

    /** Readings returns the last samples of exactly the sensor asked for, and
        finds it exactly when that sensor was ever observed. */
    method Readings(mac: Mac, sensorType: Byte) returns (samples: seq<Sample>, found: bool)
      requires Valid()
      ensures found <==> SamplesOf(log, mac, sensorType) != []
      ensures samples == Last(SamplesOf(log, mac, sensorType), capacity)
    {
      if (mac, sensorType) !in histories {
        return [], false;
      }
      samples := histories[(mac, sensorType)].Snapshot();
      found := true;
    }
  }
}
