/** What a message means under a configuration snapshot: the data writes it
    stands for, and the live router that issues them (sensor-server/router.go). */
module Routing {
  import opened Words
  import opened Results
  import opened Protocol
  import opened QuarantineCodec

  datatype Device = Device(floor: nat, room: nat)
  datatype SensorDefinition = SensorDefinition(sensorType: Byte, unit: nat)
  datatype Snapshot = Snapshot(devices: map<Mac, Device>, sensors: map<Byte, SensorDefinition>)
  datatype DataWrite = DataWrite(floor: nat, room: nat, sensorType: Byte, timestamp: Int64, value: Int32)

  /** What the router tells its observer about a record. */
  datatype Observation = Observation(
    mac: Mac, floor: nat, room: nat, transport: Byte, sensorType: Byte, unit: nat, timestamp: Int64, value: Int32)

  predicate Known(snapshot: Snapshot, u: UnknownMessage)
  {
    u.message.header.mac in snapshot.devices
  }

  /** The writes for the configured sensors among some records, in order. */
  function RecordWrites(snapshot: Snapshot, device: Device, timestamp: Int64,
                        records: seq<SensorRecord>): (ws: seq<DataWrite>)
  {
    if records == [] then []
    else
      var r := records[0];
      var rest := RecordWrites(snapshot, device, timestamp, records[1..]);
      if r.sensorType in snapshot.sensors
      then [DataWrite(device.floor, device.room, snapshot.sensors[r.sensorType].sensorType, timestamp, r.value)] + rest
      else rest
  }

  function MessageWrites(snapshot: Snapshot, u: UnknownMessage): (ws: seq<DataWrite>)
  {
    if Known(snapshot, u)
    then RecordWrites(snapshot, snapshot.devices[u.message.header.mac], u.timestamp, u.message.sensors)
    else []
  }

  lemma {:induction false} RecordWritesConcat(snapshot: Snapshot, device: Device, timestamp: Int64,
                                              a: seq<SensorRecord>, b: seq<SensorRecord>)
    ensures RecordWrites(snapshot, device, timestamp, a + b) ==
            RecordWrites(snapshot, device, timestamp, a) + RecordWrites(snapshot, device, timestamp, b)
  {
    if a == [] {
      assert [] + b == b;
    } else {
      RecordWritesConcat(snapshot, device, timestamp, a[1..], b);
      assert (a + b)[1..] == a[1..] + b;
    }
  }

  /** The observations of the configured sensors among some records, in order. */
  function RecordObservations(snapshot: Snapshot, device: Device, u: UnknownMessage,
                              records: seq<SensorRecord>): (os: seq<Observation>)
  {
    if records == [] then []
    else
      var r := records[|records| - 1];
      var front := RecordObservations(snapshot, device, u, records[..|records| - 1]);
      if r.sensorType in snapshot.sensors
      then front + [Observation(u.message.header.mac, device.floor, device.room, u.transport, r.sensorType,
                                snapshot.sensors[r.sensorType].unit, u.timestamp, r.value)]
      else front
  }

  function MessageObservations(snapshot: Snapshot, u: UnknownMessage): (os: seq<Observation>)
  {
    if Known(snapshot, u)
    then RecordObservations(snapshot, snapshot.devices[u.message.header.mac], u, u.message.sensors)
    else []
  }

  /** Observers see the records that are written: the same number, in the same
      order, each at the same place and time with the same value, with the
      transport of the message, and under a configured sensor with its unit. */
  lemma ObservedIsWritten(snapshot: Snapshot, u: UnknownMessage, i: nat)
    ensures |MessageObservations(snapshot, u)| == |MessageWrites(snapshot, u)|
    ensures i < |MessageWrites(snapshot, u)| ==>
              Agree(snapshot, u, MessageObservations(snapshot, u)[i], MessageWrites(snapshot, u)[i])
  {
    hide RecordWrites, RecordObservations;
    if Known(snapshot, u) {
      ObservedRecords(snapshot, snapshot.devices[u.message.header.mac], u, u.message.sensors, i);
    }
  }

  predicate Agree(snapshot: Snapshot, u: UnknownMessage, o: Observation, w: DataWrite)
  {
    && o.floor == w.floor && o.room == w.room && o.timestamp == w.timestamp && o.value == w.value
    && o.mac == u.message.header.mac && o.transport == u.transport && o.sensorType in snapshot.sensors
    && o.unit == snapshot.sensors[o.sensorType].unit && w.sensorType == snapshot.sensors[o.sensorType].sensorType
  }

  lemma {:induction false} ObservedRecords(snapshot: Snapshot, device: Device, u: UnknownMessage,
                                           records: seq<SensorRecord>, i: nat)
    ensures |RecordObservations(snapshot, device, u, records)| == |RecordWrites(snapshot, device, u.timestamp, records)|
    ensures i < |RecordWrites(snapshot, device, u.timestamp, records)| ==>
              Agree(snapshot, u, RecordObservations(snapshot, device, u, records)[i],
                    RecordWrites(snapshot, device, u.timestamp, records)[i])
    decreases |records|
  {
    if records == [] {
      NoRecords(snapshot, device, u);
    } else {
      hide RecordWrites, RecordObservations;
      var n := |records| - 1;
      ObservedRecords(snapshot, device, u, records[..n], i);
      NextRecord(snapshot, device, u, records, n);
      assert records[..n + 1] == records;
    }
  }

  /** What a message means, record by record: the configured records in order, each
      written to the floor and room of the device under the configured sensor type,
      and observed under its own type with the configured unit. */
  lemma MessageMeans(snapshot: Snapshot, u: UnknownMessage, i: nat)
    requires u.message.header.mac in snapshot.devices && i < |u.message.sensors|
    requires u.message.sensors[i].sensorType in snapshot.sensors
    ensures var records, device := u.message.sensors, snapshot.devices[u.message.header.mac];
            var k := |set j | 0 <= j < i && records[j].sensorType in snapshot.sensors|;
            && k < |MessageWrites(snapshot, u)| == |MessageObservations(snapshot, u)|
            && |MessageWrites(snapshot, u)| == |set j | 0 <= j < |records| && records[j].sensorType in snapshot.sensors|
            && (var w := MessageWrites(snapshot, u)[k];
                && w.floor == device.floor && w.room == device.room && w.timestamp == u.timestamp
                && w.sensorType == snapshot.sensors[records[i].sensorType].sensorType && w.value == records[i].value)
            && (var o := MessageObservations(snapshot, u)[k];
                && o.mac == u.message.header.mac && o.floor == device.floor && o.room == device.room
                && o.transport == u.transport && o.timestamp == u.timestamp
                && o.sensorType == records[i].sensorType && o.value == records[i].value
                && o.unit == snapshot.sensors[records[i].sensorType].unit)
  {
    var records, device := u.message.sensors, snapshot.devices[u.message.header.mac];
    CountConfigured(snapshot, device, u, records, i);
    CountConfigured(snapshot, device, u, records, |records|);
    NextRecord(snapshot, device, u, records, i);
    WritesPrefix(snapshot, device, u, records, i + 1);
    hide RecordWrites, RecordObservations;
    assert records[..|records|] == records;
  }

  lemma {:induction false} CountConfigured(snapshot: Snapshot, device: Device, u: UnknownMessage,
                                           records: seq<SensorRecord>, i: nat)
    requires i <= |records|
    ensures var n := |set j | 0 <= j < i && records[j].sensorType in snapshot.sensors|;
            && |RecordWrites(snapshot, device, u.timestamp, records[..i])| == n
            && |RecordObservations(snapshot, device, u, records[..i])| == n
  {
    hide RecordWrites, RecordObservations;
    ConfiguredNext(snapshot, records, i);
    if i == 0 {
      NoRecords(snapshot, device, u);
    } else {
      CountConfigured(snapshot, device, u, records, i - 1);
      NextRecord(snapshot, device, u, records, i - 1);
    }
  }

  lemma ConfiguredNext(snapshot: Snapshot, records: seq<SensorRecord>, i: nat)
    requires i <= |records|
    ensures |set j | 0 <= j < i && records[j].sensorType in snapshot.sensors| ==
            if i == 0 then 0
            else |set j | 0 <= j < i - 1 && records[j].sensorType in snapshot.sensors|
                 + if records[i - 1].sensorType in snapshot.sensors then 1 else 0
  {
    var now := set j | 0 <= j < i && records[j].sensorType in snapshot.sensors;
    if i > 0 {
      var before := set j | 0 <= j < i - 1 && records[j].sensorType in snapshot.sensors;
      assert now == before + if records[i - 1].sensorType in snapshot.sensors then {i - 1} else {};
    } else {
      assert |now| == 0;
    }
  }

  lemma {:induction false} WritesPrefix(snapshot: Snapshot, device: Device, u: UnknownMessage,
                                        records: seq<SensorRecord>, i: nat)
    requires i <= |records|
    ensures RecordWrites(snapshot, device, u.timestamp, records[..i]) <=
            RecordWrites(snapshot, device, u.timestamp, records)
    ensures RecordObservations(snapshot, device, u, records[..i]) <= RecordObservations(snapshot, device, u, records)
    decreases |records| - i
  {
    hide RecordWrites, RecordObservations;
    if i == |records| {
      assert records[..i] == records;
    } else {
      NextRecord(snapshot, device, u, records, i);
      WritesPrefix(snapshot, device, u, records, i + 1);
    }
  }

  lemma NoRecords(snapshot: Snapshot, device: Device, u: UnknownMessage)
    ensures RecordWrites(snapshot, device, u.timestamp, []) == [] && RecordObservations(snapshot, device, u, []) == []
  {
  }

  /** The write that one record stands for, if its sensor is configured. */
  function OneWrite(snapshot: Snapshot, device: Device, u: UnknownMessage, r: SensorRecord): (ws: seq<DataWrite>)
  {
    if r.sensorType in snapshot.sensors
    then [DataWrite(device.floor, device.room, snapshot.sensors[r.sensorType].sensorType, u.timestamp, r.value)]
    else []
  }

  function OneObservation(snapshot: Snapshot, device: Device, u: UnknownMessage,
                          r: SensorRecord): (os: seq<Observation>)
  {
    if r.sensorType in snapshot.sensors
    then [Observation(u.message.header.mac, device.floor, device.room, u.transport, r.sensorType,
                      snapshot.sensors[r.sensorType].unit, u.timestamp, r.value)]
    else []
  }

  lemma OneOrNone(snapshot: Snapshot, device: Device, u: UnknownMessage, r: SensorRecord)
    ensures |OneWrite(snapshot, device, u, r)| <= 1
  {
  }

  /** One more record adds its write and its observation if its sensor is
      configured. */
  lemma NextRecord(snapshot: Snapshot, device: Device, u: UnknownMessage, records: seq<SensorRecord>, i: nat)
    requires i < |records|
    ensures RecordWrites(snapshot, device, u.timestamp, records[..i + 1]) ==
            RecordWrites(snapshot, device, u.timestamp, records[..i]) + OneWrite(snapshot, device, u, records[i])
    ensures RecordObservations(snapshot, device, u, records[..i + 1]) ==
            RecordObservations(snapshot, device, u, records[..i]) + OneObservation(snapshot, device, u, records[i])
  {
    RecordWritesConcat(snapshot, device, u.timestamp, records[..i], [records[i]]);
    assert records[..i + 1] == records[..i] + [records[i]];
    assert records[..i + 1][..i] == records[..i];
    NoRecords(snapshot, device, u);
    assert [records[i]][1..] == [];
  }

  /** The writes for a list of messages, unknown ones contributing none. */
  function AllWrites(snapshot: Snapshot, us: seq<UnknownMessage>): (ws: seq<DataWrite>)
  {
    if us == [] then [] else MessageWrites(snapshot, us[0]) + AllWrites(snapshot, us[1..])
  }

  lemma {:induction false} AllWritesConcat(snapshot: Snapshot, a: seq<UnknownMessage>, b: seq<UnknownMessage>)
    ensures AllWrites(snapshot, a + b) == AllWrites(snapshot, a) + AllWrites(snapshot, b)
  {
    hide MessageWrites;
    if a == [] {
      assert [] + b == b;
    } else {
      AllWritesConcat(snapshot, a[1..], b);
      assert (a + b)[1..] == a[1..] + b;
      assert AllWrites(snapshot, a + b) ==
             MessageWrites(snapshot, a[0]) + (AllWrites(snapshot, a[1..]) + AllWrites(snapshot, b));
    }
  }

  /** A sensor data writer: it may refuse a record. */
  class DataSink {
    var attempts: seq<DataWrite>
    var accepted: seq<DataWrite>

    constructor ()
      ensures attempts == [] && accepted == []
    {
      attempts, accepted := [], [];
    }

    method WriteSensorData(w: DataWrite) returns (ok: bool)
      modifies this
      ensures attempts == old(attempts) + [w]
      ensures accepted == if ok then old(accepted) + [w] else old(accepted)
    {
      ok := *;
      attempts := attempts + [w];
      if ok {
        accepted := accepted + [w];
      }
    }
  }

  /** The unknown-message side of the router: it may refuse a message. */
  class UnknownSink {
    var stored: seq<UnknownMessage>

    constructor ()
      ensures stored == []
    {
      stored := [];
    }

    method WriteUnknownMessage(u: UnknownMessage) returns (ok: bool)
      modifies this
      ensures stored == if ok then old(stored) + [u] else old(stored)
    {
      ok := *;
      if ok {
        stored := stored + [u];
      }
    }
  }

  datatype RouterCounters = RouterCounters(
    messages: nat, keepalives: nat, recordsAccepted: nat, recordsRejected: nat,
    unknownDevices: nat, unknownSensors: nat, quarantineFailures: nat, dataEngineFailures: nat)

  class MessageRouter {
    const dataWriter: DataSink
    const unknown: UnknownSink
    const observing: bool
    var snapshot: Snapshot
    var counters: RouterCounters
    var observed: seq<Observation>

    constructor (snapshot: Snapshot, dataWriter: DataSink, unknown: UnknownSink, observing: bool)
      ensures this.snapshot == snapshot && this.dataWriter == dataWriter && this.unknown == unknown
              && this.observing == observing
      ensures counters == RouterCounters(0, 0, 0, 0, 0, 0, 0, 0) && observed == []
    {
      this.snapshot, this.dataWriter, this.unknown, this.observing := snapshot, dataWriter, unknown, observing;
      counters, observed := RouterCounters(0, 0, 0, 0, 0, 0, 0, 0), [];
    }

    /** Replaces the registry's snapshot for the messages to come. */
    method Reload(candidate: Snapshot)
      modifies this`snapshot
      ensures snapshot == candidate
    {
      snapshot := candidate;
    }

    /** One record: shown to the observer and attempted if its sensor is
        configured, and counted once. */
    method RouteRecord(current: Snapshot, device: Device, u: UnknownMessage, record: SensorRecord)
      returns (error: Option<Error>)
      modifies this`counters, this`observed, dataWriter
      ensures var writes := OneWrite(current, device, u, record);
              && dataWriter.attempts == old(dataWriter.attempts) + writes
              && dataWriter.accepted == old(dataWriter.accepted) + (if error.None? then writes else [])
              && (error == Some(UnknownSensor) <==> writes == [])
              && (error.Some? ==> error.value == UnknownSensor || error.value == WriteFailed)
      ensures observed == old(observed) + (if observing then OneObservation(current, device, u, record) else [])
      ensures counters == if error.None? then CountAccepted(old(counters)) else CountRefused(old(counters), error.value)
    {
      if record.sensorType !in current.sensors {
        counters := counters.(unknownSensors := counters.unknownSensors + 1,
                              recordsRejected := counters.recordsRejected + 1);
        return Some(UnknownSensor);
      }
      var sensor := current.sensors[record.sensorType];
      if observing {
        observed := observed + [Observation(u.message.header.mac, device.floor, device.room, u.transport,
                                            record.sensorType, sensor.unit, u.timestamp, record.value)];
      }
      var ok := dataWriter.WriteSensorData(DataWrite(device.floor, device.room, sensor.sensorType, u.timestamp,
                                                     record.value));
      if !ok {
        counters := counters.(dataEngineFailures := counters.dataEngineFailures + 1,
                              recordsRejected := counters.recordsRejected + 1);
        return Some(WriteFailed);
      }
      counters := counters.(recordsAccepted := counters.recordsAccepted + 1);
      return None;
    }

    /** The record loop: every configured record is shown to the observer and
        attempted on the data writer, whatever the writer refuses; each record
        is counted once, and each rejected one gives one error. */
    method RouteRecords(current: Snapshot, device: Device, u: UnknownMessage) returns (errors: seq<Error>)
      modifies this`counters, this`observed, dataWriter
      ensures var writes := RecordWrites(current, device, u.timestamp, u.message.sensors);
              && dataWriter.attempts == old(dataWriter.attempts) + writes
              && observed == old(observed) +
                 (if observing then RecordObservations(current, device, u, u.message.sensors) else [])
              && Tallied(old(counters), counters, errors, |u.message.sensors|, |writes|,
                         |dataWriter.accepted| - |old(dataWriter.accepted)|)
              && (WriteFailed !in errors <==> dataWriter.accepted == old(dataWriter.accepted) + writes)
    {
      hide RecordWrites, RecordObservations, Tallied, OneWrite, OneObservation, CountRefused, CountAccepted;
      NoRecords(current, device, u);
      TallyNone(counters);
      var records := u.message.sensors;
      errors := [];
      var i := 0;
      assert records[..0] == [];
      while i < |records|
        invariant 0 <= i <= |records|
        invariant dataWriter.attempts ==
                  old(dataWriter.attempts) + RecordWrites(current, device, u.timestamp, records[..i])
        invariant observed ==
                  old(observed) + (if observing then RecordObservations(current, device, u, records[..i]) else [])
        invariant Tallied(old(counters), counters, errors, i,
                          |RecordWrites(current, device, u.timestamp, records[..i])|,
                          |dataWriter.accepted| - |old(dataWriter.accepted)|)
        invariant WriteFailed !in errors ==>
                    dataWriter.accepted ==
                      old(dataWriter.accepted) + RecordWrites(current, device, u.timestamp, records[..i])
      {
        NextRecord(current, device, u, records, i);
        TallyNext(old(counters), counters, errors, i, |RecordWrites(current, device, u.timestamp, records[..i])|,
                  |dataWriter.accepted| - |old(dataWriter.accepted)|);
        OneOrNone(current, device, u, records[i]);
        var error := RouteRecord(current, device, u, records[i]);
        if error.Some? {
          errors := errors + [error.value];
        }
        i := i + 1;
      }
      assert records[..i] == records;
      TallyEnd(old(counters), counters, errors, i, |RecordWrites(current, device, u.timestamp, records)|,
               |dataWriter.accepted| - |old(dataWriter.accepted)|);
    }

    /** A message of an unknown device goes to quarantine and nowhere else; a
        message of a known device has exactly its meaning observed and attempted
        on the data writer, in order, whatever the writer refuses. */
    method Route(transport: Byte, timestamp: Int64, message: Message) returns (errors: seq<Error>)
      modifies this`counters, this`observed, dataWriter, unknown
      ensures var u := UnknownMessage(timestamp, transport, message);
              && dataWriter.attempts == old(dataWriter.attempts) + MessageWrites(snapshot, u)
              && observed == old(observed) + (if observing then MessageObservations(snapshot, u) else [])
              && (message.header.mac in snapshot.devices ==>
                    && unknown.stored == old(unknown.stored)
                    && (WriteFailed !in errors <==>
                        dataWriter.accepted == old(dataWriter.accepted) + MessageWrites(snapshot, u)))
              && (message.header.mac !in snapshot.devices ==>
                    && dataWriter.accepted == old(dataWriter.accepted) && MessageWrites(snapshot, u) == []
                    && errors == (if unknown.stored == old(unknown.stored) then [WriteFailed] else [UnknownDevice])
                    && (unknown.stored == old(unknown.stored) || unknown.stored == old(unknown.stored) + [u]))
      ensures var c, known := old(counters), message.header.mac in snapshot.devices;
              var tried := |dataWriter.attempts| - |old(dataWriter.attempts)|;
              var done := |dataWriter.accepted| - |old(dataWriter.accepted)|;
              && 0 <= done <= tried <= |message.sensors|
              && (known ==> |errors| == |message.sensors| - done)
              && counters.messages == c.messages + 1
              && counters.keepalives == c.keepalives + (if |message.sensors| == 0 then 1 else 0)
              && counters.recordsAccepted == c.recordsAccepted + done
              && counters.recordsRejected == c.recordsRejected + (if known then |message.sensors| - done else 0)
              && counters.unknownSensors == c.unknownSensors + (if known then |message.sensors| - tried else 0)
              && counters.dataEngineFailures == c.dataEngineFailures + tried - done
              && counters.unknownDevices == c.unknownDevices + (if known then 0 else 1)
              && counters.quarantineFailures ==
                 c.quarantineFailures + (if !known && unknown.stored == old(unknown.stored) then 1 else 0)
    {
      hide RecordWrites, RecordObservations;
      counters := counters.(messages := counters.messages + 1);
      if |message.sensors| == 0 {
        counters := counters.(keepalives := counters.keepalives + 1);
      }
      var current := snapshot;
      var u := UnknownMessage(timestamp, transport, message);
      if message.header.mac !in current.devices {
        counters := counters.(unknownDevices := counters.unknownDevices + 1);
        var stored := unknown.WriteUnknownMessage(u);
        if !stored {
          counters := counters.(quarantineFailures := counters.quarantineFailures + 1);
          return [WriteFailed];
        }
        return [UnknownDevice];
      }
      errors := RouteRecords(current, current.devices[message.header.mac], u);
    }
  }

  /** The counters and errors after some records, of which some were configured
      and some of those accepted. */
  ghost predicate Tallied(before: RouterCounters, now: RouterCounters, errors: seq<Error>, records: int,
                          configured: int, accepted: int)
  {
    && 0 <= accepted <= configured <= records && |errors| == records - accepted
    && now == before.(recordsAccepted := before.recordsAccepted + accepted,
                      recordsRejected := before.recordsRejected + records - accepted,
                      unknownSensors := before.unknownSensors + records - configured,
                      dataEngineFailures := before.dataEngineFailures + configured - accepted)
    && (WriteFailed in errors <==> accepted < configured) && (UnknownSensor in errors <==> configured < records)
    && forall e :: e in errors ==> e == WriteFailed || e == UnknownSensor
  }

  lemma TallyNone(c: RouterCounters)
    ensures Tallied(c, c, [], 0, 0, 0)
  {
  }

  function CountRefused(c: RouterCounters, error: Error): (r: RouterCounters)
  {
    if error == UnknownSensor then c.(unknownSensors := c.unknownSensors + 1, recordsRejected := c.recordsRejected + 1)
    else c.(dataEngineFailures := c.dataEngineFailures + 1, recordsRejected := c.recordsRejected + 1)
  }

  function CountAccepted(c: RouterCounters): (r: RouterCounters)
  {
    c.(recordsAccepted := c.recordsAccepted + 1)
  }

  /** One more record: not configured, refused by the data writer, or accepted. */
  lemma TallyNext(before: RouterCounters, now: RouterCounters, errors: seq<Error>, records: int, configured: int,
                  accepted: int)
    requires Tallied(before, now, errors, records, configured, accepted)
    ensures Tallied(before, CountRefused(now, UnknownSensor), errors + [UnknownSensor], records + 1, configured,
                    accepted)
    ensures Tallied(before, CountRefused(now, WriteFailed), errors + [WriteFailed], records + 1, configured + 1,
                    accepted)
    ensures Tallied(before, CountAccepted(now), errors, records + 1, configured + 1, accepted + 1)
  {
  }

  lemma TallyEnd(before: RouterCounters, now: RouterCounters, errors: seq<Error>, records: int, configured: int,
                 accepted: int)
    requires Tallied(before, now, errors, records, configured, accepted)
    ensures WriteFailed in errors <==> accepted < configured
  {
  }
}
