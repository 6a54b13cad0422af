/** The wire protocol of sensor-server/protocol.go: a 16-byte header and a
    payload of four-byte sensor records. */
module Protocol {
  import opened Words
  import opened Results
  import opened BinaryBuffer
  import Crc32

  const MESSAGE_MAGIC := 0xF00D
  const HEADER_SIZE := 16
  const RECORD_SIZE := 4
  const MAXIMUM_PAYLOAD := 8192
  const TYPE_SENSOR_DATA := 1
  const LAST_SENSOR_TYPE := 28
  const TRANSPORT_TCP: Byte := 1
  const TRANSPORT_UDP: Byte := 2

  type Word16 = w: int | 0 <= w < 0x1_0000
  type Mac = m: seq<Byte> | |m| == 6 witness [0, 0, 0, 0, 0, 0]

  datatype Header = Header(magic: Word16, kind: Word16, payloadLength: Word16, mac: Mac, checksum: Crc32.Word)
  datatype SensorRecord = SensorRecord(sensorType: Byte, value: Int32)
  datatype Message = Message(header: Header, payload: seq<Byte>, sensors: seq<SensorRecord>)

  /** The header fields at their offsets. */
  function HeaderFields(data: seq<Byte>): (h: Header)
    requires |data| == HEADER_SIZE
  {
    Pow256Values();
    Header(LeValue(data[0..2]), LeValue(data[2..4]), LeValue(data[4..6]), data[6..12], LeValue(data[12..16]))
  }

  function HeaderBytes(h: Header): (s: seq<Byte>)
    ensures |s| == HEADER_SIZE
  {
    Le(2, h.magic) + Le(2, h.kind) + Le(2, h.payloadLength) + h.mac + Le(4, h.checksum)
  }

  lemma HeaderRoundTrip(h: Header)
    ensures HeaderFields(HeaderBytes(h)) == h
  {
    hide Le, LeValue, Pow256;
    var s := HeaderBytes(h);
    Pow256Values();
    LeRoundTrip(2, h.magic);
    LeRoundTrip(2, h.kind);
    LeRoundTrip(2, h.payloadLength);
    LeRoundTrip(4, h.checksum);
    var a, b, c := Le(2, h.magic), Le(2, h.kind), Le(2, h.payloadLength);
    var front, back := a + b + c, h.mac + Le(4, h.checksum);
    Parts(a, b, c);
    Parts([], front, back);
    assert s == [] + front + back;
    assert s == front + h.mac + Le(4, h.checksum);
    Parts(front, h.mac, Le(4, h.checksum));
    Slice(s, 0, 6, 0, 2);
    Slice(s, 0, 6, 2, 4);
    Slice(s, 0, 6, 4, 6);
  }

  lemma HeaderInverse(data: seq<Byte>)
    requires |data| == HEADER_SIZE
    ensures HeaderBytes(HeaderFields(data)) == data
  {
    LeInverse(data[0..2]);
    LeInverse(data[2..4]);
    LeInverse(data[4..6]);
    LeInverse(data[12..16]);
    assert data == data[0..2] + data[2..4] + data[4..6] + data[6..12] + data[12..16];
  }

  function DecodeHeader(data: seq<Byte>): (r: Result<Header>)
    ensures r.Ok? ==>
              |data| == HEADER_SIZE && r.value.magic == MESSAGE_MAGIC && r.value.payloadLength <= MAXIMUM_PAYLOAD
  {
    if |data| != HEADER_SIZE then Err(UnexpectedEndOfFile)
    else
      var h := HeaderFields(data);
      if h.magic != MESSAGE_MAGIC then Err(InvalidMagic)
      else if h.payloadLength > MAXIMUM_PAYLOAD then Err(PayloadTooLarge)
      else Ok(h)
  }

  /** Sensor identifiers above the last defined one become the unknown type 0. */
  function ToSensorType(id: Byte): (t: Byte)
    ensures t <= LAST_SENSOR_TYPE
    ensures id <= LAST_SENSOR_TYPE ==> t == id
    ensures id > LAST_SENSOR_TYPE ==> t == 0
  {
    if id > LAST_SENSOR_TYPE then 0 else id
  }

  function RecordAt(payload: seq<Byte>, i: nat): (r: SensorRecord)
    requires 4 * i + 4 <= |payload|
  {
    SensorRecord(ToSensorType(payload[4 * i]), Int24(payload[4 * i + 1..4 * i + 4]))
  }

  function Records(payload: seq<Byte>): (rs: seq<SensorRecord>)
  {
    seq(|payload| / RECORD_SIZE, i requires 0 <= i < |payload| / RECORD_SIZE => RecordAt(payload, i))
  }

  function DecodeMessage(h: Header, payload: seq<Byte>): (r: Result<Message>)
  {
    if |payload| != h.payloadLength then Err(InvalidPayload)
    else if h.kind != TYPE_SENSOR_DATA then Err(UnsupportedType)
    else if h.payloadLength % RECORD_SIZE != 0 then Err(InvalidPayload)
    else if Crc32.Checksum(payload) != h.checksum then Err(ChecksumMismatch)
    else Ok(Message(h, payload, Records(payload)))
  }

  /** The record loop of DecodeMessage: a cursor moves over the payload and
      appends one record per four bytes. */
  method DecodeRecords(payload: array<Byte>) returns (sensors: seq<SensorRecord>)
    requires payload.Length % RECORD_SIZE == 0
    ensures sensors == Records(payload[..])
  {
    var data := new BinaryData(payload, 0);
    sensors := [];
    while |sensors| < payload.Length / RECORD_SIZE
      invariant |sensors| <= payload.Length / RECORD_SIZE
      invariant data.off == 4 * |sensors| && data.buf == payload
      invariant forall i :: 0 <= i < |sensors| ==> sensors[i] == RecordAt(payload[..], i)
      decreases payload.Length / RECORD_SIZE - |sensors|
    {
      ghost var i := |sensors|;
      var id := data.ReadUint8();
      var value := data.ReadInt24();
      assert payload[..][4 * i + 1..4 * i + 4] == payload[4 * i + 1..4 * i + 4];
      sensors := sensors + [SensorRecord(ToSensorType(id), value)];
    }
  }

  function DecodeDatagram(datagram: seq<Byte>): (r: Result<Message>)
  {
    if |datagram| < HEADER_SIZE then Err(DatagramSize)
    else
      var h :- DecodeHeader(datagram[..HEADER_SIZE]);
      if |datagram| != HEADER_SIZE + h.payloadLength then Err(DatagramSize)
      else DecodeMessage(h, datagram[HEADER_SIZE..])
  }

  function EncodeMessage(kind: Word16, mac: Mac, payload: seq<Byte>): (r: Result<seq<Byte>>)
  {
    if |payload| > MAXIMUM_PAYLOAD then Err(PayloadTooLarge)
    else if kind != TYPE_SENSOR_DATA then Err(UnsupportedType)
    else if |payload| % RECORD_SIZE != 0 then Err(InvalidPayload)
    else
      var header := HeaderBytes(Header(MESSAGE_MAGIC, kind, |payload|, mac, Crc32.Checksum(payload)));
      var _ :- DecodeHeader(header);
      Ok(header + payload)
  }

  /** Encoding succeeds exactly on its three conditions, and decoding the
      datagram gives back the type, MAC, payload and the records in it. */
  lemma EncodeThenDecode(kind: Word16, mac: Mac, payload: seq<Byte>)
    ensures EncodeMessage(kind, mac, payload).Ok? <==>
              |payload| <= MAXIMUM_PAYLOAD && kind == TYPE_SENSOR_DATA && |payload| % RECORD_SIZE == 0
    ensures EncodeMessage(kind, mac, payload).Ok? ==>
              DecodeDatagram(EncodeMessage(kind, mac, payload).value) ==
              Ok(Message(Header(MESSAGE_MAGIC, kind, |payload|, mac, Crc32.Checksum(payload)), payload,
                         Records(payload)))
  {
    if |payload| <= MAXIMUM_PAYLOAD && kind == TYPE_SENSOR_DATA && |payload| % RECORD_SIZE == 0 {
      var h := Header(MESSAGE_MAGIC, kind, |payload|, mac, Crc32.Checksum(payload));
      HeaderRoundTrip(h);
      assert (HeaderBytes(h) + payload)[..HEADER_SIZE] == HeaderBytes(h);
      assert (HeaderBytes(h) + payload)[HEADER_SIZE..] == payload;
    }
  }

  /** Every accepted datagram is the encoding of what it decodes to. */
  lemma DecodeThenEncode(datagram: seq<Byte>)
    requires DecodeDatagram(datagram).Ok?
    ensures var m := DecodeDatagram(datagram).value;
            EncodeMessage(m.header.kind, m.header.mac, m.payload) == Ok(datagram)
  {
    var m := DecodeDatagram(datagram).value;
    HeaderInverse(datagram[..HEADER_SIZE]);
    assert m.header == Header(MESSAGE_MAGIC, m.header.kind, |m.payload|, m.header.mac, Crc32.Checksum(m.payload));
    assert datagram == datagram[..HEADER_SIZE] + datagram[HEADER_SIZE..];
    EncodeThenDecode(m.header.kind, m.header.mac, m.payload);
  }

  /** The bytes on the wire: magic 0xF00D, type 1, payload length, MAC and the
      checksum of the payload, each little-endian at its offset, then the payload. */
  lemma WireLayout(kind: Word16, mac: Mac, payload: seq<Byte>)
    requires EncodeMessage(kind, mac, payload).Ok?
    ensures var n, c: int := |payload|, Crc32.Checksum(payload);
            EncodeMessage(kind, mac, payload).value ==
            [0x0D, 0xF0, 1, 0, n % 256, n / 256] + mac
            + [c % 256, c / 0x100 % 256, c / 0x1_0000 % 256, c / 0x100_0000] + payload
  {
    hide Le, Crc32.Checksum;
    var n, c: int := |payload|, Crc32.Checksum(payload);
    Bytes2(0xF00D);
    Bytes2(1);
    Bytes2(n);
    Bytes4(c);
    assert Le(2, 0xF00D) + Le(2, 1) + Le(2, n) == [0x0D, 0xF0, 1, 0, n % 256, n / 256];
  }

  /** Which datagrams are accepted, byte by byte, and what they mean. */
  lemma DatagramMeans(d: seq<Byte>)
    ensures DecodeDatagram(d).Ok? <==>
              && |d| >= 16 && d[0] == 0x0D && d[1] == 0xF0 && d[2] == 1 && d[3] == 0
              && (var low: int, high: int := d[4], d[5];
                  low + 256 * high <= 8192 && (low + 256 * high) % 4 == 0 && |d| == 16 + low + 256 * high)
              && (var a: int, b: int, c: int, e: int := d[12], d[13], d[14], d[15];
                  Crc32.Checksum(d[16..]) == a + 0x100 * b + 0x1_0000 * c + 0x100_0000 * e)
    ensures DecodeDatagram(d).Ok? ==>
              var m := DecodeDatagram(d).value;
              m.header.mac == d[6..12] && m.payload == d[16..] && m.sensors == Records(d[16..])
  {
    hide LeValue, Crc32.Checksum, Records;
    if |d| >= 16 {
      var h := d[..16];
      Value2(h[0..2]);
      Value2(h[2..4]);
      Value2(h[4..6]);
      Value4(h[12..16]);
    }
  }

  /** Why a datagram is refused, in the order of the tests. */
  lemma DatagramErrors(d: seq<Byte>)
    ensures |d| < 16 ==> DecodeDatagram(d) == Err(DatagramSize)
    ensures |d| >= 16 && !(d[0] == 0x0D && d[1] == 0xF0) ==> DecodeDatagram(d) == Err(InvalidMagic)
    ensures |d| >= 16 && d[0] == 0x0D && d[1] == 0xF0 ==>
              var low: int, high: int := d[4], d[5];
              var n := low + 256 * high;
              && (n > 8192 ==> DecodeDatagram(d) == Err(PayloadTooLarge))
              && (n <= 8192 && |d| != 16 + n ==> DecodeDatagram(d) == Err(DatagramSize))
              && (n <= 8192 && |d| == 16 + n ==>
                    var a: int, b: int, c: int, e: int := d[12], d[13], d[14], d[15];
                    && (!(d[2] == 1 && d[3] == 0) ==> DecodeDatagram(d) == Err(UnsupportedType))
                    && (d[2] == 1 && d[3] == 0 && n % 4 != 0 ==> DecodeDatagram(d) == Err(InvalidPayload))
                    && (d[2] == 1 && d[3] == 0 && n % 4 == 0
                        && Crc32.Checksum(d[16..]) != a + 0x100 * b + 0x1_0000 * c + 0x100_0000 * e ==>
                          DecodeDatagram(d) == Err(ChecksumMismatch)))
  {
    hide LeValue, Crc32.Checksum, Records;
    if |d| >= 16 {
      var h := d[..16];
      Value2(h[0..2]);
      Value2(h[2..4]);
      Value2(h[4..6]);
      Value4(h[12..16]);
    }
  }

  /** What each four bytes of a payload mean: the sensor type, unknown above 28,
      and a signed little-endian 24-bit value. */
  lemma RecordMeans(payload: seq<Byte>, i: nat)
    requires i < |payload| / 4
    ensures |Records(payload)| == |payload| / 4
    ensures var r, t := Records(payload)[i], payload[4 * i];
            var a: int, b: int, c: int := payload[4 * i + 1], payload[4 * i + 2], payload[4 * i + 3];
            && r.sensorType == (if t > 28 then 0 else t)
            && r.value == a + 0x100 * b + 0x1_0000 * (if c < 128 then c else c - 256)
  {
    Int24Means(payload[4 * i + 1..4 * i + 4]);
  }

  ghost predicate IsEncoding(datagram: seq<Byte>)
  {
    exists kind: Word16, mac: Mac, payload: seq<Byte> :: EncodeMessage(kind, mac, payload) == Ok(datagram)
  }

  /** The accepted datagrams are exactly the outputs of EncodeMessage. */
  lemma AcceptedExactlyEncodings(datagram: seq<Byte>)
    ensures DecodeDatagram(datagram).Ok? <==> IsEncoding(datagram)
  {
    if DecodeDatagram(datagram).Ok? {
      DecodeThenEncode(datagram);
    }
    if IsEncoding(datagram) {
      var kind: Word16, mac: Mac, payload: seq<Byte> :| EncodeMessage(kind, mac, payload) == Ok(datagram);
      EncodeThenDecode(kind, mac, payload);
    }
  }

  /** The payload a device builds for a list of readings. */
  function RecordsPayload(rs: seq<SensorRecord>): (p: seq<Byte>)
    requires forall r :: r in rs ==> -0x80_0000 <= r.value < 0x80_0000
    ensures |p| == 4 * |rs|
  {
    if rs == [] then []
    else [rs[0].sensorType] + Int24Bytes(rs[0].value) + RecordsPayload(rs[1..])
  }

  lemma {:induction false} RecordsPayloadAt(rs: seq<SensorRecord>, i: nat)
    requires forall r :: r in rs ==> -0x80_0000 <= r.value < 0x80_0000
    requires i < |rs|
    ensures RecordsPayload(rs)[4 * i] == rs[i].sensorType
    ensures RecordsPayload(rs)[4 * i + 1..4 * i + 4] == Int24Bytes(rs[i].value)
  {
    var p := RecordsPayload(rs);
    var head := [rs[0].sensorType] + Int24Bytes(rs[0].value);
    if i == 0 {
      assert p[1..4] == Int24Bytes(rs[0].value);
    } else {
      RecordsPayloadAt(rs[1..], i - 1);
      assert p[4..] == RecordsPayload(rs[1..]);
      assert p[4 * i + 1..4 * i + 4] == p[4..][4 * (i - 1) + 1..4 * (i - 1) + 4];
      assert p[4 * i] == p[4..][4 * (i - 1)];
    }
  }

  /** Readings of defined sensor types with signed 24-bit values survive the
      payload encoding unchanged, in order. */
  lemma ReadingsRoundTrip(rs: seq<SensorRecord>)
    requires forall r :: r in rs ==> r.sensorType <= LAST_SENSOR_TYPE && -0x80_0000 <= r.value < 0x80_0000
    ensures Records(RecordsPayload(rs)) == rs
  {
    forall i | 0 <= i < |rs|
      ensures RecordAt(RecordsPayload(rs), i) == rs[i]
    {
      RecordsPayloadAt(rs, i);
      Int24RoundTrip(rs[i].value);
    }
  }
}
