/** Entries of the quarantine log: encoding, decoding, the startup scan that
    finds the valid length of a segment, and the reader used by replay
    (sensor-server/quarantine.go). */
module QuarantineCodec {
  import opened Words
  import opened Results
  import opened Protocol
  import opened BinaryBuffer
  import Crc32

  const ENTRY_MAGIC := 0x514D_5347
  const ENTRY_VERSION := 1
  const SCAN_THRESHOLD := 30
  const ENTRY_MINIMUM := 34

  datatype UnknownMessage = UnknownMessage(timestamp: Int64, transport: Byte, message: Message)

  /** The fixed part of an entry, in field order. */
  datatype EntryHead = EntryHead(
    magic: Crc32.Word, version: Word16, crc: Crc32.Word, length: Crc32.Word, timestamp: Int64,
    transport: Byte, reserved: Byte, kind: Word16, mac: Mac, payloadLength: Word16)

  function FrontBytes(h: EntryHead): (s: seq<Byte>)
    ensures |s| == 14
  {
    Le(4, h.magic) + Le(2, h.version) + Le(4, h.crc) + Le(4, h.length)
  }

  function HeadBytes(h: EntryHead): (s: seq<Byte>)
    ensures |s| == ENTRY_MINIMUM
  {
    FrontBytes(h) + Le(8, Unsigned64(h.timestamp)) + [h.transport] + [h.reserved]
    + Le(2, h.kind) + h.mac + Le(2, h.payloadLength)
  }

  function HeadFields(s: seq<Byte>): (h: EntryHead)
    requires |s| == ENTRY_MINIMUM
  {
    Pow256Values();
    EntryHead(LeValue(s[0..4]), LeValue(s[4..6]), LeValue(s[6..10]), LeValue(s[10..14]), Signed64(LeValue(s[14..22])),
              s[22], s[23], LeValue(s[24..26]), s[26..32], LeValue(s[32..34]))
  }

  lemma HeadRoundTrip(h: EntryHead)
    ensures HeadFields(HeadBytes(h)) == h
  {
    hide Le, LeValue, Pow256, FrontBytes;
    var s := HeadBytes(h);
    Pow256Values();
    LeRoundTrip(8, Unsigned64(h.timestamp));
    LeRoundTrip(2, h.kind);
    LeRoundTrip(2, h.payloadLength);
    FrontRoundTrip(h);
    var front := FrontBytes(h);
    var middle := Le(8, Unsigned64(h.timestamp)) + [h.transport] + [h.reserved];
    var back := Le(2, h.kind) + h.mac + Le(2, h.payloadLength);
    assert s == front + middle + back;
    Parts(front, middle, back);
    Parts(Le(8, Unsigned64(h.timestamp)), [h.transport], [h.reserved]);
    Parts(Le(2, h.kind), h.mac, Le(2, h.payloadLength));
    HeadPlaces(s);
    assert s[22..23] == [h.transport] && s[23..24] == [h.reserved];
    assert s[22] == s[22..23][0] && s[23] == s[23..24][0];
  }

  lemma FrontRoundTrip(h: EntryHead)
    ensures var f := FrontBytes(h);
            && LeValue(f[0..4]) == h.magic && LeValue(f[4..6]) == h.version
            && LeValue(f[6..10]) == h.crc && LeValue(f[10..14]) == h.length
  {
    hide Le, LeValue, Pow256;
    var f := FrontBytes(h);
    Pow256Values();
    LeRoundTrip(4, h.magic);
    LeRoundTrip(2, h.version);
    LeRoundTrip(4, h.crc);
    LeRoundTrip(4, h.length);
    var a, b := Le(4, h.magic) + Le(2, h.version), Le(4, h.crc) + Le(4, h.length);
    assert f == a + b + [];
    Parts(a, b, []);
    Parts(Le(4, h.magic), Le(2, h.version), []);
    Parts(Le(4, h.crc), Le(4, h.length), []);
    assert a + [] == a && b + [] == b;
    Slice(f, 0, 6, 0, 4);
    Slice(f, 0, 6, 4, 6);
    Slice(f, 6, 14, 0, 4);
    Slice(f, 6, 14, 4, 8);
  }

  /** The fields of a head, found in its three parts. */
  lemma HeadPlaces(s: seq<Byte>)
    requires |s| == ENTRY_MINIMUM
    ensures var f, m, b := s[0..14], s[14..24], s[24..34];
            && s[0..4] == f[0..4] && s[4..6] == f[4..6] && s[6..10] == f[6..10] && s[10..14] == f[10..14]
            && s[14..22] == m[0..8] && s[22..23] == m[8..9] && s[23..24] == m[9..10]
            && s[24..26] == b[0..2] && s[26..32] == b[2..8] && s[32..34] == b[8..10]
  {
    Slice(s, 0, 14, 0, 4);
    Slice(s, 0, 14, 4, 6);
    Slice(s, 0, 14, 6, 10);
    Slice(s, 0, 14, 10, 14);
    Slice(s, 14, 24, 0, 8);
    Slice(s, 14, 24, 8, 9);
    Slice(s, 14, 24, 9, 10);
    Slice(s, 24, 34, 0, 2);
    Slice(s, 24, 34, 2, 8);
    Slice(s, 24, 34, 8, 10);
  }

  predicate Encodable(u: UnknownMessage)
  {
    && (u.transport == TRANSPORT_TCP || u.transport == TRANSPORT_UDP)
    && |u.message.payload| == u.message.header.payloadLength
    && |u.message.payload| <= MAXIMUM_PAYLOAD
  }

  function EntryHeadOf(crc: Crc32.Word, u: UnknownMessage): (h: EntryHead)
    requires Encodable(u)
  {
    EntryHead(ENTRY_MAGIC, ENTRY_VERSION, crc, ENTRY_MINIMUM + |u.message.payload|, u.timestamp,
              u.transport, 0, u.message.header.kind, u.message.header.mac, |u.message.payload|)
  }

  /** The stored bytes: the checksum is taken with its own field zero. */
  function EntryBytes(u: UnknownMessage): (s: seq<Byte>)
    requires Encodable(u)
    ensures |s| == ENTRY_MINIMUM + |u.message.payload|
  {
    HeadBytes(EntryHeadOf(Crc32.Checksum(HeadBytes(EntryHeadOf(0, u)) + u.message.payload), u)) + u.message.payload
  }

  function EncodeEntry(u: UnknownMessage): (r: Result<seq<Byte>>)
  {
    if Encodable(u) then Ok(EntryBytes(u)) else Err(InvalidQuarantineEntry)
  }

  /** Which messages the encoder accepts. */
  lemma EncodesExactlyWhen(u: UnknownMessage)
    ensures EncodeEntry(u).Ok? <==>
              && (u.transport == 1 || u.transport == 2)
              && |u.message.payload| == u.message.header.payloadLength && |u.message.payload| <= 8192
  {
  }

  function ZeroCrc(encoded: seq<Byte>): (z: seq<Byte>)
    requires |encoded| >= 10
    ensures |z| == |encoded|
  {
    encoded[..6] + Le(4, 0) + encoded[10..]
  }

  /** The checks made on the fixed fields before the checksum. */
  predicate HeadAccepted(h: EntryHead, length: nat)
  {
    && h.magic == ENTRY_MAGIC && h.version == ENTRY_VERSION
    && h.length == length && h.payloadLength <= MAXIMUM_PAYLOAD
    && (h.transport == TRANSPORT_TCP || h.transport == TRANSPORT_UDP)
  }

  /** The stored message is decoded by the protocol decoder under a header
      rebuilt from the entry, with a freshly computed payload checksum. */
  function DecodeContent(h: EntryHead, payload: seq<Byte>): (r: Result<UnknownMessage>)
  {
    var m :- DecodeMessage(Header(MESSAGE_MAGIC, h.kind, h.payloadLength, h.mac, Crc32.Checksum(payload)), payload);
    Ok(UnknownMessage(h.timestamp, h.transport, m))
  }

  /** The payload is sliced out of the entry. A slice expression is bounded by
      the capacity of its operand, not by its length, so a payload length beyond
      the entry takes bytes that lie behind it in the same buffer, and fails
      only at the end of the buffer. */
  function DecodeChecked(h: EntryHead, encoded: seq<Byte>, behind: seq<Byte>): (r: Result<UnknownMessage>)
    requires |encoded| >= ENTRY_MINIMUM
  {
    if Crc32.Checksum(ZeroCrc(encoded)) != h.crc then Err(InvalidQuarantineEntry)
    else if ENTRY_MINIMUM + h.payloadLength > |encoded| + |behind| then Err(OutOfRange)
    else DecodeContent(h, (encoded + behind)[ENTRY_MINIMUM..ENTRY_MINIMUM + h.payloadLength])
  }

  /** Decodes an entry; behind is what its buffer holds after it. */
  function DecodeEntry(encoded: seq<Byte>, behind: seq<Byte> := []): (r: Result<UnknownMessage>)
    ensures r.Ok? ==> |encoded| >= ENTRY_MINIMUM
  {
    if |encoded| < ENTRY_MINIMUM then Err(InvalidQuarantineEntry)
    else
      var h := HeadFields(encoded[..ENTRY_MINIMUM]);
      if !HeadAccepted(h, |encoded|) then Err(InvalidQuarantineEntry) else DecodeChecked(h, encoded, behind)
  }

  /** What the servers hand to quarantine: a message that the protocol decoder
      produced, tagged with one of the two transports. */
  predicate WellFormed(u: UnknownMessage): (w: bool)
    ensures w ==> Encodable(u)
  {
    && Encodable(u)
    && u.message.header.magic == MESSAGE_MAGIC
    && DecodeMessage(u.message.header, u.message.payload) == Ok(u.message)
  }

  lemma HeadCrcField(h: EntryHead, crc: Crc32.Word)
    ensures HeadBytes(h.(crc := crc)) == HeadBytes(h)[..6] + Le(4, crc) + HeadBytes(h)[10..]
  {
    hide Le;
    var a := Le(4, h.magic) + Le(2, h.version);
    var c := Le(4, h.length) + Le(8, Unsigned64(h.timestamp))
           + [h.transport] + [h.reserved] + Le(2, h.kind) + h.mac + Le(2, h.payloadLength);
    assert HeadBytes(h) == a + Le(4, h.crc) + c;
    assert HeadBytes(h.(crc := crc)) == a + Le(4, crc) + c;
  }

  /** Whatever lies behind it, an encoded entry decodes to the message that its
      payload stands for under a rebuilt header. */
  lemma EntryDecodes(u: UnknownMessage, behind: seq<Byte>)
    requires Encodable(u)
    ensures DecodeEntry(EntryBytes(u), behind) == DecodeContent(EntryHeadOf(0, u), u.message.payload)
  {
    hide HeadFields, HeadBytes, Crc32.Checksum, LeValue, Le, DecodeMessage;
    var p := u.message.payload;
    var blank := HeadBytes(EntryHeadOf(0, u));
    var head := EntryHeadOf(Crc32.Checksum(blank + p), u);
    var s := EntryBytes(u);
    HeadRoundTrip(head);
    assert s[..ENTRY_MINIMUM] == HeadBytes(head);
    HeadCrcField(head, 0);
    assert ZeroCrc(s) == blank + p;
    assert (s + behind)[ENTRY_MINIMUM..ENTRY_MINIMUM + |p|] == p;
  }

  lemma EntryRoundTrip(u: UnknownMessage, behind: seq<Byte>)
    requires WellFormed(u)
    ensures DecodeEntry(EntryBytes(u), behind) == Ok(u)
  {
    hide DecodeEntry, EntryBytes, Crc32.Checksum, Records;
    EntryDecodes(u, behind);
  }

  /** The encoder accepts more than the decoder gives back: what it accepts comes
      back unchanged exactly if the protocol decoder produced it. */
  lemma RoundTripExactlyWhen(u: UnknownMessage, behind: seq<Byte>)
    requires Encodable(u)
    ensures DecodeEntry(EntryBytes(u), behind) == Ok(u) <==> WellFormed(u)
    ensures DecodeEntry(EntryBytes(u), behind).Err? <==>
              u.message.header.kind != TYPE_SENSOR_DATA || |u.message.payload| % RECORD_SIZE != 0
  {
    hide DecodeEntry, EntryBytes, Crc32.Checksum, Records;
    EntryDecodes(u, behind);
  }

  /** The length field sits at offset 10 and gives the whole entry. */
  lemma EntryFields(u: UnknownMessage)
    requires Encodable(u)
    ensures LeValue(EntryBytes(u)[0..4]) == ENTRY_MAGIC
    ensures LeValue(EntryBytes(u)[10..14]) == |EntryBytes(u)|
  {
    hide Le, LeValue, HeadBytes, Crc32.Checksum;
    var head := EntryHeadOf(Crc32.Checksum(HeadBytes(EntryHeadOf(0, u)) + u.message.payload), u);
    HeadRoundTrip(head);
    assert EntryBytes(u)[0..4] == HeadBytes(head)[0..4];
    assert EntryBytes(u)[10..14] == HeadBytes(head)[10..14];
  }

  /** The bytes of a stored entry: magic 0x514D5347, version 1, checksum, length,
      timestamp in two's complement, transport, a zero byte, type, MAC and payload
      length, each little-endian at its offset, then the payload. */
  lemma EntryLayout(u: UnknownMessage)
    requires Encodable(u)
    ensures var e, n, k, t: int := EntryBytes(u), |u.message.payload|, u.message.header.kind, u.timestamp;
            && e[0..6] == [0x47, 0x53, 0x4D, 0x51, 1, 0]
            && e[10..14] == [(34 + n) % 256, (34 + n) / 256, 0, 0]
            && e[14..22] ==
               [t % 256, t / 0x100 % 256, t / 0x1_0000 % 256, t / 0x100_0000 % 256,
                t / 0x1_0000_0000 % 256, t / 0x100_0000_0000 % 256,
                t / 0x1_0000_0000_0000 % 256, t / 0x100_0000_0000_0000 % 256]
            && e[22] == u.transport && e[23] == 0 && e[24..26] == [k % 256, k / 256]
            && e[26..32] == u.message.header.mac && e[32..34] == [n % 256, n / 256]
            && e[34..] == u.message.payload
  {
    hide Le, Crc32.Checksum, HeadBytes;
    var n := |u.message.payload|;
    var h := EntryHeadOf(Crc32.Checksum(HeadBytes(EntryHeadOf(0, u)) + u.message.payload), u);
    assert EntryBytes(u) == HeadBytes(h) + u.message.payload;
    hide EntryBytes;
    HeadInParts(h);
    Bytes2(u.message.header.kind);
    Bytes2(n);
    SignedBytes8(u.timestamp);
    HeadThenPayload(HeadBytes(h), u.message.payload);
  }

  lemma HeadThenPayload(s: seq<Byte>, payload: seq<Byte>)
    requires |s| == ENTRY_MINIMUM
    ensures var e := s + payload;
            && e[0..6] == s[0..6] && e[10..14] == s[10..14] && e[14..22] == s[14..22] && e[22] == s[22]
               && e[23] == s[23]
            && e[24..26] == s[24..26] && e[26..32] == s[26..32] && e[32..34] == s[32..34] && e[34..] == payload
  {
    var e := s + payload;
    assert e[0..34] == s;
    Slice(e, 0, 34, 0, 6);
    Slice(e, 0, 34, 10, 14);
    Slice(e, 0, 34, 14, 22);
    Slice(e, 0, 34, 24, 26);
    Slice(e, 0, 34, 26, 32);
    Slice(e, 0, 34, 32, 34);
  }

  /** The stored checksum is that of the entry with its own field zero. */
  lemma EntryChecksum(u: UnknownMessage)
    requires Encodable(u)
    ensures var e := EntryBytes(u);
            var c: int := Crc32.Checksum(e[..6] + [0, 0, 0, 0] + e[10..]);
            e[6..10] == [c % 256, c / 0x100 % 256, c / 0x1_0000 % 256, c / 0x100_0000]
  {
    hide Le, HeadBytes, EntryBytes, Crc32.Checksum;
    var blank, e := HeadBytes(EntryHeadOf(0, u)) + u.message.payload, EntryBytes(u);
    EntrySplice(u);
    HeadCrcField(EntryHeadOf(0, u), 0);
    Bytes4(0);
    assert blank[6..10] == [0, 0, 0, 0] by { BlankField(EntryHeadOf(0, u), u.message.payload); }
    assert e[..6] + [0, 0, 0, 0] + e[10..] == blank;
    Bytes4(Crc32.Checksum(blank));
  }

  lemma BlankField(h: EntryHead, payload: seq<Byte>)
    requires h.crc == 0
    ensures (HeadBytes(h) + payload)[6..10] == [0, 0, 0, 0]
  {
    hide Le;
    Bytes4(0);
    var s, a := HeadBytes(h), Le(4, h.magic) + Le(2, h.version);
    var c := Le(4, h.length) + Le(8, Unsigned64(h.timestamp))
           + [h.transport] + [h.reserved] + Le(2, h.kind) + h.mac + Le(2, h.payloadLength);
    assert s == a + Le(4, 0) + c;
    Parts(a, Le(4, 0), c);
    assert (s + payload)[6..10] == s[6..10];
  }

  /** Which bytes the decoder accepts as an entry, and what it takes from them. */
  lemma EntryMeans(e: seq<Byte>, behind: seq<Byte>)
    ensures DecodeEntry(e, behind).Ok? <==>
              && |e| >= 34 && e[0..6] == [0x47, 0x53, 0x4D, 0x51, 1, 0]
              && LeValue(e[10..14]) == |e| && (e[22] == 1 || e[22] == 2) && e[24] == 1 && e[25] == 0
              && LeValue(e[6..10]) == Crc32.Checksum(e[..6] + [0, 0, 0, 0] + e[10..])
              && (var low: int, high: int := e[32], e[33];
                  var n := low + 256 * high;
                  n <= 8192 && n % 4 == 0 && 34 + n <= |e| + |behind|)
    ensures DecodeEntry(e, behind).Ok? ==>
              var u, n := DecodeEntry(e, behind).value, LeValue(e[32..34]);
              && 34 + n <= |e| + |behind| && u.transport == e[22] && u.message.header.mac == e[26..32]
              && u.message.payload == (e + behind)[34..34 + n]
  {
    hide LeValue, Crc32.Checksum, Records, Le;
    if |e| >= 34 {
      var h := e[..34];
      HeadBytesMean(h);
      Slice(e, 0, 34, 0, 6);
      Slice(e, 0, 34, 10, 14);
      Slice(e, 0, 34, 6, 10);
      Slice(e, 0, 34, 32, 34);
      Slice(e, 0, 34, 26, 32);
      assert e[0..34] == h;
      Bytes4(0);
      assert ZeroCrc(e) == e[..6] + [0, 0, 0, 0] + e[10..];
    }
  }

  lemma HeadBytesMean(s: seq<Byte>)
    requires |s| == ENTRY_MINIMUM
    ensures var h := HeadFields(s);
            && (h.magic == ENTRY_MAGIC && h.version == ENTRY_VERSION <==> s[0..6] == [0x47, 0x53, 0x4D, 0x51, 1, 0])
            && (h.kind == TYPE_SENSOR_DATA <==> s[24] == 1 && s[25] == 0)
            && (var low: int, high: int := s[32], s[33]; h.payloadLength == low + 256 * high)
  {
    hide LeValue, Le;
    Value4(s[0..4]);
    Value2(s[4..6]);
    Value2(s[24..26]);
    Value2(s[32..34]);
    assert s[0..6] == s[0..4] + s[4..6];
  }

  lemma HeadInParts(h: EntryHead)
    requires h.magic == ENTRY_MAGIC && h.version == ENTRY_VERSION && h.length < 0x1_0000
    ensures var s := HeadBytes(h);
            && s[0..6] == [0x47, 0x53, 0x4D, 0x51, 1, 0] && s[10..14] == [h.length % 256, h.length / 256, 0, 0]
            && s[14..22] == Le(8, Unsigned64(h.timestamp)) && s[22] == h.transport && s[23] == h.reserved
            && s[24..26] == Le(2, h.kind) && s[26..32] == h.mac && s[32..34] == Le(2, h.payloadLength)
  {
    hide Le;
    var s, front := HeadBytes(h), FrontBytes(h);
    var middle := Le(8, Unsigned64(h.timestamp)) + [h.transport] + [h.reserved];
    var back := Le(2, h.kind) + h.mac + Le(2, h.payloadLength);
    assert s == front + middle + back by { HeadSplit(h); }
    Parts(front, middle, back);
    Parts(Le(8, Unsigned64(h.timestamp)), [h.transport], [h.reserved]);
    Parts(Le(2, h.kind), h.mac, Le(2, h.payloadLength));
    HeadPlaces(s);
    assert s[22] == s[22..23][0] && s[23] == s[23..24][0];
    FrontMeans(h);
    Slice(s, 0, 14, 0, 6);
  }

  lemma HeadSplit(h: EntryHead)
    ensures HeadBytes(h) == FrontBytes(h) + (Le(8, Unsigned64(h.timestamp)) + [h.transport] + [h.reserved])
                            + (Le(2, h.kind) + h.mac + Le(2, h.payloadLength))
  {
    hide Le, FrontBytes;
  }

  lemma FrontMeans(h: EntryHead)
    requires h.magic == ENTRY_MAGIC && h.version == ENTRY_VERSION && h.length < 0x1_0000
    ensures var f := FrontBytes(h);
            f[0..6] == [0x47, 0x53, 0x4D, 0x51, 1, 0] && f[10..14] == [h.length % 256, h.length / 256, 0, 0]
  {
    hide Le;
    var f := FrontBytes(h);
    Bytes4(ENTRY_MAGIC);
    Bytes2(ENTRY_VERSION);
    Bytes4(h.length);
    var a, b, c := Le(4, h.magic) + Le(2, h.version), Le(4, h.crc), Le(4, h.length);
    assert f == a + b + c;
    Parts(a, b, c);
  }

  // ---- scanning and reading a segment ----

  /** The length of the valid part of a buffer of which the first size bytes are
      the file, or the error that stops startup. */
  function ScanBuffer(buffer: seq<Byte>, size: nat): (r: Result<nat>)
    requires size <= |buffer|
    ensures r.Ok? ==> r.value <= size
    decreases size
  {
    if size < SCAN_THRESHOLD then Ok(0)
    else if LeValue(buffer[0..4]) != ENTRY_MAGIC then Err(InvalidQuarantineEntry)
    else
      var length := LeValue(buffer[10..14]);
      if length < ENTRY_MINIMUM || length > ENTRY_MINIMUM + MAXIMUM_PAYLOAD then Err(InvalidQuarantineEntry)
      else if length > size then Ok(0)
      else
        var _ :- DecodeEntry(buffer[..length], buffer[length..]);
        After(length, ScanBuffer(buffer[length..], size - length))
  }

  function After(length: nat, r: Result<nat>): (a: Result<nat>)
  {
    match r case Ok(n) => Ok(length + n) case Err(x) => Err(x)
  }

  /** The scan of a file; slack is what its buffer holds behind it. */
  function Scan(data: seq<Byte>, slack: seq<Byte> := []): (r: Result<nat>)
    ensures r.Ok? ==> r.value <= |data|
  {
    ScanBuffer(data + slack, |data|)
  }

  function Prepend(es: seq<UnknownMessage>, r: Result<seq<UnknownMessage>>): (p: Result<seq<UnknownMessage>>)
  {
    match r case Ok(more) => Ok(es + more) case Err(x) => Err(x)
  }

  lemma PrependTwice(a: seq<UnknownMessage>, b: seq<UnknownMessage>, r: Result<seq<UnknownMessage>>)
    ensures Prepend(a, Prepend(b, r)) == Prepend(a + b, r) && Prepend([], r) == r
  {
    if r.Ok? {
      assert a + (b + r.value) == a + b + r.value;
      assert [] + r.value == r.value;
    }
  }

  /** The reader trusts the length fields; its slices too are bounded only by
      the buffer, and it stops when the file has no bytes left. */
  function ReadBuffer(buffer: seq<Byte>, size: int): (r: Result<seq<UnknownMessage>>)
    decreases |buffer|
  {
    if size <= 0 then Ok([])
    else if |buffer| < 14 || LeValue(buffer[10..14]) > |buffer| then Err(OutOfRange)
    else
      var length := LeValue(buffer[10..14]);
      var entry :- DecodeEntry(buffer[..length], buffer[length..]);
      Prepend([entry], ReadBuffer(buffer[length..], size - length))
  }

  function ReadEntries(data: seq<Byte>, slack: seq<Byte> := []): (r: Result<seq<UnknownMessage>>)
  {
    ReadBuffer(data + slack, |data|)
  }

  /** The payload that an entry claims ends inside the buffer. */
  predicate PayloadFits(entry: seq<Byte>, behind: nat)
    requires |entry| >= ENTRY_MINIMUM
  {
    ENTRY_MINIMUM + LeValue(entry[32..34]) <= |entry| + behind
  }

  /** The payloads that the entries of a scanned file claim end inside it, or in
      the given number of bytes behind it. */
  predicate PayloadsFit(data: seq<Byte>, behind: nat)
    decreases |data|
  {
    |data| < ENTRY_MINIMUM || LeValue(data[10..14]) < ENTRY_MINIMUM || LeValue(data[10..14]) > |data|
    || (PayloadFits(data[..LeValue(data[10..14])], |data| - LeValue(data[10..14]) + behind)
        && PayloadsFit(data[LeValue(data[10..14])..], behind))
  }

  /** Whether an entry decodes depends on what lies behind it only through the
      room it leaves, since the payload checksum is computed afresh. */
  lemma DecodesWithRoom(entry: seq<Byte>, behind: seq<Byte>, other: seq<Byte>)
    requires DecodeEntry(entry, behind).Ok?
    ensures DecodeEntry(entry, other).Ok? <==> PayloadFits(entry, |other|)
    ensures PayloadFits(entry, |behind|)
  {
    hide Crc32.Checksum, ZeroCrc, LeValue, Records;
    assert entry[..ENTRY_MINIMUM][32..34] == entry[32..34];
  }

  /** For every byte string the scan accepts, whatever buffers it is loaded into:
      reading the truncated file stays in bounds and decodes exactly if the
      payloads its entries claim end inside the reader's buffer, and then
      scanning it again keeps all of it. */
  lemma {:induction false} ScanThenRead(data: seq<Byte>, slack: seq<Byte>, reader: seq<Byte>)
    requires Scan(data, slack).Ok?
    ensures var cut := data[..Scan(data, slack).value];
            && (ReadEntries(cut, reader).Ok? <==> PayloadsFit(cut, |reader|))
            && (PayloadsFit(cut, |reader|) ==> Scan(cut, reader) == Scan(data, slack))
    decreases |data|
  {
    hide DecodeEntry, LeValue, PayloadFits, Scan, ReadEntries;
    ScanFront(data, slack);
    var n := Scan(data, slack).value;
    var cut := data[..n];
    if n > 0 {
      var length := LeValue(data[10..14]);
      var rest := data[length..];
      ScanThenRead(rest, slack, reader);
      assert cut[..length] == data[..length] && cut[length..] == rest[..n - length];
      assert cut[10..14] == data[10..14] && cut[0..4] == data[0..4];
      DecodesWithRoom(data[..length], rest + slack, cut[length..] + reader);
      ReadFront(cut, reader);
      ScanFront(cut, reader);
    } else {
      ScanFront(cut, reader);
      NothingToRead(reader);
    }
  }

  lemma {:induction false} MoreRoomFits(data: seq<Byte>, behind: nat, more: nat)
    requires PayloadsFit(data, behind) && behind <= more
    ensures PayloadsFit(data, more)
    decreases |data|
  {
    hide LeValue;
    if EntryInside(data) {
      MoreRoomFits(data[LeValue(data[10..14])..], behind, more);
    }
  }

  /** What the file alone tells: a file that the scan accepts can be read in
      every buffer exactly if the payloads its entries claim end inside it. */
  lemma ReadableInEveryBuffer(data: seq<Byte>, slack: seq<Byte>)
    requires Scan(data, slack).Ok?
    ensures var cut := data[..Scan(data, slack).value];
            (forall reader: seq<Byte> :: ReadEntries(cut, reader).Ok?) <==> PayloadsFit(cut, 0)
  {
    hide Scan, ReadEntries, PayloadsFit;
    var cut := data[..Scan(data, slack).value];
    ScanThenRead(data, slack, []);
    if PayloadsFit(cut, 0) {
      forall reader: seq<Byte>
        ensures ReadEntries(cut, reader).Ok?
      {
        MoreRoomFits(cut, 0, |reader|);
        ScanThenRead(data, slack, reader);
      }
    }
  }

  ghost predicate EntryInside(data: seq<Byte>)
  {
    |data| >= ENTRY_MINIMUM && ENTRY_MINIMUM <= LeValue(data[10..14]) <= |data|
  }

  /** One round of the scan: below 30 bytes the rest is torn; otherwise the magic
      must be right and the length between 34 and 34 + 8192, and a length beyond
      the file is a torn entry. */
  lemma ScanFront(data: seq<Byte>, slack: seq<Byte>)
    ensures |data| < 30 ==> Scan(data, slack) == Ok(0)
    ensures |data| >= 30 && LeValue(data[0..4]) != 0x514D_5347 ==> Scan(data, slack).Err?
    ensures |data| >= 30 && LeValue(data[0..4]) == 0x514D_5347 ==>
              var length := LeValue(data[10..14]);
              if length < 34 || length > 34 + 8192 then Scan(data, slack).Err?
              else if length > |data| then Scan(data, slack) == Ok(0)
              else if DecodeEntry(data[..length], data[length..] + slack).Err? then Scan(data, slack).Err?
              else Scan(data, slack) == After(length, Scan(data[length..], slack))
  {
    hide DecodeEntry, LeValue;
    var buffer := data + slack;
    if |data| >= SCAN_THRESHOLD {
      assert buffer[10..14] == data[10..14] && buffer[0..4] == data[0..4];
      var length := LeValue(data[10..14]);
      if length <= |data| {
        assert buffer[..length] == data[..length] && buffer[length..] == data[length..] + slack;
      }
    }
  }

  /** One round of the reader, at an entry that lies inside the file. */
  lemma ReadFront(data: seq<Byte>, slack: seq<Byte>)
    requires EntryInside(data)
    ensures var length := LeValue(data[10..14]);
            var entry := DecodeEntry(data[..length], data[length..] + slack);
            ReadEntries(data, slack) ==
            if entry.Ok? then Prepend([entry.value], ReadEntries(data[length..], slack)) else Err(entry.error)
  {
    hide DecodeEntry, LeValue;
    var buffer, length := data + slack, LeValue(data[10..14]);
    assert buffer[10..14] == data[10..14] && buffer[..length] == data[..length]
           && buffer[length..] == data[length..] + slack;
  }

  lemma NothingToRead(slack: seq<Byte>)
    ensures ReadEntries([], slack) == Ok([])
  {
  }

  ghost predicate AllWellFormed(es: seq<UnknownMessage>)
  {
    forall i :: 0 <= i < |es| ==> WellFormed(es[i])
  }

  ghost function SegmentBytes(es: seq<UnknownMessage>): (s: seq<Byte>)
    requires AllWellFormed(es)
  {
    if es == [] then [] else EntryBytes(es[0]) + SegmentBytes(es[1..])
  }

  lemma {:induction false} SegmentBytesAppend(es: seq<UnknownMessage>, u: UnknownMessage)
    requires WellFormed(u) && AllWellFormed(es)
    ensures SegmentBytes(es + [u]) == SegmentBytes(es) + EntryBytes(u)
  {
    hide WellFormed, EntryBytes;
    if es == [] {
      assert SegmentBytes([u]) == EntryBytes(u) + SegmentBytes([u][1..]);
    } else {
      SegmentBytesAppend(es[1..], u);
      assert (es + [u])[1..] == es[1..] + [u];
      assert SegmentBytes(es + [u]) == EntryBytes(es[0]) + (SegmentBytes(es[1..]) + EntryBytes(u));
    }
  }

  /** Bytes that a crash can leave of one interrupted write. */
  ghost predicate Torn(t: seq<Byte>)
  {
    t == [] || exists u :: WellFormed(u) && |t| < |EntryBytes(u)| && t == EntryBytes(u)[..|t|]
  }

  lemma ScanTorn(t: seq<Byte>, slack: seq<Byte>)
    requires Torn(t)
    ensures Scan(t, slack) == Ok(0)
  {
    hide EntryBytes, WellFormed, LeValue, DecodeEntry, Scan;
    ScanFront(t, slack);
    if |t| >= SCAN_THRESHOLD {
      var u :| WellFormed(u) && |t| < |EntryBytes(u)| && t == EntryBytes(u)[..|t|];
      EntryFields(u);
      assert t[0..4] == EntryBytes(u)[0..4] && t[10..14] == EntryBytes(u)[10..14];
    }
  }

  /** A whole entry at the front is passed by the scan and decoded by the reader. */
  lemma WholeEntryAtFront(head: seq<Byte>, e: UnknownMessage, rest: seq<Byte>, slack: seq<Byte>)
    requires DecodeEntry(head, rest + slack) == Ok(e)
    requires ENTRY_MINIMUM <= |head| <= ENTRY_MINIMUM + MAXIMUM_PAYLOAD
    requires LeValue(head[0..4]) == ENTRY_MAGIC && LeValue(head[10..14]) == |head|
    ensures Scan(head + rest, slack) ==
            After(|head|, Scan(rest, slack))
    ensures ReadEntries(head + rest, slack) == Prepend([e], ReadEntries(rest, slack))
  {
    hide DecodeEntry, LeValue, ReadEntries, Scan;
    var data := head + rest;
    assert data[0..4] == head[0..4] && data[10..14] == head[10..14];
    assert data[..|head|] == head && data[|head|..] == rest;
    ReadFront(data, slack);
    ScanFront(data, slack);
  }

  lemma EntryAtFront(e: UnknownMessage, rest: seq<Byte>, slack: seq<Byte>)
    requires WellFormed(e)
    ensures Scan(EntryBytes(e) + rest, slack) ==
            After(|EntryBytes(e)|, Scan(rest, slack))
    ensures ReadEntries(EntryBytes(e) + rest, slack) == Prepend([e], ReadEntries(rest, slack))
  {
    hide WellFormed, EntryBytes, DecodeEntry, LeValue, Scan, ReadEntries;
    EntryRoundTrip(e, rest + slack);
    EntryFields(e);
    WholeEntryAtFront(EntryBytes(e), e, rest, slack);
  }

  /** Torn-tail recovery: after any list of entries and any torn remainder the
      scan stops exactly behind the last whole entry, and what remains reads
      back as exactly that list, whatever the buffers hold behind the file. */
  lemma {:induction false} TornTailRecovery(es: seq<UnknownMessage>, t: seq<Byte>, slack: seq<Byte>)
    requires Torn(t) && AllWellFormed(es)
    ensures Scan(SegmentBytes(es) + t, slack) == Ok(|SegmentBytes(es)|)
    ensures ReadEntries(SegmentBytes(es), slack) == Ok(es)
    decreases |es|
  {
    hide WellFormed, EntryBytes, Torn, Scan, ReadEntries;
    if es == [] {
      assert [] + t == t;
      ScanTorn(t, slack);
      assert ReadEntries([], slack) == Ok([]) by { NothingToRead(slack); }
    } else {
      var head, tail := EntryBytes(es[0]), SegmentBytes(es[1..]);
      TornTailRecovery(es[1..], t, slack);
      EntryAtFront(es[0], tail + t, slack);
      EntryAtFront(es[0], tail, slack);
      assert head + tail + t == head + (tail + t);
      assert es == [es[0]] + es[1..];
    }
  }

  /** The scan passes all whole entries and goes on with what follows them. */
  lemma {:induction false} ScanBehind(es: seq<UnknownMessage>, rest: seq<Byte>, slack: seq<Byte>)
    requires AllWellFormed(es)
    ensures Scan(SegmentBytes(es) + rest, slack) == After(|SegmentBytes(es)|, Scan(rest, slack))
    decreases |es|
  {
    hide WellFormed, EntryBytes, Scan, ReadEntries;
    if es == [] {
      assert [] + rest == rest;
    } else {
      var head, tail := EntryBytes(es[0]), SegmentBytes(es[1..]);
      ScanBehind(es[1..], rest, slack);
      EntryAtFront(es[0], tail + rest, slack);
      assert head + tail + rest == head + (tail + rest);
    }
  }

  /** What an entry does to the next startup if its message did not come from the
      protocol decoder: the encoder accepts it, and the scan then refuses the
      whole segment exactly if the type is not sensor data or the payload is not
      a whole number of records. */
  lemma ForeignEntry(es: seq<UnknownMessage>, u: UnknownMessage, slack: seq<Byte>)
    requires AllWellFormed(es) && Encodable(u)
    ensures Scan(SegmentBytes(es) + EntryBytes(u), slack).Err? <==>
              u.message.header.kind != TYPE_SENSOR_DATA || |u.message.payload| % RECORD_SIZE != 0
  {
    hide EntryBytes, SegmentBytes, DecodeEntry, LeValue, Scan, AllWellFormed;
    var s := EntryBytes(u);
    ScanBehind(es, s, slack);
    EntryFields(u);
    ScanFront(s, slack);
    assert s[..|s|] == s && s[|s|..] == [];
    ScanFront([], slack);
    RoundTripExactlyWhen(u, [] + slack);
  }

  /** The files of the writer never hold such a payload length. */
  lemma {:induction false} OwnPayloadsFit(es: seq<UnknownMessage>)
    requires AllWellFormed(es)
    ensures PayloadsFit(SegmentBytes(es), 0)
  {
    hide WellFormed, Scan, ReadEntries, SegmentBytes, PayloadsFit, Torn;
    assert Torn([]) by { NoTear(); }
    TornTailRecovery(es, [], []);
    assert SegmentBytes(es) + [] == SegmentBytes(es);
    assert SegmentBytes(es)[..|SegmentBytes(es)|] == SegmentBytes(es);
    ScanThenRead(SegmentBytes(es), [], []);
  }

  lemma NoTear()
    ensures Torn([])
  {
  }

  /** A 34-byte entry with a valid checksum that claims a payload of p bytes. */
  function Overreaching(p: nat): (s: seq<Byte>)
    requires p <= MAXIMUM_PAYLOAD
    ensures |s| == ENTRY_MINIMUM
  {
    var h := OverreachingHead(p);
    HeadBytes(h.(crc := Crc32.Checksum(HeadBytes(h))))
  }

  function OverreachingHead(p: nat): (h: EntryHead)
    requires p <= MAXIMUM_PAYLOAD
  {
    EntryHead(ENTRY_MAGIC, ENTRY_VERSION, 0, ENTRY_MINIMUM, 0, TRANSPORT_TCP, 0, TYPE_SENSOR_DATA,
              [0, 0, 0, 0, 0, 0], p)
  }

  /** The scan accepts this entry when a torn write and the spare room of its
      buffer make up the claimed payload, truncates the file to the entry, and
      the reader then runs out of a buffer with less spare room. */
  lemma AcceptedButUnreadable(p: nat, torn: seq<Byte>, slack: seq<Byte>, reader: seq<Byte>)
    requires 0 < p <= MAXIMUM_PAYLOAD && p % RECORD_SIZE == 0
    requires Torn(torn) && |torn| + |slack| >= p > |reader|
    ensures Scan(Overreaching(p) + torn, slack) == Ok(ENTRY_MINIMUM)
    ensures ReadEntries(Overreaching(p), reader) == Err(OutOfRange)
  {
    hide DecodeEntry, LeValue, Scan, ReadEntries, Torn, Overreaching;
    var s := Overreaching(p);
    var data := s + torn;
    OverreachingDecodes(p, torn + slack);
    OverreachingDecodes(p, [] + reader);
    assert data[0..4] == s[0..4] && data[10..14] == s[10..14];
    assert data[..ENTRY_MINIMUM] == s && data[ENTRY_MINIMUM..] == torn;
    assert s[..ENTRY_MINIMUM] == s && s[ENTRY_MINIMUM..] == [];
    ScanFront(data, slack);
    ScanTorn(torn, slack);
    ReadFront(s, reader);
  }

  lemma OverreachingDecodes(p: nat, behind: seq<Byte>)
    requires p <= MAXIMUM_PAYLOAD && p % RECORD_SIZE == 0
    ensures LeValue(Overreaching(p)[0..4]) == ENTRY_MAGIC && LeValue(Overreaching(p)[10..14]) == ENTRY_MINIMUM
    ensures |behind| < p ==> DecodeEntry(Overreaching(p), behind) == Err(OutOfRange)
    ensures |behind| >= p ==> DecodeEntry(Overreaching(p), behind).Ok?
  {
    hide HeadFields, HeadBytes, Crc32.Checksum, LeValue, Le, Records;
    var h, s := OverreachingHead(p), Overreaching(p);
    var head := h.(crc := Crc32.Checksum(HeadBytes(h)));
    assert s == HeadBytes(head) && head.(crc := 0) == h;
    HeadRoundTrip(head);
    HeadCrcField(head, 0);
    assert s[..ENTRY_MINIMUM] == s && ZeroCrc(s) == HeadBytes(h);
    HeadOffsets(s);
  }

  /** The spare room that io.ReadAll leaves behind a file of one bare entry: its
      buffer begins with 512 bytes. */
  const SMALL_FILE_ROOM := 512 - ENTRY_MINIMUM

  /** An input that the code can receive: a torn write of 8192 bytes behind an
      entry that claims as many. The file is accepted and cut to 34 bytes, and
      the buffer in which they are read has 478 bytes to spare. */
  lemma AcceptedButUnreadableInput(u: UnknownMessage, torn: seq<Byte>, slack: seq<Byte>, reader: seq<Byte>)
    requires WellFormed(u) && |EntryBytes(u)| > MAXIMUM_PAYLOAD && torn == EntryBytes(u)[..MAXIMUM_PAYLOAD]
    requires |reader| == SMALL_FILE_ROOM
    ensures Scan(Overreaching(MAXIMUM_PAYLOAD) + torn, slack) == Ok(ENTRY_MINIMUM)
    ensures ReadEntries(Overreaching(MAXIMUM_PAYLOAD), reader) == Err(OutOfRange)
  {
    hide WellFormed, EntryBytes, Scan, ReadEntries, Overreaching;
    assert Torn(torn);
    AcceptedButUnreadable(MAXIMUM_PAYLOAD, torn, slack, reader);
  }

  lemma HeadOffsets(s: seq<Byte>)
    requires |s| == ENTRY_MINIMUM
    ensures LeValue(s[0..4]) == HeadFields(s).magic && LeValue(s[10..14]) == HeadFields(s).length
  {
  }

  // ---- the code that works on buffers ----

  method WriteFront(data: BinaryData, h: EntryHead)
    requires data.off == 0 && data.buf.Length >= ENTRY_MINIMUM
    modifies data, data.buf
    ensures data.off == 14 && data.buf[..14] == FrontBytes(h)
  {
    hide Le;
    data.WriteUint(4, h.magic);
    data.WriteUint(2, h.version);
    data.WriteUint(4, h.crc);
    data.WriteUint(4, h.length);
  }

  method WriteHead(data: BinaryData, h: EntryHead)
    requires data.off == 0 && data.buf.Length >= ENTRY_MINIMUM
    modifies data, data.buf
    ensures data.off == ENTRY_MINIMUM && data.buf[..ENTRY_MINIMUM] == HeadBytes(h)
  {
    hide Le, FrontBytes;
    WriteFront(data, h);
    data.WriteUint(8, Unsigned64(h.timestamp));
    data.WriteBytes([h.transport]);
    data.WriteBytes([h.reserved]);
    data.WriteUint(2, h.kind);
    data.WriteBytes(h.mac);
    data.WriteUint(2, h.payloadLength);
  }

  lemma FieldsInPlace(d: seq<Byte>, base: nat)
    requires base + ENTRY_MINIMUM <= |d|
    ensures var h := HeadFields(d[base..base + ENTRY_MINIMUM]);
            && h.magic == LeValue(d[base..base + 4]) && h.version == LeValue(d[base + 4..base + 6])
            && h.crc == LeValue(d[base + 6..base + 10]) && h.length == LeValue(d[base + 10..base + 14])
            && Unsigned64(h.timestamp) == LeValue(d[base + 14..base + 22])
            && h.transport == d[base + 22] && h.reserved == d[base + 23]
            && h.kind == LeValue(d[base + 24..base + 26]) && h.mac == d[base + 26..base + 32]
            && h.payloadLength == LeValue(d[base + 32..base + 34])
  {
    hide LeValue;
    var stop := base + ENTRY_MINIMUM;
    Slice(d, base, stop, 0, 4);
    Slice(d, base, stop, 4, 6);
    Slice(d, base, stop, 6, 10);
    Slice(d, base, stop, 10, 14);
    Slice(d, base, stop, 14, 22);
    Slice(d, base, stop, 24, 26);
    Slice(d, base, stop, 26, 32);
    Slice(d, base, stop, 32, 34);
  }

  method ReadHeadFront(data: BinaryData)
    returns (magic: Crc32.Word, version: Word16, crc: Crc32.Word, length: Crc32.Word)
    requires data.off + 14 <= data.buf.Length
    modifies data
    ensures data.off == old(data.off) + 14 && data.buf[..] == old(data.buf[..])
    ensures var d, base := old(data.buf[..]), old(data.off);
            && magic == LeValue(d[base..base + 4]) && version == LeValue(d[base + 4..base + 6])
            && crc == LeValue(d[base + 6..base + 10]) && length == LeValue(d[base + 10..base + 14])
  {
    hide LeValue;
    Pow256Values();
    magic := data.ReadUint(4);
    version := data.ReadUint(2);
    crc := data.ReadUint(4);
    length := data.ReadUint(4);
  }

  method ReadHead(data: BinaryData) returns (h: EntryHead)
    requires data.off + ENTRY_MINIMUM <= data.buf.Length
    modifies data
    ensures data.off == old(data.off) + ENTRY_MINIMUM
    ensures h == HeadFields(old(data.buf[..])[old(data.off)..data.off]) && data.buf[..] == old(data.buf[..])
  {
    hide LeValue, HeadFields, Pow256;
    Pow256Values();
    ghost var base, d := data.off, data.buf[..];
    var magic, version, crc, length := ReadHeadFront(data);
    var timestamp := data.ReadUint(8);
    var transport := data.ReadUint8();
    var reserved := data.ReadUint8();
    var kind := data.ReadUint(2);
    var mac := data.ReadBytes(6);
    var payloadLength := data.ReadUint(2);
    FieldsInPlace(d, base);
    h := EntryHead(magic, version, crc, length, Signed64(timestamp), transport, reserved, kind, mac, payloadLength);
  }

  lemma EntrySplice(u: UnknownMessage)
    requires Encodable(u)
    ensures var blank := HeadBytes(EntryHeadOf(0, u)) + u.message.payload;
            EntryBytes(u) == blank[..6] + Le(4, Crc32.Checksum(blank)) + blank[10..]
  {
    hide Le, HeadBytes, Crc32.Checksum;
    HeadCrcField(EntryHeadOf(0, u), Crc32.Checksum(HeadBytes(EntryHeadOf(0, u)) + u.message.payload));
  }

  /** Fills a fresh buffer through the cursor, then stores the checksum of the
      buffer with a zero placeholder at offset 6. */
  method EncodeQuarantineEntry(u: UnknownMessage) returns (r: Result<seq<Byte>>)
    ensures r == EncodeEntry(u)
  {
    hide Le, HeadBytes, EntryBytes, EntryHeadOf, Crc32.Checksum;
    if u.transport != TRANSPORT_TCP && u.transport != TRANSPORT_UDP {
      return Err(InvalidQuarantineEntry);
    }
    var payload := u.message.payload;
    if |payload| != u.message.header.payloadLength || |payload| > MAXIMUM_PAYLOAD {
      return Err(InvalidQuarantineEntry);
    }
    var encoded := new Byte[ENTRY_MINIMUM + |payload|](_ => 0);
    var data := new BinaryData(encoded, 0);
    WriteHead(data, EntryHeadOf(0, u));
    data.WriteBytes(payload);
    assert encoded[..] == encoded[..data.off] == HeadBytes(EntryHeadOf(0, u)) + payload;
    data.WriteUint32At(Crc32.Checksum(encoded[..]), 6);
    EntrySplice(u);
    r := Ok(encoded[..]);
  }

  lemma SpliceInside(d: seq<Byte>, base: nat, length: nat, field: seq<Byte>)
    requires 10 <= length && base + length <= |d| && |field| == 4
    ensures (d[..base + 6] + field + d[base + 10..])[base..base + length] ==
            d[base..base + length][..6] + field + d[base..base + length][10..]
  {
    var e := d[base..base + length];
    var spliced := d[..base + 6] + field + d[base + 10..];
    assert spliced[base..base + 6] == e[..6];
    assert spliced[base + 6..base + 10] == field;
    assert spliced[base + 10..base + length] == d[base + 10..base + length] == e[10..];
    assert spliced[base..base + length] ==
           spliced[base..base + 6] + spliced[base + 6..base + 10] + spliced[base + 10..base + length];
  }

  method ZeroCrcField(cursor: BinaryData, base: nat, length: nat)
    requires 10 <= length && base + length <= cursor.buf.Length
    modifies cursor.buf
    ensures cursor.buf[base..base + length] == ZeroCrc(old(cursor.buf[base..base + length]))
    ensures cursor.buf[..base] == old(cursor.buf[..base])
    ensures cursor.buf[base + length..] == old(cursor.buf[base + length..])
  {
    hide Le;
    ghost var d := cursor.buf[..];
    cursor.WriteUint32At(0, base + 6);
    SpliceInside(d, base, length, Le(4, 0));
    ghost var z := cursor.buf[..];
    assert cursor.buf[base..base + length] == z[base..base + length]
           && d[base..base + length] == old(cursor.buf[base..base + length]);
    assert cursor.buf[..base] == z[..base] && cursor.buf[base + length..] == z[base + length..];
  }

  /** Decodes the entry in data[base..base + length] and, once the fixed fields
      are accepted, zeroes its checksum field in place. The array is the whole
      buffer, so its end is the capacity that bounds the payload slice. */
  method DecodeQuarantineEntry(data: array<Byte>, base: nat, length: nat) returns (r: Result<UnknownMessage>)
    requires base + length <= data.Length
    modifies data
    ensures r == DecodeEntry(old(data[base..base + length]), old(data[base + length..]))
    ensures data[..base] == old(data[..base]) && data[base + length..] == old(data[base + length..])
  {
    hide HeadFields, HeadAccepted, DecodeChecked;
    if length < ENTRY_MINIMUM {
      return Err(InvalidQuarantineEntry);
    }
    assert data[..][base..base + ENTRY_MINIMUM] == data[base..base + length][..ENTRY_MINIMUM];
    var cursor := new BinaryData(data, base);
    var h := ReadHead(cursor);
    if !HeadAccepted(h, length) {
      return Err(InvalidQuarantineEntry);
    }
    r := DecodeBody(cursor, h, base, length);
  }

  method DecodeBody(cursor: BinaryData, h: EntryHead, base: nat, length: nat) returns (r: Result<UnknownMessage>)
    requires cursor.off == base + ENTRY_MINIMUM <= base + length <= cursor.buf.Length
    modifies cursor, cursor.buf
    ensures r == DecodeChecked(h, old(cursor.buf[base..base + length]), old(cursor.buf[base + length..]))
    ensures cursor.buf[..base] == old(cursor.buf[..base])
    ensures cursor.buf[base + length..] == old(cursor.buf[base + length..])
  {
    hide ZeroCrc, Crc32.Checksum, DecodeContent;
    ghost var encoded, behind := cursor.buf[base..base + length], cursor.buf[base + length..];
    ZeroCrcField(cursor, base, length);
    if Crc32.Checksum(cursor.buf[base..base + length]) != h.crc {
      return Err(InvalidQuarantineEntry);
    }
    if cursor.off + h.payloadLength > cursor.buf.Length {
      return Err(OutOfRange);
    }
    ghost var stop := ENTRY_MINIMUM + h.payloadLength;
    ghost var zeroed := cursor.buf[base..base + length];
    assert cursor.buf[base + length..] == behind;
    BufferWindow(cursor.buf[..], base, length, stop);
    ZeroCrcKeepsTail(encoded, behind, stop);
    var payload := cursor.ReadBytes(h.payloadLength);
    r := DecodeContent(h, payload);
  }

  lemma BufferWindow(buffer: seq<Byte>, base: nat, length: nat, stop: nat)
    requires ENTRY_MINIMUM <= stop && ENTRY_MINIMUM <= length && base + length <= |buffer| && base + stop <= |buffer|
    ensures buffer[base + ENTRY_MINIMUM..base + stop] ==
            (buffer[base..base + length] + buffer[base + length..])[ENTRY_MINIMUM..stop]
  {
    assert buffer[base..base + length] + buffer[base + length..] == buffer[base..];
  }

  lemma ZeroCrcKeepsTail(encoded: seq<Byte>, behind: seq<Byte>, stop: nat)
    requires ENTRY_MINIMUM <= |encoded| && ENTRY_MINIMUM <= stop <= |encoded| + |behind|
    ensures (ZeroCrc(encoded) + behind)[ENTRY_MINIMUM..stop] == (encoded + behind)[ENTRY_MINIMUM..stop]
  {
  }

  /** The magic and length fields at an offset of the buffer. */
  method EntryFieldsAt(data: array<Byte>, offset: nat) returns (magic: nat, length: nat)
    requires offset + 14 <= data.Length
    ensures magic == LeValue(data[offset..][0..4]) && length == LeValue(data[offset..][10..14])
  {
    hide LeValue;
    assert data[offset..][0..4] == data[offset..offset + 4] && data[offset..][10..14] == data[offset + 10..offset + 14];
    magic := LeValue(data[offset..offset + 4]);
    length := LeValue(data[offset + 10..offset + 14]);
  }

  /** The decoder at an offset: what lies behind the entry stays intact. */
  method DecodeAt(data: array<Byte>, offset: nat, length: nat) returns (r: Result<UnknownMessage>)
    requires offset + length <= data.Length
    modifies data
    ensures var rest := old(data[offset..]);
            r == DecodeEntry(rest[..length], rest[length..]) && data[offset + length..] == rest[length..]
  {
    hide DecodeEntry;
    assert data[offset..][..length] == data[offset..offset + length]
           && data[offset..][length..] == data[offset + length..];
    r := DecodeQuarantineEntry(data, offset, length);
  }

  /** The startup scan, in place over the loaded file data[..size]: every decoded
      entry loses its checksum field, the part still to be scanned stays intact. */
  method ScanQuarantineEntries(data: array<Byte>, size: nat) returns (r: Result<nat>)
    requires size <= data.Length
    modifies data
    ensures r == Scan(old(data[..size]), old(data[size..]))
  {
    hide DecodeEntry, LeValue, ScanBuffer;
    ghost var all := data[..];
    assert all == data[..size] + data[size..] && all[0..] == all;
    var offset := 0;
    while offset < size
      invariant 0 <= offset <= size && data[offset..] == all[offset..]
      invariant ScanBuffer(all, size) == After(offset, ScanBuffer(all[offset..], size - offset))
    {
      ghost var rest := all[offset..];
      var remaining := size - offset;
      ScanRound(rest, remaining);
      if remaining < SCAN_THRESHOLD {
        return Ok(offset);
      }
      var magic, length := EntryFieldsAt(data, offset);
      if magic != ENTRY_MAGIC {
        return Err(InvalidQuarantineEntry);
      }
      if length < ENTRY_MINIMUM || length > ENTRY_MINIMUM + MAXIMUM_PAYLOAD {
        return Err(InvalidQuarantineEntry);
      }
      if length > remaining {
        return Ok(offset);
      }
      assert rest[length..] == all[offset + length..];
      var entry := DecodeAt(data, offset, length);
      if entry.Err? {
        return Err(entry.error);
      }
      offset := offset + length;
    }
    ScanRound(all[offset..], 0);
    r := Ok(size);
  }

  /** One round of the scan over a buffer. */
  lemma ScanRound(buffer: seq<Byte>, size: nat)
    requires size <= |buffer|
    ensures ScanBuffer(buffer, size) ==
            if size < SCAN_THRESHOLD then Ok(0)
            else if LeValue(buffer[0..4]) != ENTRY_MAGIC then Err(InvalidQuarantineEntry)
            else
              var length := LeValue(buffer[10..14]);
              if length < ENTRY_MINIMUM || length > ENTRY_MINIMUM + MAXIMUM_PAYLOAD then Err(InvalidQuarantineEntry)
              else if length > size then Ok(0)
              else
                var entry := DecodeEntry(buffer[..length], buffer[length..]);
                if entry.Err? then Err(entry.error) else After(length, ScanBuffer(buffer[length..], size - length))
  {
    hide DecodeEntry, LeValue;
  }

  /** The reader used by replay, over its own fresh copy of the file. */
  method ReadQuarantineEntries(data: array<Byte>, size: nat) returns (r: Result<seq<UnknownMessage>>)
    requires size <= data.Length
    modifies data
    ensures r == ReadEntries(old(data[..size]), old(data[size..]))
  {
    hide DecodeEntry, LeValue, ReadBuffer, Prepend;
    ghost var all := data[..];
    var offset, entries := 0, [];
    PrependTwice([], [], ReadBuffer(all, size));
    assert all == data[..size] + data[size..] && all[0..] == all;
    while offset < size
      invariant 0 <= offset <= data.Length && data[offset..] == all[offset..]
      invariant ReadBuffer(all, size) == Prepend(entries, ReadBuffer(all[offset..], size - offset))
      decreases size - offset
    {
      ghost var rest := all[offset..];
      ReadRound(rest, size - offset, entries);
      if offset + 14 > data.Length {
        return Err(OutOfRange);
      }
      var _, length := EntryFieldsAt(data, offset);
      if offset + length > data.Length {
        return Err(OutOfRange);
      }
      assert rest[length..] == all[offset + length..];
      var entry := DecodeAt(data, offset, length);
      if entry.Err? {
        return Err(entry.error);
      }
      entries := entries + [entry.value];
      offset := offset + length;
    }
    ReadRound(all[offset..], size - offset, entries);
    r := Ok(entries);
  }

  /** One round of the reader over a buffer, behind the entries found so far. */
  lemma ReadRound(buffer: seq<Byte>, size: int, entries: seq<UnknownMessage>)
    ensures Prepend(entries, ReadBuffer(buffer, size)) ==
            if size <= 0 then Ok(entries)
            else if |buffer| < 14 || LeValue(buffer[10..14]) > |buffer| then Err(OutOfRange)
            else
              var length := LeValue(buffer[10..14]);
              var entry := DecodeEntry(buffer[..length], buffer[length..]);
              if entry.Err? then Err(entry.error)
              else Prepend(entries + [entry.value], ReadBuffer(buffer[length..], size - length))
    ensures size > 0 && |buffer| >= 14 && LeValue(buffer[10..14]) <= |buffer|
            && DecodeEntry(buffer[..LeValue(buffer[10..14])], buffer[LeValue(buffer[10..14])..]).Ok?
            ==> LeValue(buffer[10..14]) > 0
  {
    hide DecodeEntry, LeValue;
    if size <= 0 {
      assert entries + [] == entries;
    } else if |buffer| >= 14 && LeValue(buffer[10..14]) <= |buffer| {
      var length := LeValue(buffer[10..14]);
      var entry := DecodeEntry(buffer[..length], buffer[length..]);
      if entry.Ok? {
        PrependTwice(entries, [entry.value], ReadBuffer(buffer[length..], size - length));
      }
    }
  }
}
