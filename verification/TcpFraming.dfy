/** One TCP connection: framing over arbitrary read chunks, resynchronisation
    after a bad but framed message, and the MAC bound by the first valid message
    (sensor-server/tcp-server.go, sensor-server/protocol.go). */
module TcpFraming {
  import opened Words
  import opened Results
  import opened Protocol

  datatype Frame = Frame(header: Header, payload: seq<Byte>)

  /** How a byte stream ends behind its last frame. */
  datatype Ending = CleanEnd | CutShort | BadHeader

  function FrameBytes(f: Frame): (s: seq<Byte>)
  {
    HeaderBytes(f.header) + f.payload
  }

  /** A header good enough to find the next boundary, and its payload. */
  predicate Framed(f: Frame)
  {
    f.header.magic == MESSAGE_MAGIC && f.header.payloadLength <= MAXIMUM_PAYLOAD
    && |f.payload| == f.header.payloadLength
  }

  function FrameLength(b: seq<Byte>): (r: Result<nat>)
    requires |b| >= HEADER_SIZE
    ensures r.Ok? ==> r.value >= HEADER_SIZE
  {
    var h :- DecodeHeader(b[..HEADER_SIZE]);
    Ok(HEADER_SIZE + h.payloadLength)
  }

  /** The frames of a byte stream, and how it ends. */
  function Frames(b: seq<Byte>): (fs: seq<Frame>)
  {
    if |b| < HEADER_SIZE || FrameLength(b).Err? || FrameLength(b).value > |b| then []
    else
      var n := FrameLength(b).value;
      [Frame(DecodeHeader(b[..HEADER_SIZE]).value, b[HEADER_SIZE..n])] + Frames(b[n..])
  }

  function EndingOf(b: seq<Byte>): (e: Ending)
  {
    if |b| < HEADER_SIZE then (if b == [] then CleanEnd else CutShort)
    else if FrameLength(b).Err? then BadHeader
    else if FrameLength(b).value > |b| then (if |b| == HEADER_SIZE then CleanEnd else CutShort)
    else EndingOf(b[FrameLength(b).value..])
  }

  function AllBytes(fs: seq<Frame>): (s: seq<Byte>)
  {
    if fs == [] then [] else FrameBytes(fs[0]) + AllBytes(fs[1..])
  }

  /** A frame at the front is taken whole, valid message or not, and exactly
      16 bytes plus its payload length are consumed. */
  lemma FrameAtFront(f: Frame, rest: seq<Byte>)
    requires Framed(f)
    ensures |FrameBytes(f)| == HEADER_SIZE + f.header.payloadLength
    ensures Frames(FrameBytes(f) + rest) == [f] + Frames(rest) && EndingOf(FrameBytes(f) + rest) == EndingOf(rest)
  {
    hide HeaderBytes, HeaderFields;
    var b := FrameBytes(f) + rest;
    var n := |FrameBytes(f)|;
    HeaderRoundTrip(f.header);
    assert b[..HEADER_SIZE] == HeaderBytes(f.header);
    assert b[HEADER_SIZE..n] == f.payload && b[n..] == rest;
  }

  /** Resynchronisation: whatever their payloads hold, framed messages are
      found one after the other, whatever follows them. */
  lemma {:induction false} FramesOfConcat(fs: seq<Frame>, rest: seq<Byte>)
    requires forall i :: 0 <= i < |fs| ==> Framed(fs[i])
    ensures Frames(AllBytes(fs) + rest) == fs + Frames(rest) && EndingOf(AllBytes(fs) + rest) == EndingOf(rest)
    decreases |fs|
  {
    hide Frames, EndingOf, FrameBytes, Framed;
    if fs == [] {
      assert AllBytes(fs) + rest == rest;
    } else {
      FramesOfConcat(fs[1..], rest);
      FrameAtFront(fs[0], AllBytes(fs[1..]) + rest);
      assert AllBytes(fs) + rest == FrameBytes(fs[0]) + (AllBytes(fs[1..]) + rest);
      assert fs == [fs[0]] + fs[1..];
    }
  }

  /** Conversely the frames found are a prefix of the stream, byte for byte. */
  lemma {:induction false} FramesArePrefix(b: seq<Byte>)
    ensures AllBytes(Frames(b)) <= b
    ensures forall i :: 0 <= i < |Frames(b)| ==> Framed(Frames(b)[i])
    decreases |b|
  {
    hide HeaderBytes, HeaderFields;
    if |b| >= HEADER_SIZE && FrameLength(b).Ok? && FrameLength(b).value <= |b| {
      var n := FrameLength(b).value;
      var f := Frames(b)[0];
      FramesArePrefix(b[n..]);
      HeaderInverse(b[..HEADER_SIZE]);
      assert f.header == HeaderFields(b[..HEADER_SIZE]);
      assert FrameBytes(f) == b[..n];
      assert Frames(b)[1..] == Frames(b[n..]);
      assert b == b[..n] + b[n..];
    }
  }

  // ---- what is routed ----

  /** The message of a frame, if it decodes. */
  function ValidPart(f: Frame): (ms: seq<Message>)
  {
    var r := DecodeMessage(f.header, f.payload);
    if r.Ok? then [r.value] else []
  }

  /** The messages of the decodable frames, in order. */
  function Decoded(fs: seq<Frame>): (ms: seq<Message>)
  {
    if fs == [] then [] else Decoded(fs[..|fs| - 1]) + ValidPart(fs[|fs| - 1])
  }

  function WithMac(ms: seq<Message>, mac: Mac): (r: seq<Message>)
    ensures |r| <= |ms|
  {
    if ms == [] then []
    else if ms[|ms| - 1].header.mac == mac then WithMac(ms[..|ms| - 1], mac) + [ms[|ms| - 1]]
    else WithMac(ms[..|ms| - 1], mac)
  }

  /** The messages a connection may route: those of the device that sent the
      first valid one. */
  function Routed(ms: seq<Message>): (r: seq<Message>)
  {
    if ms == [] then [] else WithMac(ms, ms[0].header.mac)
  }

  lemma DecodedAppend(fs: seq<Frame>, f: Frame)
    ensures Decoded(fs + [f]) == Decoded(fs) + ValidPart(f)
  {
    assert (fs + [f])[..|fs|] == fs;
  }

  lemma RoutedAppend(ms: seq<Message>, m: Message)
    ensures Routed(ms + [m]) ==
            if ms == [] || ms[0].header.mac == m.header.mac then Routed(ms) + [m] else Routed(ms)
  {
    assert (ms + [m])[..|ms|] == ms;
  }

  // ---- what the definitions mean ----

  lemma {:induction false} DecodedConcat(a: seq<Frame>, b: seq<Frame>)
    ensures Decoded(a + b) == Decoded(a) + Decoded(b)
    decreases |b|
  {
    hide ValidPart, Decoded;
    if b == [] {
      NothingRouted();
      assert a + b == a;
    } else {
      var front, last := b[..|b| - 1], b[|b| - 1];
      DecodedConcat(a, front);
      DecodedAppend(a + front, last);
      DecodedAppend(front, last);
      assert a + b == a + front + [last] && b == front + [last];
    }
  }

  /** Every datagram that decodes, keepalives included, is one decodable frame of
      the stream: a sequence of them gives exactly their messages, in order,
      whatever follows. */
  lemma {:induction false} DatagramsAreDecoded(ds: seq<seq<Byte>>, ms: seq<Message>, rest: seq<Byte>)
    requires |ds| == |ms| && forall i :: 0 <= i < |ds| ==> DecodeDatagram(ds[i]) == Ok(ms[i])
    ensures Decoded(Frames(Flatten(ds) + rest)) == ms + Decoded(Frames(rest))
    ensures EndingOf(Flatten(ds) + rest) == EndingOf(rest)
    decreases |ds|
  {
    hide DecodeDatagram, Decoded, Frames, EndingOf;
    if ds == [] {
      assert Flatten(ds) + rest == rest;
    } else {
      DatagramsAreDecoded(ds[1..], ms[1..], rest);
      var f := DatagramFrame(ds[0], ms[0]);
      FrameAtFront(f, Flatten(ds[1..]) + rest);
      assert Flatten(ds) + rest == FrameBytes(f) + (Flatten(ds[1..]) + rest);
      DecodedConcat([f], Frames(Flatten(ds[1..]) + rest));
      assert ms == [ms[0]] + ms[1..];
    }
  }

  /** The frame that a decodable datagram is. */
  lemma DatagramFrame(d: seq<Byte>, m: Message) returns (f: Frame)
    requires DecodeDatagram(d) == Ok(m)
    ensures Framed(f) && FrameBytes(f) == d && Decoded([f]) == [m]
  {
    hide HeaderBytes, HeaderFields, Records;
    f := Frame(m.header, m.payload);
    HeaderInverse(d[..HEADER_SIZE]);
    assert m.header == HeaderFields(d[..HEADER_SIZE]);
    assert d == d[..HEADER_SIZE] + d[HEADER_SIZE..];
    assert [f][..0] == [];
  }

  /** A framed message that does not decode contributes nothing. */
  lemma UndecodableIsSkipped(before: seq<Frame>, f: Frame, after: seq<Frame>)
    requires DecodeMessage(f.header, f.payload).Err?
    ensures Decoded(before + [f] + after) == Decoded(before) + Decoded(after)
  {
    hide DecodeMessage, Decoded;
    DecodedConcat(before + [f], after);
    DecodedAppend(before, f);
  }

  /** Messages of one device are all routed... */
  lemma {:induction false} SameDeviceIsRouted(ms: seq<Message>, mac: Mac)
    requires forall i :: 0 <= i < |ms| ==> ms[i].header.mac == mac
    ensures Routed(ms) == ms && WithMac(ms, mac) == ms
    decreases |ms|
  {
    if ms != [] {
      SameDeviceIsRouted(ms[..|ms| - 1], mac);
      assert ms == ms[..|ms| - 1] + [ms[|ms| - 1]];
    }
  }

  /** ...and messages of another device than the first one's change nothing. */
  lemma OtherDeviceIsIgnored(first: Message, before: seq<Message>, m: Message, after: seq<Message>)
    requires m.header.mac != first.header.mac
    ensures Routed([first] + before + [m] + after) == Routed([first] + before + after)
  {
    var a := [first] + before;
    WithMacConcat(a + [m], after, first.header.mac);
    WithMacConcat(a, [m], first.header.mac);
    WithMacConcat(a, after, first.header.mac);
    assert (a + [m] + after)[0] == first && (a + after)[0] == first;
    assert [m][..0] == [];
    assert WithMac([m], first.header.mac) == [];
  }

  lemma {:induction false} WithMacConcat(a: seq<Message>, b: seq<Message>, mac: Mac)
    ensures WithMac(a + b, mac) == WithMac(a, mac) + WithMac(b, mac)
    decreases |b|
  {
    if b == [] {
      assert a + b == a;
    } else {
      var c := a + b;
      WithMacConcat(a, b[..|b| - 1], mac);
      assert c[..|c| - 1] == a + b[..|b| - 1] && c[|c| - 1] == b[|b| - 1];
    }
  }

  /** How a stream ends behind its frames: cleanly between frames or behind a bare
      header that announces a payload, cut short inside a header or a payload,
      or with a header that cannot be framed. */
  lemma EndingMeans(fs: seq<Frame>, rest: seq<Byte>)
    requires forall i :: 0 <= i < |fs| ==> Framed(fs[i])
    ensures rest == [] ==> EndingOf(AllBytes(fs) + rest) == CleanEnd
    ensures 0 < |rest| < 16 ==> EndingOf(AllBytes(fs) + rest) == CutShort
    ensures |rest| >= 16 && DecodeHeader(rest[..16]).Err? ==> EndingOf(AllBytes(fs) + rest) == BadHeader
    ensures |rest| >= 16 && DecodeHeader(rest[..16]).Ok?
            && 16 + DecodeHeader(rest[..16]).value.payloadLength > |rest| ==>
              EndingOf(AllBytes(fs) + rest) == if |rest| == 16 then CleanEnd else CutShort
  {
    hide HeaderFields, Framed, FrameBytes;
    FramesOfConcat(fs, rest);
  }

  // ---- the code ----

  function Flatten(chunks: seq<seq<Byte>>): (b: seq<Byte>)
  {
    if chunks == [] then [] else chunks[0] + Flatten(chunks[1..])
  }

  lemma Regroup(data: seq<Byte>, taken: seq<Byte>, left: seq<Byte>, rest: seq<Byte>)
    ensures data + ((taken + left) + rest) == (data + taken) + (left + rest)
    ensures left == [] ==> data + (taken + rest) == (data + taken) + rest
  {
  }

  /** The peer's bytes in the portions in which reads will return them. */
  class Connection {
    var chunks: seq<seq<Byte>>
    var bound: bool
    var mac: Mac

    constructor (chunks: seq<seq<Byte>>)
      ensures this.chunks == chunks && !bound
    {
      this.chunks := chunks;
      bound, mac := false, [0, 0, 0, 0, 0, 0];
    }

    ghost function Rest(): (b: seq<Byte>)
      reads this
    {
      Flatten(chunks)
    }

    /** io.ReadFull: reads until n bytes have come or the stream ends. */
    method ReadFull(n: nat) returns (data: seq<Byte>, err: Result<()>)
      modifies this`chunks
      ensures |old(Rest())| >= n ==> err.Ok? && data == old(Rest())[..n] && Rest() == old(Rest())[n..]
      ensures |old(Rest())| < n ==>
                Rest() == [] && err == Err(if old(Rest()) == [] then EndOfFile else UnexpectedEndOfFile)
    {
      data := [];
      while |data| < n && chunks != []
        invariant |data| <= n && data + Rest() == old(Rest())
        decreases |chunks|, n - |data|
      {
        var chunk := chunks[0];
        var want := n - |data|;
        if |chunk| <= want {
          Regroup(data, chunk, [], Flatten(chunks[1..]));
          data := data + chunk;
          chunks := chunks[1..];
        } else {
          Regroup(data, chunk[..want], chunk[want..], Flatten(chunks[1..]));
          assert chunk == chunk[..want] + chunk[want..];
          data := data + chunk[..want];
          chunks := [chunk[want..]] + chunks[1..];
        }
      }
      ghost var all := old(Rest());
      assert data == all[..|data|] && Rest() == all[|data|..];
      if |data| < n {
        err := Err(if |data| == 0 then EndOfFile else UnexpectedEndOfFile);
      } else {
        err := Ok(());
      }
    }

    /** readMessage, with structural set when the next boundary is lost. */
    method ReadMessage() returns (r: Result<Message>, structural: bool)
      modifies this`chunks
      ensures ReadOutcome(old(Rest())) == Outcome(r, structural, Rest())
    {
      hide HeaderFields, DecodeMessage;
      ghost var all := Rest();
      var headerBytes, headerErr := ReadFull(HEADER_SIZE);
      if headerErr.Err? {
        return Err(headerErr.error), true;
      }
      var header := DecodeHeader(headerBytes);
      if header.Err? {
        return Err(header.error), true;
      }
      var payload, payloadErr := ReadFull(header.value.payloadLength);
      if payloadErr.Err? {
        return Err(payloadErr.error), true;
      }
      ghost var n := HEADER_SIZE + header.value.payloadLength;
      assert payload == all[HEADER_SIZE..n] && Rest() == all[n..];
      return DecodeMessage(header.value, payload), false;
    }
  }

  datatype Outcome = Outcome(result: Result<Message>, structural: bool, rest: seq<Byte>)

  /** What one read of a message returns and leaves. */
  function ReadOutcome(b: seq<Byte>): (o: Outcome)
  {
    if |b| < HEADER_SIZE then Outcome(Err(if b == [] then EndOfFile else UnexpectedEndOfFile), true, [])
    else
      match DecodeHeader(b[..HEADER_SIZE])
      case Err(x) => Outcome(Err(x), true, b[HEADER_SIZE..])
      case Ok(h) =>
        if |b| < HEADER_SIZE + h.payloadLength
        then Outcome(Err(if |b| == HEADER_SIZE then EndOfFile else UnexpectedEndOfFile), true, [])
        else Outcome(DecodeMessage(h, b[HEADER_SIZE..HEADER_SIZE + h.payloadLength]), false,
                     b[HEADER_SIZE + h.payloadLength..])
  }

  /** A datagram that decodes is read back from a stream as the same message,
      and exactly the bytes behind it are left. */
  lemma ReadsEncodedMessage(datagram: seq<Byte>, rest: seq<Byte>)
    requires DecodeDatagram(datagram).Ok?
    ensures ReadOutcome(datagram + rest) == Outcome(DecodeDatagram(datagram), false, rest)
  {
    hide HeaderFields, DecodeMessage;
    var b := datagram + rest;
    assert b[..HEADER_SIZE] == datagram[..HEADER_SIZE];
    assert b[HEADER_SIZE..|datagram|] == datagram[HEADER_SIZE..] && b[|datagram|..] == rest;
  }

  datatype ServerCounters = ServerCounters(messages: nat, malformed: nat, macMismatches: nat)

  /** Reading a message agrees with the frames of the stream. */
  lemma OutcomeIsFrame(b: seq<Byte>)
    ensures var o := ReadOutcome(b);
            if o.structural
            then Frames(b) == [] && o.result.Err? && (o.result.error.EndOfFile? <==> EndingOf(b).CleanEnd?)
            else |o.rest| + HEADER_SIZE <= |b| && Frames(b) != [] && EndingOf(o.rest) == EndingOf(b)
                 && Frames(b) == [Frames(b)[0]] + Frames(o.rest)
                 && o.result == DecodeMessage(Frames(b)[0].header, Frames(b)[0].payload)
  {
    hide HeaderFields, DecodeMessage;
  }

  /** The serve loop of an uninterrupted connection. Whatever the read chunks,
      the routed messages are exactly the decodable frames, in order, whose MAC
      is that of the first decodable frame; every frame is counted once as
      routed, malformed or mismatched, and a stream that does not end between
      frames counts one more malformed message. */
  method ServeConnection(connection: Connection) returns (routed: seq<Message>, counters: ServerCounters)
    requires !connection.bound
    modifies connection
    ensures routed == Routed(Decoded(Frames(old(connection.Rest()))))
    ensures counters.messages == |routed|
    ensures counters.macMismatches == |Decoded(Frames(old(connection.Rest())))| - |routed|
    ensures counters.malformed == |Frames(old(connection.Rest()))| - |Decoded(Frames(old(connection.Rest())))|
                                  + if EndingOf(old(connection.Rest())).CleanEnd? then 0 else 1
    ensures connection.bound <==> Decoded(Frames(old(connection.Rest()))) != []
    ensures connection.bound ==> connection.mac == Decoded(Frames(old(connection.Rest())))[0].header.mac
  {
    hide ReadOutcome, Frames, EndingOf, Decoded, Routed, DecodeMessage;
    ghost var all := connection.Rest();
    ghost var seen: seq<Frame> := [];
    ghost var valid: seq<Message> := [];
    routed, counters := [], ServerCounters(0, 0, 0);
    assert Decoded(seen) == [] && Routed(valid) == [] by { NothingRouted(); }
    assert [] + Frames(all) == Frames(all);
    while true
      invariant Frames(all) == seen + Frames(connection.Rest()) && EndingOf(all) == EndingOf(connection.Rest())
      invariant valid == Decoded(seen) && routed == Routed(valid)
      invariant connection.bound <==> valid != []
      invariant connection.bound ==> connection.mac == valid[0].header.mac
      invariant counters.messages == |routed| && counters.macMismatches == |valid| - |routed|
      invariant counters.malformed == |seen| - |valid|
      decreases |connection.Rest()|
    {
      ghost var rest := connection.Rest();
      OutcomeIsFrame(rest);
      var r, structural := connection.ReadMessage();
      if structural {
        assert seen + [] == seen;
        if !r.error.EndOfFile? {
          counters := counters.(malformed := counters.malformed + 1);
        }
        return;
      }
      ghost var f := Frames(rest)[0];
      DecodedAppend(seen, f);
      assert seen + ([f] + Frames(connection.Rest())) == (seen + [f]) + Frames(connection.Rest());
      seen := seen + [f];
      if r.Err? {
        counters := counters.(malformed := counters.malformed + 1);
        continue;
      }
      var message := r.value;
      RoutedAppend(valid, message);
      valid := valid + [message];
      if !connection.bound {
        connection.bound, connection.mac := true, message.header.mac;
      } else if connection.mac != message.header.mac {
        counters := counters.(macMismatches := counters.macMismatches + 1);
        continue;
      }
      counters := counters.(messages := counters.messages + 1);
      routed := routed + [message];
    }
  }

  lemma NothingRouted()
    ensures Decoded([]) == [] && Routed([]) == []
  {
  }
}
