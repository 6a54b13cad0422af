# A verified model of the sensor ingest server

The server takes sensor messages from devices over TCP and UDP, routes the
records of known devices into per-sensor data files, and keeps the messages of
unknown devices in a quarantine log that is replayed at the next start. This
project models the parts of it that must survive crashes and interleavings, and
proves what they promise.

- **Quarantine log and replay.** `QuarantineCodec` holds the entry format, the
  startup scan and the reader. `QuarantineLog` is a machine over a directory of
  segments and completion markers; every step is one effect on the directory or
  on the data writer, and a crash may come between any two steps or inside an
  append. `QuarantineVisible` holds what every history keeps, `QuarantineHistory`
  proves at-least-once delivery over all histories,
  `QuarantineReplay` proves that a finished replay conserves messages, and
  `QuarantineService` is the code itself (the writer object, opening with
  repair, the replay loops), each method proved to perform steps of the machine.
  `QuarantineRouting` sets replay against direct routing (`Routing`).
- **Data file.** `DataLog` is the machine of the buffered, rotated file of
  12-byte records; `DataFiles` is the code over it.
- **Data stream and data engine.** `DataStreams` and `DataEngines` interleave the
  atomic steps of Write, Close, the worker and the stream table; `DataPaths` puts
  data files behind the streams.
- **Wire protocol and TCP.** `Protocol`, `TcpFraming` and `TcpRegistry` cover the
  codec, framing over arbitrary read chunks, and the connection registry.
- **Derived views.** `SampleRings`, `MonitorState` and `RateLimiters`.

A machine is a state, a set of actions, `Enabled`, `Apply` and `Exec`, which runs
a list of actions. A theorem about `Exec(Initial(...), actions)` therefore speaks
of every run, with every interleaving, crash and restart that the actions allow.
Objects carry a ghost run of the machine (`run`, `state`) which their `Valid()`
ties to the real fields, so that what is proved about runs holds of the objects.

Points where the code is followed against a comment or document: sensor values
are signed 24-bit values (`sensor-server/binary_data.go:31-36`), while
`docs/design.md` speaks of 16 bits; the fixed part of a quarantine entry is 34
bytes, and the constant 30 is only the threshold below which the scan stops. The
replay filter reads the writer's sequence anew for each segment
(`sensor-server/quarantine.go:186`), so a segment that carrying has rotated away
from is itself replayed; `ReplayConserves` covers that case. The doubling of the
retry backoff wraps around once a wait of 2^62 nanoseconds or more is doubled;
`BackoffExactlyWhen` gives the exact condition for the waits of a call and
`BackoffOverflows` the first wait that is wrong. A slice expression is bounded by
the capacity of its operand, so the quarantine decoder can read a payload from
behind its entry; `ScanThenRead` gives the exact condition under which a file that
the startup scan accepts can be read. Segment names have eight digits and
discovery recognises no others, while the code goes on counting: "as long as the
names last" below means that no sequence number has passed 99999999, and
`AtLeastOnceFailsBeyondNames` and `FlushedForEverFailsBeyondNames` show that the
guarantees end there.

## Model

| member | source | states |
|---|---|---|
| QuarantineReplay.ReplayConserves | sensor-server/quarantine.go:176-224 | For every completed replay under one registry from a freshly opened writer, as long as the segment names last: the messages in unmarked segments afterwards are, as a multiset, exactly the earlier pending ones that are still unknown, and the data writes are exactly those of the known ones, once each, in segment and entry order, also when carrying rotates the log so that the initially open segment is replayed |
| QuarantineReplay.ProgressStep | sensor-server/quarantine.go:185-222 | Every single replay step (skip, read, carry, rotate, deliver a record, finish an entry, mark) keeps the running account of pending messages and data writes |
| QuarantineReplay.PendingInOrder | sensor-server/quarantine.go:185-193 | Reading the discovered segments in sequence order visits each pending message exactly once |
| QuarantineHistory.AtLeastOnce | sensor-server/quarantine.go:57-224 | After every history of opens with any rotation size, writes, rotations, replays, torn writes, crashes and restarts, as long as the segment names last, each accepted message, counted with multiplicity, is readable in an unmarked segment or has been delivered completely; deliveries own disjoint stretches of the data writes that hold all writes of their message in order |
| QuarantineHistory.AtLeastOnceFrom | sensor-server/quarantine.go:57-224 | The same from any point between segments on: through any further history, with failed replays, crashes and restarts, what was pending then and what was accepted since is still pending or has been delivered since; deliveries and data writes are never taken back |
| QuarantineHistory.AcceptedAre | sensor-server/quarantine.go:97-121 | The accepted messages of a history are exactly those of its accepting steps, with multiplicity |
| QuarantineHistory.AcceptedBeyondNames | sensor-server/quarantine.go:420-432 | Where at-least-once ends: a message accepted into a segment behind sequence 99999999 is in no segment that discovery sees |
| QuarantineHistory.AtLeastOnceFailsBeyondNames | sensor-server/quarantine.go:86-91 | The failing history: after 99999999 starts the next one opens a segment whose name is not recognised, and the message accepted there is neither findable nor delivered |
| QuarantineHistory.InvStep | sensor-server/quarantine.go:57-224 | Every step of the log, the crash included, keeps the invariant on files, writer, replay position, sizes, accounts and deliveries |
| QuarantineVisible.StartupNeverRefuses | sensor-server/quarantine.go:328-387 | Whatever history and crash came before, every visible segment passes the startup scan, so opening is never refused because of the server's own files |
| QuarantineVisible.NothingInvented | sensor-server/quarantine.go:57-224 | The upper side of at-least-once: over every history each message that startup finds in a segment, that a replay holds or that was delivered was accepted before |
| QuarantineVisible.VisibleStep | sensor-server/quarantine.go:57-224 | However far the sequence numbers run, every step keeps the segments that discovery sees repairable, and clean while the writer is open |
| QuarantineHistory.SegmentsBoundedAndFresh | sensor-server/quarantine.go:111-140 | As long as the names last, over every history each segment is within the rotation size under which it was created or holds a single entry, and every segment that is opened is new |
| QuarantineHistory.RotatesExactlyWhenFull | sensor-server/quarantine.go:111-115 | Over every history, as long as the names last: the writer rotates for a message exactly if the open segment is not empty and the message would exceed its limit, and appends to it exactly otherwise |
| QuarantineHistory.RotatedSegmentsAreFull | sensor-server/quarantine.go:111-140 | A segment that a rotation left never changes again and was full: with the message that caused the rotation it would have exceeded its limit |
| QuarantineHistory.FreshSegments | sensor-server/quarantine.go:86-91 | An open or a rotation creates the successor of the highest segment ever used, which is not on disk |
| QuarantineCodec.TornTailRecovery | sensor-server/quarantine.go:347-387 | After any list of entries and any proper prefix of one more, the scan stops exactly behind the last whole entry and the truncated file reads back as exactly that list, whatever the buffers hold behind the file |
| QuarantineCodec.ScanThenRead | sensor-server/quarantine.go:347-387 | For every byte string that the scan accepts and every pair of buffers: reading the truncated file stays in bounds and succeeds exactly if the payload lengths its entries claim end inside the reader's buffer, and scanning it again then keeps all of it |
| QuarantineCodec.ReadableInEveryBuffer | sensor-server/quarantine.go:347-387 | What the file alone tells: a file that the scan accepts can be read in every buffer if and only if the payload lengths its entries claim end inside it |
| QuarantineCodec.AcceptedButUnreadable | sensor-server/quarantine.go:278-291 | The failing family of the unconditional form: an entry with a valid checksum that claims p payload bytes it does not have is accepted by the scan when a torn write and the spare room of the buffer supply them, and cannot be read in a buffer with less than p bytes of room |
| QuarantineCodec.AcceptedButUnreadableInput | sensor-server/quarantine.go:389-396 | An input the code can receive: with 8192 claimed and torn bytes the file is accepted and cut to 34 bytes, and the 512-byte buffer in which they are read has 478 to spare |
| QuarantineCodec.OwnPayloadsFit | sensor-server/quarantine.go:234-249 | No file of whole entries of the writer holds such a payload length |
| QuarantineCodec.EntryRoundTrip | sensor-server/quarantine.go:226-305 | Decoding the encoding of any message that came from the protocol decoder gives back that message, timestamp and transport, whatever lies behind the entry |
| QuarantineCodec.RoundTripExactlyWhen | sensor-server/quarantine.go:226-305 | Of all messages the encoder accepts, exactly those that the protocol decoder produced come back unchanged, and decoding fails exactly for another message type or a payload that is not a whole number of records |
| QuarantineCodec.ForeignEntry | sensor-server/quarantine.go:328-387 | Appending a message that the decoder did not produce makes the next startup refuse the segment exactly in those two cases |
| QuarantineCodec.EntryFields | sensor-server/quarantine.go:239-242 | The magic is at offset 0 and the length at offset 10 equals the length of the whole entry |
| QuarantineCodec.EntryLayout | sensor-server/quarantine.go:239-249 | Every byte of a stored entry at its offset: magic, version, length, two's complement timestamp, transport, zero byte, type, MAC, payload length and payload |
| QuarantineCodec.EntryChecksum | sensor-server/quarantine.go:251-253 | The stored checksum is the little-endian CRC-32 of the entry with its own field zero |
| QuarantineCodec.EntryMeans | sensor-server/quarantine.go:258-305 | Which bytes the decoder accepts as an entry, offset by offset, and what it takes from them |
| QuarantineCodec.ScanFront | sensor-server/quarantine.go:366-384 | One round of the scan with its limits in numbers: 30 bytes, the magic, lengths from 34 to 8226 |
| QuarantineCodec.EncodeQuarantineEntry | sensor-server/quarantine.go:226-256 | The buffer filled through the cursor, with the checksum stored last at offset 6, is the specified entry; it fails exactly on an unknown transport or a wrong payload length |
| QuarantineCodec.EncodesExactlyWhen | sensor-server/quarantine.go:227-233 | The encoder accepts exactly the two transports with a matching payload length of at most 8192 |
| QuarantineCodec.DecodeQuarantineEntry | sensor-server/quarantine.go:258-305 | The in-place decoder agrees with the entry specification on every input, including payload slices that reach behind the entry up to the capacity of the buffer, and changes no byte outside its entry, although it zeroes the checksum field |
| QuarantineCodec.ScanQuarantineEntries | sensor-server/quarantine.go:365-387 | The scan loop over the buffer that it modifies computes the specified valid length or error, for every buffer in which the file is loaded |
| QuarantineCodec.ReadQuarantineEntries | sensor-server/quarantine.go:347-363 | The reading loop over the buffer that it modifies returns the specified entries or error, its slices being bounded by the capacity of the buffer; running out of it is the error out-of-range |
| QuarantineLog.AnyBuffer | sensor-server/quarantine.go:389-396 | For every file the server can leave, the length and capacity of the buffer it is loaded into change neither the scan nor the reader |
| QuarantineService.QuarantineWriter.WriteUnknownMessage | sensor-server/quarantine.go:97-121 | Success exactly when the message is encodable and the writer open; then the sequence advances exactly if a non-empty segment would exceed the rotation size, the entry is appended to the open segment, size and files are exactly as they then must be, and, as long as the names last, the pending messages grow by exactly this one; a failure changes nothing |
| QuarantineService.QuarantineWriter.Rotate | sensor-server/quarantine.go:133-149 | Rotation opens the next segment and leaves markers, data writes and replay as they are; as long as the names last the segment is new and the pending messages stay the same |
| QuarantineService.QuarantineWriter.constructor | sensor-server/quarantine.go:86-94 | A repaired directory is taken over and the next segment opened, empty |
| QuarantineService.QuarantineWriter.Close | sensor-server/quarantine.go:123-131 | The writer is closed and what it wrote stays |
| QuarantineService.OpenQuarantineWriter | sensor-server/quarantine.go:57-95 | From any directory a history left, in any listing order, opening fails only for a rotation size below 34, opens the successor of the largest segment that discovery sees, and keeps accepted messages, deliveries and data writes; the new run continues the history; as long as the names last the segment did not exist and the pending messages stay the same |
| QuarantineService.DeliverEntry | sensor-server/quarantine.go:206-216 | The record loop performs the delivery steps of one entry and stops at the first refused record; the count is the number of records accepted |
| QuarantineService.CarryEntry | sensor-server/quarantine.go:199-205 | An entry of an unknown device is appended to the open segment and the replay moves to the next entry; markers and deliveries do not change |
| QuarantineService.ReplayEntry | sensor-server/quarantine.go:197-216 | An entry is carried or delivered according to the snapshot read for it, and the counters grow by what was done |
| QuarantineService.ConfigRegistry.Snapshot | sensor-server/router.go:36-47 | The snapshot read is the current one, which may have been replaced since the last read |
| QuarantineService.ReplaySegment | sensor-server/quarantine.go:189-221 | One segment is read, carried and delivered by machine steps, each entry under the snapshot read for it, and marked exactly when all of it succeeded; on every exit the four counters grow by the segments marked, the messages delivered and carried and the records accepted |
| QuarantineService.ReplayQuarantine | sensor-server/quarantine.go:176-224 | For any writer and a registry that may be reloaded between entries: the run is the old one followed by steps of this replay, nothing accepted is forgotten and the four counters are exact; as long as the names last every earlier message is still pending or was delivered completely by this replay; and on success with a freshly opened writer and one snapshot the pending messages are exactly the unknown ones among the earlier ones and the data writer has received exactly the writes of the known ones in order |
| QuarantineRouting.ReplayMeansRouting | sensor-server/quarantine.go:189-217 | Quarantine then replay means the same as direct routing: for any pending messages, the writes that a successful replay with a freshly opened writer and one snapshot gives to the data writer are, in order, exactly those that the router attempts when the same messages are routed one after the other under that snapshot; if nothing is refused both data writers gain the same and the messages that replay leaves pending are those that the router quarantines |
| QuarantineRouting.RouteAll | sensor-server/router.go:114-160 | Routing a list of messages attempts the writes of all of them in order and, if nothing is refused, has them accepted and quarantines exactly the unknown ones in order |
| QuarantineRouting.ReadPending | sensor-server/quarantine.go:180-193 | Reading the unmarked segments in any listing order gives exactly the pending messages in the order of replay |
| Routing.MessageRouter.Route | sensor-server/router.go:114-160 | A known device's message has exactly the writes it stands for observed and attempted, in order, whatever is refused; an unknown device's message goes to quarantine and nowhere else; each of the eight counters and the errors are given outright |
| Routing.MessageRouter.RouteRecords | sensor-server/router.go:135-159 | Every configured record is observed and attempted in order, each rejected record gives one error and is counted by its cause, and the writes are all accepted exactly if no error is a refused write |
| Routing.MessageRouter.RouteRecord | sensor-server/router.go:136-158 | One record is observed and attempted exactly if its sensor is configured, and counted once by its outcome |
| Routing.ObservedIsWritten | sensor-server/router.go:144-151 | The observer sees exactly the records that are written: as many, in order, each with the same place, time and value, with the transport of the message and under a configured sensor with its unit |
| Routing.MessageMeans | sensor-server/router.go:136-151 | Field by field what record i of a message is written and observed as, and at which place among the configured records |
| SegmentNames.ParseOfName | sensor-server/quarantine.go:420-432 | Parsing a segment name gives its sequence if and only if that is 1 to 99999999; any other name is not recognised |
| SegmentNames.NameOfParsed | sensor-server/data-file.go:224-234 | Every recognised name is the name of the sequence it parses to |
| SegmentNames.NameLayout | sensor-server/data-file.go:224-226 | A name is the prefix, the eight decimal digits of the sequence, most significant first, and the suffix |
| SegmentNames.FirstNames | sensor-server/quarantine.go:420-422 | The first segments are 00000001.dat and quarantine-00000001.bin |
| SegmentNames.DiscoverSegments | sensor-server/quarantine.go:312-326 | Whatever the listing order, discovery returns in increasing order exactly the existing segments with an eight-digit name |
| DataLog.CrashRecovery | sensor-server/data-file.go:90-172 | After every run of writes, flushes, rotations, a crash at any byte and restarts with any rotation sizes, as long as the names last, the segments in sequence order hold a prefix of the session's records that contains everything before the last successful flush |
| DataLog.FlushedForEver | sensor-server/data-file.go:115-222 | Between any two points of a run, across any later crashes and sessions and as long as the names last: the records flushed at the first point are found at the second, first and in order |
| DataLog.FlushLostBeyondNames | sensor-server/data-file.go:133-154 | Where it ends: a file that fills segment 99999999 goes on in one that discovery does not recognise, and a record flushed there is not found |
| DataLog.FlushedForEverFailsBeyondNames | sensor-server/data-file.go:133-154 | The failing history: with a rotation size of one record the record after the 99999999th is flushed and lost |
| DataLog.InvStep | sensor-server/data-file.go:90-222 | Every step keeps the segments as consecutive pieces of the record stream, with buffer and size accounting for the rest |
| DataLog.RecoveredIsPrefix | sensor-server/data-file.go:178-222 | In every state what a reader finds is exactly the whole records among the persisted bytes |
| DataLog.OpenKeepsRecords | sensor-server/data-file.go:79-87 | Opening neither loses nor adds a record: the new session begins with exactly what the directory held |
| DataLog.RecordAddressing | sensor-server/data-file.go:94-106 | Over all runs with restarts under one rotation size R the n-th surviving record is in segment 1 + n/K at byte 12 * (n mod K), whole, with K = R/12 rounded down, and its segment does not exceed R |
| DataLog.SegmentsBounded | sensor-server/data-file.go:94-98 | Over all runs with restarts and crashes no segment exceeds the largest rotation size in force so far |
| DataLog.DecodeEncode | sensor-server/data-file.go:100-102 | The 12 stored bytes give back the timestamp and the value |
| DataLog.RecordLayout | sensor-server/data-file.go:100-102 | The twelve stored bytes: timestamp, then value, little-endian in two's complement |
| DataFiles.DataFile.WriteRecord | sensor-server/data-file.go:90-109 | An open file accepts the record whole behind all earlier ones; sequence, size and counters advance by a rotation exactly when it would exceed the rotation size; a closed file refuses and changes nothing |
| DataFiles.DataFile.WriteBuffered | sensor-server/data-file.go:103-105 | The bounded buffer passes on bytes in order for every buffer size, also one smaller than a record, and writes nothing to the file while they fit |
| DataFiles.DataFile.Flush | sensor-server/data-file.go:115-123 | After a flush, as long as the names last, a reader finds exactly the records of the session |
| DataFiles.DataFile.Rotate | sensor-server/data-file.go:133-154 | The buffer is emptied into the old segment and no record is lost; as long as the names last the next segment is new |
| DataFiles.DataFile.Close | sensor-server/data-file.go:125-131 | Closing flushes every accepted record; as long as the names last a reader then finds exactly the records of the session |
| DataFiles.DataFile.constructor | sensor-server/data-file.go:83-87 | A repaired directory is taken over with the active segment and an empty buffer |
| DataFiles.DiscoverAndRepair | sensor-server/data-file.go:178-222 | In any listing order every segment is cut to whole records, the largest one and its repaired size are returned, and the records a reader finds stay the same |
| DataLog.RepairKeepsRecords | sensor-server/data-file.go:197-211 | Truncating a segment to a multiple of 12 bytes loses no whole record |
| DataFiles.OpenDataFile | sensor-server/data-file.go:56-88 | Opening what any earlier run left fails only for invalid options, opens the largest segment that discovery sees at its repaired size, and goes on with exactly the records found there; the new run continues the history |
| DataStreams.StreamSafety | sensor-server/data-stream.go:101-187 | In every interleaving nothing is sent on the closed queue, although a send there would be ready at once, the queue is closed once, records are handled in queue order and once each, and a Write call returned success exactly if its record was sent |
| DataStreams.CloseDrains | sensor-server/data-stream.go:124-187 | In every interleaving, when any Close call has returned, all records ever sent have been handed to the record writer in order, the queue is empty, and no call can send any more |
| DataStreams.EveryCallCounted | sensor-server/data-stream.go:101-187 | In every interleaving, once a Close and all Write calls have returned, the Write calls number Written plus Dropped, Accepted is the number of records handled, Errors are the dropped records plus failed flushes, and without a failed flush every written record has been flushed |
| DataStreams.RefusedOnlyWhenClosed | sensor-server/data-stream.go:101-122 | In every interleaving the queue stays within its capacity, and a Write call that did not give up waiting is refused only by a closed stream |
| DataStreams.NoDeadlock | sensor-server/data-stream.go:101-187 | In every interleaving, as long as a call has not returned or a record is on its way, some step is possible that needs neither a new call nor a clock nor anyone to give up |
| DataStreams.SendsExactlyWhenRoom | sensor-server/data-stream.go:111-114 | A waiting call can send exactly while the queue has room |
| DataStreams.InvStep | sensor-server/data-stream.go:101-187 | Every atomic step of Write, Close and the worker keeps lock exclusion, close order, queue order, call logs and counters |
| DataStreams.BackoffExactlyWhen | sensor-server/data-stream.go:189-208 | The waits of a call are min(Initial * 2^k, Maximum) for all k below RetryCount if and only if RetryCount is at most one or twice the last wait but one fits 64 bits |
| DataStreams.BackoffIsCapped | sensor-server/data-stream.go:203-206 | A wait is the capped doubling as long as twice its predecessor fits 64 bits |
| DataStreams.BackoffOverflows | sensor-server/data-stream.go:203-206 | The first wait whose predecessor does not double within 64 bits is negative, with its value |
| DataStreams.BackoffOverflowInput | sensor-server/data-stream.go:203-206 | A failing input: with both options at 2^62 the second wait is -2^63 |
| DataStreams.WriteWithRetry | sensor-server/data-stream.go:189-208 | At most RetryCount + 1 attempts, retries only after retryable errors, success exactly if the last attempt stored the record, a retryable last error only when the retries are used up, and the k-th wait min(Initial * 2^k, Maximum) under the condition of BackoffExactlyWhen |
| DataEngines.EngineDrains | sensor-server/data-engine.go:70-142 | In every interleaving, when the first Close call has returned, every record whose WriteSensorData returned success has been handed to the record writer of its stream, and every stream has handled all it was sent, in order and once |
| DataEngines.CallIsDrained | sensor-server/data-engine.go:70-97 | A call made for a floor, room and sensor that returned success was handed, when the first Close has returned, to the record writer of exactly that key's stream |
| DataEngines.RefusedOnlyWhen | sensor-server/data-engine.go:70-79 | In every interleaving a call is refused only by a closed engine, by a factory that failed for it, or by its own stream |
| DataEngines.StreamCapacity | sensor-server/data-engine.go:126-142 | Every stream has the configured queue capacity |
| DataEngines.OneStreamPerKey | sensor-server/data-engine.go:126-142 | No step replaces or removes a stream, and once Close has taken its snapshot the set of streams is fixed |
| DataEngines.InvStep | sensor-server/data-engine.go:70-142 | Every step keeps the invariant: one mutex holder, creation only under it and before the snapshot, and the first Close working through the whole snapshot |
| DataPaths.WrittenIsOnDisk | sensor-server/data-engine.go:44-97 | End to end, in every interleaving of calls, workers, data files and the first Close: once it has returned, every successful WriteSensorData call was handed to the file of its stream, and each stream without a failed flush has on disk what its file held before and then all its stored records in order; if none was dropped these are all the records sent, in queue order |
| DataPaths.CallIsOnDisk | sensor-server/data-engine.go:70-97 | One call from end to end: once the first Close has returned, the record of a successful call for a key is in the data file of exactly that key, if no flush of the stream failed and it dropped no record |
| DataPaths.InvStep | sensor-server/data-stream.go:154-219 | Every step of engine, stream and file keeps each file equal to what was found and what the stream stored, and each successful flush of the stream a flush of the file |
| Protocol.EncodeThenDecode | sensor-server/protocol.go:145-186 | Encoding succeeds exactly on its three conditions, and decoding the datagram gives back type, MAC, payload and the records in it |
| Protocol.DecodeThenEncode | sensor-server/protocol.go:145-186 | Every accepted datagram is the encoding of what it decodes to |
| Protocol.AcceptedExactlyEncodings | sensor-server/protocol.go:145-186 | The accepted datagrams are exactly the outputs of EncodeMessage |
| Protocol.WireLayout | sensor-server/protocol.go:172-184 | Every byte of an encoded message at its offset: 0D F0, type 1, payload length, MAC and payload checksum, little-endian, then the payload |
| Protocol.DatagramMeans | sensor-server/protocol.go:63-158 | Which datagrams are accepted, byte by byte, and which MAC, payload and records they carry |
| Protocol.DatagramErrors | sensor-server/protocol.go:63-158 | Which error refuses a datagram, in the order of the tests |
| Protocol.HeaderRoundTrip | sensor-server/protocol.go:172-177 | The header bytes give back all five fields |
| Protocol.DecodeRecords | sensor-server/protocol.go:114-121 | The cursor loop returns one record per four payload bytes, in order |
| Protocol.RecordMeans | sensor-server/protocol.go:114-121 | What each four payload bytes mean: the sensor type, unknown above 28, and a signed little-endian 24-bit value |
| Protocol.ReadingsRoundTrip | sensor-server/protocol.go:114-121 | Readings of defined sensor types with signed 24-bit values survive the payload format unchanged, in order |
| Protocol.ToSensorType | sensor-server/house_sensors.go:39-44 | Defined identifiers are kept, all others become the unknown type |
| Words.Int24RoundTrip | sensor-server/binary_data.go:31-36 | Sign extension recovers every signed 24-bit value |
| Words.Int24Inverse | sensor-server/binary_data.go:31-36 | Every three bytes are the encoding of the value read from them |
| Words.Int24Means | sensor-server/binary_data.go:31-36 | The value of three bytes: little-endian, the top bit of the last one counting negative |
| Crc32.CheckValue | sensor-server/protocol.go:104-106 | The checksum is the IEEE CRC-32: the nine digits give its check value CBF43926 |
| BinaryBuffer.BinaryData.ReadUint | sensor-server/binary_data.go:26-46 | Reads the little-endian value at the cursor, advances past it and leaves the buffer alone |
| BinaryBuffer.BinaryData.ReadInt24 | sensor-server/binary_data.go:31-36 | Reads the sign-extended value at the cursor and advances past it |
| BinaryBuffer.BinaryData.ReadBytes | sensor-server/binary_data.go:47-52 | Copies out the bytes at the cursor and advances past them |
| BinaryBuffer.BinaryData.WriteBytes | sensor-server/binary_data.go:73-76 | Stores the bytes at the cursor, keeps what lies before and behind |
| BinaryBuffer.BinaryData.WriteUint | sensor-server/binary_data.go:58-72 | Stores the little-endian bytes at the cursor, keeps what lies before and behind |
| BinaryBuffer.BinaryData.WriteUint32At | sensor-server/binary_data.go:66-68 | Replaces exactly four bytes and does not move the cursor |
| TcpFraming.ServeConnection | sensor-server/tcp-server.go:180-221 | For every byte stream and every splitting into reads, the routed messages are exactly the decodable frames, in order, whose MAC is that of the first decodable frame; each frame is counted once as routed, malformed or mismatched |
| TcpFraming.DatagramsAreDecoded | sensor-server/tcp-server.go:193-217 | A stream that begins with encoded messages, keepalives included, decodes to exactly them, in order, whatever follows |
| TcpFraming.UndecodableIsSkipped | sensor-server/tcp-server.go:195-205 | A framed message that does not decode contributes nothing and hides nothing |
| TcpFraming.SameDeviceIsRouted | sensor-server/tcp-server.go:207-217 | Messages of one device are all routed |
| TcpFraming.OtherDeviceIsIgnored | sensor-server/tcp-server.go:207-213 | Messages of another device than the first one's change nothing |
| TcpFraming.EndingMeans | sensor-server/tcp-server.go:224-243 | Which stream ends are clean, cut short or unframeable |
| TcpFraming.Connection.ReadMessage | sensor-server/tcp-server.go:224-249 | Result, structural flag and remaining bytes depend only on the byte stream, not on how it is split |
| TcpFraming.Connection.ReadFull | sensor-server/tcp-server.go:225-241 | Collects exactly n bytes over any chunks, or ends the stream with the right kind of end-of-file |
| TcpFraming.FrameAtFront | sensor-server/tcp-server.go:224-249 | A framed message, valid or not, consumes exactly 16 bytes plus its payload length |
| TcpFraming.FramesOfConcat | sensor-server/tcp-server.go:193-205 | Resynchronisation: framed messages are found one after another whatever their payloads hold and whatever follows |
| TcpFraming.FramesArePrefix | sensor-server/tcp-server.go:224-249 | The frames found are, byte for byte, a prefix of the stream |
| TcpFraming.ReadsEncodedMessage | sensor-server/protocol.go:127-142 | Reading an encoded message followed by any bytes returns that message and leaves exactly those bytes |
| TcpRegistry.RegistrySafety | sensor-server/tcp-server.go:161-271 | In every interleaving the registered connections never exceed the limit, the current connection of a MAC is registered and bound to it, and every other registered connection bound to that MAC is closed or about to be closed by the binding that replaced it |
| TcpRegistry.AdmitsExactlyWhen | sensor-server/tcp-server.go:161-166 | A connection is admitted exactly while fewer than the limit hold a token |
| TcpRegistry.SocketsClosedOnlyWhenReplaced | sensor-server/tcp-server.go:251-262 | The socket of a connection that is still serving is closed only if another connection has bound its MAC since, never that of the current one |
| TcpRegistry.BindingsAreFinal | sensor-server/tcp-server.go:207-262 | However a run goes on, a bound connection stays bound to the same MAC |
| TcpRegistry.BoundToItsMac | sensor-server/tcp-server.go:251-257 | A connection that binds a MAC is bound to that MAC ever after |
| TcpRegistry.ReplacementStays | sensor-server/tcp-server.go:251-271 | However a run goes on, the current connection of a MAC stays current until it is itself removed or another connection binds the MAC, so a late removal never evicts a replacement |
| TcpRegistry.InvStep | sensor-server/tcp-server.go:161-271 | Every step of admission, registration, binding, replacement, hang-up, removal and token release keeps the registry invariant |
| SampleRings.SampleRing.Append | plugins/http/sample-ring.go:18-24 | The history grows by the sample and the ring keeps holding its end |
| SampleRings.SampleRing.Snapshot | plugins/http/sample-ring.go:26-36 | Returns the last min(n, capacity) of the n appended samples, oldest first |
| MonitorState.ConnectedExactlyWhenLive | plugins/http/monitor-state.go:122-151 | For every sequence of callbacks a device is connected exactly when the latest connection reported for its MAC has not since been reported closed |
| MonitorState.TransitionsAlternate | plugins/http/monitor-state.go:122-151 | The effective connect and disconnect transitions of each MAC, in the order in which the callbacks take the lock, strictly alternate, beginning with a connect, and the last one agrees with the device's state |
| MonitorState.TransitionsComeFromCallbacks | plugins/http/monitor-state.go:122-151 | Every effective transition is that of a callback for its device and connection |
| MonitorState.MonitoringState.OnDeviceConnected | plugins/http/monitor-state.go:122-135 | The devices, effective transitions and rings are those of the callback sequence so far |
| MonitorState.MonitoringState.OnDeviceDisconnected | plugins/http/monitor-state.go:137-151 | The devices, effective transitions and rings are those of the callback sequence so far |
| MonitorState.MonitoringState.OnSensorObservation | plugins/http/monitor-state.go:95-111 | The sample goes to the ring of its own device and sensor and to no other, a ring being made on the first one |
| MonitorState.MonitoringState.Readings | plugins/http/monitor-state.go:205-217 | Under any interleaved observations the result is the last samples of exactly that device and sensor, found exactly if it was ever observed |
| MonitorState.SamplesMean | plugins/http/monitor-state.go:95-111 | The samples of a sensor are those of the observations of exactly that device and sensor, in order |
| MonitorState.LastSeen | plugins/http/monitor-state.go:95-128 | A device shows the time of its latest observation and the transport of its latest observation or connection |
| RateLimiters.RateLimiter.Allow | logging/logging.go:217-227 | A call is refused exactly when it comes less than an interval after the last allowed call of the same key; allowed times of a key stay an interval apart for any clock |
| RateLimiters.RateBound | logging/logging.go:217-227 | The allowed times of a key increase by at least the interval, so two allowed calls in a window of width W have at most W / interval + 1 allowed calls from the first to the second, whatever the clock and the other keys did |
| RateLimiters.AllowedMeans | logging/logging.go:217-227 | Only the allowed calls of the key itself count, in call order |

## Left out

- QuarantineService.QuarantineWriter.WriteUnknownMessage: requires that an encodable message came from the protocol decoder, as those of the servers and of replay do; the encoder accepts more, and `QuarantineCodec.RoundTripExactlyWhen` and `QuarantineCodec.ForeignEntry` say exactly what becomes of such a message.
- QuarantineCodec.ReadQuarantineEntries: running past the capacity of the buffer, a panic in the code, is the error out-of-range here.
- Routing.MessageRouter.Route: the copy of the message is not modelled, since messages are values; a reload between messages is `Reload`.
- DataStreams.StreamSafety: timers, contexts and the ticker are nondeterministic choices (a call in the select may give up at any time, a tick may come whenever the worker is ready); a waiting Close does not keep new Write calls out, which allows more interleavings than the real lock. Retries inside one record are one step here and the subject of `WriteWithRetry`.
- DataEngines.EngineDrains: a second Close call returns at once in the code and is not covered by the drain.
- TcpRegistry.RegistrySafety: covers the running server; a Close racing with a late admission, and the active-connections counter, which is decremented after the token is released, are left out.
- MonitorState.TransitionsAlternate: the code publishes an event after it has released the lock, so concurrent callbacks may publish in another order than the one proved here.
- MonitorState.MonitoringState.OnSensorObservation: the per-device sensor tables are one map keyed by device and sensor; floor and room names, the current sample, warnings and the observation events are left out.
- File-system errors: a file operation succeeds, or the process crashes in it; states after a failed close, open or short write are not modelled. Completed writes are taken to survive a process crash, and setting a completion marker (write and rename) is one step.
- Delivery means that the data writer accepted the record, not that it reached the disk.
- Cancelled contexts: WriteUnknownMessage and the replay loop return early when their context is done; for the log this is a failure that changes nothing, or a replay that stops between two entries.
- DataPaths.WrittenIsOnDisk: the retries of one record are one store or one failure, and a restarted engine begins with files that are just opened.
- The read and write methods of the cursor for 16, 32 and 64 bits are one method with a width.
- Agreement of the monitor with the registry under concurrent binds: the callbacks run outside the lock.
- The UDP server and its shutdown, configuration files and address parsing, HTTP and event-stream handlers, house tables and thresholds, the logger and the program's wiring: easy members or input and output.
