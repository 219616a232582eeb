# split-proxy stream multiplexer, modelled in Dafny

split-proxy carries many byte streams over one WebSocket. This project
models the sequential core of that multiplexer and proves properties of it.

- **Ordering envelope.** Every message is wrapped in a `PriorityQueueEntry`
  of (priority, timestamp, sequence, message). Entries are ordered
  lexicographically on the first three fields.
- **Message handlers.** `WsPriorityMessageHandler` and
  `WsMuxMessageBroker` stamp each message with the clock time and a
  per-millisecond sequence number, then add it to a priority queue. The
  handler also refuses sends while draining. Its sender step sends a queued
  message, or flushes the whole queue when it meets the priority-0 drain
  sentinel.
- **Stream ids.** `StreamMap` hands out the lowest clear bit of a bitset,
  up to 100 ids. It frees ids with checked errors.
- **Control messages.** `StreamBuffers` and the connect dispatcher build
  the connect request, confirm and fail messages. Each starts with the
  priority, a stream id and a type byte.
- **Controller and server.** `StreamController` binds ports to
  `StreamServer`s. Its connect dispatcher answers each connect request;
  its message reader queues them. A `StreamServer` is a bounded
  first-in first-out queue of the `Stream`s handed to it.
- **Flow-controlled buffers.** `StreamInputStream`, `StreamTransitBuffer`
  and `StreamOutputStream` each keep a `java.nio.ByteBuffer`. The buffer
  switches between writing (`compact`) and reading (`flip`). The output
  stream's sender is limited by a remote window that starts at 4096 bytes.

How the model represents the source:

- Queues are sorted sequences; `poll` takes the head.
- The clock is an integer parameter `now`.
- Each background loop (the transmit sender, the connect dispatcher, the
  message reader, the output sender) becomes one step method.
- Each blocking wait becomes a precondition of that step.
- Java exceptions become `Result.Thrown(...)` values.
- Java `int`s are unbounded integers. Bytes are the `Byte` newtype (0..255).
  A Java `byte` read from a buffer is sign-extended (`Bytes.SignExtend`).
- A `ByteBuffer` is a class over an array with `position` and `limit`.
- Each stream class holds a ghost sequence `held`: the bytes written and
  not yet taken, oldest first. `Valid()` ties `held` pointwise to the
  array, whichever mode the buffer is in.
- For the output stream, `sent` records every chunk handed to `sendData`.
  The remote window always equals 4096, plus the increments received,
  minus the bytes sent.

## Model

Source cells give paths from the repository root.

| member | source | states |
|---|---|---|
| Bytes.SignExtend | src/main/java/xyz/arwhite/net/mux/PriorityQueueEntry.java:17 | a Java `byte` read as `int` keeps bytes 0..127 and maps 128..255 to negative values, equal to the byte or the byte minus 256 |
| Bytes.LowByte | src/main/java/xyz/arwhite/net/mux/StreamBuffers.java:20-23 | `writeInt8`/`(byte)` keeps exactly the low eight bits: the same value for 0..255, and always congruent mod 256 |
| Bytes.SignExtendRoundTrip | src/main/java/xyz/arwhite/net/mux/WsPriorityMessageHandler.java:125 | casting a byte to a signed priority loses nothing: its low byte is the original byte |
| Envelope.Key | src/main/java/xyz/arwhite/net/mux/PriorityQueueEntry.java:17-44 | the ordering key has exactly the three fields priority, timestamp, sequence |
| Envelope.LexLessIrreflexive | src/main/java/xyz/arwhite/net/mux/PriorityQueueEntry.java:20-44 | the reference lexicographic order is irreflexive |
| Envelope.LexLessTransitive | src/main/java/xyz/arwhite/net/mux/PriorityQueueEntry.java:20-44 | the reference lexicographic order is transitive |
| Envelope.LexLessTotal | src/main/java/xyz/arwhite/net/mux/PriorityQueueEntry.java:20-44 | any two equal-length keys are ordered one way, or equal |
| Envelope.LexLessOnKeys | src/main/java/xyz/arwhite/net/mux/PriorityQueueEntry.java:20-44 | on entry keys the reference order is: smaller priority, else earlier timestamp, else lower sequence |
| Envelope.CompareTo | src/main/java/xyz/arwhite/net/mux/PriorityQueueEntry.java:20-44 | `compareTo` returns only -1, 0 or +1, and 0 exactly when priority, timestamp and sequence all agree; the message is never consulted |
| Envelope.CompareToIsLexicographic | src/main/java/xyz/arwhite/net/mux/PriorityQueueEntry.java:20-44 | -1 exactly when the key is lexicographically smaller, +1 exactly when larger |
| Envelope.PriorityDecides | src/main/java/xyz/arwhite/net/mux/PriorityQueueEntry.java:22-26 | a smaller priority sorts first, whatever the timestamps and sequences |
| Envelope.TimestampDecides | src/main/java/xyz/arwhite/net/mux/PriorityQueueEntry.java:29-33 | with equal priorities the earlier timestamp sorts first |
| Envelope.SequenceDecides | src/main/java/xyz/arwhite/net/mux/PriorityQueueEntry.java:36-40 | with equal priority and timestamp the lower sequence sorts first |
| Envelope.CompareAntisymmetric | src/main/java/xyz/arwhite/net/mux/PriorityQueueEntry.java:20-44 | swapping the operands negates the result |
| Envelope.CompareTransitive | src/main/java/xyz/arwhite/net/mux/PriorityQueueEntry.java:20-44 | "sorts no later than" is transitive, so a priority queue can use it |
| Envelope.Insert | src/main/java/xyz/arwhite/net/mux/WsPriorityMessageHandler.java:125 | adding to the queue grows it by one and loses or invents nothing (multiset equality) |
| Envelope.InsertKeepsSorted | src/main/java/xyz/arwhite/net/mux/WsPriorityMessageHandler.java:103 | adding to a sorted queue keeps it sorted |
| Envelope.InsertAfterAll | src/main/java/xyz/arwhite/net/mux/WsPriorityMessageHandler.java:125 | an entry that sorts after everything queued goes to the back |
| Envelope.ConsSorted | src/main/java/xyz/arwhite/net/mux/WsPriorityMessageHandler.java:103 | an entry no later than every entry of a sorted queue can go in front |
| Envelope.HeadIsMinimum | src/main/java/xyz/arwhite/net/mux/WsPriorityMessageHandler.java:136-138 | the head of a sorted queue sorts no later than any queued entry, so `poll` yields a minimum |
| Envelope.InsertAllSorted | src/test/java/xyz/arwhite/net/mux/PriorityQueueEntryTest.java:16-59 | filled in any order, the queue is sorted and holds exactly the added entries |
| Envelope.InsertAllInOrder | src/main/java/xyz/arwhite/net/mux/PriorityQueueEntry.java:10-11 | entries arriving in strictly ascending order drain in arrival order |
| Envelope.NextStamp | src/main/java/xyz/arwhite/net/mux/WsMuxMessageBroker.java:33-40 | the stamp carries the clock time; the sequence counts on when the clock equals the last time and restarts at 0 otherwise |
| Envelope.NextStampAdvances | src/main/java/xyz/arwhite/net/mux/WsMuxMessageBroker.java:33-40 | under a clock that does not run backwards each stamp is strictly later than the previous one |
| Envelope.StampSeries | src/main/java/xyz/arwhite/net/mux/WsMuxMessageBroker.java:31-43 | a series of arrivals gets one stamp each |
| Envelope.StampSeriesIncreasing | src/test/java/xyz/arwhite/net/mux/WsMuxMessageBrokerTest.java:41-89 | under a non-decreasing clock the stamps strictly increase: same-millisecond sequences rise, later times come later |
| Envelope.Arrivals | src/main/java/xyz/arwhite/net/mux/WsMuxMessageBroker.java:42 | the i-th arrival becomes the entry (priority, its stamp, its message) |
| Envelope.SamePriorityPollsInArrivalOrder | src/main/java/xyz/arwhite/net/mux/PriorityQueueEntry.java:10-11 | messages of one priority under a non-decreasing clock poll back in first-in first-out order |
| Envelope.DrainOrderExamples | src/test/java/xyz/arwhite/net/mux/PriorityQueueEntryTest.java:16-59 | entries added as v3, v1, v2 drain as v1, v2, v3 whether they differ in priority, timestamp or sequence |
| Envelope.DrainThree | src/test/java/xyz/arwhite/net/mux/PriorityQueueEntryTest.java:16-59 | any three strictly ordered entries added as v3, v1, v2 drain in order |
| Envelope.WirePriorityAbove127SortsFirst | src/main/java/xyz/arwhite/net/mux/PriorityQueueEntry.java:8-9 | as written, a wire priority of 200 sorts ahead of priority 1 |
| Envelope.UnsignedPriorityCompare | src/main/java/xyz/arwhite/net/mux/PriorityQueueEntry.java:8-9 | the documented order compares the wire byte unsigned: -1, 0, +1 exactly for less, equal, greater |
| Envelope.UnsignedOrderMatchesDocumentation | src/main/java/xyz/arwhite/net/mux/PriorityQueueEntry.java:8-9 | in the documented order 0 precedes every other priority and 255 follows every other |
| Envelope.SignedOrderAgreesWithinHalves | src/main/java/xyz/arwhite/net/mux/PriorityQueueEntry.java:8-17 | the signed and documented orders agree on every pair of wire priorities both below 128 or both 128 or above |
| Envelope.SignedOrderMixed | src/main/java/xyz/arwhite/net/mux/PriorityQueueEntry.java:8-17 | on a pair with one wire priority below 128 and one at 128 or above the orders disagree: documented puts the lower byte first, signed the higher |
| PriorityHandler.SentinelSortsFirst | src/main/java/xyz/arwhite/net/mux/WsPriorityMessageHandler.java:90-92 | the priority-0 sentinel sorts ahead of every entry whose signed priority is 1 or more (wire bytes 1..127) |
| PriorityHandler.NegativePrioritySortsBeforeSentinel | src/main/java/xyz/arwhite/net/mux/PriorityQueueEntry.java:17-26 | an entry with wire priority 128..255, a negative signed byte, sorts ahead of the sentinel |
| PriorityHandler.Messages | src/main/java/xyz/arwhite/net/mux/WsPriorityMessageHandler.java:52-55 | the payloads of a run of entries, one per entry, in queue order |
| PriorityHandler.MessagesAppend | src/main/java/xyz/arwhite/net/mux/WsPriorityMessageHandler.java:52-55 | sending one more entry appends exactly its payload |
| PriorityHandler.WsPriorityMessageHandler.constructor | src/main/java/xyz/arwhite/net/mux/WsPriorityMessageHandler.java:103-147 | both queues empty, all counters 0, not draining |
| PriorityHandler.WsPriorityMessageHandler.OnOpen | src/main/java/xyz/arwhite/net/mux/WsPriorityMessageHandler.java:33-73 | a new `txStopped` future and a running sender; queues and counters unchanged |
| PriorityHandler.WsPriorityMessageHandler.OnClose | src/main/java/xyz/arwhite/net/mux/WsPriorityMessageHandler.java:80-97 | stops the sender and adds exactly one priority-0 sentinel to the receive queue, which stays sorted; the sentinel goes ahead of every queued entry whose wire priority is 1..127, while queued entries with wire priority 128..255 stay ahead of it (the signed-priority finding at PriorityQueueEntry.java:17), as do priority-0 entries with an earlier stamp |
| PriorityHandler.WsPriorityMessageHandler.OnMessage | src/main/java/xyz/arwhite/net/mux/WsPriorityMessageHandler.java:112-129 | the receive counters advance as `NextStamp`; exactly one entry with byte 0 as priority and the clock time is added; an empty message throws with the queue unchanged |
| PriorityHandler.WsPriorityMessageHandler.SendMessage | src/main/java/xyz/arwhite/net/mux/WsPriorityMessageHandler.java:154-177 | false with nothing changed while draining or for priority 0; otherwise the separate transmit counters advance, exactly one entry is added and the answer is true |
| PriorityHandler.WsPriorityMessageHandler.DrainTxQueue | src/main/java/xyz/arwhite/net/mux/WsPriorityMessageHandler.java:182-202 | draining is set for good; once opened, one priority-0 sentinel joins the transmit queue |
| PriorityHandler.WsPriorityMessageHandler.TxSenderStep | src/main/java/xyz/arwhite/net/mux/WsPriorityMessageHandler.java:44-61 | a priority-0 head sends every remaining message in queue order, empties the queue and completes `txStopped`; any other head is sent alone |
| PriorityHandler.WsPriorityMessageHandler.PollRx | src/main/java/xyz/arwhite/net/mux/WsPriorityMessageHandler.java:136-138 | `poll` on the receive queue: none when empty, else the head, which sorts no later than any queued entry |
| PriorityHandler.WsPriorityMessageHandler.PollTx | src/main/java/xyz/arwhite/net/mux/WsPriorityMessageHandler.java:209-211 | `poll` on the transmit queue: none when empty, else a minimum entry |
| PriorityHandler.ComplexOrderScenario | src/test/java/xyz/arwhite/net/mux/WsPriorityMessageHandlerTest.java:95-143 | priorities 3, 3, 1, 2 arriving at times 0, 0, 1, 2 get stamps (0,1), (0,2), (1,0), (2,0) and poll back as 1, 2, then the two 3s in arrival order |
| PriorityHandler.ScenarioStamps | src/test/java/xyz/arwhite/net/mux/WsPriorityMessageHandlerTest.java:95-121 | the stamps of that scenario |
| PriorityHandler.InterleavedOrder | src/test/java/xyz/arwhite/net/mux/WsPriorityMessageHandlerTest.java:123-143 | two late arrivals that sort first end up in front, each pair keeping its order |
| PriorityHandler.InsertAllSteps | src/test/java/xyz/arwhite/net/mux/WsPriorityMessageHandlerTest.java:95-121 | adding four entries in turn is four single inserts |
| MuxBroker.WsMuxMessageBroker.constructor | src/main/java/xyz/arwhite/net/mux/WsMuxMessageBroker.java:14-24 | empty queue, counters 0 |
| MuxBroker.WsMuxMessageBroker.OnMessage | src/main/java/xyz/arwhite/net/mux/WsMuxMessageBroker.java:31-43 | the counters advance as `NextStamp`; exactly one entry (byte 0 as signed priority, clock time) is added; an empty message throws with the queue unchanged |
| MuxBroker.WsMuxMessageBroker.Poll | src/main/java/xyz/arwhite/net/mux/WsMuxMessageBroker.java:50-52 | `poll`: none when empty, else a minimum entry |
| Streams.Stream.constructor | src/main/java/xyz/arwhite/net/mux/Stream.java:20-24 | the three fields hold exactly the arguments |
| Streams.Stream.SetLocalId | src/main/java/xyz/arwhite/net/mux/Stream.java:32-34 | changes only the local id |
| Streams.Stream.SetRemoteId | src/main/java/xyz/arwhite/net/mux/Stream.java:40-42 | changes only the remote id |
| Streams.Stream.SetPriority | src/main/java/xyz/arwhite/net/mux/Stream.java:48-50 | changes only the priority |
| StreamIds.Range | src/main/java/xyz/arwhite/net/mux/StreamMap.java:16 | the ids 0..n-1 |
| StreamIds.RangeSize | src/main/java/xyz/arwhite/net/mux/StreamMap.java:16 | there are n ids below n |
| StreamIds.SubsetSize | src/main/java/xyz/arwhite/net/mux/StreamMap.java:44-45 | a subset is no larger than its superset |
| StreamIds.FreeIdIffBelowLimit | src/main/java/xyz/arwhite/net/mux/StreamMap.java:43-45 | a free id below the limit exists exactly when fewer than that many ids are in use |
| StreamIds.StreamMap.constructor | src/main/java/xyz/arwhite/net/mux/StreamMap.java:21 | a 128-bit bitset with no id in use and an empty map |
| StreamIds.StreamMap.NextClearBit | src/main/java/xyz/arwhite/net/mux/StreamMap.java:43 | the first clear bit, or the bitset size when all are set |
| StreamIds.StreamMap.AllocNewStreamId | src/main/java/xyz/arwhite/net/mux/StreamMap.java:38-54 | succeeds exactly when fewer than 100 ids are used; returns the lowest free id, in 0..99, and sets exactly that bit; otherwise throws with the bitset unchanged |
| StreamIds.StreamMap.FreeStreamId | src/main/java/xyz/arwhite/net/mux/StreamMap.java:56-71 | an id of 100 or more, or one not in use, throws with nothing changed; a used id is cleared and nothing else |
| StreamIds.StreamMap.Put | src/main/java/xyz/arwhite/net/mux/StreamController.java:115 | the map gains exactly that binding |
| StreamIds.StreamMap.Remove | src/main/java/xyz/arwhite/net/mux/StreamController.java:127 | the map loses exactly that key |
| StreamIds.ExhaustThenReuse | src/test/java/xyz/arwhite/net/mux/StreamMapTest.java:37-55 | a fresh map hands out 0..99 in order, the 101st request throws, and a freed id is the next one returned |
| Codec.Uint16 | src/main/java/xyz/arwhite/net/mux/StreamBuffers.java:34 | two wire bytes read big-endian give a value in 0..65535 whose high and low bytes are those bytes |
| Codec.Int16 | src/main/java/xyz/arwhite/net/mux/StreamBuffers.java:13 | `writeInt16` writes two bytes that read back as the value mod 65536 |
| Codec.Uint16Inverse | src/main/java/xyz/arwhite/net/mux/StreamBuffers.java:34 | any two bytes are the encoding of the value they denote |
| Codec.Int16RoundTrip | src/main/java/xyz/arwhite/net/mux/StreamBuffers.java:34 | a value in 0..65535 survives encoding and decoding |
| Codec.CreateConnectRequestAsWritten | src/main/java/xyz/arwhite/net/mux/StreamBuffers.java:7-15 | as written, the returned buffer is empty |
| Codec.CreateConnectRequest | src/main/java/xyz/arwhite/net/mux/StreamBuffers.java:9-13 | the buffer the function fills: five bytes with type 1 at byte 2 |
| Codec.CreateConnectConfirm | src/main/java/xyz/arwhite/net/mux/StreamBuffers.java:17-26 | four bytes with type 2 at byte 2 |
| Codec.CreateConnectFail | src/main/java/xyz/arwhite/net/mux/StreamBuffers.java:28-37 | five bytes with type 3 at byte 2 |
| Codec.DecodeConnectRequest | src/test/java/xyz/arwhite/net/mux/StreamBuffersTest.java:14-27 | accepts exactly five-byte type-1 messages; fields in 0..255, 0..255, 0..65535 |
| Codec.DecodeConnectConfirm | src/test/java/xyz/arwhite/net/mux/StreamBuffersTest.java:30-45 | accepts exactly four-byte type-2 messages; all fields in 0..255 |
| Codec.DecodeConnectFail | src/test/java/xyz/arwhite/net/mux/StreamBuffersTest.java:48-62 | accepts exactly five-byte type-3 messages; error code in 0..65535 |
| Codec.ConnectRequestAsWrittenLosesFields | src/test/java/xyz/arwhite/net/mux/StreamBuffersTest.java:14-27 | the request as written decodes to nothing, so the round trip of (12, 17, 8080) fails |
| Codec.ConnectRequestRoundTrip | src/main/java/xyz/arwhite/net/mux/StreamBuffers.java:9-13 | a filled request decodes to the low 8, 8 and 16 bits of its arguments |
| Codec.ConnectConfirmRoundTrip | src/main/java/xyz/arwhite/net/mux/StreamBuffers.java:17-26 | a confirm decodes to the low eight bits of its arguments, byte 1 as the receiver's id and byte 3 as the peer's |
| Codec.ConnectFailRoundTrip | src/main/java/xyz/arwhite/net/mux/StreamBuffers.java:28-37 | a fail decodes to the low 8, 8 and 16 bits of its arguments |
| Codec.ConnectBuffersTestVectors | src/test/java/xyz/arwhite/net/mux/StreamBuffersTest.java:30-62 | the test vectors (12, 17, 23) and (12, 17, 10010) come back unchanged, and so would (12, 17, 8080) from a filled request |
| Codec.DecodeConnectRequestInverse | src/main/java/xyz/arwhite/net/mux/StreamBuffers.java:9-13 | every well-formed request is the encoding of its decoded fields |
| Codec.DecodeConnectConfirmInverse | src/main/java/xyz/arwhite/net/mux/StreamBuffers.java:17-26 | every well-formed confirm is the encoding of its decoded fields |
| Codec.DecodeConnectFailInverse | src/main/java/xyz/arwhite/net/mux/StreamBuffers.java:28-37 | every well-formed fail is the encoding of its decoded fields |
| Codec.ResponsesEchoRequest | src/main/java/xyz/arwhite/net/mux/StreamController.java:118-145 | confirm and fail both start with the request's priority and the requester's id |
| Codec.DispatcherFailBytes | src/main/java/xyz/arwhite/net/mux/StreamController.java:104-146 | the two failures are [priority, remoteId, 3, 0, 1] and [priority, remoteId, 3, 0, 2] |
| Codec.ReadPortAsWritten | src/main/java/xyz/arwhite/net/mux/StreamController.java:205-208 | as written, reading two bytes into a two-byte array at offset 3 always throws |
| Codec.ReadPort | src/main/java/xyz/arwhite/net/mux/StreamController.java:204 | the port of bytes 3-4, in 0..65535, exactly when the message has five bytes; otherwise IndexOutOfBounds |
| Codec.ReadPortMatchesRequest | src/main/java/xyz/arwhite/net/mux/StreamController.java:204-208 | the intended reader gets back the port a request carries; the written one throws on it |
| Controller.StreamController.constructor | src/main/java/xyz/arwhite/net/mux/StreamController.java:40-47 | no port bindings, no requests, nothing sent, no ids in use |
| Controller.StreamController.RegisterStreamServer | src/main/java/xyz/arwhite/net/mux/StreamController.java:60-62 | true exactly when the port was unbound, and then binds it; an existing binding is never replaced |
| Controller.StreamController.DeregisterStreamServer | src/main/java/xyz/arwhite/net/mux/StreamController.java:69-71 | true exactly when a server was bound; the port is unbound afterwards |
| Controller.StreamController.ConnectDispatchStep | src/main/java/xyz/arwhite/net/mux/StreamController.java:95-147 | no listener: one fail with code 1 and no id taken. No id left: one fail with code 2 and nothing changed. Otherwise the lowest free id L is set, [priority, remoteId, 2, L] is sent, and a new Stream(L, remoteId, priority) is mapped and queued on the server when it has room; when the server is full the mapping is dropped but the id stays taken and the confirm stays sent |
| Controller.StreamController.HandOver | src/main/java/xyz/arwhite/net/mux/StreamController.java:112-129 | the confirm goes out before the hand-over; the stream stays mapped exactly when the server accepted it |
| Controller.StreamController.MessageReaderStep | src/main/java/xyz/arwhite/net/mux/StreamController.java:199-211 | only type-1 messages queue a request (priority byte 0, requester byte 1, port bytes 3-4); other types change nothing; short messages and a full queue throw |
| Controller.StreamServer.Init | src/main/java/xyz/arwhite/net/mux/StreamServer.java:14-18 | keeps the controller and port, with nothing pending |
| Controller.StreamServer.Open | src/main/java/xyz/arwhite/net/mux/StreamServer.java:14-22 | registers the new server on its port, or throws IllegalArgumentException with the bindings unchanged when the port is taken |
| Controller.StreamServer.ExecuteStream | src/main/java/xyz/arwhite/net/mux/StreamServer.java:30-33 | true and appended exactly when fewer than 16 streams wait; otherwise false and unchanged |
| Controller.StreamServer.Accept | src/main/java/xyz/arwhite/net/mux/StreamServer.java:40-43 | returns and removes the oldest pending stream |
| Controller.StreamServer.Close | src/main/java/xyz/arwhite/net/mux/StreamServer.java:48-51 | unbinds the port, throwing IllegalArgumentException exactly when it was not bound |
| Buffers.Clamp | src/main/java/xyz/arwhite/net/mux/StreamInputStream.java:129-130 | the count is at most the request and at most what remains, and equals one of them |
| Buffers.SumAppend | src/main/java/xyz/arwhite/net/mux/StreamInputStream.java:137 | appending a notification adds its count to the total |
| Buffers.FlattenAppend | src/main/java/xyz/arwhite/net/mux/StreamOutputStream.java:113 | appending a sent chunk appends its bytes to everything sent |
| Buffers.ByteBuffer.Allocate | src/main/java/xyz/arwhite/net/mux/StreamInputStream.java:27-29 | `ByteBuffer.allocate`: a zero-filled array of the capacity, position 0, limit at the end |
| Buffers.ByteBuffer.Flip | src/main/java/xyz/arwhite/net/mux/StreamInputStream.java:83-86 | `flip`: the limit moves to the old position and the position to 0 |
| Buffers.ByteBuffer.Compact | src/main/java/xyz/arwhite/net/mux/StreamInputStream.java:45-48 | `compact`: the unread bytes move to the front in order, the position follows them, the limit goes to the end |
| Buffers.ByteBuffer.Put | src/main/java/xyz/arwhite/net/mux/StreamOutputStream.java:152 | writes one byte at the position, advances it, and leaves every other cell alone |
| Buffers.ByteBuffer.PutSeq | src/main/java/xyz/arwhite/net/mux/StreamInputStream.java:52-53 | copies a run of bytes to the position, advances it, and leaves the bytes before it alone |
| Buffers.ByteBuffer.Get | src/main/java/xyz/arwhite/net/mux/StreamInputStream.java:88 | returns the byte at the position and advances it |
| Buffers.ByteBuffer.GetSeq | src/main/java/xyz/arwhite/net/mux/StreamOutputStream.java:113 | returns the n bytes from the position and advances past them |
| Buffers.ByteBuffer.GetInto | src/main/java/xyz/arwhite/net/mux/StreamInputStream.java:132 | copies n bytes from the position into `dst[off..off+n]` and leaves the rest of `dst` alone |
| InputStreams.StreamInputStream.constructor | src/main/java/xyz/arwhite/net/mux/StreamInputStream.java:17-29 | an empty, open, writable buffer of the capacity with no notifications |
| InputStreams.StreamInputStream.WriteFromPeer | src/main/java/xyz/arwhite/net/mux/StreamInputStream.java:36-62 | closed: nothing changes; otherwise the payload joins the tail of the held bytes and `available` rises by its size |
| InputStreams.StreamInputStream.Read | src/main/java/xyz/arwhite/net/mux/StreamInputStream.java:69-102 | closed: IOException and nothing changes; otherwise the oldest byte, sign-extended, leaves the buffer, `available` drops by 1 and 1 is posted as freed |
| InputStreams.StreamInputStream.ReadInto | src/main/java/xyz/arwhite/net/mux/StreamInputStream.java:110-147 | IOException when closed, NullPointerException for null, IndexOutOfBounds for a bad range; otherwise n = min(len, buffered) oldest bytes land in `b[off..off+n]`, the rest of `b` is untouched, n is returned and posted as freed |
| InputStreams.StreamInputStream.TakeInto | src/main/java/xyz/arwhite/net/mux/StreamInputStream.java:132-137 | the n oldest held bytes move to `b[off..off+n]`, the rest of `b` is untouched, they leave `held` for `consumed`, and n is posted as freed |
| InputStreams.StreamInputStream.TurnToRead | src/main/java/xyz/arwhite/net/mux/StreamInputStream.java:83-86 | switching to read mode keeps the held bytes |
| InputStreams.StreamInputStream.Available | src/main/java/xyz/arwhite/net/mux/StreamInputStream.java:150-156 | IOException exactly when closed; otherwise the held count, never above the capacity |
| InputStreams.StreamInputStream.Close | src/main/java/xyz/arwhite/net/mux/StreamInputStream.java:159-161 | sets closed and changes nothing else |
| InputStreams.InterleavedDelivery | src/test/java/xyz/arwhite/net/mux/StreamInputStreamTest.java:61-93 | bytes leave in arrival order across a refill that compacts the buffer |
| InputStreams.BulkRead | src/main/java/xyz/arwhite/net/mux/StreamInputStream.java:129-137 | asking for 3 of 2 buffered bytes at offset 1 fills only `b[1..3]`, returns 2, posts 2 and empties the stream |
| InputStreams.ClosedStream | src/main/java/xyz/arwhite/net/mux/StreamInputStream.java:36-161 | after close a delivery is ignored and every read throws IOException |
| TransitBuffers.ReadCountAsWritten | src/main/java/xyz/arwhite/net/mux/StreamTransitBuffer.java:132-133 | as written the count is raised to what is buffered: at least both the request and the buffered amount |
| TransitBuffers.ClampsAgreeOnlyOnExactRequests | src/main/java/xyz/arwhite/net/mux/StreamTransitBuffer.java:132-133 | the written count equals `Clamp` exactly when the request equals what is buffered, and overshoots otherwise |
| TransitBuffers.ClampCounterexamples | src/main/java/xyz/arwhite/net/mux/StreamTransitBuffer.java:132-133 | one of four bytes requested takes 4; eight of four requested asks for 8 |
| TransitBuffers.StreamTransitBuffer.constructor | src/main/java/xyz/arwhite/net/mux/StreamTransitBuffer.java:16-26 | starts in NONE, empty |
| TransitBuffers.StreamTransitBuffer.WriteFromPeer | src/main/java/xyz/arwhite/net/mux/StreamTransitBuffer.java:33-64 | as written, the first write compacts the fresh buffer into a full one; from then on every non-empty write throws IndexOutOfBounds and holds nothing, while before that a write appends the payload |
| TransitBuffers.StreamTransitBuffer.WriteFromPeerIntended | src/main/java/xyz/arwhite/net/mux/StreamTransitBuffer.java:38-49 | with NONE treated as an empty write buffer, every write that fits appends the payload |
| TransitBuffers.StreamTransitBuffer.Read | src/main/java/xyz/arwhite/net/mux/StreamTransitBuffer.java:71-109 | the oldest byte, sign-extended, leaves the buffer, `available` drops by 1 and 1 is posted |
| TransitBuffers.StreamTransitBuffer.ReadInto | src/main/java/xyz/arwhite/net/mux/StreamTransitBuffer.java:117-150 | succeeds exactly when the request is at most what is buffered and everything buffered fits at `off`; it then drains all of it into `b` and posts that count; a larger request that fits in `b` underflows with nothing taken |
| TransitBuffers.StreamTransitBuffer.TurnToRead | src/main/java/xyz/arwhite/net/mux/StreamTransitBuffer.java:81-84 | switching to read mode keeps the held bytes |
| TransitBuffers.StreamTransitBuffer.Available | src/main/java/xyz/arwhite/net/mux/StreamTransitBuffer.java:153-155 | the held count, never above the capacity |
| TransitBuffers.FreshBufferJams | src/main/java/xyz/arwhite/net/mux/StreamTransitBuffer.java:16-46 | on a fresh buffer the first and second writes both throw and nothing is available |
| TransitBuffers.FreshBufferIntended | src/main/java/xyz/arwhite/net/mux/StreamTransitBuffer.java:38-49 | with the intended write the same bytes are delivered in order |
| TransitBuffers.OverReadScenario | src/main/java/xyz/arwhite/net/mux/StreamTransitBuffer.java:132-137 | asking for one byte of four takes all four |
| TransitBuffers.UnderflowScenario | src/main/java/xyz/arwhite/net/mux/StreamTransitBuffer.java:132-135 | asking for eight of four underflows and leaves the four in place |
| OutputStreams.ChunkSizeAsWritten | src/main/java/xyz/arwhite/net/mux/StreamOutputStream.java:206-210 | as written, the chunk is the free space whenever the whole `len` exceeds it, else what is left |
| OutputStreams.ChunkSize | src/main/java/xyz/arwhite/net/mux/StreamOutputStream.java:206-210 | the intended chunk: never more than is left, never more than is free |
| OutputStreams.ChunkGuardAgreesWhen | src/main/java/xyz/arwhite/net/mux/StreamOutputStream.java:206-210 | the written and intended chunks agree exactly when the whole request fits or what is left still fills the free space; in between the written one copies more than is left |
| OutputStreams.ChunkGuardCounterexample | src/main/java/xyz/arwhite/net/mux/StreamOutputStream.java:206-210 | after 4 of 10 bytes, with 8 free, the written guard copies 8 where 6 are left |
| OutputStreams.StreamOutputStream.constructor | src/main/java/xyz/arwhite/net/mux/StreamOutputStream.java:26-44 | empty, open, writable; all capacity free, nothing to read, window 4096 |
| OutputStreams.StreamOutputStream.IncreaseRemoteAvailable | src/main/java/xyz/arwhite/net/mux/StreamOutputStream.java:62-65 | the window rises by exactly the increment; nothing else changes |
| OutputStreams.StreamOutputStream.SendStep | src/main/java/xyz/arwhite/net/mux/StreamOutputStream.java:86-128 | with window and buffer both non-empty, n = min(window, buffered) with n >= 1; the oldest n bytes go out in one call; window and readable count fall by n and free space rises by n; total sent never exceeds 4096 plus the increments |
| OutputStreams.StreamOutputStream.TakeChunk | src/main/java/xyz/arwhite/net/mux/StreamOutputStream.java:110-118 | takes the oldest n held bytes out and moves n from readable to free |
| OutputStreams.StreamOutputStream.TurnToRead | src/main/java/xyz/arwhite/net/mux/StreamOutputStream.java:99-102 | switching to read mode keeps the held bytes and counters |
| OutputStreams.StreamOutputStream.TurnToWrite | src/main/java/xyz/arwhite/net/mux/StreamOutputStream.java:147-150 | switching to write mode keeps the held bytes and counters |
| OutputStreams.StreamOutputStream.WriteByte | src/main/java/xyz/arwhite/net/mux/StreamOutputStream.java:136-166 | IOException with nothing changed when closed; otherwise the low eight bits of `b` join the tail and one byte of space is used |
| OutputStreams.StreamOutputStream.Write | src/main/java/xyz/arwhite/net/mux/StreamOutputStream.java:181-227 | NullPointerException for null, then IOException when closed; a bad range throws IndexOutOfBounds with nothing held added; otherwise `b[off..off+len]` joins the tail in order and `len` bytes of space are used |
| OutputStreams.StreamOutputStream.PutChunk | src/main/java/xyz/arwhite/net/mux/StreamOutputStream.java:212-216 | one chunk joins the tail and moves n from free to readable |
| OutputStreams.StreamOutputStream.Close | src/main/java/xyz/arwhite/net/mux/StreamOutputStream.java:230-232 | sets closed and changes nothing else |
| OutputStreams.WindowLimitsSending | src/test/java/xyz/arwhite/net/mux/StreamOutputStreamTest.java:47-65 | with a 4096-byte buffer, 2048 written bytes go out in one chunk, leaving a window of 2048; a further 4096 then fill the buffer |
| OutputStreams.WindowCapsChunk | src/test/java/xyz/arwhite/net/mux/StreamOutputStreamTest.java:64-68 | of 4096 waiting bytes only the 2048 the window allows go out, and the window is used up |
| OutputStreams.IncrementReleasesExactly | src/test/java/xyz/arwhite/net/mux/StreamOutputStreamTest.java:99-103 | with the window used up and 2048 waiting, an increment of 1024 lets exactly 1024 more go out |
| OutputStreams.OvercopyScenario | src/main/java/xyz/arwhite/net/mux/StreamOutputStream.java:206-212 | the written chunk of that pass reads beyond a ten-byte array; the intended one fits |

## Left out

- Threads, locks, conditions and futures are not modelled. Each background loop body is a step method, and each `await` is a precondition of that step (data present, window open, space free). Interrupt handling and `signalAll` are left out.
- The WebSocket session and `Stream.sendData` are outside the model. Sends are recorded as appended sequences (`wire`, `sent`), and `sendData` is taken to consume exactly the bytes it is given.
- Logging, `debugDataHex`, `getRxQueue`/`getTxQueue` as accessors, `stop`, `flush`, `markSupported` and `getFreeNotificationQueue` carry no logic. The queues are visible as fields instead.
- `WsMuxMessageBroker.getTxQueue` returns null. The broker has no transmit side, so there is nothing to model.
- `drainTxQueue`'s wait on `txStopped` is not modelled: `DrainTxQueue` stops after enqueuing the sentinel, and `TxSenderStep` completes `txStopped`.
- Helidon `BufferData` is a byte sequence and `TransmitData` is its payload bytes. A `BufferData.read` past the end of the destination array is taken to throw IndexOutOfBounds.
- The `Clock` is an integer parameter `now`.
- `StreamController.java:33` never initialises `streamPorts`; the model starts it empty.
- `StreamOutputStream.java:32` never initialises `transitAvailableToRead`; the model starts it at 0.
- The broker's receive queue holds `PriorityQueueEntry`s, but the message reader casts it to a queue of `BufferData`. `MessageReaderStep` is given the message bytes directly.
- `StreamController.java:109` calls `allocNewStreamId`, which declares `IOException`, and catches only `LimitExceededException`. This does not compile as written. The model treats the id-limit failure as the `LimitExceededException` branch (error code 2).
- Java `int` overflow of counters, ids and sequences is not modelled; integers are unbounded.
- The order between equal keys in `PriorityBlockingQueue` is unspecified. `Envelope.Insert` places a new entry after the equal keys already queued.
- Getters of `Stream` are field reads, and `Stream.connect` and the rest of `Stream` are not part of this model.
- `StreamController.send`, `registerStream`, DATA and BUFINC dispatch and the socket adapters are not part of this model.
- InputStreams.StreamInputStream.WriteFromPeer: requires the payload to fit in the free space. The code does not check this and relies on flow control.
- TransitBuffers.StreamTransitBuffer.WriteFromPeer: requires the payload to fit beside what is already held, for the same reason.
- OutputStreams.StreamOutputStream.Write: requires the whole request to fit in the free space, because the wait for space between chunks is not modelled. The loop uses the written chunk guard `ChunkSizeAsWritten`; under that precondition it takes the whole request in one chunk, as `ChunkSize` would (`ChunkGuardAgreesWhen`). The multi-pass copy where the two differ appears only in `ChunkGuardCounterexample` and `OvercopyScenario`.
- OutputStreams.StreamOutputStream.SendStep: the step runs only once the remote window and the buffer each hold at least one byte, which is where the loop's waits end.
- InputStreams.StreamInputStream.ReadInto and TransitBuffers.StreamTransitBuffer.ReadInto: the array `b` must not be the stream's own buffer. The model cannot express aliasing between them.

## Findings

| source | as written | input that shows it | evidently intended | confidence | as-written member | corrected member |
|---|---|---|---|---|---|---|
| src/main/java/xyz/arwhite/net/mux/StreamBuffers.java:14 | `createConnectRequest` fills one buffer and returns a fresh empty one | priority 12, stream 17, port 8080 decodes to nothing | return the filled buffer [12, 17, 1, 0x1F, 0x90] | high, not executed | Codec.ConnectRequestAsWrittenLosesFields | Codec.ConnectRequestRoundTrip |
| src/main/java/xyz/arwhite/net/mux/StreamController.java:205-208 | two bytes are read into a two-byte array at offset 3, then `getInt` on two bytes | any connect request | the big-endian port in bytes 3-4 | high, not executed | Codec.ReadPortAsWritten | Codec.ReadPortMatchesRequest |
| src/main/java/xyz/arwhite/net/mux/StreamTransitBuffer.java:132-133 | the read count is raised to what is buffered | `read(b, 0, 1)` with 4 bytes buffered takes 4; asking for 8 of 4 underflows | min(len, buffered), as in StreamInputStream.java:129-130 | high, not executed | TransitBuffers.ClampCounterexamples | Buffers.Clamp |
| src/main/java/xyz/arwhite/net/mux/StreamOutputStream.java:209 | the chunk guard compares `len`, not what is left, with the free space | len 10, 4 transferred, 8 free: copies 8 where 6 are left | min(len - transferred, free) | high, not executed | OutputStreams.ChunkGuardCounterexample | OutputStreams.ChunkGuardAgreesWhen |
| src/main/java/xyz/arwhite/net/mux/StreamTransitBuffer.java:16, 38-41 | the initial NONE mode is left through `compact`, which on a fresh buffer puts the position at the capacity | new buffer of 16, write [1, 2, 3]: throws, and so does every later write | NONE behaves as an empty write buffer | medium, not executed | TransitBuffers.FreshBufferJams | TransitBuffers.FreshBufferIntended |
| src/main/java/xyz/arwhite/net/mux/PriorityQueueEntry.java:17 | priority is a signed `byte`, so wire priorities 128..255 are negative | wire priority 200 sorts ahead of priority 1 | documented order 0 first, 255 last (unsigned) | medium, not executed | Envelope.WirePriorityAbove127SortsFirst | Envelope.UnsignedPriorityCompare |
