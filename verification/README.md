# rmuduo: verified models

This project models the stateful byte-stream and scheduling machinery of rmuduo, a reactor-style network library
with an HTTP server and an RTMP live-streaming server, and proves what that machinery promises. `dafny verify
dfyconfig.toml` checks all of it.

Each component has a transcription of the code, branch by branch, with the same edge cases, constants and error
paths. Where the code updates objects in place there is a class whose methods are proved to compute the transcription;
the transcription is then related to an independent description of what it is for. What a transcription reads or writes
is described once more by literal bytes and positions, in both directions: which inputs are accepted, and as what.

| file | component |
|---|---|
| `Bytes.dfy`, `Buffer.dfy`, `OrderedMap.dfy` | integers on the wire, the compacting byte queue under every parser, `std::map` |
| `ChunkGrammar.dfy` | the RTMP chunk format (Adobe RTMP 1.0, sections 5.3.1.1 to 5.3.1.3), for complete chunks only |
| `ChunkParser.dfy`, `RtmpChunkParser.dfy` | the incremental parser, its class, and the invariant that couples its state to the unconsumed bytes |
| `ChunkDelivery.dfy` | the parser over any schedule of deliveries |
| `ChunkWriter.dfy`, `ChunkExact.dfy`, `ChunkExamples.dfy` | the writer, the round trips, exactly where they end, and inputs beyond |
| `ChunkWire.dfy`, `ChunkTimes.dfy` | every byte of a chunk by position and value; what compressed headers inherit, and their times |
| `Amf0.dfy`, `Amf0Grammar.dfy`, `Amf0Codec.dfy` | AMF0 value trees, the byte strings that mean them, and their codec |
| `Timers.dfy`, `TimerRuns.dfy`, `TimerLives.dfy`, `TimerQueue.dfy` | the timer queue: state machine, whole runs, the life of a timer, class |
| `EventLoop.dfy` | the cross-thread functor handoff as interleaved atomic steps |
| `TcpOutput.dfy` | the output path of a connection |
| `Http.dfy`, `HttpContext.dfy`, `HttpRender.dfy`, `HttpAccept.dfy` | the HTTP request parser, its classes, its inverse, and the streams it accepts and rejects |
| `RtmpSession.dfy`, `RtmpMedia.dfy` | publisher, players and the cache for late players; the cache by payload bytes |
| `RtmpCommands.dfy`, `RtmpRegistry.dfy`, `RtmpKeys.dfy`, `RtmpRegistryRuns.dfy`, `RtmpForsaking.dfy` | command messages, the session registry, its keys, its runs, a run that breaks it |
| `RtmpOutcomes.dfy` | what each message of a client leads to, and who can be in a session |
| `RtmpLive.dfy`, `RtmpServer.dfy` | registry and sessions over one run of the server, the server's objects |
| `Json.dfy`, `JsonGrammar.dfy` | JSON fields of strings, and the texts that are accepted |

## How to read the models

- **Chunk parser.** `parseMessageHeader` writes into a stream's record before it knows whether the chunk is complete,
  and tries again from the same bytes when more arrive. `ChunkRefinement.Coupled` says which fields of the record may
  be wrong meanwhile: those that the format of the chunk at the buffer head will write again. Everything else follows
  from that invariant. The copy past the end of a payload, and a parse that would perform it, are explicit outcomes of
  the transcription, which the theorems exclude.
- **Timers.** Addresses are keys of a heap from which they can be reused, so that a stale id can name an address where
  another timer lives. A callback is any list of events between two calls of the batch.
- **Event loop.** A post is two steps, the locked push and the eventfd write; any number of threads interleave with the
  phases of the loop.
- **Registry.** A weak reference to a session reads as empty once the session is no longer registered, because only the
  registry keeps sessions alive.

## Where the code and its standards or intentions disagree

The models follow the code.

- The chunk writer leaves out the extended timestamp on format 3 chunks (`rtmp/RtmpChunkWriter.cc:23-25`), section
  5.3.1.3 of RTMP 1.0 and the parser expect it. `ChunkExact.TransparentIff` gives the exact boundary in any context,
  `ChunkExact.RoundTripIff` that of a message alone, and `ChunkExamples.CompletedFromBehind` what can happen beyond it.
- An incomplete chunk has its time difference added again on every attempt (`rtmp/RtmpChunkParser.cc:225`, `252`,
  `262`). `ChunkDelivery.TimesSurviveIff` says exactly which byte streams are affected, and
  `ChunkExamples.DeltaIsExposed` gives a family of them.
- A format 3 chunk that starts a message directly behind a full header adds no time (`rtmp/RtmpChunkParser.cc:173`,
  `262`), by section 5.3.1.2.4 of RTMP 1.0 it adds the full header's time. `ChunkTimes.StandardTimeIff` says exactly
  which times differ, `ChunkTimes.ThirdFormatStandsStill` gives one.
- A stream name is stored before the command is authorised, and nothing detaches a connection that publishes or plays
  again. `RtmpRegistryRuns.StepKeepsIff` is the exact condition, `RtmpForsaking.SecondPublishBreaks` a run that meets
  it, and `RtmpRegistryRuns.ForsakenKeyIsBlocked` the consequence.
- Application and stream name are joined by a slash that may occur in them, so that one key can belong to several
  streams, which then share one session: `RtmpKeys.KeyIsSharedIff` says exactly for which streams, `SameKeyIff` with
  which others, and `KeysCollide` names a pair.
- AMF0 strings longer than 65535 bytes are written in full after a truncated length. `Amf0.RoundTripIff` is the exact
  condition, `Amf0.LongTextIsLost` the failing strings.

## Model

| member | source | states |
|---|---|---|
| `ChunkDelivery.SegmentationIndependence` | rtmp/RtmpChunkParser.cc:34-279 | For every byte stream, chunk size and cut into deliveries: verdict, leftover bytes and all emitted messages, in every field except the timestamp, are those of one parse of the whole stream |
| `ChunkDelivery.TimesSurviveIff` | rtmp/RtmpChunkParser.cc:173-262 | Timestamps too agree under every cut if and only if no message is emitted on a stream whose time went, since its last full header, through a chunk with a non-zero time difference that can be seen before the chunk is complete; that condition is about the byte stream alone |
| `ChunkDelivery.ReassemblyIsExact` | rtmp/RtmpChunkParser.cc:91-113 | On any input and schedule, with any chunk size at each delivery, no copy leaves its payload, and every emitted message has exactly the payload size that its header announced |
| `ChunkDelivery.EachIsDrift` | rtmp/RtmpConnection.cc:113-139 | With chunk sizes that change between deliveries, as after Set Chunk Size, the code emits, in every field, what the chunk grammar with the drift of unsuccessful attempts emits |
| `ChunkDelivery.RunIsDrift` | rtmp/RtmpChunkParser.cc:34-116 | Over any schedule the code emits, in every field, what the chunk grammar emits when each unsuccessful attempt at a chunk adds its visible time difference once more |
| `ChunkDelivery.DriftOnlyInTime` | rtmp/RtmpChunkParser.cc:225-262 | The drift of repeated attempts changes nothing but timestamps |
| `ChunkDelivery.ExposedShows` | rtmp/RtmpChunkParser.cc:225-262 | When the condition fails, some cut into two deliveries makes the code emit other messages than one delivery does |
| `ChunkExamples.DeltaIsExposed` | rtmp/RtmpChunkParser.cc:225-262 | It does fail: any two legal chunks of which the second adds a non-zero time to the first one's stream, carries payload and finishes a message are exposed, and some cut changes their times |
| `ChunkExamples.SomeTimesDepend` | rtmp/RtmpChunkParser.cc:252-256 | One such stream of bytes: one byte of audio at time 5 and one a millisecond later |
| `ChunkTimes.CompressedRoundTrip` | rtmp/RtmpChunkParser.cc:158-279 | Messages on one chunk stream under any mixture of the four headers, with extended times and chunks of any size: each comes out with its payload, the type and stream id of the last header that gave them, and the time of the last full header plus all differences since, modulo 2^32 |
| `ChunkTimes.StandardTimeIff` | rtmp/RtmpChunkParser.cc:173-263 | A time is the one of section 5.3.1.2.4 of RTMP 1.0 if and only if what the code leaves out is a multiple of 2^32: the full header's time for each format 3 message directly behind it, and the differences of empty format 3 messages |
| `ChunkTimes.ThirdFormatStandsStill` | rtmp/RtmpChunkParser.cc:259-263 | One such pair of messages: two bytes of audio at time 5, the second under a format 3 header |
| `ChunkTimes.UnknownStreamIsRejected` | rtmp/RtmpChunkParser.cc:195-200 | A compressed header on a chunk stream that has had no full one is rejected, and nothing is consumed |
| `ChunkRefinement.LoopRefines` | rtmp/RtmpChunkParser.cc:34-49 | After any earlier calls, one call of `parse` gives the messages, verdict and leftover bytes of the chunk grammar and restores the invariant that ties the parser state to the unconsumed bytes |
| `ChunkRefinement.StepRefines` | rtmp/RtmpChunkParser.cc:51-116 | One round after any number of earlier attempts does what the grammar says of the chunk at the buffer head: nothing, a rejection, or that chunk |
| `ChunkRefinement.HeaderRefines` | rtmp/RtmpChunkParser.cc:158-279 | Reading a message header gives the grammar's stream state even when earlier attempts have overwritten fields that this format writes again |
| `ChunkRefinement.PayloadRefines` | rtmp/RtmpChunkParser.cc:91-113 | Storing a chunk's bytes stays inside the payload and finishes a message exactly when the grammar does |
| `ChunkRefinement.CoupledExtend` | rtmp/RtmpChunkParser.cc:34-49 | The invariant survives the arrival of more bytes |
| `ChunkGrammar.FrameComplete` | rtmp/RtmpChunkParser.cc:118-279 | A legal chunk is recognised at the head of any byte stream that starts with it (RTMP 1.0, section 5.3.1) |
| `ChunkGrammar.FrameSound` | rtmp/RtmpChunkParser.cc:118-279 | What is recognised is exactly the bytes of that chunk |
| `ChunkGrammar.FrameExtend` | rtmp/RtmpChunkParser.cc:51-116 | More bytes never change a verdict about the chunk at the head |
| `ChunkGrammar.ParseAllSplit` | rtmp/RtmpChunkParser.cc:34-49 | Parsing in two goes, carrying the leftover over, is parsing in one |
| `ChunkGrammar.BasicRoundTrip` | rtmp/RtmpChunkParser.cc:118-156 | All three encodings of a basic header are read back, whatever follows |
| `ChunkGrammar.HeaderRoundTrip` | rtmp/RtmpChunkParser.cc:158-279 | All four message headers, with and without extended time, are read back, whatever follows |
| `RtmpChunkParser.Parser.constructor` | rtmp/RtmpChunkParser.h:25-47 | A new parser has chunk size 128, no streams, and the invariant |
| `RtmpFirstMessages.FirstMessages` | rtmp/RtmpTypes.h:9-9 | A new connection whose peer has announced no chunk size: messages written in chunks of 128 bytes come out exactly and in order, in whatever pieces the bytes arrive, and none is left |
| `RtmpChunkParser.Parser.SetInChunkSize` | rtmp/RtmpChunkParser.h:17-17 | Changes the chunk size and nothing else; the invariant stays |
| `RtmpChunkParser.Parser.Parse` | rtmp/RtmpChunkParser.cc:34-49 | On a `Buffer` that still starts with what the last call left: messages, verdict and leftover of the chunk grammar, never out of bounds |
| `RtmpChunkParser.Parser.ParseOneChunk` | rtmp/RtmpChunkParser.cc:51-116 | One round, with the state written before the chunk is known to be complete |
| `RtmpChunkParser.Parser.StorePayload` | rtmp/RtmpChunkParser.cc:99-113 | The copy into the payload and the hand-over of a full message |
| `RtmpChunkParser.Parser.ParseBasicHeader` | rtmp/RtmpChunkParser.cc:118-156 | Format and chunk stream id in one, two or three bytes |
| `RtmpChunkParser.Parser.ParseMessageHeader` | rtmp/RtmpChunkParser.cc:158-279 | The field-by-field update of a stream's record, also on the paths that wait for more bytes |
| `ChunkRoundTrip.InterleavedRoundTrip` | rtmp/RtmpChunkWriter.cc:8-60 | Any order-preserving shuffle of the printed chunks of any messages on any streams 2..65599, cut anywhere, parses to exactly those messages per stream, times included, consuming every byte |
| `ChunkRoundTrip.SequenceRoundTrip` | rtmp/RtmpChunkWriter.cc:8-60 | Messages encoded one after another, streams shared or not, arrive in exactly that order under any cut |
| `ChunkExact.TransparentIff` | rtmp/RtmpChunkWriter.cc:23-25 | From any stream state and with any bytes behind it: writing a message is handing it out and going on from the state after it, if and only if its timestamp is below 0xFFFFFF or its payload fits one chunk |
| `ChunkExact.RoundTripIff` | rtmp/RtmpChunkWriter.cc:23-25 | The same boundary for a message alone on a new connection |
| `ChunkExact.ExtendedIsLost` | rtmp/RtmpChunkWriter.cc:23-25 | Beyond it, from any stream state, the message does not come out of its own bytes: the parser takes payload bytes for the repeated time that the writer omits |
| `ChunkExamples.CompletedFromBehind` | rtmp/RtmpChunkWriter.cc:23-25 | Beyond it a message can be completed out of the bytes behind it: one pair of messages where that happens |
| `ChunkWriter.EncodedIsChunks` | rtmp/RtmpChunkWriter.cc:8-29 | What the writer prints is the concatenation of the message's legal chunks |
| `ChunkWire.EncodedIsLaidOut` | rtmp/RtmpChunkWriter.cc:8-60 | Every byte printed for a message, by position and value: the two headers field by field with their byte orders, the payload with a format 3 basic header behind every `size` bytes of it, and no more |
| `ChunkWire.ChunkIsLaidOut` | rtmp/RtmpChunkParser.cc:118-279 | In every chunk that is recognised, each field of the four headers and the three encodings of the id stands where the standard puts it, most significant byte first except the stream id and the long chunk stream id |
| `ChunkWriter.EncodeMessage` | rtmp/RtmpChunkWriter.cc:8-29 | The loop over the payload prints a format 0 chunk and then format 3 chunks of at most the chunk size |
| `ChunkWriter.AppendBasicHeader` | rtmp/RtmpChunkWriter.cc:31-48 | The basic header in one, two or three bytes |
| `ChunkWriter.AppendMessageHeader` | rtmp/RtmpChunkWriter.cc:50-60 | Time, length, type and stream id, with the extended time when needed |
| `ChunkRoundTrip.ChunksDeliver` | rtmp/RtmpChunkParser.cc:91-113 | Whatever a stream held before, the chunks of one message deliver that message |
| `ChunkRoundTrip.Demultiplex` | rtmp/RtmpChunkParser.cc:51-116 | Each chunk stream sees only its own chunks, however they are interleaved |
| `ChunkRoundTrip.WrittenIsNotExposed` | rtmp/RtmpChunkWriter.cc:8-60 | The writer's traffic never depends on how it is cut, not even in time |
| `Amf0.ValueRoundTrip` | rtmp/Amf0Decoder.cc:69-156 | Decoding the encoding of any value tree of any depth, followed by any bytes, gives that tree and consumes exactly its encoding |
| `Amf0Grammar.DecodedIff` | rtmp/Amf0Decoder.cc:69-225 | On any bytes the decoder gives a value and a length if and only if that many bytes spell that value: six markers, 16-bit lengths, big-endian numbers, any non-zero byte for true, any ECMA count, properties in any order with the first of equal keys winning |
| `Amf0Grammar.AllDecodedIff` | rtmp/Amf0Decoder.cc:46-67 | A whole payload is accepted if and only if it is a list of spelled values |
| `Amf0Grammar.KnownMarkers` | rtmp/Amf0Decoder.cc:69-156 | A value that starts with any other byte than 0, 1, 2, 3, 5 or 8 is rejected |
| `Amf0Grammar.EncodedIsSpelled` | rtmp/Amf0Encoder.cc:20-106 | The encoder prints a spelling: 0 or 1 for booleans, the true element count, the pattern of a number most significant byte first |
| `Amf0.AllRoundTrip` | rtmp/Amf0Decoder.cc:46-67 | Decoding the concatenated encodings of a list gives the list |
| `Amf0.RoundTripIff` | rtmp/Amf0Encoder.cc:76-106 | A list of value trees survives if and only if every string and key fits its 16-bit length field |
| `Amf0.LongTextIsLost` | rtmp/Amf0Encoder.cc:43-47 | It fails for every string of more than 65535 bytes |
| `Amf0.ValuePrefix` | rtmp/Amf0Decoder.cc:69-225 | Every non-empty strict prefix of an encoding is rejected, also inside nested objects and inside the end marker |
| `Amf0.PropsRoundTrip` | rtmp/Amf0Decoder.cc:182-225 | The properties of an object are read back up to the end marker |
| `Amf0.Normalises` | rtmp/Amf0Decoder.cc:46-225 | Re-encoding and decoding any accepted input gives the same values |
| `Amf0.DecodedIsGood` | rtmp/Amf0Decoder.cc:69-225 | Whatever is accepted is sorted, free of duplicate keys and short enough to be encoded |
| `Amf0.FirstKeyWins` | rtmp/Amf0Decoder.cc:126-144 | With repeated keys in any order and a false ECMA array count, the first value of each key is kept |
| `Amf0.DecodeValue` | rtmp/Amf0Decoder.cc:69-156 | Success consumes at most the input, and at least one byte of a non-empty one: the measure of the mutual recursion |
| `Amf0Encoder.Encoder.AppendValue` | rtmp/Amf0Encoder.cc:20-41 | Appends exactly the encoding of the value, by type |
| `Amf0Encoder.Encoder.AppendString` | rtmp/Amf0Encoder.cc:43-47 | Marker, length, bytes |
| `Amf0Encoder.Encoder.AppendNumber` | rtmp/Amf0Encoder.cc:49-52 | Marker and the eight bytes of the pattern |
| `Amf0Encoder.Encoder.AppendBoolean` | rtmp/Amf0Encoder.cc:54-57 | Marker and one byte |
| `Amf0Encoder.Encoder.AppendNull` | rtmp/Amf0Encoder.cc:59-59 | The marker |
| `Amf0Encoder.Encoder.AppendObject` | rtmp/Amf0Encoder.cc:61-74 | The loop over the map, with the count of an ECMA array and the end marker |
| `Amf0Encoder.Encoder.AppendObjectProperty` | rtmp/Amf0Encoder.cc:101-106 | Key and value |
| `Amf0Decoder.DecodeAll` | rtmp/Amf0Decoder.cc:46-67 | The loop agrees with the specification, errors included |
| `Amf0Decoder.DecodeValue` | rtmp/Amf0Decoder.cc:69-156 | The branches agree with the specification, errors included |
| `Amf0Decoder.DecodeString` | rtmp/Amf0Decoder.cc:158-180 | Length field and payload, or the two truncation errors |
| `Amf0Decoder.DecodeObject` | rtmp/Amf0Decoder.cc:182-225 | The loop that fills the map agrees with the specification, errors included |
| `OrderedMaps.InsertFind` | rtmp/Amf0Value.h:20-20 | `emplace` and `operator[]=` on `std::map`: who wins at the key, and that every other key keeps its value |
| `OrderedMaps.LessIff` | rtmp/Amf0Value.h:20-20 | Keys are ordered by the first byte in which they differ, as unsigned numbers |
| `TimerLives.RepeatsOrEnds` | net/TimerQueue.cc:140-153 | From its creation through any batch that takes it, whatever happens meanwhile, a timer that nobody cancels has its callback run in that batch; created to repeat, it is then alive and pending at the time of the batch plus its interval, created to run once, it is freed |
| `TimerLives.BatchOutcome` | net/TimerQueue.cc:110-161 | In a whole batch the log grows by exactly the numbers of the timers that were due, in the order of their expirations; a repeating one that was not cancelled meanwhile is restarted, every other one is freed |
| `TimerLives.CreatedTimer` | net/Timer.h:11-16 | In every later state a timer that nobody cancels is what its creator asked for: a repeating one is never freed, any other runs at most once and is freed only after it has run, and until then its expiration is the one given |
| `TimerRuns.EveryRun` | net/TimerQueue.cc:89-173 | In every reachable state both indices hold the same timers under their current expirations, every live timer has exactly one owner, every timer created for this queue is live or freed once, although other queues share the counter, and outside `handleRead` a pending timer is covered by the timerfd |
| `TimerRuns.StepKeepsInv` | net/TimerQueue.cc:89-173 | Every step keeps all of that, whatever callbacks and other threads add and cancel |
| `TimerRuns.NeverStranded` | net/TimerQueue.cc:22-34 | Outside `handleRead` the timerfd is readable or armed no later than the earliest expiration (100 microseconds floor), and reading it then starts a batch with the earliest timer |
| `TimerLives.AddArms` | net/TimerQueue.cc:22-34 | A timer that becomes the earliest arms the timerfd for its expiration, or 100 microseconds from now if that is later; any other leaves it as it is |
| `TimerLives.EndArms` | net/TimerQueue.cc:154-161 | At the end of a batch the timerfd is armed like that for the earliest timer |
| `TimerRuns.BatchIsExpired` | net/TimerQueue.cc:127-139 | A batch is exactly the timers with expiration <= now, in order, and the rest stays |
| `TimerRuns.CancelledNeverRuns` | net/TimerQueue.cc:97-107 | Cancelling a pending timer frees it, removes it from both indices, and its callback never runs in any later run |
| `TimerRuns.CancelInBatchIsFinal` | net/TimerQueue.cc:97-161 | Cancelled in its own or a sibling's callback, a timer of the current batch is freed when the batch ends and never runs again |
| `TimerRuns.StaleCancelIsHarmless` | net/TimerQueue.cc:97-107 | Cancelling with the id of a freed timer, even when its address is in use again, changes no later run except for that id in the cancellation set |
| `TimerRuns.FreedNeverRuns` | net/TimerQueue.cc:110-161 | A freed timer never runs again, whatever its address is used for |
| `Timers.AddKeepsInv` | net/TimerQueue.cc:89-95 | Adding keeps the invariant |
| `Timers.CancelKeepsInv` | net/TimerQueue.cc:97-107 | Cancelling keeps the invariant although it never re-arms the timerfd |
| `Timers.BeginKeepsInv` | net/TimerQueue.cc:127-139 | Taking the expired timers keeps the invariant |
| `Timers.SettleKeepsInv` | net/TimerQueue.cc:140-153 | Restarting or deleting one expired timer keeps the invariant |
| `TimerQueueObject.TimerQueue.ResetTimerfd` | net/TimerQueue.cc:44-54 | Arms the deadline with the floor of 100 microseconds |
| `TimerQueueObject.TimerQueue.Insert` | net/TimerQueue.cc:163-173 | Enters the timer into both indices and reports whether it is the earliest |
| `TimerQueueObject.TimerQueue.NewTimer` | net/Timer.h:11-16 | A new timer under a free address with the next sequence number; `TimerLives.CreatedTimer` says what it is |
| `TimerQueueObject.TimerQueue.AddTimerInLoop` | net/TimerQueue.cc:89-95 | Inserts and re-arms when the earliest expiration changed |
| `TimerQueueObject.TimerQueue.CancelInLoop` | net/TimerQueue.cc:97-107 | Erases and deletes an active timer; while callbacks run, notes the id otherwise |
| `TimerQueueObject.TimerQueue.GetExpired` | net/TimerQueue.cc:127-139 | Moves the expired entries out of both indices |
| `TimerQueueObject.TimerQueue.Reset` | net/TimerQueue.cc:140-161 | Restarts the repeating timers that were not cancelled, deletes the others, re-arms |
| `TimerQueueObject.TimerQueue.HandleRead` | net/TimerQueue.cc:110-124 | For any script of what the callbacks do: one whole batch of the state machine, so that `TimerLives.BatchOutcome` holds of it, with the invariant at the end |
| `EventLoops.NoLostWakeup` | net/EventLoop.cc:103-150 | For any number of posting threads and any interleaving: functors pending while the loop is in poll imply a positive eventfd counter or a poster between its push and its wakeup |
| `EventLoops.FirstInFirstOut` | net/EventLoop.cc:103-150 | Executed functors are a duplicate-free prefix of the push order |
| `EventLoops.StepKeepsInv` | net/EventLoop.cc:62-150 | Every atomic step keeps executed + swapped + pending equal to the push order, and every functor pushed since the swap covered by a wakeup |
| `EventLoops.SwapDrains` | net/EventLoop.cc:139-150 | Whatever was pending at the swap has run when the loop polls again, under any interleaving |
| `EventLoops.WakeupRunsPending` | net/EventLoop.cc:62-86 | A positive counter leads one undisturbed round of the loop to run everything pending |
| `EventLoops.EventLoop.EmplaceBack` | net/EventLoop.cc:103-114 | The locked push of `queueInLoop`, and when a wakeup must follow |
| `EventLoops.EventLoop.Wakeup` | net/EventLoop.cc:123-129 | The eventfd write |
| `EventLoops.EventLoop.Poll` | net/EventLoop.cc:69-75 | Poll returns and reports whether the eventfd is readable |
| `EventLoops.EventLoop.HandleRead` | net/EventLoop.cc:116-122 | Reading the eventfd resets it |
| `EventLoops.EventLoop.DoPendingFunctors` | net/EventLoop.cc:139-150 | Swaps and calls everything that was pending, in order |
| `TcpOutput.OutputIsConserved` | net/TcpConnection.cc:111-177 | In every reachable state the wire followed by the output buffer is exactly the accepted sends, in order; write interest is on exactly while there is a backlog; at most one half-close |
| `TcpOutput.HalfCloseIsLast` | net/TcpConnection.cc:198-213 | At the half-close everything accepted is on the wire, and nothing is sent or accepted after it |
| `TcpOutput.DrainHalfCloses` | net/TcpConnection.cc:55-80 | After `shutdown`, any partial writes that add up to the backlog end in the half-close |
| `TcpOutput.NoticesIff` | net/TcpConnection.cc:55-177 | In every reachable state a step queues the write-complete callback if and only if it empties the backlog or writes a send whole, and the high-water callback if and only if the backlog crosses 64 MiB upwards, with its new length |
| `TcpOutput.StepKeepsInv` | net/TcpConnection.cc:55-213 | Every send, writable event, shutdown and close keeps conservation, write interest and the half-close rule |
| `TcpOutput.AcceptedIsSent` | net/TcpConnection.cc:111-177 | What counts as accepted is the data of the sends while connected, minus sends that a broken peer refused outright |
| `TcpConnectionObject.TcpConnection.SendMessage` | net/TcpConnection.cc:111-122 | A send while connected, over a compacting buffer |
| `TcpConnectionObject.TcpConnection.WriteOrQueue` | net/TcpConnection.cc:129-177 | Direct write when nothing waits; the rest is queued; high-water and write-complete notices |
| `TcpConnectionObject.TcpConnection.WriteBacklog` | net/TcpConnection.cc:55-80 | A writable event writes from the backlog, and half-closes when it is empty and shutdown was asked for |
| `TcpConnectionObject.TcpConnection.ShutDown` | net/TcpConnection.cc:198-203 | Only a connected one changes state |
| `TcpConnectionObject.TcpConnection.ShutdownWrite` | net/TcpConnection.cc:207-213 | Half-closes only without write interest |
| `TcpConnectionObject.TcpConnection.HandleClose` | net/TcpConnection.cc:83-95 | Disconnected, no interest left |
| `Http.SegmentationIndependence` | http/HttpContext.cc:103-159 | For every byte stream, cut and arrival times: state, request (but for its receive time), verdict and leftover bytes are those of one call, also after a rejection |
| `Http.ParseSplit` | http/HttpContext.cc:103-159 | Parsing in two goes is parsing in one, from any context |
| `Http.ParseTimeless` | http/HttpContext.cc:27-62 | The clock reaches nothing but the receive time |
| `Http.RequestLineAgain` | http/HttpContext.cc:27-62 | A rejected request line, which leaves fields set, is rejected again with the same result |
| `HttpAccept.AcceptedIff` | http/HttpContext.cc:27-159 | On any bytes a request is handed out and a rest left if and only if the bytes are a request line of the grammar, header lines with a colon, a line without one and a body of the announced length; the request has exactly their words, names, values and body |
| `HttpAccept.RejectedIff` | http/HttpContext.cc:27-159 | On any bytes the parser rejects if and only if the first line is no request line of the grammar or the headers announce a length that is no decimal number below 2^64 |
| `HttpAccept.RequestLineIff` | http/HttpContext.cc:27-62 | A line is accepted if and only if it is one of the five methods, a space, a target without spaces, a space, and HTTP/1.0 or HTTP/1.1; the target is split at its first question mark |
| `HttpAccept.LengthIff` | http/HttpContext.cc:64-101 | The announced length is that of the first header in key order whose name is Content-Length in any case, and zero without one |
| `HttpAccept.LengthTextIff` | http/HttpContext.cc:85-97 | A length is one or more decimal digits with a value below 2^64, and nothing else is |
| `HttpRender.ParseInvertsRender` | http/HttpContext.cc:27-159 | Parsing any well-formed rendered request followed by any bytes recovers it and leaves exactly those bytes (RFC 9112, sections 3, 5 and 6) |
| `HttpRender.RequestLineRoundTrip` | http/HttpContext.cc:27-62 | Method, path, query and version are recovered |
| `HttpRender.HeaderRoundTrip` | http/HttpRequest.h:60-67 | A rendered header line is trimmed to its name and value |
| `HttpRender.LengthIsRight` | http/HttpContext.cc:64-101 | The decimal Content-Length is read back whatever case its name has |
| `HttpContext.HttpRequest.SetMethod` | http/HttpRequest.h:22-37 | Known just for the names of the five methods, and then the method of that name; invalid otherwise |
| `HttpContext.HttpRequest.AddHeader` | http/HttpRequest.h:60-67 | The two loops trim both ends of the value; the last header of a name wins |
| `HttpContext.Parser.Reset` | http/HttpContext.h:25-30 | Back to the initial context |
| `HttpContext.Parser.ProcessRequestLine` | http/HttpContext.cc:27-62 | Computes the request line of the specification, fields set on failure included; `HttpAccept.RequestLineIff` says which lines that accepts |
| `HttpContext.Parser.ParseContentLength` | http/HttpContext.cc:64-101 | No header means zero; anything but digits that fit 64 bits is rejected |
| `HttpContext.Parser.OnRequestLine` | http/HttpContext.cc:108-121 | One round in the first state: waits, rejects without consuming, or goes on behind the line |
| `HttpContext.Parser.OnHeaderLine` | http/HttpContext.cc:123-145 | One round in the second state: waits, enters a header, or ends the headers |
| `HttpContext.Parser.OnBody` | http/HttpContext.cc:146-153 | One round in the third state: waits for, or takes, exactly the announced body |
| `HttpContext.Parser.ParseRequest` | http/HttpContext.cc:103-159 | The loop over a `Buffer` computes the specified context, verdict and leftover |
| `RtmpMedia.FeedByBytes` | rtmp/RtmpSession.cc:12-152 | What a late player is sent, by the bytes of the messages published since the publisher took over: the last message of type 18, the last AAC and the last AVC configuration, all audio and video from the last key frame on, then every message while it stays |
| `RtmpMedia.ReplayByBytes` | rtmp/RtmpSession.cc:82-102 | The same for the replay of any history, by positions in it |
| `RtmpMedia.CachedByBytes` | rtmp/RtmpSession.cc:124-152 | By bytes: a type 9 message of frame type 1 makes the group exactly itself, any other frame joins a started group and never empties it, each configuration and metadata replaces only its own kind |
| `RtmpMedia.KindsAre` | rtmp/RtmpSession.cc:14-40 | Which messages are AAC and AVC configurations, frames and key frames, as ranges of the first two payload bytes |
| `RtmpMedia.TakeOver` | rtmp/RtmpSession.cc:47-60 | However a session got there, a publisher that takes over starts with an empty cache, and the cache is that of what is published since |
| `RtmpMedia.PublisherStays` | rtmp/RtmpSession.cc:47-66 | Nothing but its own leaving ends a publisher, and meanwhile every other one is refused |
| `RtmpMedia.OthersHearNothing` | rtmp/RtmpSession.cc:104-122 | A connection that has not joined is sent nothing |
| `RtmpMedia.LeaverHearsNothing` | rtmp/RtmpSession.cc:72-74 | Nor is one that has left |
| `RtmpMedia.AbsentIsForgotten` | rtmp/RtmpSession.cc:112-122 | Nor is a player that was not connected at some broadcast, even if it connects again |
| `RtmpMedia.DisconnectedHearNothing` | rtmp/RtmpSession.cc:82-122 | Nor is one that is not connected |
| `RtmpSessions.CacheRefinesHistory` | rtmp/RtmpSession.cc:47-60 | After any run the cache is the latest metadata and sequence headers since the publisher epoch began, and the other audio and video since its last key frame |
| `RtmpSessions.CachedRefines` | rtmp/RtmpSession.cc:124-152 | Caching one more message is the cache of the longer history |
| `RtmpSessions.LatePlayerFeed` | rtmp/RtmpSession.cc:76-122 | A player that joins in any reachable state and stays is sent the replay and then the live media; its audio and video start at the last key frame and continue without gap or duplicate |
| `RtmpSessions.PlayerFeed` | rtmp/RtmpSession.cc:104-122 | A connected player that stays gets every published message once, in order |
| `RtmpSessions.FramesOfReplay` | rtmp/RtmpSession.cc:82-102 | The replay is headers, then exactly the current group of pictures |
| `RtmpSessions.SinceKeyFrameIsSuffix` | rtmp/RtmpSession.cc:124-152 | The cached group is the suffix of the epoch's audio and video from its last key frame |
| `RtmpSessions.RtmpSession.SetPublisher` | rtmp/RtmpSession.cc:47-60 | Refuses a second publisher; a new one starts with an empty cache |
| `RtmpSessions.RtmpSession.ClearPublisher` | rtmp/RtmpSession.cc:62-66 | Only the publisher itself is cleared; the cache stays |
| `RtmpSessions.RtmpSession.CacheMediaMessage` | rtmp/RtmpSession.cc:124-152 | The branches of the cache |
| `RtmpSessions.RtmpSession.BroadcastMessage` | rtmp/RtmpSession.cc:104-122 | Sends to every connected player, forgets the others |
| `RtmpSessions.RtmpSession.OnMediaMessage` | rtmp/RtmpSession.cc:76-80 | Cache, then broadcast |
| `RtmpSessions.RtmpSession.AddPlayer` | rtmp/RtmpSession.cc:68-102 | Joins and replays to a connected player |
| `RtmpSessions.RtmpSession.RemovePlayer` | rtmp/RtmpSession.cc:72-74 | Only this player leaves |
| `RtmpRegistryRuns.StepKeepsIff` | rtmp/RtmpConnection.cc:195-426 | From a consistent registry, a step leads to a consistent one if and only if it is not a connect, publish or play that changes the key or role of a connection that a session refers to |
| `RtmpRegistryRuns.RunKeepsIff` | rtmp/RtmpConnection.cc:195-426 | Over whole runs: consistent throughout if and only if no session is ever forsaken like that |
| `RtmpRegistryRuns.DisciplinedRunsAreConsistent` | rtmp/RtmpConnection.cc:195-378 | Every run in which connect, publish and play come only from connections without a role stays consistent |
| `RtmpRegistryRuns.RegistryAgrees` | rtmp/RtmpServer.cc:42-131 | In such runs no registered session is empty, every publisher and player reference matches that connection's role and stream key, and every publisher is its session's publisher |
| `RtmpRegistryRuns.OnePlace` | rtmp/RtmpConnection.cc:300-371 | A connection is in at most one session, either as publisher or as player |
| `RtmpRegistryRuns.DeleteDetaches` | rtmp/RtmpConnection.cc:400-426 | After a delete that succeeds, even one that is ignored, no session refers to the connection |
| `RtmpRegistryRuns.CloseDetaches` | rtmp/RtmpServer.cc:62-77 | After a close no session refers to the connection and its context is gone |
| `RtmpRegistryRuns.ForsakenSessionLeaks` | rtmp/RtmpConnection.cc:281-352 | Publishing or playing under a second name leaves the first session with a reference that closing the connection does not take away |
| `RtmpRegistryRuns.ForsakenKeyIsBlocked` | rtmp/RtmpConnection.cc:300-308 | If it was the publisher, then in every later run without a reopening of that connection the session stays registered with it, and every publish by another connection under the key is refused |
| `RtmpRegistryRuns.LeftPlayerIsDropped` | rtmp/RtmpSession.cc:112-122 | If it was a player, the next broadcast of the session drops it |
| `RtmpOutcomes.OnlyAuthorised` | rtmp/RtmpConnection.cc:286-378 | In every run from the start a session has a publisher, or a player, only under a key for which the authorisation accepts some ticket for publishing, or playing |
| `RtmpOutcomes.PublishOutcome` | rtmp/RtmpConnection.cc:249-318 | Every publish has one of four ends: shut down with nothing changed, shut down with only the name stored, refused with only the name stored, or publisher of the session of its key with the players there |
| `RtmpOutcomes.PlayOutcome` | rtmp/RtmpConnection.cc:320-378 | Every play has one of three: shut down with nothing changed, shut down with only the name stored, or one more player of the session of its key |
| `RtmpOutcomes.ConnectOutcome` | rtmp/RtmpConnection.cc:195-213 | A connect sets the application that its object names, or ends in a shutdown |
| `RtmpOutcomes.DeleteOutcome` | rtmp/RtmpConnection.cc:400-426 | A delete is ignored without a session, ends in a shutdown under another stream's id, and otherwise leaves a context without role, stream and session |
| `RtmpOutcomes.MediaOutcome` | rtmp/RtmpConnection.cc:380-398 | Media of types 8, 9 and 18 counts only from a publisher, which is shut down if its session is gone |
| `RtmpOutcomes.UnknownCommandOutcome` | rtmp/RtmpConnection.cc:143-193 | A command message that cannot be decoded ends in a shutdown, a command of another name changes nothing |
| `RtmpOutcomes.OtherTypeOutcome` | rtmp/RtmpConnection.cc:130-165 | Messages of other types change nothing in the registry |
| `RtmpOutcomes.NthStream` | rtmp/RtmpConnection.cc:236-247 | The n-th createStream of a connection opens stream n, modulo 2^32 |
| `RtmpForsaking.SecondPublishBreaks` | rtmp/RtmpConnection.cc:249-318 | A run from the start, as AMF0 messages, that gets there: connect, createStream and publish lead to a consistent state, and a publish of any other name, authorised or not, to an inconsistent one |
| `RtmpForsaking.SomeRunBreaks` | rtmp/RtmpConnection.cc:249-318 | One such run with everything given |
| `RtmpCommands.CommandRoundTrip` | rtmp/RtmpCommandMessage.cc:11-49 | A command written as AMF0 values is the command that is handled |
| `RtmpOutcomes.CommandIff` | rtmp/RtmpCommandMessage.cc:11-49 | A message is a command if and only if its type is 20 and its payload is a string, a number and, if there is more, a value for the object and arguments |
| `RtmpKeys.KeyIsSharedIff` | rtmp/RtmpTypes.h:54-57 | Some other stream has the key of this one if and only if its application has a slash behind its first byte or its name has one before its last byte |
| `RtmpKeys.SameKeyIff` | rtmp/RtmpTypes.h:54-57 | Two streams have one key if and only if they are the same or the application of one takes in, up to a slash, a part of the name of the other |
| `RtmpKeys.KeysCollide` | rtmp/RtmpTypes.h:54-57 | One such pair |
| `RtmpKeys.KeyTells` | rtmp/RtmpConnectionContext.cc:7-12 | Equal keys with the same application or the same name have both the same |
| `RtmpKeys.RivalIsJoined` | rtmp/RtmpConnection.cc:352-370 | Whoever may play a stream joins the publisher of any other stream that shares its key |
| `RtmpKeys.RivalIsRefused` | rtmp/RtmpConnection.cc:286-308 | No other connection can publish a stream while one that shares its key is published |
| `RtmpLive.LateServerPlayer` | rtmp/RtmpConnection.cc:346-378 | On the running server, after any run from the start: a connected client whose play is accepted and that then stays is sent the replay and every message published under the key, and its audio and video start at the last key frame since the publisher took over and go on without gap or duplicate |
| `RtmpLive.SessionIsItsLife` | rtmp/RtmpSession.cc:44-154 | After any run of the server each session is the run, by the session model, of what happened to it since it was created |
| `RtmpLive.RunKeepsAgree` | rtmp/RtmpServer.cc:42-131 | After any run of the server the registry and the session models agree on publisher, players and who is connected |
| `RtmpLive.StepKeepsAgree` | rtmp/RtmpConnection.cc:130-165 | Every step of the server changes each session by the events it makes happen to it, and removes only empty ones |
| `RtmpLive.PlayJoins` | rtmp/RtmpConnection.cc:320-378 | An accepted play is a join under its key, and registers the session |
| `RtmpRegistryRuns.CleanupDetaches` | rtmp/RtmpServer.cc:105-131 | Cleaning up takes the connection out of every session, drops the session when it is empty, and disturbs nobody else |
| `RtmpRegistryRuns.ConnectKeepsIff` | rtmp/RtmpConnection.cc:195-234 | A connect keeps the registry consistent unless it changes the application of a connection in a session |
| `RtmpRegistryRuns.PublishKeepsIff` | rtmp/RtmpConnection.cc:249-318 | The same for publish: the name is stored before authorisation and before the publisher check |
| `RtmpRegistryRuns.PlayKeepsIff` | rtmp/RtmpConnection.cc:320-378 | The same for play |
| `RtmpRegistryRuns.MediaKeeps` | rtmp/RtmpConnection.cc:380-398 | Media from a publisher always finds its session, and dropping players keeps the registry consistent |
| `RtmpCommands.TargetRoundTrip` | rtmp/RtmpConnection.cc:42-74 | A name and any query parts come apart again; the last ticket counts |
| `RtmpOutcomes.TargetIff` | rtmp/RtmpConnection.cc:42-74 | A raw name is taken apart into name and ticket if and only if it is a name without question mark, or a name, a question mark and parts joined by ampersands of which the last that starts with `ticket=` counts |
| `RtmpOutcomes.NoTargetIff` | rtmp/RtmpConnection.cc:42-74 | It is refused if and only if it is empty or starts with a question mark |
| `RtmpCommands.ParseStreamTarget` | rtmp/RtmpConnection.cc:42-74 | The loop that shrinks the query computes the specified target |
| `RtmpServerObject.RtmpServer.HandleConnect` | rtmp/RtmpConnection.cc:195-234 | The effect on context and registry |
| `RtmpServerObject.RtmpServer.HandleCreateStream` | rtmp/RtmpConnection.cc:236-247 | Takes the next stream id, which wraps at 32 bits |
| `RtmpServerObject.RtmpServer.HandlePublish` | rtmp/RtmpConnection.cc:249-318 | The effect on context and registry, branch by branch; an accepted publish is a publish event of the session of its key, with its cache emptied for a new publisher, and no other session changes |
| `RtmpServerObject.RtmpServer.HandlePlay` | rtmp/RtmpConnection.cc:320-378 | The effect on context and registry, branch by branch; an accepted play is a join of the session of its key, with its replay, and no other session changes |
| `RtmpServerObject.RtmpServer.HandleMediaMessage` | rtmp/RtmpConnection.cc:380-398 | Only a publisher with a live session is heard: then that session caches and broadcasts the message; no other session changes |
| `RtmpServerObject.RtmpServer.HandleDeleteStream` | rtmp/RtmpConnection.cc:400-426 | Ignored, refused or detached; all caches and logs of the sessions that remain stay |
| `RtmpServerObject.RtmpServer.HandleCommandMessage` | rtmp/RtmpConnection.cc:167-193 | Dispatch by name; sessions change by the effect of the command, caches and what they send included |
| `RtmpServerObject.RtmpServer.HandleMessage` | rtmp/RtmpConnection.cc:130-165 | Dispatch by message type, with the AMF0 command decoded; sessions change by the effect of the message |
| `RtmpServerObject.RtmpServer.OnMessage` | rtmp/RtmpServer.cc:79-98 | One step of server and sessions together; a failed message shuts the connection down |
| `RtmpServerObject.RtmpServer.OnOpen` | rtmp/RtmpServer.cc:62-72 | One step of server and sessions together: a new context |
| `RtmpServerObject.RtmpServer.OnClose` | rtmp/RtmpServer.cc:74-76 | One step of server and sessions together: cleanup, then the context is gone |
| `RtmpServerObject.RtmpServer.CleanupConnection` | rtmp/RtmpServer.cc:105-131 | Leaves the session of its key by role and removes it when empty; no cache changes |
| `RtmpServerObject.RtmpServer.DetachConnectionFromSession` | rtmp/RtmpServer.cc:48-60 | Cleanup and the five resets; no cache changes |
| `RtmpServerObject.RtmpServer.GetOrCreateSession` | rtmp/RtmpSessionManager.cc:5-15 | The registered session, or a new and empty one that no weak reference points to |
| `RtmpServerObject.RtmpServer.RemoveIfEmpty` | rtmp/RtmpSessionManager.cc:26-31 | Removing an empty session expires exactly the weak references to it |
| `JsonGrammar.AcceptedIff` | api/JsonRequest.cc:8-139 | On any bytes the parser gives a map if and only if they are an object of string fields with any blanks around every token and any spelling of the strings, and the map is the one in which the last of equal keys wins |
| `JsonGrammar.EscapeIsWritten` | api/JsonResponse.h:8-40 | The printer writes a spelling of the string, with a backslash exactly for the quote, the backslash and five control characters |
| `Json.ObjectRoundTrip` | api/JsonRequest.cc:83-139 | For every sequence of pairs of byte strings, parsing the braced, comma-joined fields gives the map in which the last of equal keys wins |
| `Json.StringRoundTrip` | api/JsonRequest.cc:15-67 | Any bytes, quoted and escaped, are read back whatever follows |
| `Json.CharRoundTrip` | api/JsonResponse.h:8-40 | Each escaped byte is read back as one character |
| `Json.FieldRoundTrip` | api/JsonResponse.h:60-62 | One printed field is read back |
| `Json.MapOfLast` | api/JsonRequest.cc:120-120 | What last-wins means: a key has the value of its last occurrence |
| `Json.EscapeJson` | api/JsonResponse.h:8-40 | The loop prints the escaped bytes |
| `Json.SkipSpaces` | api/JsonRequest.cc:8-13 | Moves to the first byte that is no space |
| `Json.ParseString` | api/JsonRequest.cc:15-67 | The loop reads what the specification reads, or fails with it |
| `Json.ParseJsonObject` | api/JsonRequest.cc:83-139 | The loop reads what the specification reads, or fails with it |
| `Buffers.Buffer.Append` | net/Buffer.cc:38-42 | The contents, then the data |
| `Buffers.Buffer.Retrieve` | net/Buffer.cc:18-24 | Drops a prefix, or everything |
| `Buffers.Buffer.RetrieveAsString` | net/Buffer.cc:26-30 | What is taken and what is left make up the old contents |
| `Buffers.Buffer.MakeSpace` | net/Buffer.cc:92-104 | Growing or moving keeps the contents and makes room |
| `Buffers.Buffer.EnsureWritableBytes` | net/Buffer.cc:32-36 | Room without a change of the contents |
| `Buffers.Buffer.FindCrlf` | net/Buffer.cc:45-48 | The first CR LF of the contents |
| `Buffers.Buffer.ReadFd` | net/Buffer.cc:57-82 | Whatever `readv` scatters over free space and stack buffer ends up behind the contents |
| `Buffers.FirstCrlfExtend` | net/Buffer.cc:45-48 | A CR LF that has been found stays the first one when bytes arrive |

## Left out

- Sockets, epoll, eventfd, timerfd and `errno` appear as write results, a wakeup counter and an armed deadline; a failed system call other than a failed write is not modelled.
- Threads are not created or joined, and `quit` is not modelled, which leaves the loop running (`net/EventLoop.cc:88-93`); nothing is claimed about the loop ending.
- Posts by the loop's own thread before `loop()` starts are not followed by a wakeup and are not steps of the event-loop model.
- EventLoops.EventLoop.DoPendingFunctors: as one method it runs without posts in between; posts during it are steps of the state machine, and `EventLoops.SwapDrains` covers them.
- EventLoops.EventLoop.Wakeup: the counter has no upper limit, so a write that would block is not modelled.
- Sends from other threads that race with `shutdown`, and `addTimer` reading the sequence number after it has handed the timer to the loop.
- Monotonic and wall clock are one clock in whole microseconds; a repeating timer's interval is a whole number of microseconds; timer expirations passed by a caller may be any time.
- TcpOutput.OutputIsConserved: the connection starts connected, so `connectEstablished` and `connectDestroyed` are not modelled; bytes of a send that a broken peer refused outright are not counted as accepted.
- The meaning of AMF0 numbers as IEEE 754 doubles; they are 64-bit patterns, and the byte order of the machine is not modelled.
- The chunk size is fixed within a run where segmentation and round trips are concerned, though not in `ChunkDelivery.ReassemblyIsExact`: `Set Chunk Size` takes effect only after all chunks of a buffer have been parsed (`rtmp/RtmpConnection.cc:113-137`), and messages of the registry model arrive one by one.
- ChunkWriter.EncodeMessage: requires a positive chunk size, because with size 0 the loop of the code does not end.
- ChunkRoundTrip.InterleavedRoundTrip: messages with a timestamp of 0xFFFFFF or more must fit one chunk, because by `ChunkExact.TransparentIff` no other message is transparent to the bytes behind it, in any stream state; which messages come out of such traffic is not described further.
- RtmpSessions.RtmpSession.AddPlayer: each session keeps its own record of what it has sent to whom, without the order between sessions; `addPlayer` and the replay are one method, without the status message between them; encoded bytes appear as messages, because the codec is proved separately.
- Connections are numbers: a connection's name and its object, which the code uses for players and publishers, are not told apart.
- RtmpServerObject.RtmpServer.OnMessage: takes one decoded message where the code takes a buffer, and the shutdown of a connection without a context or handler is not modelled.
- RtmpServerObject.RtmpServer.HandleConnect: without `tcUrl`, `objectEncoding` and the four replies.
- RtmpServerObject.RtmpServer.HandleCreateStream: without the result reply.
- RtmpServerObject.RtmpServer.HandlePublish: without the status replies.
- RtmpServerObject.RtmpServer.HandlePlay: without the status replies.
- Replies to commands, the bandwidth and acknowledgement fields of the context, `tcUrl` and `objectEncoding`.
- Unsynchronised access to one session from several loops; the registry is sequential.
- The RTMP handshake, the HTTP router and responses, user store, tokens, tickets and password hashing (authorisation is any predicate of key and ticket), round-robin selection of loops, logging.
- JSON values that are not strings, and `makeJsonResponse` around the fields.
- `Buffer::writeFd`, and the storage of `std::vector` and `std::string` beyond their contents.
