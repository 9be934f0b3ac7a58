# domi-server call-audio core in Dafny

This project models the sequential logic under the socket, SDK and ffmpeg
plumbing of domi-server's call transcription:

- **The binary ASR wire protocol and its client** (`src/events/vol_stt.ts`).
  - `generateHeader` packs the 4-bit fields into a 4-octet header plus extension octets.
  - Request frames are header, big-endian 32-bit length, then gzip payload.
  - `parseResponse` branches on full response, ACK and error.
  - The client's option defaults, `constructRequest` and the authentication headers.
  - The `AsrWsClient` object: its socket state, the frames it writes, its ready promise, and what its observer publishes.
- **The pacing streams** (`src/events/assemblyai_stt.ts`).
  - Chunk-and-throttle slices each buffer into pieces of at most `chunkSize` octets. It pushes them at least `sendInterval` apart, with a `lastSendTime` shared by all buffers.
  - The plain chunk stream, the throttle stream and the monitor stream.
  - The `AssemblyAIStt` connection flag, the audio drop rule and the turn filter.
- **The call session store and audio router** (`src/events/events.service.ts`).
  - A `Session` keeps the latest definite utterances and an append-only action log, and fans events out to keyed subscribers.
  - `EventsService` creates one ASR client per session on the first buffer and caches that buffer. It sends every later buffer transcoded behind the cached one, counting buffers in a counter shared by all sessions.

Files:

- `wrappers.dfy` (Option, Result).
- `bytes.dfy`: octets, `writeUInt32BE`/`readUInt32BE`/`readInt32BE`, and bitwise OR on small operands.
- `protocol.dfy`: the pure part of `vol_stt.ts`.
- `asr_client.dfy`: the `AsrWsClient` class.
- `pacing.dfy`: the stream factories as classes.
- `assemblyai.dfy`: the `AssemblyAIStt` class.
- `sessions.dfy`: the session step functions, the `Session` class and the `EventsService` class.

Conventions:

- Library calls the code makes are fields of a `Library` value of total functions. These are gzip/gunzip, `JSON.stringify`/`JSON.parse`, UTF-8, URL parsing, HMAC-SHA256 and the ffmpeg transcoder. A `None` result stands for a call that throws or rejects.
- Socket, transcriber, timer and promise events are methods that the environment calls.
- `Date.now()` is a `now` parameter that never decreases. A timer is taken to fire no earlier than its due time. This is an assumption on the environment, not something the code checks: Node's timers run on the event loop's cached time and can fire about a millisecond early by `Date.now()`, and the throttling timer callbacks push without re-checking the elapsed time. The pacing property (`Paced`) rests on this assumption.

Behaviour of the code worth noting (the model follows the code):

- `addMessage` replaces the stored messages with no equality check, so the same input publishes twice.
- `execute` always sends the non-final audio header: the `last` branch is dead and the frame is rebuilt after it. NEG_SEQUENCE is therefore never sent.
- The audio headers declare JSON serialization although their payload is raw gzip audio.
- `options.show_utterances || true` is true whatever the caller passes.
- The token header is `Bearer; <token>`, with a semicolon.
- `createSession` on an existing id installs a fresh session, but the id's ASR client and cached first chunk stay. Later transcripts from that client reach the new session.
- A full server response's body is everything after its size field, whatever that size says.
- `startTranscription` builds a monitor stream but never pipes it.
- `generateHeader` adds the extension's word count to the header-size nibble with no bound. An extension of 60 octets or more overflows the nibble into octet 0's high bits, so the header no longer decodes to its own size. Every call in the code passes no extension.

## Model

| member | source | states |
|---|---|---|
| Bytes.BitOrDisjoint | src/events/vol_stt.ts:213-215 | OR of a value shifted left by k bits with a value below 2^k is their sum, so packing two nibbles never mixes them |
| Bytes.BE32 | src/events/vol_stt.ts:339 | writeUInt32BE stores exactly four octets |
| Bytes.ReadInt32BE | src/events/vol_stt.ts:261 | readInt32BE yields a value in [-2^31, 2^31) equal modulo 2^32 to the unsigned reading of the same octets |
| Bytes.ReadBE32 | src/events/vol_stt.ts:339 | reading back the four octets writeUInt32BE stored anywhere in a buffer returns the value written |
| Bytes.BE32OfRead | src/events/vol_stt.ts:267 | the four octets readUInt32BE reads are exactly the big-endian encoding of the value it returns |
| Protocol.PackNibbles | src/events/vol_stt.ts:213-215 | `(hi << 4) \| lo` stored in an octet is hi*16+lo whenever lo is below 16 |
| Protocol.GenerateHeader | src/events/vol_stt.ts:202-219 | the header has 4+\|ext\| octets; when the extension is under 60 octets, octet 0 is version*16 + \|ext\|/4 + 1; octet 1 is type*16+flags; octet 2 is serialization*16+compression; octet 3 is the reserved octet; the extension follows unchanged |
| Protocol.DefaultHeaderBytes | src/events/vol_stt.ts:221-238 | the full-request, audio and last-audio default headers are 11 10 11 00, 11 20 11 00 and 11 22 11 00 |
| Protocol.HeaderExample | src/events/vol_stt.ts:202-219 | generateHeader(1, 2, 2, 0, 1, 0, []) is 11 22 01 00 |
| Protocol.Payload | src/events/vol_stt.ts:254 | the payload is the frame from octet headerSize*4 on, where headerSize is the low nibble of octet 0; when that is past the end the payload is empty |
| Protocol.DecodeGeneratedHeader | src/events/vol_stt.ts:246-254 | decoding any generated header gives back its version, type, flags, serialization, compression and reserved octet, with header size \|ext\|/4+1; with a word-aligned extension the payload is what follows the extension |
| Protocol.BuildFrame | src/events/vol_stt.ts:332-339 | a frame exists exactly when the payload length fits 32 bits; it is the header, then a length field equal to the payload's length, then the payload |
| Protocol.AudioFrameNeverLast | src/events/vol_stt.ts:392-416 | every frame execute builds starts 11 20 11 00: audio-only, NO_SEQUENCE and never NEG_SEQUENCE; its length field is the compressed length and the compressed chunk follows |
| Protocol.FullRequestLayout | src/events/vol_stt.ts:328-339 | the full client request decodes as version 1, header size 1, full request, NO_SEQUENCE, JSON, gzip; its length field equals the gzip of the serialized request's length and that gzip follows |
| Protocol.DecodeBody | src/events/vol_stt.ts:277-293 | the fixed fields and size pass through; a gzip body fails exactly when gunzip fails; otherwise the (gunzipped) body is, for JSON serialization, JSON.parse's value, failing exactly when JSON.parse fails; for no serialization, the raw octets; for any other serialization, their UTF-8 decoding |
| Protocol.ParseResponse | src/events/vol_stt.ts:240-294 | fails with a range error exactly when the payload is under 4 octets for a full response or ACK, or under 8 for an error; an unknown type gives an empty result; seq is present exactly for an ACK and code exactly for an error; there is a body (with its size) unless the type is unknown or the ACK is short; a full response's size is the signed first payload word, an ACK's seq the signed first word and its size the unsigned second, an error's code and size the unsigned first and second words |
| Protocol.ParseFixedFields | src/events/vol_stt.ts:260-275 | for a one-word header and an uncompressed body with no serialization: a full response's size is the signed first word and its raw body is everything after it; an ACK carries a signed seq and an unsigned size; an error carries an unsigned code and an unsigned size |
| Protocol.ShortAckHasNoBody | src/events/vol_stt.ts:263-269 | an ACK with 4 to 7 payload octets yields only its sequence number |
| Protocol.FullResponseRoundTrip | src/events/vol_stt.ts:240-294 | given gunzip inverts gzip and JSON.parse inverts the serializer, a framed gzip-JSON full response parses back to the response serialized, with its size |
| Protocol.MapUtterances | src/events/vol_stt.ts:365-371 | utterance i becomes {content = text, startTime = start_time, definite}, and the list keeps its length |
| Protocol.FlattenAppend | src/events/vol_stt.ts:363-364 | flattening results distributes over concatenation, so result order is kept |
| Protocol.FlattenLength | src/events/vol_stt.ts:363-364 | the flattened list holds exactly as many utterances as all results together, an absent list counting as empty |
| Protocol.FlattenSnoc | src/events/vol_stt.ts:363-364 | the published list ends with the mapped utterances of the last result |
| Protocol.FlattenAt | src/events/vol_stt.ts:363-371 | utterance j of result i appears, mapped, at position (utterances of the results before i) + j of the published list |
| Protocol.FlattenAtFront | src/events/vol_stt.ts:363-371 | adding a result keeps every earlier utterance at its place in the published list |
| Protocol.FlattenAtLast | src/events/vol_stt.ts:363-371 | the utterances of the last result follow, mapped and in order, everything before it |
| Protocol.React | src/events/vol_stt.ts:358-382 | ready resolves exactly when the body is JSON echoing the session's reqid; the socket closes exactly when a body is present without code 1000; the published list is the flattened, mapped utterances of every result, for every reply; without a body that list is empty and nothing closes |
| Protocol.EchoedReqidResolvesReady | src/events/vol_stt.ts:358-382 | the reply that echoes the reqid with code 1000 resolves ready, publishes its flattened utterances and keeps the socket open |
| Protocol.ReactPublishesEveryResult | src/events/vol_stt.ts:363-371 | the list published for a reply holds every utterance of every result: utterance j of result i, mapped, sits after the utterances of the earlier results |
| Protocol.OrInt | src/events/vol_stt.ts:143-164 | `x \|\| d` on a number keeps a non-zero x and falls back to d otherwise |
| Protocol.OrString | src/events/vol_stt.ts:147-163 | `x \|\| d` on a string keeps a non-empty x and falls back to d otherwise |
| Protocol.OrBool | src/events/vol_stt.ts:152-153 | `x \|\| d` on a boolean is true exactly when x is true or d is |
| Protocol.Configure | src/events/vol_stt.ts:141-164 | show_utterances ends true whatever is passed; every defaulted field is non-falsy; appid, token, cluster and result_type pass through; absent nbest, rate, format and auth method become 1, 16000, wav and token |
| Protocol.ConstructRequest | src/events/vol_stt.ts:172-200 | the request carries the given reqid, sequence 1, the app credentials, the uid, the audio settings, and the configured nbest, workflow, show_language, show_utterances and result_type |
| Protocol.RequestAlwaysShowsUtterances | src/events/vol_stt.ts:141-200 | the request built from any options asks for utterances; it asks for the language exactly when show_language is passed true; absent nbest becomes 1; reqid and sequence 1 are carried |
| Protocol.TokenAuth | src/events/vol_stt.ts:296-298 | the only header is Authorization, holding "Bearer; " followed by the token |
| Protocol.SignatureAuth | src/events/vol_stt.ts:300-323 | the headers are Custom and Authorization, and Custom is auth_custom |
| Protocol.AuthHeaders | src/events/vol_stt.ts:341-346 | auth method token gives the token header; signature gives the signature headers; any other method gives no headers |
| AsrClient.AsrWsClient.constructor | src/events/vol_stt.ts:141-170 | the options are defaulted; the socket is dialled with the chosen auth headers exactly when the full client request could be built; nothing is sent or published yet |
| AsrClient.AsrWsClient.OnOpen | src/events/vol_stt.ts:353-356 | on open the full client request is the first and only frame sent |
| AsrClient.AsrWsClient.OnMessage | src/events/vol_stt.ts:358-382 | ready takes the first matching response; the flattened list is published while the observer is active; a body without code 1000 starts closing the socket and completes the observer; a frame that fails to parse changes nothing |
| AsrClient.AsrWsClient.OnClose | src/events/vol_stt.ts:384-386 | the close event completes an active observer |
| AsrClient.AsrWsClient.OnError | src/events/vol_stt.ts:388-390 | the error event fails an active observer and leaves the socket as it is |
| AsrClient.AsrWsClient.Execute | src/events/vol_stt.ts:392-420 | the frame sent is the audio-only request for the gzip of the chunk; it is sent only on an open socket; send throws before the socket opens and the frame is discarded once it is closing; an oversized chunk throws before sending |
| Pacing.Min | src/events/assemblyai_stt.ts:25 | the minimum is one of its arguments and no larger than either |
| Pacing.SlicesConcat | src/events/assemblyai_stt.ts:17-48 | the slices of a buffer, concatenated in push order, are the buffer |
| Pacing.SlicesSizes | src/events/assemblyai_stt.ts:24-26 | every slice but the last has chunkSize octets; the last has between 1 and chunkSize; there are ceil(length/chunkSize) slices and none for an empty buffer |
| Pacing.SlicesFull | src/events/assemblyai_stt.ts:24-26 | every slice but the last holds exactly chunkSize octets |
| Pacing.SlicesLast | src/events/assemblyai_stt.ts:19-26 | there are slices exactly when there are octets; the last holds 1 to chunkSize octets and the full slices before it hold the rest |
| Pacing.SlicesExample | src/events/assemblyai_stt.ts:24-26 | 25 octets sliced by 10 give slices of 10, 10 and 5 octets |
| Pacing.SlicesStep | src/events/assemblyai_stt.ts:24-38 | the slices still to push from an offset are the slice at that offset followed by those from the next offset |
| Pacing.PacedSnoc | src/events/assemblyai_stt.ts:28-45 | a push made once sendInterval has elapsed since lastSendTime keeps pushes at least sendInterval apart, and lastSendTime becomes its time |
| Pacing.AccountsStep | src/events/assemblyai_stt.ts:24-44 | pushing the next slice keeps the pushed slices plus the remaining slices equal to the buffer's slices, and the pushed octets plus the rest equal to every octet received |
| Pacing.ChunkAndThrottleStream.constructor | src/events/assemblyai_stt.ts:13-14 | lastSendTime and the clock start at 0 with nothing pushed, so a first transform at any time from 0 on can be called |
| Pacing.ChunkAndThrottleStream.Begin | src/events/assemblyai_stt.ts:17-19 | a transform call starts processChunk at offset 0 of its buffer, and its time becomes the clock; the stream is busy exactly when the buffer is non-empty, and nothing is pushed yet |
| Pacing.ChunkAndThrottleStream.PushSlice | src/events/assemblyai_stt.ts:41-44 | one slice of min(chunkSize, remaining) octets is pushed at the current time, which becomes lastSendTime |
| Pacing.ChunkAndThrottleStream.Run | src/events/assemblyai_stt.ts:18-45 | the clock becomes now; slices are pushed while the interval has elapsed; then either the callback runs with every slice pushed, or a timer is due sendInterval after the last push |
| Pacing.ChunkAndThrottleStream.Transform | src/events/assemblyai_stt.ts:17-49 | the clock becomes now, so the next event can come at any later time; an empty buffer pushes nothing and calls back once; the first slice goes at once only if now - lastSendTime >= sendInterval, otherwise nothing is pushed and a timer waits the rest of the interval; once called back, the pushes of the call are the buffer's slices |
| Pacing.ChunkAndThrottleStream.TimerFires | src/events/assemblyai_stt.ts:34-39 | the timer pushes the waiting slice at its firing time, which becomes the clock, and processing continues; pacing and the slice account are preserved |
| Pacing.ChunkStream.constructor | src/events/assemblyai_stt.ts:58 | nothing pushed yet |
| Pacing.ChunkStream.Transform | src/events/assemblyai_stt.ts:60-74 | the pushes of one call are exactly the buffer's slices, in order, followed by one callback |
| Pacing.ThrottleStream.constructor | src/events/assemblyai_stt.ts:84-85 | lastSendTime and the clock start at 0 with nothing pushed, so a first transform at any time from 0 on can be called |
| Pacing.ThrottleStream.Transform | src/events/assemblyai_stt.ts:88-106 | the chunk is pushed unchanged at once when the interval has elapsed, and otherwise waits with a timer due sendInterval after the last push |
| Pacing.ThrottleStream.TimerFires | src/events/assemblyai_stt.ts:94-99 | the waiting chunk is pushed unchanged at the firing time, which becomes lastSendTime, and the callback runs |
| Pacing.MonitorStream.constructor | src/events/assemblyai_stt.ts:115 | nothing pushed yet |
| Pacing.MonitorStream.Transform | src/events/assemblyai_stt.ts:117-121 | the chunk is pushed unchanged and the callback runs once |
| AssemblyAI.AssemblyAIStt.constructor | src/events/assemblyai_stt.ts:129-146 | starts disconnected, with no audio queued and no transcript forwarded |
| AssemblyAI.AssemblyAIStt.OnOpen | src/events/assemblyai_stt.ts:154-157 | open sets isConnected and changes nothing else |
| AssemblyAI.AssemblyAIStt.OnError | src/events/assemblyai_stt.ts:159-162 | error clears isConnected and changes nothing else |
| AssemblyAI.AssemblyAIStt.OnClose | src/events/assemblyai_stt.ts:164-167 | close clears isConnected and changes nothing else |
| AssemblyAI.AssemblyAIStt.OnTurn | src/events/assemblyai_stt.ts:169-176 | an absent or empty transcript is dropped; any other is forwarded verbatim |
| AssemblyAI.AssemblyAIStt.OnReceive | src/events/assemblyai_stt.ts:207-217 | while disconnected the data is dropped; while connected it is pushed unchanged onto the audio stream, where a non-empty push after the end fails the stream and an empty one is ignored |
| AssemblyAI.AssemblyAIStt.PushAudio | src/events/assemblyai_stt.ts:216 | a non-empty chunk is queued before the end of the stream; a non-empty push after the end fails the stream and queues nothing; a zero-length push is ignored before or after the end |
| AssemblyAI.AssemblyAIStt.EndAudioStream | src/events/assemblyai_stt.ts:220-222 | the audio stream is ended and nothing queued changes |
| AssemblyAI.AssemblyAIStt.Close | src/events/assemblyai_stt.ts:225-235 | close ends the audio stream; the connection flag is left to the close event |
| AssemblyAI.DropAfterClose | src/events/assemblyai_stt.ts:164-213 | after a close event, received audio is dropped |
| Sessions.Definite | src/events/events.service.ts:42 | the filter keeps only definite utterances and never more than it was given |
| Sessions.DefiniteAppend | src/events/events.service.ts:42 | filtering distributes over concatenation, so input order is kept |
| Sessions.DefiniteMembers | src/events/events.service.ts:42 | an utterance is kept exactly when it is in the input and definite |
| Sessions.DefiniteEmpty | src/events/events.service.ts:42-45 | the filtered list is empty exactly when no input utterance is definite |
| Sessions.DefiniteKeepsDefinite | src/events/events.service.ts:42 | a list of definite utterances passes the filter unchanged |
| Sessions.DefiniteIdempotent | src/events/events.service.ts:42 | filtering twice is filtering once |
| Sessions.Fanout | src/events/events.service.ts:47-53 | every current subscriber, and no new key, gets the event appended to its log |
| Sessions.NewSessionEmpty | src/events/events.service.ts:33-40 | a new session has its id, no messages, no actions, summaring false and no subscribers |
| Sessions.AddMessageStores | src/events/events.service.ts:41-54 | with a definite utterance, the stored messages become exactly the definite ones in order; id and action log are kept; every subscriber gets one message event with that list |
| Sessions.AddMessageIgnoresPartial | src/events/events.service.ts:43-45 | with no definite utterance nothing changes and nothing is published |
| Sessions.AddMessageNoDedup | src/events/events.service.ts:41-54 | the same input twice stores the same messages but publishes the same event twice |
| Sessions.AddSystemActionAppends | src/events/events.service.ts:55-66 | the earlier action log is a prefix of the new one, the actions follow in order, and every subscriber gets the whole new log |
| Sessions.SubSnapshotFirst | src/events/events.service.ts:67-76 | sub adds or replaces only its key, whose single event is the session snapshot; data and other subscribers are untouched |
| Sessions.StepsKeepGood | src/events/events.service.ts:30-77 | every session operation keeps the stored messages all definite and summaring false |
| Sessions.Session.constructor | src/events/events.service.ts:33-40 | the object starts as the empty session for its id |
| Sessions.Session.Publish | src/events/events.service.ts:47-53 | the loop over subscribers appends the event to every subscriber's log and changes no data |
| Sessions.Session.AddMessage | src/events/events.service.ts:41-54 | the object's new state is the addMessage step of its old state |
| Sessions.Session.AddSystemAction | src/events/events.service.ts:55-66 | the object's new state is the addSystemAction step of its old state |
| Sessions.Session.Sub | src/events/events.service.ts:67-76 | the object's new state is the sub step of its old state and the returned subscriber holds just the snapshot |
| Sessions.SttOptions | src/events/events.service.ts:99-104 | the client options carry the configured token and appid and the wav format; every other option is absent |
| Sessions.ServiceClientConfig | src/events/events.service.ts:96-104 | the client the service creates keeps the configured cluster, token and appid, and is defaulted to wav at 16000 Hz, nbest 1, token authentication, utterances shown and language not shown |
| Sessions.EventsService.constructor | src/events/events.service.ts:81-85 | no sessions, clients or cached chunks, and the shared counter at 1 |
| Sessions.EventsService.CreateSession | src/events/events.service.ts:86-90 | a fresh empty session replaces any entry under the id; clients, cached chunks and the counter stay |
| Sessions.EventsService.BufferToStt | src/events/events.service.ts:91-128 | an unknown session changes nothing; the first buffer of a session creates its client, dialling with the full client request exactly when that request can be built, with ready unresolved and the observer active, and is cached, not sent; a later buffer waits for ready; a cached first chunk is never changed |
| Sessions.EventsService.AttachClient | src/events/events.service.ts:95-126 | the first buffer of a known session creates a fresh client from the configured token, appid and cluster, with its full client request built, the socket connecting exactly when that request exists, ready unresolved and the observer active, and caches the buffer as the session's first chunk; sessions and the counter stay |
| Sessions.EventsService.SendAfterReady | src/events/events.service.ts:127-137 | the shared counter rises by 1; the transcode of the cached first chunk followed by the buffer goes to execute; a transcoder failure sends nothing; the client's socket, ready promise, observer and published lists are unchanged, so every later buffer can follow the same way |
| Sessions.EventsService.Deliver | src/events/events.service.ts:107-123 | a non-empty list goes to the session's addMessage and summaring is cleared; an empty list or unknown session changes no session; other sessions never change |
| Sessions.EventsService.ClientMessage | src/events/events.service.ts:107-114 | a frame on a session's socket is handled by its client: nothing is sent; ready takes the first reply echoing the reqid; the flattened list is published while the observer is active; a body without code 1000 starts closing and completes the observer; a frame that fails to parse changes nothing; the list published while active reaches that session's addMessage only |
| Sessions.EventsService.SubscribeSession | src/events/events.service.ts:139-144 | an unknown id returns nothing; otherwise that session alone takes the sub step and the subscriber gets the snapshot |

## Left out

- gzip and gunzip (RFC 1952), `JSON.stringify`/`JSON.parse`, UTF-8, URL parsing and HMAC-SHA256 with base64url: library calls, taken as uninterpreted functions of a `Library` value.
- The ffmpeg transcoder (`convertAudioBuffer`) is a foreign process. It is an uninterpreted function whose `None` result is a rejection.
- JSON bodies that are not objects: `null` makes the handler throw, and a non-array `result` breaks the flatten. Response fields of another JSON type are modelled as absent.
- File writing (`writeOrAppendFile`, `bufferToFile`): file-system I/O.
- `EventsService.summary`: a network LLM call. The observer callback starts it and clears summaring at once. Its later `addSystemAction` is the `Session.AddSystemAction` method, which is modelled on its own.
- `startTranscription`, `transcriber.connect`/`stream`/`close` and `Readable.toWeb(...).pipeTo`: calls into the AssemblyAI SDK and the stream plumbing. The SDK's events are the `AssemblyAIStt` methods.
- The WebSocket transport, uuid generation and the socket.io gateway: events are methods the environment calls, and the reqid is a parameter.
- Promise timing: `bufferToStt` is split at `await initPromise`. `SendAfterReady` is its continuation, run once ready has resolved. The transcode and `execute` then happen in one step, so the interleaving of several pending continuations around the ffmpeg await is not modelled.
- Aliasing of published arrays: the action log and the session snapshot are published by reference in the code, so later changes show through earlier events. The model publishes their values at the time of the event.
- BehaviorSubject initial values (`undefined`, `null`, `''`) are left out of the event logs. A subscriber replaced by `sub` is not completed, and it drops out of the model.
- Node stream buffering, backpressure and `highWaterMark`: the stream classes record each `push` call. The Readable's refusal of zero-length chunks is modelled only for the `AssemblyAIStt` audio stream.
- Clock reads: all `Date.now()` reads within one synchronous run of `processChunk` get the same `now`.
- ChunkAndThrottleStream.constructor: requires chunkSize > 0. A chunkSize of 0 or less makes `processChunk` recurse forever, and non-integer sizes are not modelled.
- ChunkStream.constructor: requires chunkSize > 0 for the same reason.
- Numbers are unbounded integers. The only 32-bit behaviour modelled is in the length, seq and code fields.
- A `parseResponse` that throws inside the message listener is modelled as the event changing nothing. What the runtime then does with the uncaught exception is not modelled.
- SignatureAuth: states only the header names and the Custom value. The Authorization value is the HMAC layout in its body, over an uninterpreted MAC.
- AuthHeaders: for the signature method it states only the Custom header, as SignatureAuth does.
- The stream factories' default arguments (chunkSize 20*1024, sendInterval 500, the monitor label `Monitor`) are not modelled: every call in the code passes explicit values, and the label only names log lines.
- AsrWsClient.OnMessage: requires an open or closing socket, since frames arrive only then. This is the transport's promise, not a check in the handler.
