# Transport and streaming kernel: a verified model

This project models, in Dafny 4.11, the parts of the client library in which order,
interleaving and buffering decide correctness, and proves what they promise. It is
one Dafny project: `dafny verify dfyconfig.toml` checks all of it.

## What is modelled

**Framing** (`FrameBuffer`, `JsonLines`, `ContentLength`, `ContentHeaders`,
`FramedChannel`, `ChannelRuns`). Each decoder is a class over a growable buffer,
proved against a reading of the whole input (`Decode`), and the reading against the
lines and headers it reads. JSON is a pair of functions: printing is undone by
parsing, its text is never empty, holds no line feed and does not end in a carriage
return (`Lawful`). The 32-bit boundary register is a number kept modulo 2^32.

**Server-Sent Events** (`SseBlocks`, `SseStream`, `SseRendering`, `SseForms`,
`SseDelivery`, `SseTransport`, `SseReconnect`, `SseEndToEnd`). Block boundaries,
fields, the byte budget, the reconnect loop with its cursor and dedupe window, and
their composition against a server that writes its log to the wire. Bodies arrive as
the texts of decoding slices; numbers are read and printed by two functions.

**WebSocket** (`WebSocket`, `WebSocketRuns`, `WebSocketListening`, `WebSocketTurns`,
`WebSocketConnection`, `WebSocketConformance`). A state machine over the handlers,
every interleaving of opens, frames, decodes, errors, closes, sleeps, aborts,
`send()` and `close()`.

**JSON-RPC** (`JsonRpc`, `JsonRpcSettlements`, `JsonRpcConformance`). The pending
map, abort listeners, sends and close, and the repository's own trace checker.

**HTTP attempts** (`Backoff`, `Headers`, `HttpTransport`, `HttpRetries`,
`HttpConformance`). The retry loop, delays over exact reals, header dictionaries
with case-insensitive names, and the repository's own trace checker on what goes out
on the wire.

**Run streams** (`StreamCall`, `StreamRuns`, `StreamOutcomes`, `StreamRunTracker`).
One call through facade, dispose tracker and gateway bridge, and all calls of a
client together with the callers' signals and `disposeAll`.

**Folds and stores** (`LazyBackend`, `RunStore`, `SynchronousRunStore`,
`ManagedLifecycle`, `ManagedReadings`). The lazy backend memo, the bounded run cache
over mutable objects, and the reading of a managed agent's event log.

**Team manifests** (`ManifestPaths`, `ManifestLists`, `Manifest`,
`ManifestNormalize`, `ManifestFields`, `ManifestTexts`, `ManifestMerge`,
`ManifestLayers`, `ManifestResolve`, `ManifestReadings`). Normalization level by
level, three-level merging, and the lookups built on both.

Asynchronous functions are cut at their awaits: what runs between two awaits is one
atomic step, and theorems quantify over every sequence of steps. Time, randomness,
network answers, signals and thrown user callbacks are parameters of the steps. A
class method states the whole new state by the step function the theorems are about;
what those functions mean is stated apart from them, by what happened and what is
seen (the lemmas named `...Exactly`).

## Where the code differs from what is said about it

- A JSON-RPC request can be lost: a send failure is tied to an id, not to its
  request, so an id reused while an earlier send under it is undecided loses the
  newer request for good (`JsonRpc.ReuseIsTheOnlyDanger`,
  `JsonRpc.ReusedIdLosesARequest`).
- Whether an SSE body keeps its byte budget depends on its chunking
  (`SseStream.BudgetDependsOnChunking`); `SseStream.AcceptedUnderEveryChunking`
  says for which texts it does not.
- The Content-Length encoder does not check the header limit, so a small
  `maxHeaderBytes` refuses the codec's own frames (`ContentLength.FrameReadsBack`).
- A WebSocket frame still being decoded when its socket drops is delivered while
  the retry waits, which the repository's own checker reports
  (`WebSocketConformance.TracesConformExactly`,
  `WebSocketConformance.LateDeliveryHappens`).
- When a provider's subscribe throws at once, the promise of the stream is rejected
  but the bridge is not settled: later events still reach the caller
  (`StreamRuns.CallbacksFollowExactly`, `StreamRuns.RejectedStreamGoesOn`).
- A random source outside [0, 1] strands a WebSocket connection
  (`WebSocketRuns.StrandedExactly`).
- A run whose stream only `disposeAll` ended is reported live without an outcome
  and is not cancelled (`StreamRuns.LeftRunningExactly`).
- A delay may exceed a fractional `maxDelayMs` by rounding (`Backoff.CapIsKept`).
- Merging depends on its grouping when an empty text overrides a text, which
  normalization rules out (`ManifestMerge.PickAssociatesExactly`).

## Model

| member | source | states |
|---|---|---|
| FrameBuffers.FrameBuffer.constructor | src/core/transport/framing.ts:55-57 | An empty buffer: no bytes held, no storage, nothing copied yet. |
| FrameBuffers.FrameBuffer.Append | src/core/transport/framing.ts:59-70 | The contents become the old contents followed by the chunk, unless that would pass the limit: then, and only then, it is refused and nothing changes. Storage, length and copying cost evolve as the growth rule says. |
| FrameBuffers.FrameBuffer.Clear | src/core/transport/framing.ts:72-73 | Nothing is held any more; the storage and what its growth cost so far stay. |
| FrameBuffers.AmortizedAlways | src/core/transport/framing.ts:54-74 | Over every sequence of appends and clears under two limits, the bytes copied by all regrowths are paid for by the capacity outgrown last, which the contents exceeded: twice, or three times once a capacity was cut down to the lower limit. |
| FrameBuffers.CopiedLinearly | src/core/transport/framing.ts:54-70 | The linear-copy claim: over a buffer's whole life, regrowth copies nothing, or less than three times the longest contents it ever held; less than twice under a single limit. |
| FrameBuffers.TwiceIsNotEnough | src/core/transport/framing.ts:54-70 | A concrete buffer under two limits that copies more than twice its longest contents. |
| JsonLines.NextLine | src/core/transport/framing.ts:114-130 | One turn of the decoder loop on values: the held bytes and the input up to its first LF are the next line of the whole-input reading. |
| JsonLines.DecodeResumes | src/core/transport/framing.ts:110-137 | The whole-input reading may be interrupted anywhere: the pending bytes are all that is needed to go on, and a refusal is never taken back. |
| JsonLines.PendingIsUnfinished | src/core/transport/framing.ts:120-124 | What is pending never holds an LF and, without its trailing CR, never exceeds the size limit. |
| JsonLines.RoundTrip | src/core/transport/framing.ts:105-137 | Decoding undoes encoding: the encodings of any values, concatenated, read as exactly those values with nothing pending. |
| JsonLines.JsonLinesDecoder.constructor | src/core/transport/framing.ts:110-113 | A fresh decoder has read nothing and holds nothing. |
| JsonLines.JsonLinesDecoder.Extend | src/core/transport/framing.ts:120-126 | A piece added to the held line either ends it (too long, blank, malformed or a value) or waits; a finished line leaves the buffer empty. |
| JsonLines.JsonLinesDecoder.Push | src/core/transport/framing.ts:114-130 | A chunk is accepted if and only if everything pushed so far is, read as one input; the values returned are those the chunk adds. |
| JsonLines.JsonLinesDecoder.CopiesLittle | src/core/transport/framing.ts:110-130 | However many chunks came in, the decoder's buffer copied less than twice the longest line held. |
| JsonLines.JsonLinesDecoder.Finish | src/core/transport/framing.ts:131-134 | The end of the stream is an error if and only if an unfinished line is pending. |
| JsonLines.DecodeAll | src/core/transport/framing.ts:110-137 | Chunking independence: any chunks fed to a fresh decoder, then finish, give the reading of the bytes glued together. |
| JsonLines.LinesDecode | src/core/transport/framing.ts:114-130 | Any complete lines and an unfinished one, each with or without a CR behind its text: accepted if and only if every text is within the limit and every one that is not empty parses; then the values are theirs, in order, and the unfinished line is pending. |
| JsonLines.EncodableExactly | src/core/transport/framing.ts:105-109 | Values are encodable if and only if each has a JSON text within the limit. |
| ContentLength.HeaderEndAppend | src/core/transport/framing.ts:165-169 | A blank line once found is found at the same place in every longer input; one not yet found can only begin within the last three bytes or later. |
| ContentLength.DecodeResumes | src/core/transport/framing.ts:151-207 | The whole-input reading of framed messages may be interrupted anywhere, inside headers or bodies. |
| ContentLength.RegisterHoldsLastFour | src/core/transport/framing.ts:154-165 | The rolling 32-bit register spells exactly the last four header bytes (zeros before the first). |
| ContentLength.RegisterFindsBlankLine | src/core/transport/framing.ts:165-166 | The register equals 0x0d0a0d0a if and only if the header read so far just ended in CR LF CR LF. |
| ContentLength.HeaderByte | src/core/transport/framing.ts:160-187 | Reading one more header byte keeps an open header open, completes it exactly at its first blank line, or is refused. |
| ContentLength.BadHeaderRefused | src/core/transport/framing.ts:167-183 | Whenever the decoder refuses a header byte, the whole-input reading refuses every continuation. |
| ContentLength.ContentLengthDecoder.constructor | src/core/transport/framing.ts:151-154 | A fresh decoder has read nothing and holds nothing. |
| ContentLength.ContentLengthDecoder.TakeHeaderByte | src/core/transport/framing.ts:161-186 | One header byte: the register test and the limits decide whether the header goes on, is refused, or announces a body size; then buffer and register are reset. |
| ContentLength.ContentLengthDecoder.TakeBody | src/core/transport/framing.ts:188-196 | Body bytes, no more than are missing: the body waits, is refused, or yields its value and leaves the decoder at a new header. |
| ContentLength.ContentLengthDecoder.Push | src/core/transport/framing.ts:156-199 | A chunk is accepted if and only if everything pushed so far is, read as one input; the values returned are those the chunk adds. |
| ContentLength.ContentLengthDecoder.CopiesLittle | src/core/transport/framing.ts:151-199 | However many chunks came in, the decoder's buffer, under its header and its body limit, copied less than three times the longest frame part held. |
| ContentLength.ContentLengthDecoder.Finish | src/core/transport/framing.ts:200-205 | The end of the stream is an error if and only if a header or a body is unfinished. |
| ContentLength.DecodeAll | src/core/transport/framing.ts:151-207 | Chunking independence of the Content-Length decoder. |
| ContentLength.HeaderParses | src/core/transport/framing.ts:149-184 | The header the encoder writes for a size parses back to exactly that size, for every size the decoder accepts. |
| ContentLength.FrameReadsBack | src/core/transport/framing.ts:146-196 | A frame the encoder writes reads back as its value exactly when its header fits the header limit; otherwise it is refused: the encoder does not check maxHeaderBytes. |
| ContentLength.RoundTrip | src/core/transport/framing.ts:146-206 | The encodings of any values whose headers fit, concatenated, read as exactly those values with nothing pending. |
| ContentLength.EncodableExactly | src/core/transport/framing.ts:146-150 | Values are encodable if and only if each has a JSON text within the body limit. |
| ContentHeaders.SaysLengthExactly | src/core/transport/framing.ts:177-180 | A line says the body has n bytes, in the sense of the name in any case, optional space, a colon, optional space, the numeral of n perhaps behind zeros, and optional space, if and only if the decoder reads n off it. |
| ContentHeaders.HeaderExactly | src/core/transport/framing.ts:170-183 | A header of any number of lines joined by CR LF parses to n if and only if exactly one of them has the name, optional space and a colon, and that one says n, within the limits. |
| ContentHeaders.FrameOfLines | src/core/transport/framing.ts:165-196 | A header that fits and announces n, among whatever other lines, is followed by a body of n bytes: the frame waits for them, is refused, or reads back its value. |
| ContentHeaders.SilentHeaderRefused | src/core/transport/framing.ts:165-183 | A header that announces nothing, or does not fit the header limit, is refused. |
| ContentHeaders.AnnouncesExactly | src/core/transport/framing.ts:176-183 | A header announces nothing if and only if it has no such line, or two, or one that says no number, or a number above the body limit or the safe integers. |
| ContentHeaders.PendingIsOneFrame | src/core/transport/framing.ts:160-196 | What is pending is a header within its limit that has not ended, or one header and less than the body limit. |
| FramedChannels.FramedChannel.constructor | src/core/transport/channel.ts:27-41 | An open channel without listeners that delivered nothing. |
| FramedChannels.FramedChannel.OnChunk | src/core/transport/channel.ts:33-37 | A chunk delivers exactly the messages it completes, in order, to the listeners there are; a chunk the decoder refuses delivers nothing. |
| FramedChannels.FramedChannel.OnClose | src/core/transport/channel.ts:43-67 | The first close ends the decoder, turns an unfinished frame into the close error, drops the listeners and calls every close listener with that error; later closes do nothing. |
| FramedChannels.StepKeepsFaithful | src/core/transport/channel.ts:33-58 | After every step, what was delivered is what the bytes received decode to, unless the decoder threw. |
| FramedChannels.ListenerHears | src/core/transport/channel.ts:33-37 | A listener that stays subscribed hears everything that is delivered, once and in order. |
| FramedChannels.MessagesArriveExactlyOnce | src/core/transport/channel.ts:27-96 | Encoder, any chunking and channel composed: a listener subscribed from the start gets exactly the messages sent, once each and in order, and closing then reports no decoding error. |
| FramedChannels.FramedChannel.Listen | src/core/transport/channel.ts:73-76 | A message listener is added once. |
| FramedChannels.FramedChannel.ListenForClose | src/core/transport/channel.ts:77-84 | A close listener is added once, or called at once with the close error when the channel has closed. |
| FramedChannels.ClosedForGood | src/core/transport/channel.ts:43-58 | Over every run, once closed the channel stays closed, delivers nothing more and keeps its close error. |
| FramedChannels.CloseListenerIsToldOnce | src/core/transport/channel.ts:43-84 | Over every run, a close listener registered once, before or after the end, and never withdrawn is called exactly once when the channel has closed and not before, and all listeners are told the same error. |
| ChannelRuns.MessagesExactly | src/core/transport/channel.ts:33-37 | In every run a chunk hands out exactly the messages the bytes so far decode to beyond those handed out before, once each to every listener that subscribed last rather than withdrew, and to nobody else; nothing else hands out anything. |
| ChannelRuns.ListenerHearsTheRest | src/core/transport/channel.ts:33-37 | From any point of a run on: a listener that wants messages then and does not withdraw hears exactly those handed out afterwards, once each and in order; one that does not want any and does not subscribe hears nothing. |
| ChannelRuns.CloseErrorExactly | src/core/transport/channel.ts:43-67 | Whoever is told of the close is told an unfinished frame if the bytes received leave one, else the channel's own error if it had one, else nothing; and nothing is delivered by it. |
| SseBlocks.TakeNextIs | src/core/sse/stream.ts:71-79 | The block taken is cut off at the earliest separator of either kind. |
| SseBlocks.TakeNextFinds | src/core/sse/stream.ts:71-79 | A block taken ends at a separator that no other boundary precedes. |
| SseBlocks.TakeNextStable | src/core/sse/stream.ts:71-79 | Prefix stability: more text never moves a boundary already found, although CR LF CR LF is longer than LF LF. |
| SseBlocks.DrainResumes | src/core/sse/stream.ts:81-94 | Draining a text in two parts equals draining it whole. |
| SseBlocks.ParseSseBlock | src/core/sse/stream.ts:36-69 | A block means its data values joined by LF and the last value of event and id and the last finite number of retry; without data it is no message. |
| SseBlocks.DrainSseMessages | src/core/sse/stream.ts:81-94 | The messages of all complete blocks, in order, and the text left over. |
| SseRendering.BlockReadsBack | src/core/sse/stream.ts:36-69 | The parser reads back, field for field, every message that can be written on the wire, its retry delay included. |
| SseRendering.RenderedDrains | src/core/sse/stream.ts:71-94 | Messages written one after the other drain to exactly those messages with nothing left over. |
| SseStream.TakeNextBytes | src/core/sse/stream.ts:117-123 | Cutting off a block frees its bytes and as many bytes as its separator has characters, so the byte account stays exact. |
| SseStream.AppendDecoded | src/core/sse/stream.ts:109-132 | One decoded piece: bufferedBytes stays the UTF-8 length of the buffer, complete blocks within the budget are delivered in order, and the budget is checked as the code does. |
| SseStream.ConsumeSseStream | src/core/sse/stream.ts:96-172 | However a body ends, what was delivered is a prefix of what its text means, and all of it when it completes; of a body that is cut, whole blocks only; each way to end has its reason; left alone it completes if and only if the budget is kept. |
| SseStream.PieceDrains | src/core/sse/stream.ts:109-127 | Feeding one more piece delivers what the whole text up to there adds. |
| SseStream.WholeExtends | src/core/sse/stream.ts:143-160 | What the first pieces deliver is a prefix of what all of them deliver, and a block over budget among them is one of the whole. |
| SseStream.BudgetDependsOnChunking | src/core/sse/stream.ts:106-151 | Whether the budget holds does depend on the chunking, for pieces no longer than a decoding slice: a separator that arrives in two pieces is counted, one that arrives whole is not. |
| SseStream.AcceptedUnderEveryChunking | src/core/sse/stream.ts:96-160 | The exact condition: a text is accepted under every chunking if and only if each block, together with all but the last character of its separator, fits the budget, and so does what follows the last separator. |
| SseForms.BlockMeans | src/core/sse/stream.ts:36-69 | A block written in any mixture of forms (a space behind the colon or none, no colon, comments, empty lines; LF or CR LF) is a message if and only if some data is given; its data has the values given as its lines, its event and id are those given last, its retry the number given last. |
| SseForms.BodyMeans | src/core/sse/stream.ts:96-160 | A body means the messages of its blocks, whichever separator ends each, in order, and that of the text behind the last one. |
| SseDelivery.HandleMessage | src/core/transport/sse.ts:213-227 | One message: a known id is dropped, a new one moves the cursor and enters the window, which forgets its oldest ids beyond the capacity. |
| SseDelivery.SeenExactly | src/core/transport/sse.ts:215-226 | The ids remembered are exactly those of the last dedupeCapacity events delivered. |
| SseDelivery.ConnectionContinues | src/core/transport/sse.ts:213-227 | A connection that starts inside the window and not past the next event due continues the log: the overlap is dropped, the rest delivered. |
| SseDelivery.DeliveryStaysPrefixExactly | src/core/transport/sse.ts:213-227 | The exact condition: what is delivered stays a gap-free, duplicate-free prefix of the log if and only if the connection brings nothing, or starts at most dedupeCapacity events before the next one due and not past it. |
| SseDelivery.ExactlyOnce | src/core/transport/sse.ts:122-227 | Over any run of such connections, exactly the first events of the log are delivered, each once and in order, as far as any connection reached. |
| SseTransport.Dispatch | src/core/transport/sse.ts:213-241 | The messages of a body pass the message callback one by one, and what the callback lets through is what observers see. |
| Headers.MergeSseHeaders | src/core/transport/sse.ts:58-79 | Whatever the three sources hold, no header name occurs twice in any case; the Last-Event-ID is the cursor, if that says something, or else what the most specific source supplies, and every other header has its most specific value. |
| SseTransport.Attempt | src/core/transport/sse.ts:149-265 | One attempt: what it delivers, the Last-Event-ID among the headers it sent, how the reading of its body ended, and whether the subscription then ends (and how) or waits. |
| SseTransport.WaitForReconnect | src/core/transport/sse.ts:273-288 | A pause is announced with the delay the policy computes and only if it ends by the deadline; an aborted sleep returns as if it had ended. |
| SseTransport.Subscribe | src/core/transport/sse.ts:103-271 | Over a whole subscription: attempts are numbered without a gap up to maxAttempts, every request resumes on the wire after the last event delivered before it, deliveries are the deduplicated sum of what the requests brought, "closed" is emitted exactly once and last, and the subscription settles at the first attempt that does not lead on, with exactly the result that attempt calls for. |
| SseEndToEnd.RenderedMeaning | src/core/sse/stream.ts:96-160 | A body that consists of whole messages means exactly those messages. |
| SseEndToEnd.CutMeaning | src/core/sse/stream.ts:96-160 | The whole blocks of a written log that is cut off anywhere, be it within an event, are its first messages. |
| SseEndToEnd.ReceivedIsReplay | src/core/transport/sse.ts:211-241 | What a request brought is the part of the log the server began to write: all of it when nothing interfered and the budget was kept. |
| SseEndToEnd.ServedContinues | src/core/transport/sse.ts:161-227 | One more request to a server that resumes after the Last-Event-ID it got extends the delivered prefix, wherever its body is cut. |
| SseEndToEnd.DeliversThePrefix | src/core/transport/sse.ts:142-271 | End to end, on whatever a subscription leaves: however bodies are chunked and wherever they are cut, what it delivered is exactly the first events of the server's log, each once and in order, as many as any request reached, and so all events of every body that was read whole. |
| SseEndToEnd.InspectSse | src/testing/transport-conformance.ts:200-213 | The SSE trace checker reports exactly: a requested cursor the server did not get, an event id delivered twice; and counts the attempts. |
| SseEndToEnd.SubscriptionConforms | src/testing/transport-conformance.ts:200-213 | The trace of every subscription passes the checker: its cursor is what the server gets whatever headers are supplied, no attempt is beyond the maximum, and against a server that keeps its log no id is delivered twice. |
| SseDelivery.HandedOnExactly | src/core/transport/sse.ts:213-229 | A message is handed on if and only if it has no id, or one that is not among the last dedupeCapacity ids handed on; only then does its id become the cursor; a retry that is not negative is kept. |
| SseDelivery.NothingIsLost | src/core/transport/sse.ts:213-229 | Whatever arrives, messages without an id all come through in their order, every id comes through at least once, and exactly once while no more than the capacity and one have. |
| SseReconnect.StopsAtTheFirst | src/core/transport/sse.ts:144-266 | Every attempt before the last led on to the next, and the last did not: an attempt leads on exactly if it is not the last allowed, not aborted, its stream ended or broke off, its fetch failed for now or the status is 408, 429 or from 500 up, and the pause is slept out. The last made a request exactly if it got as far as fetch. |
| SseReconnect.ResultExactly | src/core/transport/sse.ts:144-288 | Each of the twelve results, and exactly when the attempt the subscription stopped at calls for it: an abort or the end of the last stream resolves; every other way to stop rejects with its own reason. |
| SseReconnect.ReconnectsToTheLimit | src/core/transport/sse.ts:144-266 | With nobody aborting, no deadline and no failing sleep, streams that end or break off, fetches that fail for now and busy statuses lead to as many requests as the policy allows. |
| SseReconnect.QuietStreamsReconnectToTheLimit | src/core/transport/sse.ts:212-266 | Told by the bodies alone: if each is read without a disturbance and keeps the budget, every attempt allowed makes its request, and the subscription resolves. |
| SseReconnect.RetryIsAsked | src/core/transport/sse.ts:213-214 | The retry delay kept is the last one sent that is not negative. |
| WebSocketConnections.WebSocketConnection.constructor | src/core/transport/websocket.ts:113-146 | connect(): the first announcement and socket, or the end at once when the caller's signal is aborted. |
| WebSocketConnections.WebSocketConnection.End | src/core/transport/websocket.ts:146-161 | finish: the connection ends once; handlers, abort listener and listeners go, ready is rejected unless it had opened, "closed" is emitted, close listeners are called. |
| WebSocketConnections.WebSocketConnection.CloseFromHere | src/core/transport/websocket.ts:163-176 | closeSocket and finish: the last socket is asked to close unless it is closing already. |
| WebSocketConnections.WebSocketConnection.FailDecoding | src/core/transport/websocket.ts:171-176 | A decoding failure ends the connection only if its socket is the live one. |
| WebSocketConnections.WebSocketConnection.MakeSocket | src/core/transport/websocket.ts:243-246 | The factory makes the next socket, or its throwing ends the connection. |
| WebSocketConnections.WebSocketConnection.Begin | src/core/transport/websocket.ts:249-258 | start: the attempt is announced; a plain url makes its socket at once, otherwise the target is resolved first. |
| WebSocketConnections.WebSocketConnection.OnOpen | src/core/transport/websocket.ts:182-190 | Opening counts only for the live socket; it announces connected or, on later attempts, reconnected. |
| WebSocketConnections.WebSocketConnection.OnMessage | src/core/transport/websocket.ts:191-196 | A frame over the limit fails the decoding; any other is queued behind the frames before it. |
| WebSocketConnections.WebSocketConnection.OnDecodeTurn | src/core/transport/websocket.ts:203-205 | A queued frame starts decoding, or is skipped because its socket is not the live one. |
| WebSocketConnections.WebSocketConnection.OnDecoded | src/core/transport/websocket.ts:205-207 | A decoded frame is delivered to the listeners there are, if its socket is still the live one. |
| WebSocketConnections.WebSocketConnection.OnDisconnect | src/core/transport/websocket.ts:209-213 | disconnect and handleClose: at most once per socket; retries with an allowed delay, or ends the connection. |
| WebSocketConnections.WebSocketConnection.OnError | src/core/transport/websocket.ts:214-216 | An error is a disconnect with code 1006 just when the socket is already closed. |
| WebSocketConnections.WebSocketConnection.OnClose | src/core/transport/websocket.ts:217-220 | A close event is a disconnect with its code and cleanness, 1006 and unclean by default. |
| WebSocketConnections.WebSocketConnection.OnTargetResolved | src/core/transport/websocket.ts:236-247 | Once the target is resolved a socket is made, unless the connection ended meanwhile; a rejection ends it. |
| WebSocketConnections.WebSocketConnection.OnSleepSettled | src/core/transport/websocket.ts:275-279 | After the sleep the next attempt starts, unless the connection ended meanwhile; a failed sleep ends it. |
| WebSocketConnections.WebSocketConnection.OnAbort | src/core/transport/websocket.ts:282-286 | Aborting asks the socket to close and ends the connection. |
| WebSocketConnections.WebSocketConnection.Close | src/core/transport/websocket.ts:316-326 | close() asks the socket to close and ends the connection without an error. |
| WebSocketConnections.WebSocketConnection.Listen | src/core/transport/websocket.ts:304-307 | A listener is added once, and only while the connection lives. |
| WebSocketConnections.WebSocketConnection.SendOut | src/core/transport/websocket.ts:293-303 | send(): a message goes to the last socket, and only if the connection lives and that socket is open; it is never kept for later. |
| WebSocketConnections.WebSocketConnection.ListenForEnd | src/core/transport/websocket.ts:308-315 | A close listener is added once, or called at once when the connection has ended. |
| WebSocket.StepStaysTidy | src/core/transport/websocket.ts:120-326 | Every step keeps: one socket at most has the handlers, and it is the last; starting, sleeping and being attached exclude each other; no attempt makes two sockets; no socket is left behind unclosed; an ended connection holds on to no listener. |
| WebSocket.StepStaysTraced | src/core/transport/websocket.ts:146-289 | Every step keeps the announcements in order: attempts numbered without a gap up to the maximum, each but the first after a retry that fits the deadline, opens under their own number, and nothing at all after "closed". |
| WebSocket.TraceMeans | src/core/transport/websocket.ts:154-160 | In such a trace "closed" comes at most once and last, and one attempt is announced per number. |
| WebSocket.StepStaysDelivered | src/core/transport/websocket.ts:191-208 | Every step keeps: what a socket delivered is a prefix of its decoded frames, in order, and for the live socket as far as its decode chain has come. |
| WebSocket.StepStaysInOrder | src/core/transport/websocket.ts:191-208 | Every step keeps: each socket's frames are delivered in the order they came in, none left out and none twice. |
| WebSocket.StepSends | src/core/transport/websocket.ts:293-303 | No step hands a message to a socket but the send() it is, once. |
| WebSocketRuns.EveryRunIsSafe | src/core/transport/websocket.ts:113-327 | Over every interleaving: bounded attempts and sockets, one attached socket, "closed" once and last exactly when the connection ended, ready settled, nothing left registered, no socket left open, and per socket an in-order prefix of its frames delivered, each under its own index. |
| WebSocketRuns.StepKeepsDues | src/core/transport/websocket.ts:155-160 | Only a subscription changes what a close listener is owed, and it is owed one call. |
| WebSocketRuns.CloseListenerIsToldOnce | src/core/transport/websocket.ts:155-160 | A close listener registered once, before or after the end, is called exactly once when the connection has ended, and not before. |
| WebSocketRuns.StrandedExactly | src/core/transport/websocket.ts:260-280 | The exact condition for a connection left without socket, timer or "closed": a disconnect worth a retry for which the random source leaves [0, 1], whose error nobody catches. |
| WebSocketListening.MessagesExactly | src/core/transport/websocket.ts:191-208 | In every run an event hands out a message if and only if it is a frame of the live socket decoding; the message is what that frame, the next of those that came in, decodes to, and it goes once to every listener that subscribed last rather than withdrew, and to nobody else. |
| WebSocketListening.LiveSocketDelivers | src/core/transport/websocket.ts:191-208 | The live socket has handed out what its first frames decode to, as many as were decoded: none is lost on the way. |
| WebSocketListening.ListenerHears | src/core/transport/websocket.ts:197-202 | From any point of a run on: a listener that wants messages then and does not withdraw hears exactly those handed out afterwards, once each and in order; one that does not want any and does not subscribe hears nothing. |
| WebSocketTurns.EndsExactly | src/core/transport/websocket.ts:146-289 | Exactly which events end a connection, and with which error: a frame too long or undecodable, a loss that is final, a failed target, factory or sleep, an abort, or close(). |
| WebSocketTurns.WaitsExactly | src/core/transport/websocket.ts:260-275 | A wait for another attempt begins exactly at a loss that is neither clean nor normal, with attempts left, whose delay can be computed and ends by the deadline; the wait and its delay are announced. |
| WebSocketTurns.WakingBeginsTheNext | src/core/transport/websocket.ts:236-279 | A wait that ends begins and announces the next attempt, with a new socket at once or, if the target is computed, when that is known. |
| WebSocketTurns.OpensAndSends | src/core/transport/websocket.ts:182-303 | The live socket opening resolves ready and is announced, as a connection the first time and as a reconnection later; a message goes to the live socket if and only if that is open. |
| WebSocketTurns.CloseErrorExactly | src/core/transport/websocket.ts:146-161 | In every run whoever is told of the close, then or later, is told the error of the event that ended the connection. |
| WebSocketTurns.AttemptsExactly | src/core/transport/websocket.ts:249-279 | In every run a connection that is not over has announced one attempt more than it has ended waits. |
| WebSocketConformance.InspectWebSocket | src/testing/transport-conformance.ts:215-244 | The trace checker reports exactly: two frames of a generation out of order, a frame while its generation is not open, a message id sent twice; and counts the connections opened. |
| WebSocketConformance.LogsAreOrdered | src/testing/transport-conformance.ts:230-234 | Where each frame is delivered under its own index in order, as in every run, the checker finds no sequence going back. |
| WebSocketConformance.ReplaysAreSentTwice | src/testing/transport-conformance.ts:235-238 | The checker finds a replay if and only if the connection handed a message id to a socket twice. |
| WebSocketConformance.StepStaysWatched | src/core/transport/websocket.ts:191-280 | A step makes the checker report a frame outside its connection if and only if it delivers or sends a frame late. |
| WebSocketConformance.TracesConformExactly | src/testing/transport-conformance.ts:215-244 | Of every run: frames are never out of order; the ids sent are those taken from the caller, each once, so a replay is found exactly when the caller sent an id twice; and frames outside a connection are exactly the late ones, as those still being decoded when their socket disconnects. |
| WebSocketConformance.LateDeliveryHappens | src/core/transport/websocket.ts:203-213 | A concrete run in which a frame is delivered after its socket dropped. |
| Backoff.DelayBounds | src/core/transport/backoff.ts:59-65 | Every delay lies between zero and the rounded maximum. |
| Backoff.CapIsKept | src/core/transport/backoff.ts:59-65 | The exact condition: all delays stay within maxDelayMs if and only if its fractional part is below one half, as rounding happens after the cap. |
| Backoff.LaterWaitsLonger | src/core/transport/backoff.ts:59-65 | Without jitter, a later attempt never waits less. |
| Backoff.RetryAfterIsHonoured | src/core/transport/backoff.ts:62-65 | A delay is within half a millisecond of at least what the server asked for, up to the cap. |
| Backoff.JitterExactly | src/core/transport/backoff.ts:59-65 | The delay is the integer nearest to the base doubled with every attempt, up to the cap, when random is one half; random 0 takes the jitter's share off, random 1 adds it, up to the cap. |
| Backoff.DelayGrowsWithRandom | src/core/transport/backoff.ts:59-65 | In between the delay never falls as random grows; without jitter it is the plain delay for any random. |
| Backoff.RequestedExactly | src/core/transport/backoff.ts:61-65 | With a delay the server asks for, the result is the longer of that, up to the cap, and the delay without it. |
| Backoff.DelayRefusedExactly | src/core/transport/backoff.ts:46-58 | The computation throws if and only if the policy is invalid, the attempt is below 1 or random leaves [0, 1]. |
| HttpTransport.RunTransportAttempts | src/core/transport/lifecycle.ts:54-133 | Attempts are bounded and gap-free, each but the last failed in a retryable way, a mutation is executed at most once, every pause fits the policy and the deadline, every outcome is explained by the very point at which the loop stopped, and the final throw is never reached. |
| HttpRetries.RepeatableExactly | src/core/transport/http.ts:47-58 | A request may be repeated if and only if it is a GET or HEAD, or has a key with a character that is not white space. |
| HttpRetries.StopsAtTheFirst | src/core/transport/lifecycle.ts:54-133 | Every attempt before the last led on to the next and the last did not; the result is exactly the one the last attempt calls for, result by result; and each attempt that got as far was sent. |
| HttpRetries.KeylessMutationIsSentOnce | src/core/transport/http.ts:52-58 | A POST, PUT, PATCH or DELETE without a key, or with a blank one, is sent once at most. |
| HttpRetries.RetriesUntilAnswered | src/core/transport/lifecycle.ts:54-133 | A repeatable request whose failures pass (the fetch failed, or 408, 429 or from 500 up) is sent again until it is answered, and returns that answer. |
| HttpRetries.RetriesToTheLimit | src/core/transport/lifecycle.ts:54-133 | One whose failures all pass is sent as often as the policy allows and fails with the last. |
| HttpConformance.GroupByOperation | src/testing/transport-conformance.ts:178-183 | Observations are grouped by operation, in order. |
| HttpConformance.CheckOperations | src/testing/transport-conformance.ts:184-196 | An issue is found if and only if some operation repeats mutations that are not idempotent or not under one key. |
| HttpConformance.HighestAttempt | src/testing/transport-conformance.ts:197 | The attempt count reported is the highest observed. |
| HttpConformance.InspectHttp | src/testing/transport-conformance.ts:166-198 | The HTTP checker finds nothing if and only if every observation is valid and every operation's repeated mutations share one non-empty key. |
| Headers.SetHeaderMeans | src/core/transport/http.ts:80-85 | Setting a header leaves one of its name in any case, with the new value, and every other as it was. |
| Headers.SetAllMeans | src/core/transport/http.ts:86-88 | Setting all headers of a source: each has the value the source gives it last, every other the one it had. |
| Headers.LayeredMeans | src/core/transport/http.ts:86-88 | Over three sources the most specific one that names a header wins, in whatever case, and no name occurs twice. |
| Headers.MergeHttpHeaders | src/core/transport/http.ts:73-94 | Whatever the three sources hold, at most one header is named idempotency-key in any case, and it is there with the given key if and only if one is given; every other header has its most specific value. |
| HttpConformance.ConformsExactly | src/testing/transport-conformance.ts:166-198 | Observations conform if and only if each is in range and any two executions of one operation by POST, PUT, PATCH or DELETE carry the same non-blank key. |
| HttpConformance.HttpRequest | src/core/transport/http.ts:129-199 | What is observed on the wire: at most maxAttempts executions, one if the request is a mutation without a key, all with the request's own trimmed key among their headers, whatever headers are supplied. |
| HttpConformance.RequestConforms | src/testing/transport-conformance.ts:184-196 | One request's observations never contain a replayed mutation or an unstable key. |
| HttpConformance.TransportTracesConform | src/testing/transport-conformance.ts:166-198 | However the observations of any number of concurrent requests interleave, the checker finds nothing, and no attempt beyond the maximum. |
| JsonRpc.JsonRpcTransport.constructor | src/core/transport/json-rpc.ts:45-49 | An open transport with no requests. |
| JsonRpc.JsonRpcTransport.Request | src/core/transport/json-rpc.ts:127-165 | request(): refused when closed, aborted, or given an invalid or pending id; otherwise entered, listened for and sent. |
| JsonRpc.JsonRpcTransport.OnSendSettled | src/core/transport/json-rpc.ts:150-164 | A failed send rejects its own promise and removes whatever entry its id then has; a successful one changes nothing. |
| JsonRpc.JsonRpcTransport.OnAbort | src/core/transport/json-rpc.ts:139-145 | An abort rejects its request and removes its entry. |
| JsonRpc.JsonRpcTransport.OnMessage | src/core/transport/json-rpc.ts:80-118 | An incoming message settles the pending request of its id, by result, remote error or malformed reply; anything else is reported or ignored. |
| JsonRpc.JsonRpcTransport.Close | src/core/transport/json-rpc.ts:66-78 | Closing rejects every pending request once, in the order issued, removes their abort listeners and empties the map. |
| JsonRpc.StepKeepsSound | src/core/transport/json-rpc.ts:45-187 | Every step keeps: entries are filed under the id they were issued with, abort listeners belong to pending requests only, settlements are only added, and a closed transport has no entries and takes no requests. |
| JsonRpc.StepKeepsExact | src/core/transport/json-rpc.ts:80-165 | Unless an id is reused too early, every step settles each request at most once and keeps pending exactly the unsettled ones. |
| JsonRpc.CarefulRunsSettleExactlyOnce | src/core/transport/json-rpc.ts:45-187 | Over every run in which no id is reused while an earlier send under it is undecided, each request settles at most once and pending is exactly the issued but unsettled requests. |
| JsonRpc.FreshIdsAreCareful | src/core/transport/json-rpc.ts:42-47 | Ids that are never repeated, as those of the default counter, make every run such a run. |
| JsonRpc.ClosedForGood | src/core/transport/json-rpc.ts:66-78 | After close, pending is empty forever and nothing is issued any more. |
| JsonRpc.ResponseSettlesItsOwn | src/core/transport/json-rpc.ts:93-117 | A response settles the one pending request of its id, removing its entry and listener, or else only reports a protocol error. |
| JsonRpc.ReuseIsTheOnlyDanger | src/core/transport/json-rpc.ts:134-164 | The exact condition: issuing a request keeps settlement exact under every later send failure if and only if no undecided send has the same id. |
| JsonRpc.LateFailureLosesAnother | src/core/transport/json-rpc.ts:150-156 | Otherwise a late send failure removes the newer request's entry, whose promise then stays undecided for good, even across close. |
| JsonRpc.ReusedIdLosesARequest | src/core/transport/json-rpc.ts:136-164 | A concrete run that loses a request. |
| JsonRpcSettlements.ResponseExactly | src/core/transport/json-rpc.ts:93-117 | After every careful run, a response settles the unsettled request of its id: as a result exactly if it has a result and no error, as the remote error with its code exactly if it has only an error with a code, as malformed otherwise; if there is none, nothing is settled and the observer is told. |
| JsonRpcSettlements.FailureExactly | src/core/transport/json-rpc.ts:139-164 | After every careful run, a send that fails or an abort rejects its own request, if that is unsettled, and nothing else. |
| JsonRpcSettlements.CloseExactly | src/core/transport/json-rpc.ts:66-78 | After every careful run, closing rejects exactly the unsettled requests, in the order issued. |
| JsonRpcSettlements.IssueExactly | src/core/transport/json-rpc.ts:127-164 | After every careful run, a request goes out exactly if the transport is open, its signal is not aborted, its id is valid and no unsettled request has it; a send that throws at once rejects it at once. |
| JsonRpcSettlements.RefusedExactly | src/core/transport/json-rpc.ts:127-136 | Each reason to refuse a request, and exactly when it is the one given. |
| JsonRpcSettlements.ReportsExactly | src/core/transport/json-rpc.ts:80-112 | The protocol observer is told exactly of messages that are not JSON-RPC, of responses without an id or to no request, and of malformed ones; nothing but a response touches a request. |
| JsonRpcSettlements.SettlementsHaveCauses | src/core/transport/json-rpc.ts:66-165 | In every run, careful or not, each settlement was made by an event of its own kind: the failed send or abort of that request, the close, or a response under its id that means it. |
| JsonRpcConformance.InspectJsonRpc | src/testing/transport-conformance.ts:246-270 | The trace checker reports exactly: a repeated request id, a repeated response id, a response without a request, a notification with an id, a request without a response. |
| JsonRpcConformance.RunsConformExactly | src/testing/transport-conformance.ts:246-270 | Of every run: no response that settled a request lacks one, none is repeated unless a request id was; and the checker finds nothing if and only if no id was used twice and every request was settled by a response. |
| JsonRpcConformance.FreshIdsAreDistinct | src/core/transport/json-rpc.ts:42-47 | A generator that never repeats an id, as the default counter, leaves no repeated request id. |
| StreamRunTrackers.StreamRunCall.constructor | src/contracts/capability-client.ts:701-705 | A call before its gate: nothing started, seen or registered. |
| StreamRunTrackers.StreamRunCall.Settle | src/providers/gateway-stream-run.ts:89-96 | finish: the bridge settles once; the abort listener goes and a subscription already obtained is disposed. |
| StreamRunTrackers.StreamRunCall.HandleEvent | src/providers/gateway-stream-run.ts:104-113 | An event before settling is observed and passed on; after settling it is dropped. |
| StreamRunTrackers.StreamRunCall.HandleError | src/providers/gateway-stream-run.ts:114-124 | An error before settling is observed and passed on; after settling it is dropped. |
| StreamRunTrackers.StreamRunCall.HandleComplete | src/providers/gateway-stream-run.ts:125-128 | The provider's completion completes and settles, unless settled. |
| StreamRunTrackers.StreamRunCall.HandleSubscription | src/providers/gateway-stream-run.ts:131-134 | A subscription that arrives late is disposed at once; a failed one settles the bridge. |
| StreamRunTrackers.StreamRunCall.HandleSignalCheck | src/providers/gateway-stream-run.ts:136-139 | A signal aborted before subscribing settles the bridge. |
| StreamRunTrackers.StreamRunCall.FireSignal | src/providers/stream-run-lifecycle.ts:33-38 | The composed signal fires once and settles a listening bridge. |
| StreamRunTrackers.StreamRunCall.HandleCallerAbort | src/providers/stream-run-lifecycle.ts:38-40 | The caller's abort reaches the composed signal while it is listened for. |
| StreamRunTrackers.StreamRunCall.HandleStarted | src/providers/gateway-stream-run.ts:67-98 | startRun settled: its failure or createProvider's ends the call, otherwise the id is known and the bridge listens and subscribes. |
| StreamRunTrackers.StreamRunCall.Conclude | src/contracts/capability-client.ts:770-797 | The facade's result: an aborted gap with a cancel request for the known run, the classified failure, or the live outcome. |
| StreamRunTrackers.Tracker.constructor | src/providers/stream-run-lifecycle.ts:64-65 | No call is live and nothing is disposed. |
| StreamRunTrackers.Tracker.Admit | src/providers/stream-run-lifecycle.ts:67-79 | A call joins the live set unless disposed; its composed signal starts aborted if disposed or if the caller aborted; only otherwise does it reach startRun. |
| StreamRunTrackers.Tracker.DisposeAll | src/providers/stream-run-lifecycle.ts:88-92 | Every live call meets the abort, the set is empty and the latch is set. |
| StreamCalls.TakeKeepsSound | src/providers/gateway-stream-run.ts:59-141 | Every step of a call keeps the callback order, settle-once, dispose-once, the books of the facade, and one startRun. |
| StreamCalls.AbortKeepsSound | src/providers/stream-run-lifecycle.ts:33-48 | The composed signal may fire at any time without breaking any of that. |
| StreamRuns.NextKeeps | src/providers/stream-run-lifecycle.ts:61-94 | Every event of any call, signal or disposeAll keeps: the composed signal is aborted exactly when the client was disposed or the caller aborted, the live set holds exactly the calls under way, and an aborted stream is settled. |
| StreamRuns.BridgeDiscipline | src/providers/gateway-stream-run.ts:74-140 | Over every interleaving: callbacks come in order and stop once the bridge settled, and an obtained subscription is disposed exactly once; the promise settles with the bridge, but for a subscribe that threw at once, whose promise is rejected while callbacks go on until the bridge settles. |
| StreamRuns.CallbacksFollowExactly | src/providers/gateway-stream-run.ts:98-140 | The exact condition: a callback can still follow a settled promise if and only if subscribe threw at once and nothing settled the bridge since. |
| StreamRuns.RejectedStreamGoesOn | src/providers/gateway-stream-run.ts:98-113 | A concrete run in which an event reaches the caller after the promise was rejected. |
| StreamRuns.ScanMeans | src/providers/gateway-stream-run.ts:80-128 | What that order means: onComplete at most once and last, never with a terminal error; a terminal event is followed by its onComplete and nothing else. |
| StreamRuns.SettledForGood | src/providers/gateway-stream-run.ts:89-128 | After settling, no callback is passed on and neither outcome nor promise changes. |
| StreamRuns.NoOrphanedRun | src/contracts/capability-client.ts:697-798 | In every run, a call that ended with its caller's signal aborted is an aborted gap, and if startRun had returned an id and cancelling is supported, a cancel was requested exactly once with that id; cancels are requested in no case but an abort. |
| StreamRuns.NoLateRun | src/providers/stream-run-lifecycle.ts:67-93 | After disposeAll no call ever reaches startRun, whatever gate it was waiting for. |
| StreamRuns.DisposeSettlesAll | src/providers/stream-run-lifecycle.ts:88-92 | disposeAll settles every stream under way and disposes its subscription. |
| StreamRuns.LeftRunningExactly | src/contracts/capability-client.ts:770-797 | Exactly when a started run is left running: no terminal event came and it cannot be cancelled, or neither the caller nor the stream aborted; so a run that only disposeAll ended goes on. |
| StreamRuns.DisposedRunGoesOn | src/contracts/capability-client.ts:782-788 | A concrete run in which disposeAll ends a stream whose run is not cancelled. |
| StreamOutcomes.OutcomeIsSeen | src/contracts/capability-client.ts:700-797 | In every run a live result carries the terminal, details included, of the last event the caller saw that has one, none if none has, under the id startRun returned or else the first event's; a classified error is the last terminal error the caller saw, or the one validation, startRun, the provider or the subscription failed with. |
| StreamOutcomes.CallbacksExactly | src/providers/gateway-stream-run.ts:80-128 | A step passes on to the caller exactly what the provider calls back with until the bridge settled, and a completion behind a terminal event. |
| StreamOutcomes.SettlesExactly | src/providers/gateway-stream-run.ts:89-139 | Exactly what settles the bridge, and how its promise fares: a terminal error or a failing subscription rejects; a terminal event, a completion or an abort seen resolves. |
| StreamOutcomes.AbortSettlesExactly | src/providers/gateway-stream-run.ts:97-98 | An abort settles a stream that is listened for, without an error and without a callback. |
| StreamOutcomes.GateExactly | src/providers/gateway-stream-run.ts:59-67 | What the gate of a call decides in every run: unsupported; resolved at once if the client was disposed or the signal aborted before; rejected if invalid; otherwise exactly one startRun. |
| LazyBackends.LazyBackend.constructor | src/contracts/capability-client.ts:295-296 | No attempt is remembered. |
| LazyBackends.LazyBackend.Ask | src/contracts/capability-client.ts:409 | A call awaits the attempt remembered, or starts one. |
| LazyBackends.LazyBackend.OnSettled | src/contracts/capability-client.ts:273-275 | The factory's attempt succeeds or fails. |
| LazyBackends.LazyBackend.OnResumed | src/contracts/capability-client.ts:410-427 | A caller gets the backend, or forgets the attempt that failed it, if that is still the one remembered. |
| LazyBackends.StepKeepsSound | src/contracts/capability-client.ts:408-427 | Only the last attempt can be under way or have succeeded, and then it is the one remembered; a failed one is remembered only while a caller is about to forget it. |
| LazyBackends.NeverPoisoned | src/contracts/capability-client.ts:408-427 | However many callers race, at most one attempt is under way, and a failed attempt still remembered is about to be forgotten. |
| LazyBackends.NewerAttemptStays | src/contracts/capability-client.ts:410-418 | A caller of a failed attempt leaves the memo alone if and only if it remembers another attempt or one that did not fail. |
| LazyBackends.SuccessIsKept | src/contracts/capability-client.ts:465-490 | Once an attempt succeeded, the factory is never called again and every later caller is served by it. |
| RunStores.CacheIsRecent | src/core/runtime/synchronous-run-store.ts:31-39 | The bounded cache is always the most recent part of the cache without a bound. |
| RunStores.GetMatchesHistory | src/core/runtime/synchronous-run-store.ts:31-45 | get answers with the status remembered last under the id if and only if fewer than capacity other ids were remembered since; the size never exceeds the capacity. |
| RunStores.EmptyIdIsNeverFound | src/core/runtime/synchronous-run-store.ts:31-45 | A status without an id is never remembered. |
| SynchronousRunStores.Snapshot | src/core/runtime/synchronous-run-store.ts:5-15 | A copy says the same all the way down and is made of new objects only. |
| SynchronousRunStores.SynchronousRunStore.constructor | src/core/runtime/synchronous-run-store.ts:26-28 | An empty store of the given capacity. |
| SynchronousRunStores.SynchronousRunStore.Put | src/core/runtime/synchronous-run-store.ts:33-38 | The id's entry moves to the end with its new status, and one entry too many drops the oldest. |
| SynchronousRunStores.SynchronousRunStore.Remember | src/core/runtime/synchronous-run-store.ts:31-39 | The history grows by the status as it was; the store keeps none of the caller's objects. |
| SynchronousRunStores.SynchronousRunStore.Get | src/core/runtime/synchronous-run-store.ts:41-45 | A new copy of the status remembered last under the id, if and only if fewer than capacity other ids were remembered since. |
| SynchronousRunStores.MutationsStayOutside | src/core/runtime/synchronous-run-store.ts:5-45 | Overwriting a status passed in, or one got back, at every level, changes nothing the store answers. |
| ManagedLifecycle.ReadBlocks | python/cavi_runtime/managed_lifecycle.py:44-57 | A message's text blocks extend the output, until one is malformed or the byte limit is passed. |
| ManagedLifecycle.TakeKind | python/cavi_runtime/managed_lifecycle.py:18-57 | One event that counts: refused if malformed or over the limit, otherwise every variable stays what the declarative reading says. |
| ManagedLifecycle.Observe | python/cavi_runtime/managed_lifecycle.py:6-58 | The fold gives the reading of the log: an error if any event is malformed or the output ever exceeds the limit, otherwise the status of the last status-bearing event and the primary thread's text of the current turn. |
| ManagedLifecycle.OneMore | python/cavi_runtime/managed_lifecycle.py:19-39 | Every branch of the loop keeps status, output, size, interruption and open workflows in agreement with their declarative meaning. |
| ManagedLifecycle.CompletedExactly | python/cavi_runtime/managed_lifecycle.py:34-37 | A run reads as completed if and only if the last status-bearing event is an end-of-turn idle that no interrupt of its turn and no open workflow precedes. |
| ManagedLifecycle.ReinsertionChangesNothing | python/cavi_runtime/managed_lifecycle.py:11-17 | An identified event seen before, or an event of another thread, changes nothing wherever it is inserted, whatever it says. |
| ManagedReadings.StatusExactly | python/cavi_runtime/managed_lifecycle.py:18-39 | Each status, and exactly which last status-bearing event gives it, by the interrupts of its turn and the workflows still open; unknown before the first. |
| ManagedReadings.OutputExactly | python/cavi_runtime/managed_lifecycle.py:19-57 | The output is the text spoken since the last turn began, block by block, and absent if none was. |
| ManagedReadings.RefusedExactly | python/cavi_runtime/managed_lifecycle.py:6-57 | Exactly the logs that are refused: an event that is no record, or one that counts and names no workflow, has no proper reason, content or block, or brings the output above the limit. |
| ManifestPaths.RelativePathIsNormal | src/contracts/team-manifest/normalize.ts:333-366 | A normalized relative path normalizes to itself and splits into trimmed non-empty segments, none of them "." or "..", decoded or not, and none holding a slash once decoded. |
| ManifestPaths.AbsolutePathIsNormal | src/contracts/team-manifest/normalize.ts:368-399 | A normalized absolute path normalizes to itself: one slash, then segments of that kind. |
| ManifestPaths.SplitUndoesJoin | src/contracts/team-manifest/normalize.ts:345-365 | Splitting at slashes undoes joining. |
| ManifestPaths.SchemeWasThere | src/contracts/team-manifest/normalize.ts:338-365 | Joining trimmed segments makes no scheme where there was none. |
| ManifestLists.CollectUniqueStrings | src/contracts/team-manifest/normalize.ts:59-71 | The loop gives the first occurrences of the trimmed non-empty values, in order. |
| ManifestLists.UniqueStringsIdempotent | src/contracts/team-manifest/normalize.ts:59-71 | Unique strings are distinct, trimmed and non-empty, and stay as they are. |
| ManifestLists.NormalizeList | src/contracts/team-manifest/normalize.ts:179-193 | The duplicate-checked loop gives the normalized entries if all normalize and their keys differ, and fails otherwise. |
| ManifestLists.RefusedExactly | src/contracts/team-manifest/normalize.ts:179-193 | A list is refused exactly when an entry is, or two keys are the same. |
| ManifestLists.NormalizeEachSettles | src/contracts/team-manifest/normalize.ts:301-315 | If the entry normalizer is idempotent, so is the list normalizer, and its results have different keys. |
| Manifests.DefaultsSettle | src/contracts/team-manifest/normalize.ts:142-156 | Normalized defaults have distinct trimmed keys and stay as they are. |
| Manifests.MethodSettles | src/contracts/team-manifest/normalize.ts:122-140 | A normalized HTTP method normalizes to itself. |
| ManifestNormalization.ParamSettles | src/contracts/team-manifest/normalize.ts:158-177 | A normalized param normalizes to itself. |
| ManifestNormalization.InputSettles | src/contracts/team-manifest/normalize.ts:195-211 | A normalized input normalizes to itself and has params with different keys. |
| ManifestNormalization.OutputSettles | src/contracts/team-manifest/normalize.ts:245-262 | A normalized output normalizes to itself and has artifacts with different keys. |
| ManifestNormalization.RouteSettles | src/contracts/team-manifest/normalize.ts:264-279 | A normalized route normalizes to itself. |
| ManifestNormalization.ActionSettles | src/contracts/team-manifest/normalize.ts:281-299 | A normalized action normalizes to itself. |
| ManifestNormalization.WorkspaceSettles | src/contracts/team-manifest/normalize.ts:421-448 | A normalized workspace, whose plain paths became keyed ones, normalizes to itself. |
| ManifestNormalization.MemberSettles | src/contracts/team-manifest/normalize.ts:468-479 | A normalized member normalizes to itself. |
| ManifestNormalization.TeamSettles | src/contracts/team-manifest/normalize.ts:519-530 | A normalized team normalizes to itself. |
| ManifestNormalization.BindingSettles | src/contracts/team-manifest/normalize.ts:548-566 | A normalized binding normalizes to itself. |
| ManifestNormalization.ManifestNormalizationIsIdempotent | src/contracts/team-manifest/normalize.ts:634-646 | Normalizing is idempotent, and its result has teams and unique ids and keys at every level. |
| ManifestNormalization.DefaultManifestIsNormal | src/contracts/team-manifest/normalize.ts:598-639 | A manifest without teams becomes the default one, which is accepted and normal. |
| ManifestTexts.NonEmptyExactly | src/contracts/team-manifest/normalize.ts:36-47 | A text is kept without the white space around it, and one that says nothing is none. |
| ManifestTexts.UniqueStringsExactly | src/contracts/team-manifest/normalize.ts:59-71 | A list keeps what its texts say, each thing once, in the order it is said first. |
| ManifestTexts.RelativePathExactly | src/contracts/team-manifest/normalize.ts:333-366 | The relative paths that are accepted, and what is kept of one: what its pieces say, in order. |
| ManifestTexts.AbsolutePathExactly | src/contracts/team-manifest/normalize.ts:368-399 | The same for absolute paths, which begin with one slash. |
| ManifestTexts.DefaultsExactly | src/contracts/team-manifest/normalize.ts:142-156 | Defaults keep the keys that say something, each once, in the order they come first, with the value given last. |
| ManifestFields.ParamExactly | src/contracts/team-manifest/normalize.ts:158-177 | The params accepted, and what becomes of each field. |
| ManifestFields.InputExactly | src/contracts/team-manifest/normalize.ts:195-211 | The same for inputs. |
| ManifestFields.OutputExactly | src/contracts/team-manifest/normalize.ts:245-262 | The same for outputs. |
| ManifestFields.RouteExactly | src/contracts/team-manifest/normalize.ts:264-279 | The same for routes. |
| ManifestFields.ActionExactly | src/contracts/team-manifest/normalize.ts:281-299 | The same for actions. |
| ManifestFields.WorkspaceExactly | src/contracts/team-manifest/normalize.ts:421-448 | The same for workspaces, whose plain paths become their own keys. |
| ManifestFields.MemberExactly | src/contracts/team-manifest/normalize.ts:468-479 | The same for members. |
| ManifestFields.TeamExactly | src/contracts/team-manifest/normalize.ts:519-530 | The same for teams. |
| ManifestFields.BindingExactly | src/contracts/team-manifest/normalize.ts:548-566 | The same for bindings. |
| ManifestFields.ManifestExactly | src/contracts/team-manifest/normalize.ts:634-646 | Exactly the manifests that are accepted, and what becomes of every field at every level: normalization is this relation, read from left to right. |
| ManifestMerge.PickAssociates | src/contracts/team-manifest/resolve.ts:206-209 | On scalars that say something, the last defined one wins, however they are grouped. |
| ManifestMerge.PickAssociatesExactly | src/contracts/team-manifest/resolve.ts:206-209 | The exact condition for scalars of any kind: grouping matters just when an empty text overrides a text. |
| ManifestMerge.RecordsAssociate | src/contracts/team-manifest/resolve.ts:38-45 | Merging records does not depend on the grouping; a key has the override's value if that has one. |
| ManifestMerge.ListsAssociate | src/contracts/team-manifest/resolve.ts:215-218 | Merging tidy lists is their ordered union, however grouped. |
| ManifestMerge.MergeParamAssociates | src/contracts/team-manifest/resolve.ts:47-74 | Merging params does not depend on the grouping. |
| ManifestLayers.MergedParamStaysNormal | src/contracts/team-manifest/resolve.ts:47-74 | Merging two normalized params gives a normalized one. |
| ManifestMerge.ParamsAssociate | src/contracts/team-manifest/resolve.ts:76-89 | Merging param lists does not depend on the grouping: keys in order of first appearance, each under its merged value. |
| ManifestMerge.ArtifactsAssociate | src/contracts/team-manifest/resolve.ts:129-145 | The same for artifact lists. |
| ManifestMerge.DefaultsAssociate | src/contracts/team-manifest/resolve.ts:198 | The same for defaults, where the override's value wins. |
| ManifestMerge.InputsAssociate | src/contracts/team-manifest/resolve.ts:91-109 | Merging inputs, absent ones included, does not depend on the grouping. |
| ManifestLayers.MergedInputStaysNormal | src/contracts/team-manifest/resolve.ts:91-109 | Merging two normalized inputs, absent ones included, gives a normalized one, params with distinct normalized keys included. |
| ManifestMerge.OutputsAssociate | src/contracts/team-manifest/resolve.ts:147-164 | The same for outputs. |
| ManifestLayers.MergedOutputStaysNormal | src/contracts/team-manifest/resolve.ts:147-164 | Merging two normalized outputs gives a normalized one. |
| ManifestMerge.RoutesAssociate | src/contracts/team-manifest/resolve.ts:166-184 | The same for routes. |
| ManifestLayers.MergedRouteStaysNormal | src/contracts/team-manifest/resolve.ts:166-184 | Merging two normalized routes gives a normalized one, method and path included. |
| ManifestLayers.MergedDefaultsStayNormal | src/contracts/team-manifest/resolve.ts:198 | Merging two normalized defaults records gives a normalized one. |
| ManifestMerge.MergeActionAssociates | src/contracts/team-manifest/resolve.ts:186-221 | Merging three normalized versions of an action gives the same however they are grouped. |
| ManifestLayers.MergeStaysNormal | src/contracts/team-manifest/resolve.ts:186-221 | Merging two normalized versions of an action leaves nothing to normalize: the result normalizes to itself. |
| ManifestMerge.NormalActionIsTidy | src/contracts/team-manifest/normalize.ts:281-299 | A normalized action satisfies what the merge theorems require. |
| ManifestLayers.MostSpecificWins | src/contracts/team-manifest/resolve.ts:244-256 | Over the levels: the merge exists and is normalized; every scalar of the action and of its route, input and output is that of the last level that defines it; capabilities and examples are the ordered union; params, artifacts and defaults have their keys in order of first appearance, each with what the levels hold under it combined; a metadata key has the value of the last level that defines it; a part exists if and only if some level has it; a single version stays as it is. |
| ManifestMerge.CollectParams | src/contracts/team-manifest/resolve.ts:76-89 | The loops over base and override fill the Map with the merged params. |
| ManifestResolution.ResolvedActionIsMostSpecific | src/contracts/team-manifest/resolve.ts:223-257 | In a normalized manifest the versions in scope are normalized and never fail to merge, and the contract found is normalized and, field by field, the most specific reading of them. |
| ManifestReadings.ParamsUnder | src/contracts/team-manifest/resolve.ts:47-89 | What the merged lists hold under a key: each scalar of a param as the last level that has the key and defines it says, its values and aliases the ordered union, its metadata key by key. |
| ManifestReadings.ArtifactsUnder | src/contracts/team-manifest/resolve.ts:111-145 | The same for artifacts. |
| ManifestReadings.ResolutionExactly | src/contracts/team-manifest/resolve.ts:223-257 | In a normalized manifest every action resolves as the levels say: a missing text, an unknown team or member, an unknown action if none of manifest, team and member has it; otherwise the contract whose every field, params and artifacts included, is the most specific reading of the levels that have it, in that order. |
| ManifestReadings.MatchesExactly | src/contracts/team-manifest/resolve.ts:402-435 | A binding matches if and only if it is the one asked for, what it says about source and channel is the message's source or channel, what it says about member and action does not contradict the message, and its session pattern fits. |
| ManifestReadings.SpecificityExactly | src/contracts/team-manifest/resolve.ts:437-443 | What each condition a binding sets is worth. |
| ManifestResolution.Score | src/contracts/team-manifest/resolve.ts:402-444 | The score is the binding's specificity if all its conditions are met, and -1 otherwise. |
| ManifestResolution.SelectBinding | src/contracts/team-manifest/resolve.ts:457-483 | The loop selects the first most specific binding that matches, none exactly when nothing matches, and fails exactly when the selected one names an unknown team or member. |

## Left out

- The JSON text codec (one message per chunk): it keeps no state.
- What a decoder does after it has thrown: a framed channel's model stops feeding it, and leaves open whether ending it throws.
- The framed channel over the Content-Length codec: it is composed with JSON Lines, whose decoder has the same contract.
- JSON printing and parsing, UTF-8 decoding, percent-decoding, case folding and `Number()`: functions with the few properties the theorems state.
- Backoff.DelayBounds: is over exact reals; overflow of the power of two for huge attempts is not modelled.
- Real fetches, sockets, timers and abort controllers: steps and latched flags.
- SseEndToEnd.DeliversThePrefix: asks of a server that a body which ends without a failure ends with a whole event; otherwise the code reads the rest as an event of its own. A body whose read rejects may end anywhere.
- SseEndToEnd.SubscriptionConforms: takes the Last-Event-ID a server accepts to be the one it was sent.
- SseStream.BudgetDependsOnChunking: takes the bytes to be well-formed UTF-8; the replacement characters of malformed bytes may be longer than a slice.
- A body read that rejects with an abort error while the signal is not aborted.
- Header dictionaries: names keep their insertion order (integer-like names enumerate first in the original), and `toLowerCase` is a function that folds the two names set here as ASCII.
- URL and origin checks, redaction and error texts.
- Callbacks that call back into the same object within one step; callbacks are atomic, and throw only where the code isolates or rethrows it.
- WebSocketConnections.WebSocketConnection.OnDecoded: takes decoding to be a function of the frame; a decoder with state of its own is not modelled.
- JSON-RPC notifications: their listener set has no effect on requests; whether an observed one has an id is an input of the checker.
- The stdio and unix trace checker: it feeds chunks to the decoders modelled here.
- The capability gate in front of a call, beyond passing or not, and failure classification beyond aborted or not.
- Manifest texts: an absent list is read as an empty one, an absent required text as an empty one, and record entries keep their insertion order (integer-like keys enumerate first in the original).
- ManifestNormalization.ManifestNormalizationIsIdempotent: takes upper-casing to leave the five method names as they are.
- Route path building from a selected binding, session key patterns (a given predicate) and workspace path lookup.
- React bindings, provider request mappers, kanban and media adapters, polling helpers.
