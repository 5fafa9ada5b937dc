# GOAT: a verified model of the stream protocol

GOAT carries gRPC calls as frames over any reliable transport. Many calls share one connection and
are told apart only by the `id` of their frames. This project models both ends of a connection and
what lies between them, and proves what holds in every interleaving.

`dafny verify dfyconfig.toml` checks everything.

## How it is built

Frames and logs of frames are values (`Frames`, `Logs`). Each component that runs concurrently is a
machine: a state, a step for every section of the source that runs without interruption, an
invariant, and theorems over all runs. A mutex that is held across a blocking channel send is two
steps. The peer of a component is arbitrary: the frames it gets and whether each write succeeds are
parameters of the steps.

| module | what it models |
|---|---|
| `ClientStreams`, `ClientStreamCode` | the client stream: read loop, close-down, `RecvMsg`, `SendMsg` |
| `Multiplexers`, `MultiplexerCode` | ids, the table of response channels, delivery, `closeError` |
| `Clients` | one client connection: multiplexer, unary calls and streams together |
| `ServerStreams`, `ServerStreamCode` | the server stream: headers once, trailer once, status |
| `Servers`, `ServerInvariants`, `HandlerCode` | the server side: serve loop, 8 workers, writer, streams, shutdown |
| `Systems`, `EndToEnd`, `Completeness`, `HeaderTrips`, `Calls` | client and server joined by two FIFO wires, and what holds between the two ends |
| `Cancellation`, `Conservation` | what cancels a stream and what its dispatch does; that no request, answer or frame is dropped on the way |
| `LostFailures`, `MissedBodies` | runs that show where those results end |
| `MetadataCodec`, `Base64`, `Timeouts`, `Methods` | metadata, its base64, deadlines, method names |
| `Proxies`, `Demuxes`, `Chains`, `HttpRegistries` | proxy routes and queues, demultiplexing, interceptor chains, the HTTP registry |

The `...Code` modules and the classes of `Proxies`, `Demuxes` and `HttpRegistries` have the form of
the source: fields, methods that change them, loops. Each method is proved against the step or the
specification function that it performs, so that the theorems about runs apply to it.

Cancellation of a context is a flag that only goes up. A goroutine that ends takes no further step.
A failed marshal changes nothing but what the source changes. Go strings that matter byte by byte
are sequences of characters below 256. Lower-casing is exact for ASCII; what it makes of other
strings is an unknown function (`MetadataCodec.UnicodeLower`), so that the results about metadata
hold whatever it is.

## Where the code does less than one may expect

Each of these is the code's behaviour, modelled as it is; the lemma named is where it shows.

- A first frame whose header does not decode ends a client stream with a nil error, leaves `Header()`
  blocked, and may be followed by a reset even if that frame carried a trailer
  (`ClientStreams.NilEndExactly`, `ClientStreams.ResetAfterUndecodableTrailer`).
- A server reset carries a trailer and no status, so a client stream reads it as a successful end
  (`EndToEnd.ResetReadAsEnd`). The reset bypasses the writer, so it can overtake the handler's
  trailer: a handler that failed can look successful (`LostFailures.ResetHidesFailure`). That is
  the only way: the client's end is the handler's result if and only if the last frame it got is not
  a reset or the handler succeeded (`EndToEnd.ServerToClient`). A stream that sent no message is never
  reset (`EndToEnd.NeverReset`), and a reset never hits a running handler (`Calls.ResetMeansGone`).
- A `RecvMsg` that waits at the end of a stream may answer the context's error instead of the stored
  one: both arms of its select can be ready (`ClientStreams.EndMayAnswerContext`). It does so only
  with the context done, and only if it was called before the stream was done
  (`ClientStreams.RecvAnswersWhen`).
- `SendMsg` of the server stream does not look at `trailersSent`: a body written after the trailer is
  accepted and never received (`MissedBodies.BodyAfterTrailerIsMissed`). The writer goes on after a
  write that failed, so a body in the middle can be lost and the stream still end in io.EOF
  (`MissedBodies.FailedWriteLosesBody`). Nothing else is missed: a stream that its handler's trailer
  ended has received every body written, if and only if none was lost in a failed write and none was
  written after the trailer (`Completeness.NothingMissedExactly`).
- The repository's README allows a body next to a trailer, in both directions (lines 217, 219 and
  229), and neither end hands it out. A client stream drops it, and misses nothing else
  (`ClientStreams.BodyNextToTrailerDropped`, `ClientStreams.BodyNextToTrailer`); so does the server's
  `RecvMsg` (`MissedBodies.ServerDropsBodyNextToTrailer`, `ServerStreams.HandedOutExactly`). Neither
  GOAT client streams nor GOAT server streams send one.
- A unary handler that fails with a status of code OK gives its caller a nil body and a nil error
  (`EndToEnd.ResultFor`); `invoke` then reads the body behind the nil pointer and panics
  (client.go:153), and it does so in no other case (`EndToEnd.InvokePanicsExactly`).
- An empty `ProxyNext` that is not nil makes a proxy panic; only a hop that serialises the frame
  avoids it (`Proxies.UnserialisedWayBack`). Frames of streams carry no route at all
  (`HeaderTrips.FramesGoBack`).
- Timeouts of more than 2562047 hours overflow although the protocol document allows them
  (`Timeouts.WellFormedTimeoutMeans`), and remaining times from 10^8 ms on are printed with more
  than the 8 digits that it allows (`Timeouts.PrintedWithinEightDigits`).
- `forwardRpc` panics on a frame whose source is not the id of the client it came in on. So a reply
  gets back over several proxies if and only if every one of them registered the connection that the
  reply comes in on under the server's own address (`Proxies.WayBackNeedsSources`); this is part of
  the hypothesis `Transparent` of `Proxies.RouteReversal`.
- `Trailer()` of a client stream panics on trailer metadata that do not decode, and only then
  (`ClientStreams.TrailerPanicsExactly`); a GOAT server never sends such
  (`HeaderTrips.TrailerNeverPanics`).
- Metadata keys that differ in case only run together (`MetadataCodec.RoundTripExactly`).
- A new HTTP connection has no activity recorded, so a cleaner pass before its first read or write
  closes it (`HttpRegistries.Registry.Retrieve`, `HttpRegistries.Registry.Clean`).

## Model

| member | source | states |
|---|---|---|
| EndToEnd.ServerToClient | internal/client/stream.go:343-376 | every run, with resets and failed writes or without: the client has received a prefix of the bodies its handler got onto the transport, and of those it wrote unless a body was lost; once ended by a trailer exactly those carried before it, or before a reset; the stored end is the handler's result if and only if the last frame is not a reset or the handler succeeded |
| EndToEnd.ClientToServer | internal/server/stream.go:223-260 | every run: the bodies a handler has read are a prefix of those that its client's `SendMsg` reported as sent, and end of stream is read only after a `CloseSend` and all bodies before it |
| EndToEnd.OneHandlerPerId | server.go:423-476 | every run: an id starts at most one handler, and what starts it is the opening frame of the client's stream with that id |
| EndToEnd.UnaryMatching | internal/client/multiplexer.go:72-131 | every run and every schedule of the workers: a unary call that returns got the reply for its own request, with an outcome that a worker computed for that very request, or failed; a status that is not OK wins over a body; the only frame that the server reads on the call's id has the header and body that the caller passed, in the one step that gave the id out |
| EndToEnd.CallSendsWhatWasPassed | internal/client/multiplexer.go:83-94 | every run: a call was made by exactly one step; its request, or the opening frame of its stream, has the header and body passed there and nothing else |
| EndToEnd.StreamFramesLikeOpening | internal/client/stream.go:213-216 | every frame of a stream has the method, source and destination of its opening frame, and only that one has metadata |
| EndToEnd.CloseSendWritesEnd | internal/client/stream.go:152-176 | every run: a `CloseSend` that succeeds puts one frame on the wire, which the server reads as the end |
| EndToEnd.LaterFramesDoNotOpen | client.go:245-255 | no frame of an id after its first can open a stream |
| EndToEnd.ResetReadAsEnd | internal/client/stream.go:402-409 | every reset frame of the server is read as io.EOF |
| LostFailures.ResetHidesFailure | server.go:578-588 | for every stream method, handler error and body there is a run without a failed write in which the handler fails and `RecvMsg` answers io.EOF |
| EndToEnd.ResetsHaveACause | server.go:440-464 | every run: a reset answers a frame of the same id that the client wrote, with a body or as an opening that does not decode |
| EndToEnd.NeverReset | server.go:446-464 | every run: a stream whose opening decodes and that sent no message is never reset |
| EndToEnd.NothingAfterTrailer | internal/server/stream.go:164-213 | the bodies before the first trailer are all the bodies, exactly when none follows it |
| Completeness.NothingMissedExactly | internal/server/stream.go:164-213 | every run, with failed writes or without: a stream ended by its handler's trailer has received every body written, if and only if no body of it was lost and none was written after the trailer |
| MissedBodies.BodyAfterTrailerIsMissed | internal/server/stream.go:164-213 | for every stream method and body there is a run without a failed write in which `SendMsg` after the trailer is accepted, and the client ends in io.EOF without the body |
| MissedBodies.FailedWriteLosesBody | server.go:201-213 | for every stream method and body there is a run in which one write fails, the body is lost, and the client ends in io.EOF |
| EndToEnd.InvokePanicsExactly | client.go:147-153 | `invoke` panics exactly when the handler failed with a status of code OK |
| Calls.WrittenAreAccepted | internal/server/stream.go:164-213 | every run: the bodies a server stream has written are those of its accepted `SendMsg` calls, in call order |
| Calls.CollectedAreOffered | internal/server/stream.go:90-143 | every run: the header and trailer metadata collected are those of the calls that were not refused, in call order |
| Calls.MetadataOfCalls | internal/client/stream.go:122-147 | every run: `Header()` and `Trailer()` return the merges of what the handler's calls offered |
| Calls.ResetMeansGone | server.go:440-452 | every run: once a reset was written for a stream's id, its handler has returned and its goroutine is gone |
| Calls.CallsWereMade | server.go:542-548 | every run: the call in progress on a server stream is one that was made, with what was passed, or the trailer of the result that its handler returned |
| Cancellation.ClientResetCancels | server.go:425-427 | every run: a client's reset that finds a stream of its id live cancels that stream, in every later state |
| Cancellation.CancelledBeforeLeaving | server.go:425-427 | every run: before its goroutine leaves, a stream is cancelled only by a client's reset of its id, its own context, or the shutdown |
| Cancellation.GoneAreCancelled | server.go:510-510 | every run: a stream that leaves, is gone, or is waited for by the shutdown has been cancelled |
| Cancellation.DispatchMeans | server.go:423-476 | the whole table of the dispatch: pushed to the live stream if and only if there is one and the frame is no reset; a new stream if and only if none is live and the frame opens one; a reset if and only if none is live and the frame has a body or does not decode |
| Cancellation.NothingWithheld | server.go:428-438 | every run: the channel of a live stream was sent exactly the frames of its id dispatched since its opening frame, but for resets and the one being pushed |
| Conservation.RequestsConserved | server.go:218-231 | every run and schedule: each unary request read is being handed to one of 8 workers, at one, or answered; only the one in hand when serving ends is lost |
| Conservation.HandedConserved | server.go:201-213 | every run: each frame handed to the writer is written, lost in a failed write, or at the writer |
| Conservation.BoundedAlongRun | server.go:468-472 | every run: a stream's channel holds at most one frame, and the end of serving or a failed write leaves the connection's context done |
| Conservation.FinishedCallsLeave | internal/client/multiplexer.go:87-88 | every run: a unary call that has returned and a stream past its teardown are out of the table for good |
| HeaderTrips.HeaderArrives | internal/client/stream.go:322-357 | every run without failed calls of the stream: `Header()` returns the merge of the header metadata collected, under lower-case keys, or nothing if a reset came first, when no frame was lost, and that or nothing otherwise; no later frame carries any |
| HeaderTrips.FramesGoBack | server.go:525-533 | every run: every frame of a stream goes from the destination of its opening frame to its source, with its method and id and no proxy route |
| HeaderTrips.TrailerArrives | internal/client/stream.go:135-147 | every run: for a stream ended by its handler's trailer, `Trailer()` returns the merge of the trailer metadata collected, under lower-case keys |
| HeaderTrips.TrailerNeverPanics | internal/client/stream.go:142-145 | every run with a GOAT server: the panic in `Trailer()` is unreachable on a stream |
| Systems.InvAlongRun | server.go:186-278 | the invariant of the whole connection holds in every state of every run, for two FIFO wires |
| ClientStreams.CloseDown | internal/client/stream.go:295-320 | every interleaving: no panic, `ready` released at most once, stored error and trailer fixed once done, every reported end is the stored error |
| ClientStreams.LaterCallsAnswerStored | internal/client/stream.go:379-388 | a call on a finished stream answers the stored error and changes nothing |
| ClientStreams.RecvAnswersWhen | internal/client/stream.go:248-263 | every run: each answer of `RecvMsg` fits its state; the context's error only with the context done and a call begun before the end; the stored error on every call after it |
| ClientStreams.EndMayAnswerContext | internal/client/stream.go:253-263 | for every OK trailer that decodes there is a run that stores io.EOF while the waiting `RecvMsg` answers the context's error |
| ClientStreams.ResetDiscipline | internal/client/stream.go:86-112 | at most one RST_STREAM in a stream's life, none after a trailer was read, when the first frame's header decodes |
| ClientStreams.ResetAfterUndecodableTrailer | internal/client/stream.go:351-355 | for every first frame that does not decode, trailer or not, there is a run that resets after reading it, answers nil and leaves `Header()` blocked |
| ClientStreams.NilEndExactly | internal/client/stream.go:351-355 | a finished stream stores no error exactly when its only frame did not decode or a read failed with a status of code OK; `Header()` stays blocked exactly in the first case |
| ClientStreams.BodyNextToTrailer | internal/client/stream.go:359-367 | every run: a stream ended by a trailer has received every body it got, exactly when the trailer frame has none |
| ClientStreams.BodyNextToTrailerDropped | internal/client/stream.go:359-363 | for every OK trailer frame with a body there is a run that reports io.EOF and never hands the body out |
| ClientStreams.TrailerPanicsExactly | internal/client/stream.go:135-147 | every run and peer: `Trailer()` panics exactly when the trailer that ended the stream does not decode |
| ClientStreams.Delivery | internal/client/stream.go:342-376 | for every peer: received is a prefix of the bodies read; io.EOF comes after exactly the bodies before the first trailer, and that trailer says OK |
| ClientStreams.ClosedForGood | internal/client/stream.go:303-305 | between any two states of a run, a closed stream keeps its outcome and hands out no message |
| ClientStreams.StepKeepsInv | internal/client/stream.go:248-376 | every step keeps lifecycle, delivery, emission and header invariants; the bodies written are those that `SendMsg` reported as sent |
| ClientStreams.ToStatusError | internal/client/stream.go:391-398 | nil exactly for a status of code OK; otherwise a status that is not OK: the same one for a status, Canceled and DeadlineExceeded exactly for the context's errors, Unknown with the message for a plain error |
| ClientStreams.HeaderAnswers | internal/client/stream.go:322-357 | every run: `Header()` is blocked, answers a header without an error, or answers the error of the read that failed before any frame, and nothing else |
| ClientStreams.EndHasCause | internal/client/stream.go:343-376 | every run: the stored error and trailer are those of the failed read, the done context, the header that did not decode, or the trailer that ended the read loop |
| ClientStreams.ResetSentExactly | internal/client/stream.go:306-314 | every run: the close-down writes one RST_STREAM exactly when no trailer was read, the context was done and the write succeeds |
| ClientStreams.WritesWhatWasCalled | internal/client/stream.go:206-223 | every run: a write of `SendMsg` puts out the message of the last call, and reports that one as sent |
| ClientStreams.FailedSendCancels | internal/client/stream.go:224-227 | every run: once a `SendMsg` has failed the stream's context is done |
| ClientStreamCode.ClientStream.HandleFrame | internal/client/stream.go:351-375 | one turn of the read loop is the machine's read and handle steps, and says when the loop ends |
| ClientStreamCode.ClientStream.ReadFailed | internal/client/stream.go:344-349 | a failed read is the machine's step |
| ClientStreamCode.ClientStream.CloseDown | internal/client/stream.go:295-320 | the deferred close-down is the machine's five steps in a row and stores the outcome |
| ClientStreamCode.ClientStream.CloseDownLeads | internal/client/stream.go:295-320 | the five steps can always be taken, and what they lead to |
| ClientStreamCode.ClientStream.BeginRecv | internal/client/stream.go:248-251 | `RecvMsg` up to its select |
| ClientStreamCode.ClientStream.RecvCancelled | internal/client/stream.go:253-255 | the arm of the done context answers the status of its cause |
| ClientStreamCode.ClientStream.RecvBody | internal/client/stream.go:256-282 | the arm that gets a body, which may fail to unmarshal |
| ClientStreamCode.ClientStream.RecvEnd | internal/client/stream.go:256-263 | the arm of the closed channel, with its panic |
| ClientStreamCode.ClientStream.ChannelClosedMeansDone | internal/client/stream.go:257-261 | under the invariant that panic cannot happen |
| ClientStreamCode.ClientStream.SendMsg | internal/client/stream.go:201-238 | a `SendMsg` run to its end is the machine's steps for its outcome |
| ClientStreamCode.ClientStream.CloseSend | internal/client/stream.go:152-176 | `CloseSend` is the machine's step |
| Multiplexers.ChannelDiscipline | internal/client/multiplexer.go:194-223 | every run of fewer than 2^64 calls: no send on and no second close of a closed channel, the table is exactly the registered open channels, no entry is overwritten, and each channel was sent exactly the frames of its id |
| Multiplexers.StepKeepsFeed | internal/client/multiplexer.go:194-205 | every step keeps the discipline and the account of what each channel was sent |
| Multiplexers.CloseErrorClosesAll | internal/client/multiplexer.go:56-70 | after `closeError` the table is empty and every channel registered before is closed |
| Multiplexers.CloseWithoutErrorKeeps | internal/client/multiplexer.go:56-63 | `closeError` without an error leaves table and channels alone |
| MultiplexerCode.RpcMultiplexer.NewId | internal/client/multiplexer.go:83-85 | ids come off the 64-bit counter, which wraps; they are fresh until it does |
| MultiplexerCode.RpcMultiplexer.RegisterHandler | internal/client/multiplexer.go:207-212 | registration is the machine's step |
| MultiplexerCode.RpcMultiplexer.UnregisterHandler | internal/client/multiplexer.go:214-223 | unregistration is the machine's step and closes the channel once |
| MultiplexerCode.RpcMultiplexer.HandleResponse | internal/client/multiplexer.go:194-203 | the lookup of a delivery |
| MultiplexerCode.RpcMultiplexer.SendResponse | internal/client/multiplexer.go:204-204 | the channel send of a delivery, which never panics under the invariant |
| MultiplexerCode.RpcMultiplexer.CloseError | internal/client/multiplexer.go:56-70 | the loop over the table closes exactly its channels, once each |
| MultiplexerCode.RpcMultiplexer.CloseOne | internal/client/multiplexer.go:65-68 | one more turn of that loop |
| Clients.StepKeepsInv | internal/client/multiplexer.go:72-179 | every step of a client connection keeps: what was written on an id is what its call wrote, and each call got exactly its own frames |
| ServerStreams.HeadersOnce | internal/server/stream.go:90-129 | every sequence of calls and write outcomes: only the first frame carries header metadata, exactly the merge offered so far, or none if its message or trailer could not be written |
| ServerStreams.HeaderReachesClient | internal/server/stream.go:186-196 | the merge decodes, in every iteration order, to itself under lower-case keys |
| ServerStreams.StatusSurvives | internal/server/stream.go:270-325 | the client reads io.EOF exactly for a nil result, otherwise the same status, with only an OK code turned into Internal |
| ServerStreams.TrailerOnce | internal/server/stream.go:274-277 | at most one trailer frame, whatever is called |
| ServerStreams.AcceptedMeans | internal/server/stream.go:90-129 | a call that returns no error took effect, and one that returns an error wrote nothing |
| ServerStreams.RefusedForGood | internal/server/stream.go:94-96 | after the headers were sent no call can set or send any, and after the trailer none can send another, whatever comes between |
| ServerStreams.BothEndsReadAlike | internal/server/stream.go:229-241 | the server's `RecvMsg` and the client's read a trailer frame as the same end or status |
| ServerStreams.HandedOutExactly | internal/server/stream.go:229-245 | the handler gets every body of the frames it reads, exactly when none stands next to a trailer |
| MissedBodies.ServerDropsBodyNextToTrailer | internal/server/stream.go:229-233 | for every frame with a body and a trailer there is a run in which the handler reads it and gets no body |
| ServerStreamCode.ServerStream.PutHeader | internal/server/stream.go:90-129 | `SetHeader` and `SendHeader` are the specified calls |
| ServerStreamCode.ServerStream.SendMsg | internal/server/stream.go:164-213 | `SendMsg` is the specified call, and changes nothing when the message does not marshal |
| ServerStreamCode.ServerStream.SetTrailer | internal/server/stream.go:133-143 | `SetTrailer` is the specified call |
| ServerStreamCode.ServerStream.SendTrailer | internal/server/stream.go:270-325 | `SendTrailer` is the specified call |
| ServerInvariants.StepKeepsInv | server.go:186-278 | every step of the server side keeps its invariant: table, feeds, writer, answers |
| ServerInvariants.TableIsLiveStreams | server.go:466-476 | every run: the entry for an id is its one live stream, every live stream has an entry, at most one done token each |
| ServerInvariants.UnregisterNeverBlocks | server.go:556-566 | every run: a leaving stream finds its own entry and an empty done channel |
| ServerInvariants.ShutdownTurn | server.go:280-297 | every run: each turn of the wait strictly shrinks the table |
| ServerInvariants.ShutdownBound | server.go:280-297 | every run: the wait takes at most as many turns as there were live streams when it began |
| ServerInvariants.ShutdownEnds | server.go:280-297 | once the wait is over the table is empty and stays empty |
| ServerInvariants.AnsweredOnce | server.go:218-231 | every run: no unary request is answered twice, and each answer carries an outcome computed for its own request |
| HandlerCode.Handler.ProcessStreamingRpc | server.go:414-476 | the dispatch of a stream frame is the machine's step, as `Cancellation.DispatchMeans` lays it out, and keeps the invariant |
| HandlerCode.Handler.PushFrame | server.go:429-435 | the select under the mutex: the channel send, or the end of serving |
| HandlerCode.Handler.BeginUnregister | server.go:556-563 | the token is sent with the mutex held |
| HandlerCode.Handler.EndUnregister | server.go:565-566 | the entry goes and the mutex is free |
| HandlerCode.Handler.CancelAndWaitForStreams | server.go:280-297 | with handlers that return when cancelled, the loop ends with an empty table |
| HandlerCode.Handler.WaitForOne | server.go:282-295 | one turn of the loop strictly shrinks the table |
| HandlerCode.Handler.ResetStream | server.go:570-589 | the reset frame, with its route |
| HandlerCode.Handler.ProcessUnaryRpc | server.go:299-411 | the reply frame for what the handler returned, and the panic on a header that does not decode |
| HandlerCode.Handler.ServeFrame | server.go:233-276 | the serve loop's turn for a frame that was read: a request for "/service/name" goes to the workers exactly when it is for this server and the table of the service has the name as a method, and to the streams exactly when it has it as a stream only |
| Servers.UnaryReplyMeans | server.go:349-361 | header metadata, trailer metadata, status and body of a reply each stand in their place; addresses are swapped |
| Servers.ReplyMethodMeans | server.go:299-312 | a reply to a request for a service and name carries "/service/name" |
| Servers.ResetReplyMeans | server.go:570-589 | a reset has an empty trailer, no status and no body, and goes back under the id and method of its cause |
| MetadataCodec.RoundTrip | internal/util.go:18-49 | lower-case keys with values: decoding any encoding, in any iteration order, gives the join |
| MetadataCodec.RoundTripLowered | internal/util.go:18-49 | in general: the joined values of each key, in order, under the lower-case key |
| MetadataCodec.RoundTripExactly | internal/util.go:18-49 | that holds if and only if keys with values stay apart when lower-cased, whatever lower-casing does outside ASCII |
| MetadataCodec.EncodedAlwaysDecodes | internal/util.go:34-49 | every encoding decodes |
| MetadataCodec.ToKeyValue | internal/util.go:18-32 | the nested loops give an encoding, in the sense of `EncodingMeans`, for some order of the keys |
| MetadataCodec.ToMetadata | internal/util.go:34-49 | the loop decodes, in the sense of `DecodingMeans`, and stops at the first bad value |
| MetadataCodec.EncodingMeans | internal/util.go:18-32 | in every encoding the pairs of a key are its joined values in order: as URL-safe base64 when the lower-cased key ends in "-bin", as they are otherwise |
| MetadataCodec.DecodingMeans | internal/util.go:34-49 | decoding fails exactly when a value under a key that ends in "-bin" is not base64; otherwise each lower-case key has its pairs' values in order, those under "-bin" decoded |
| MetadataCodec.JoinMeans | internal/util.go:20-20 | `Join` puts the values of a key one map after the other |
| Base64.RoundTrip | internal/util.go:24-26 | decoding inverts URL-safe base64 (section 5 of RFC 4648) on every byte string |
| Base64.EncodeMeans | internal/util.go:25-25 | every symbol of the text: the six bits of the input at its place, written in the alphabet of section 5 of RFC 4648 with "-" and "_" as 62 and 63, or "=" past the end |
| Base64.DecodeMeans | internal/util.go:40-40 | the octets decoded are the bits that the symbols stand for |
| Base64.DecodeAccepts | internal/util.go:40-43 | a text decodes exactly when, line breaks apart, it is groups of four symbols of that alphabet, the last one padded with at most two "=" |
| Timeouts.TimeoutBound | client.go:301-310 | every remaining time d: the server reads t with t <= d < t + 1ms, or 1ms when d is below 1ms, without overflow |
| Timeouts.DeadlineArrives | server.go:594-616 | the deadline crosses with the headers, for every iteration order |
| Timeouts.MetadataArrives | server.go:598-603 | the handler's metadata are the caller's and the printed timeout |
| Timeouts.UserTimeoutWins | server.go:605-612 | a user timeout that parses decides |
| Timeouts.ParsePrint | server.go:625-628 | parsing inverts printing of decimal numbers |
| Timeouts.WellFormedTimeoutMeans | server.go:619-653 | every timeout of 1 to 8 digits and one of the units H, M, S, m, u, n is read as that many hours, minutes, seconds, milli-, micro- or nanoseconds, if and only if it is not more than 2562047 hours |
| Timeouts.PrintedWithinEightDigits | client.go:303-309 | the client prints at most 8 digits exactly below 10^8 ms |
| Timeouts.HeadersFromContext | client.go:295-312 | the headers of a request: encoded metadata, then the timeout |
| Timeouts.ContextFromHeaders | server.go:594-616 | the loop finds the first timeout that parses |
| Timeouts.FirstTimeoutMeans | server.go:605-612 | the timeout is that of the first header whose lower-cased key is "grpc-timeout" and whose value parses; there is none exactly when no header is so |
| Timeouts.ParseTimeoutAccepts | server.go:619-653 | a timeout parses exactly when it is a 64-bit number before one of the six units |
| Methods.ParseInvertsPrint | server.go:655-666 | parsing inverts "/service/method" exactly when the method has no slash |
| Methods.RouteMeans | server.go:239-274 | for every service and every name without a slash: "/service/name", or the same without its leading slash, goes to a worker if and only if it is for this server, the service is registered and the name is one of its methods, and to a stream if and only if it is one of its streams and not a method |
| Methods.EveryMethodSplits | server.go:655-666 | a method without a slash after its leading one is ignored, and every other one is a service and a name as above |
| Proxies.RouteReversal | proxy.go:128-159 | every chain of n >= 1 proxies: a reply follows the recorded route backwards to the source, and no hop indexes an empty route |
| Proxies.WayBackNeedsSources | proxy.go:130-133 | the reply gets back if and only if it comes in on the server's address at every proxy |
| Proxies.TravelNeedsSources | proxy.go:128-159 | over silent proxies a frame gets through its route exactly when its source matches at every hop |
| Proxies.UnserialisedWayBack | proxy.go:155-157 | without serialising hops the way back works exactly for one proxy |
| Proxies.TravelRecords | proxy.go:147-151 | a request records the proxies it passes, in order |
| Proxies.ForwardMeans | proxy.go:130-159 | a frame is dropped exactly when the interceptor returns an error; the proxy panics exactly on a foreign source, no header, or an empty route that is not nil; otherwise the frame goes to the last of its route, or to its destination without one |
| Proxies.ForwardKeeps | proxy.go:143-170 | a forwarded frame keeps id, status, body, trailer and reset, and the interceptor's header but for the route; its record grows by this proxy |
| Proxies.TravelKeeps | proxy.go:128-178 | over any chain of proxies a frame that gets through arrives with its content, and with method, metadata and addresses when the interceptors do nothing |
| Proxies.ServerReplies | server.go:350-358 | unary replies and resets carry the addresses swapped and the route but its last proxy |
| Proxies.ProxyClient.Send | proxy.go:169-177 | a frame is dropped exactly when 16 are queued; otherwise it joins the queue; nothing waits |
| Proxies.ProxyClient.Take | proxy.go:196-199 | frames are taken in order |
| Proxies.ProxyClient.FinishWrite | proxy.go:201-205 | offered frames but drops are those written, at most one being written, and those queued |
| Proxies.Proxy.ForwardRpc | proxy.go:128-178 | a frame that is not dropped is offered, with its content, to one client; a frame whose interceptor refuses it reaches none; no other client is touched |
| Proxies.Proxy.SendTo | proxy.go:161-177 | the destination is connected when it is not, and exactly its client is offered the frame |
| Proxies.Proxy.ChooseDestination | proxy.go:128-159 | the route fields rewritten, the content kept, and the destination chosen |
| Proxies.Proxy.ClientFor | proxy.go:161-167 | an unknown destination is connected first |
| Proxies.Proxy.AddClient | proxy.go:68-83 | a client added starts with an empty queue |
| Demuxes.Demux.Accept | demux.go:57-67 | each connection was given the frames of its key, in order, but for the one that waits; one connection per key in order of first appearance |
| Demuxes.Demux.Deliver | demux.go:69-69 | the waiting frame is delivered |
| Demuxes.Demux.Run | demux.go:55-71 | the loop delivers to each key exactly its frames |
| Demuxes.FirstAppearancesListsKeys | demux.go:61-66 | the keys created are the keys seen, each once |
| Demuxes.FirstAppearancesInOrder | demux.go:61-66 | in the order in which they are first seen |
| Chains.ChainIsFold | chained.go:29-36 | the recursion on an index is the right fold of the rest |
| Chains.ChainedIsFold | chained.go:39-45 | the chain of a non-empty list is the right fold; an empty list panics |
| Chains.EachRunsOnceInOrder | chained.go:47-63 | interceptors that pass through run once each, in list order, around the handler |
| Chains.RefusalCutsOff | chained.go:47-63 | an interceptor that refuses cuts off everything after it |
| HttpRegistries.Registry.Retrieve | http.go:190-208 | a connection per address, made when there is none |
| HttpRegistries.Registry.Unregister | http.go:217-223 | a registered connection is open, under its own address, and closed once |
| HttpRegistries.Registry.Clean | http.go:167-187 | a pass closes exactly the stale connections, and leaves fresh ones |

## Left out

- Liveness and freedom from deadlock: both ends hold a mutex while a channel send may block, so progress depends on readers; only safety is proved, and the shutdown loop given that handlers return when cancelled.
- Concrete transports (websocket.go, the HTTP requests of http.go, internal/testutil): the wires are reliable and FIFO.
- `Demux.Cancel`, and `ServeHTTP` sending on a channel that the cleaner may close: those sends are outside the lock.
- The outgoing half of a demultiplexed connection (demux.go:91-106): it passes frames on one by one.
- Replacement of proxy clients and disconnect callbacks: an error is keyed by id and may be reported twice.
- Protobuf and codec marshalling, the internals of the gRPC `status` and `metadata` libraries, and contexts beyond a flag: opaque values.
- Statistics handlers, logging, options, `RegisterService` and internal/server/transport_stream.go: they would only add easy members.
- Multiplexers.ChannelDiscipline: assumes fewer than 2^64 calls on a connection, because the counter wraps after that.
- Clients.StepKeepsInv: a call may start after `closeError` has run; the source refuses most of these, but not one that races with it.
- EndToEnd.ServerToClient: is about streams whose method the server has as a stream; what a client stream on a unary method gets is not.
- EndToEnd.UnaryMatching: a worker answers whatever its handler returns; the panic on headers that do not decode is in `ProcessUnaryRpc` only.
- ServerInvariants.ShutdownTurn: is about runs in which the stream waited for does send its token.
- ClientStreamCode.ClientStream.SendMsg: runs from start to end without interruption; the interleavings are those of the machine.
- HandlerCode.Handler.CancelAndWaitForStreams: runs one schedule, in which only the goroutine waited for moves; every schedule is in `ServerInvariants.ShutdownTurn`.
- HandlerCode.Handler.WaitForOne: runs the same schedule, for one stream and any result of its handler.
