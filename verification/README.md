# TGWS proxy: verified models of the transport cores

This project models the parts of the TGWS proxy (Go sources under `native/tgwsproxy`) in which bytes,
reservations or counters could silently go wrong, and proves what each of them keeps. `dafny verify
dfyconfig.toml` checks all of it.

| component | files |
|---|---|
| chunk-relay upload: acknowledged window over lossy HTTP, hedged rounds, the Worker | `HeadTracker.dfy`, `RelayStatus.dfy`, `UploadWindow.dfy`, `UploadSession.dfy`, `UploadRound.dfy`, `UploadProgress.dfy`, `UploadResume.dfy` |
| chunk-relay download: stop-and-wait reader | `DownRelay.dfy` |
| stream framing: packet splitter, WebSocket frames and messages, fake TLS records | `PacketSplitter.dfy`, `WebSocketMask.dfy`, `WebSocketFrames.dfy`, `WebSocketMessages.dfy`, `FakeTls.dfy` |
| re-encryption of the obfuscated stream | `CtrStream.dfy`, `ObfuscatedInit.dfy`, `Reencryption.dfy` |
| CF domain pool and its connector | `CfPool.dfy`, `CfSelection.dfy`, `CfPoolRuns.dfy`, `CfRotation.dfy`, `CfDomainPool.dfy`, `CfConnector.dfy`, `CfCall.dfy`, `CfAlone.dfy` |
| runs of the MTProto front end | `Lifecycle.dfy` |
| persisted route statistics | `Text.dfy`, `RouteStats.dfy`, `AdaptiveStore.dfy`, `AdaptiveHistory.dfy` |
| byte strings shared by all | `ByteStreams.dfy` |

## How to read it

Code that changes fields in place is a class whose methods are proved to compute a function of the
object's value; the properties are lemmas about that function over every run. Concurrency is a state
machine: one action per critical section, channel operation or timer, in any order. The main functions
that methods are proved against are pinned in turn by what they must mean: which inputs give which
outcome, a relation to the inputs, a round trip, or the examples of a standard. Randomness, the
network, clocks, the block cipher and the hash are parameters or nondeterministic inputs. Bytes are
8-bit vectors, integers are unbounded except where the code converts between widths, and time is a
real number.

The Worker at the far end of the chunk relay is not part of the repository. Its contract is the one
assumption of the end-to-end upload and download results: it keeps the first body it receives for a
sequence number, acknowledges a number only when it holds it, forwards the contiguous prefix, and asked
with an acknowledgement offers the next chunk of its download stream (or an earlier one again).

## What the proofs found

* **Upload after a failed Write.** `upSeq` falls back to the committed prefix while requests for later
  numbers may still arrive. Sending different data then can put abandoned bytes upstream
  (`ReuseAfterFailureCounterexample`). What the client itself knows decides it: its chunks, its commit point
  and the highest number it ever launched, which the code does not keep. Another Write is safe in every
  environment with the same client-side history exactly when it sends, under every launched number above
  the commit point, the chunk sent before (`ClientResumeIff`, for histories whose earlier Writes met that
  condition too); over all runs whatever, every Write was safe when begun exactly when every one met it
  (`PrudentIff`). Retrying exactly the unwritten rest meets it (`RetryIsPrudent`, `RetryRest`), and so does
  the only caller, which stops at the first error (`StopsIsPrudent`, `ExactlyOnce`). `ResumeIff` is the same
  seen from outside, by what is stored or may still arrive.
* **Two lists of reserved starts.** The worker's init generator refuses the same starts as the front
  end's but one: it lets `OPTI` through (`ForbiddenIsReservedOrOptions`).
* **A preferred domain outlives its list.** The domain that last worked for a data centre is never
  forgotten, and an unlisted domain counts as built-in, so it is selected although no list has it.
  Selection and availability agree exactly when that is not the case (`AvailabilityAgrees`,
  `RemovedDomainComesBack`).
* **Unlisting a held domain.** Removing a domain drops its reservation while a call still uses it. A list
  change keeps reservations exclusive exactly when every held domain stays listed (`StepExclusiveIff`);
  two calls begun on a new pool can end up holding one domain (`UnlistedWhileHeld`). Nothing leaks either way.
* **Stale accepts.** A connection accepted by a run that is stopped before it is counted stays in the
  next run's count. The count is never below the live connections; it exceeds them exactly by such
  accepts (`ActiveNeverBelowLive`, `DriftIff`, `StaleAccept`).
* **Bars in keys.** A statistics key is the only one with its string exactly when neither its profile nor
  its route has a bar (`KeyExact`); exactly then a lookup never yields another key's entry
  (`StatForExactIff`). No route of the code has a bar, but a loaded text can bring one in: after it the
  lookup of one profile yields the entry of another (`LoadedBarCollides`).
* **White space in profiles.** A profile survives saving exactly when it has no `:` or `;` and no white
  space at its end (`NormalIff`).

## Model

| member | source | states |
|---|---|---|
| HeadTracker.MarkRepresents | native/tgwsproxy/mtproto_chunk_relay_pipeline.go:92-112 | one markDone keeps the meaning "head is the least unmarked number, done the marks above it"; the head moves, and waiters are woken, exactly when the head itself is marked |
| HeadTracker.MarkAllRepresents | native/tgwsproxy/mtproto_chunk_relay_pipeline.go:71-112 | after any sequence of marks, in any order and with repeats, the tracker represents the plain set of marks |
| HeadTracker.MarkOrderIrrelevant | native/tgwsproxy/mtproto_chunk_relay_pipeline.go:92-112 | order and repetition of marks do not matter |
| HeadTracker.AdvanceConsumesRun | native/tgwsproxy/mtproto_chunk_relay_pipeline.go:99-106 | the advance loop consumes exactly the marks contiguous with the head |
| HeadTracker.Tracker.MarkDone | native/tgwsproxy/mtproto_chunk_relay_pipeline.go:92-112 | the loop over the map is the mark that MarkRepresents is about |
| HeadTracker.Tracker.Observe | native/tgwsproxy/mtproto_chunk_relay_pipeline.go:86-90 | what a waiting round learns: whether its number is the oldest unmarked one, whether all up to it are marked, and a token that changes exactly when the head does |
| HeadTracker.NoLostWakeup | native/tgwsproxy/mtproto_chunk_relay_pipeline.go:86-112 | after any further marks a waiter is woken exactly when the head has moved past the one it saw |
| RelayStatus.UploadReplyClasses | native/tgwsproxy/mtproto_chunk_relay_status.go:29-84 | an upload reply is a success exactly for 204, retryable exactly for 5xx, terminal exactly for 410 |
| RelayStatus.AcceptedIff | native/tgwsproxy/mtproto_chunk_relay_status.go:29-58 | which status is no error, for each action |
| RelayStatus.DecisionIff | native/tgwsproxy/mtproto_chunk_relay_status.go:29-84 | which error leads to which decision, each exactly: only a 5xx or a failure of the transport is tried again, at most three times |
| RelayStatus.DecidingAttempt | native/tgwsproxy/mtproto_chunk_relay.go:277-330 | every attempt before the last may be retried and its back-off ran out; the last is final, the fourth, or its back-off was cut short |
| RelayStatus.OutcomeDecided | native/tgwsproxy/mtproto_chunk_relay.go:263-329 | what the loop returns: the answer of its last attempt, or that of an aborted call exactly if that answer may be retried and its back-off was cut short |
| RelayStatus.DecidedOnce | native/tgwsproxy/mtproto_chunk_relay.go:263-329 | there is only one such attempt and reply |
| RelayStatus.RequestUpHedgeRound | native/tgwsproxy/mtproto_chunk_relay.go:339-438 | the select loop of a serial round, for every order of answers, timer and cancellation, is the round that SerialIsHeadRound is about; at most two legs |
| RelayStatus.RequestWithRetry | native/tgwsproxy/mtproto_chunk_relay.go:263-329 | the retry loop makes at most four attempts, plain or hedged, and returns the first reply that is not retryable; a back-off cut short by a closed connection or a cancelled caller ends it without a reply |
| UploadWindow.ChopShape | native/tgwsproxy/mtproto_chunk_relay_pipeline.go:290-302 | the chunks join up to the data, are 1 to 12288 bytes long, and all full but the last |
| UploadWindow.ChunkIsSlice | native/tgwsproxy/mtproto_chunk_relay_pipeline.go:290-302 | chunk k is the slice every request for its number carries |
| UploadWindow.ChopOfSuffix | native/tgwsproxy/mtproto_chunk_relay_pipeline.go:290-302 | the rest after k chunks is cut where it was cut before |
| UploadWindow.LoopAfter | native/tgwsproxy/mtproto_chunk_relay_pipeline.go:338-396 | for every order of results: each launched number is committed, completed out of order, or in flight; exactly those answered are committed or completed |
| UploadWindow.NeverWaitsOnNothing | native/tgwsproxy/mtproto_chunk_relay_pipeline.go:347-348 | exactly min(3, unanswered) requests are in flight, so a running loop never waits on an empty set |
| UploadWindow.CommittedAtFailure | native/tgwsproxy/mtproto_chunk_relay_pipeline.go:350-367 | a failed result freezes the commit point at the contiguous acknowledged prefix |
| UploadWindow.VerdictIff | native/tgwsproxy/mtproto_chunk_relay_pipeline.go:350-367 | which result is which error, each exactly; none only for a 204 that acknowledges its own number |
| UploadWindow.ChunkRelayConn.WritePipelined | native/tgwsproxy/mtproto_chunk_relay_pipeline.go:279-412 | for every order of results: `upSeq` and `written` are exactly the contiguous validly acknowledged prefix on every return, the error is the verdict on the last result, and success means all of the data |
| UploadWindow.ChunkRelayConn.Pipeline | native/tgwsproxy/mtproto_chunk_relay_pipeline.go:338-412 | the receiving loop, for an arbitrary next result each time; it terminates |
| UploadWindow.ChunkRelayConn.CommitReady | native/tgwsproxy/mtproto_chunk_relay_pipeline.go:379-408 | the inner commit loop advances over the contiguous completed chunks and adds up their bytes |
| UploadWindow.ChunkRelayConn.Judge | native/tgwsproxy/mtproto_chunk_relay_pipeline.go:350-367 | the error, if any, for one result |
| UploadWindow.ChunkRelayConn.SpecsFor | native/tgwsproxy/mtproto_chunk_relay_pipeline.go:290-302 | the chunk table has consecutive numbers and slices |
| UploadWindow.ChunkRelayConn.WriteSerial | native/tgwsproxy/mtproto_chunk_relay.go:472-523 | the serial Write, whatever its rounds and back-offs meet: acknowledged chunks are consecutive full slices under consecutive numbers, `upSeq` and `written` count exactly them, each was accepted by its retry loop, and an error is the verdict on the next one's |
| UploadWindow.SerialCarries | native/tgwsproxy/mtproto_chunk_relay.go:482-512 | the acknowledged chunks join up to the bytes counted as written |
| UploadRound.RequestRound | native/tgwsproxy/mtproto_chunk_relay_pipeline.go:165-277 | for every order of answers, timer and wake-ups the select loop takes exactly the specified steps, all of them steps of the round machine that AnswerDecides and HedgeWhenDue are about, and returns what that machine ends with |
| UploadRound.RoundOutcome | native/tgwsproxy/mtproto_chunk_relay_pipeline.go:208-276 | at most two legs; a second one only as the head; the result is a 204, an error not to be retried, or a retryable one after all launched legs answered; a live round has a leg to wait for or to launch |
| UploadRound.AnswerDecides | native/tgwsproxy/mtproto_chunk_relay_pipeline.go:231-273 | an answer ends the round exactly if it must not be retried, or is the last of the legs launched and no second one may be launched for it |
| UploadRound.HedgeWhenDue | native/tgwsproxy/mtproto_chunk_relay_pipeline.go:208-229 | the delay is over exactly when the timer has fired, and a number that is the head when the loop next looks then has its second leg |
| UploadRound.SerialIsHeadRound | native/tgwsproxy/mtproto_chunk_relay.go:368-437 | until its context ends, a serial round is a run of the pipelined round of a number that is the head throughout, so RoundOutcome holds of it |
| UploadSession.TakeEventOk | native/tgwsproxy/mtproto_chunk_relay_pipeline.go:208-276 | every event keeps a round sound; a round ends only by an answer, and hedges only at the head |
| UploadSession.StepInv | native/tgwsproxy/mtproto_chunk_relay_pipeline.go:114-412 | every action of goroutines, network and Worker keeps the session invariant |
| UploadSession.RunInv | native/tgwsproxy/mtproto_chunk_relay_pipeline.go:114-412 | the invariant holds in every reachable state of every run |
| UploadSession.CommittedIsStored | native/tgwsproxy/mtproto_chunk_relay_pipeline.go:330-395 | committed numbers are held by the Worker, and `upSeq` is below the tracker's head |
| UploadSession.AtMostOneHedgedRound | native/tgwsproxy/mtproto_chunk_relay_pipeline.go:208-256 | at most one hedged round is live, and it is the oldest unacknowledged number |
| UploadSession.HeadStable | native/tgwsproxy/mtproto_chunk_relay_pipeline.go:92-112 | the head stays head until its own retry loop settled on an acknowledged 204 |
| UploadSession.RequestBudget | native/tgwsproxy/mtproto_chunk_relay_pipeline.go:114-163 | at most eight requests for a chunk, two a round; and a retry loop that was not given up reports an error that may be retried only after its fourth round |
| UploadSession.FailedRoundIsRetried | native/tgwsproxy/mtproto_chunk_relay_pipeline.go:128-161 | there is a run in which both legs of the first round come back with any 5xx and the second round completes the Write without an error |
| UploadProgress.WorkDecreases | native/tgwsproxy/mtproto_chunk_relay_pipeline.go:114-412 | every step of a Write, whatever it is, brings it nearer to its end |
| UploadProgress.WriteIsBounded | native/tgwsproxy/mtproto_chunk_relay_pipeline.go:279-412 | however requests, answers and time-outs fall, a Write takes a bounded number of steps |
| UploadProgress.BeginSteps | native/tgwsproxy/mtproto_chunk_relay_pipeline.go:289-348 | that bound is forty steps a chunk |
| UploadProgress.NeverStuck | native/tgwsproxy/mtproto_chunk_relay_pipeline.go:114-412 | in every reachable session that is writing, a step of the Write can be taken without help from the network |
| UploadSession.ForwardedIsPrefix | native/tgwsproxy/mtproto_chunk_relay_pipeline.go:304-336 | what the Worker forwards is a prefix of the data written, no shorter than the committed bytes |
| UploadSession.ExactlyOnce | native/tgwsproxy/mtproto_chunk_relay_pipeline.go:279-412 | over whole sessions with any loss, delay, duplication, hedging and reordering: forwarded bytes are a prefix of the data offered covering all that is committed, and all of it when the session is idle |
| UploadSession.ResumeIff | native/tgwsproxy/mtproto_chunk_relay_pipeline.go:289-322 | a Write is safe in every continuation exactly when all that is stored or may still arrive agrees with its chunks |
| UploadSession.RetryRest | native/tgwsproxy/mtproto_chunk_relay_pipeline.go:289-302 | after any session whose Writes were started safely, retrying exactly the unwritten rest of a failed Write is safe and cuts the same chunks |
| UploadSession.IdleIsResumeSafe | native/tgwsproxy/mtproto_chunk_relay_pipeline.go:289-302 | after a successful Write any data may follow |
| UploadSession.ReuseAfterFailureCounterexample | native/tgwsproxy/mtproto_chunk_relay_pipeline.go:350-408 | after a failed Write other data can lead to abandoned bytes being forwarded |
| UploadResume.ClientResumeIff | native/tgwsproxy/mtproto_chunk_relay_pipeline.go:289-412 | a Write is safe in every environment with the client's history exactly when it sends the old chunk under every launched number above the commit point |
| UploadResume.PrudentIff | native/tgwsproxy/mtproto_chunk_relay_pipeline.go:279-412 | over all runs: every Write was safe when it began exactly when every one met that condition |
| UploadResume.SoundRun | native/tgwsproxy/mtproto_chunk_relay_pipeline.go:289-412 | the client's view is a function of its history; along histories that met the condition everything stored or sent is the chunk its number stands for |
| UploadResume.EagerRun | native/tgwsproxy/mtproto_chunk_relay_pipeline.go:304-348 | for every such run there is one with the same history in which every launched number has been sent or is about to be |
| UploadResume.RetryIsPrudent | native/tgwsproxy/mtproto_chunk_relay_pipeline.go:289-302 | retrying exactly the unwritten rest meets the client's condition |
| UploadResume.StopsIsPrudent | native/tgwsproxy/mtproto_chunk_relay_pipeline.go:350-367 | a session that stops at the first failed Write meets it throughout |
| DownRelay.ReadInv | native/tgwsproxy/mtproto_chunk_relay.go:525-593 | one Read keeps: delivered bytes followed by the buffer are the accepted bodies |
| DownRelay.JudgedIff | native/tgwsproxy/mtproto_chunk_relay.go:545-580 | which answer is a new chunk, a reason to ask again, the end of the stream, or which error, each exactly |
| DownRelay.ReadDecides | native/tgwsproxy/mtproto_chunk_relay.go:532-593 | with an empty buffer the first answer that is not asked again decides a Read; a chunk fills the destination, the rest waits, and it is acknowledged only when nothing of it waits |
| DownRelay.OneMoreRead | native/tgwsproxy/mtproto_chunk_relay.go:525-593 | the history that the next rows are about grows by what each Read hands out and by the chunk that decided it |
| DownRelay.DeliveredOnce | native/tgwsproxy/mtproto_chunk_relay.go:525-593 | over every run of Reads nothing accepted is lost, repeated or reordered, and numbers increase |
| DownRelay.AckCoversDelivered | native/tgwsproxy/mtproto_chunk_relay.go:532-541 | the acknowledgement covers exactly the whole chunks that have been handed out |
| DownRelay.AcceptedIsPrefix | native/tgwsproxy/mtproto_chunk_relay.go:566-580 | with a stop-and-wait Worker the accepted chunks are its first chunks, without a gap |
| DownRelay.ReadsPrefixOfStream | native/tgwsproxy/mtproto_chunk_relay.go:525-593 | with a stop-and-wait Worker the bytes read are a prefix of its stream |
| DownRelay.ChunkRelayReader.Read | native/tgwsproxy/mtproto_chunk_relay.go:525-593 | the imperative Read into a buffer of any size computes the specified result and leaves the rest of the buffer alone |
| CtrStream.XorTwice | native/tgwsproxy/worker_reencrypt.go:171-185 | decrypting what was encrypted at the same place gives the plaintext |
| CtrStream.XorAppend | native/tgwsproxy/worker_reencrypt.go:171-185 | a stream keeps its place between calls |
| CtrStream.Stream.XORKeyStream | native/tgwsproxy/mtproxyfrontend/session.go:266-274 | the stateful stream computes the keystream combination and advances by the length |
| PacketSplitter.ParseResumes | native/tgwsproxy/tg-ws-proxy.go:1217-1253 | a parse that ran out of bytes resumes where it stopped |
| PacketSplitter.ParseStaysDisabled | native/tgwsproxy/tg-ws-proxy.go:1221-1243 | a parse that gave up stays given up, whatever arrives |
| PacketSplitter.ChunkingIndependence | native/tgwsproxy/tg-ws-proxy.go:1217-1253 | for every way of cutting the stream into calls, the parts are those of one batch parse; after a disable they join up to the remainder |
| PacketSplitter.Conservation | native/tgwsproxy/tg-ws-proxy.go:1217-1253 | all parts followed by the buffer are all input |
| PacketSplitter.PartsAreWholePackets | native/tgwsproxy/tg-ws-proxy.go:1265-1313 | each part emitted before a disable decrypts at its place to exactly one packet of its transport |
| PacketSplitter.AbridgedExact | native/tgwsproxy/tg-ws-proxy.go:1279-1298 | the reader takes for one whole abridged packet exactly what some form prints: a one-byte header below 127 words, or a three-byte header for any number of words |
| PacketSplitter.IntermediateExact | native/tgwsproxy/tg-ws-proxy.go:1300-1313 | the reader takes for one whole intermediate packet exactly what the printer writes, with or without the quick-acknowledgement bit |
| PacketSplitter.NextPacketIff | native/tgwsproxy/tg-ws-proxy.go:1265-1313 | the reader cuts off the one packet the bytes start with, waits exactly while they are the beginning of one, and gives up exactly when they are neither |
| PacketSplitter.ParseRest | native/tgwsproxy/tg-ws-proxy.go:1217-1243 | the batch parse stops inside a packet, or, giving up, at what is neither a packet nor the beginning of one |
| PacketSplitter.HeldBackIsInside | native/tgwsproxy/tg-ws-proxy.go:1217-1253 | for every cutting into calls: what a splitter holds back is always the beginning of a packet, and it stops splitting exactly at what is neither |
| PacketSplitter.SplitRecoversPackets | native/tgwsproxy/tg-ws-proxy.go:1199-1253 | whole packets, encrypted and delivered in any pieces, come out one part each, with nothing held back |
| PacketSplitter.MsgSplitter.constructor | native/tgwsproxy/tg-ws-proxy.go:1199-1215 | a new splitter stands 64 bytes into the keystream |
| PacketSplitter.MsgSplitter.NextPacketLen | native/tgwsproxy/tg-ws-proxy.go:1265-1313 | the header readers compute the specified packet length |
| PacketSplitter.MsgSplitter.Split | native/tgwsproxy/tg-ws-proxy.go:1217-1253 | the cutting loop and the compaction of both buffers are the step that ChunkingIndependence and HeldBackIsInside are about |
| PacketSplitter.MsgSplitter.Flush | native/tgwsproxy/tg-ws-proxy.go:1255-1263 | Flush hands out the buffer as at most one part and empties it |
| WebSocketMask.MaskedTwice | native/tgwsproxy/tg-ws-proxy.go:644-663 | masking is its own inverse |
| WebSocketMask.XorWords | native/tgwsproxy/tg-ws-proxy.go:650-659 | one exclusive-or of little-endian words is eight byte operations with the key bytes twice |
| WebSocketMask.XorMaskInPlace | native/tgwsproxy/tg-ws-proxy.go:644-663 | the word loop with its byte tail equals the byte-wise definition, in place, and touches nothing else |
| WebSocketFrames.FrameRoundTrip | native/tgwsproxy/flowseal_websocket_frames.go:207-300 | reading what was built returns the frame and leaves the rest, for all three length encodings, masked or not; a payload over the limit is refused |
| WebSocketFrames.NoFrameFromPrefix | native/tgwsproxy/mtproto_websocket_frames.go:161-212 | a frame that has not arrived completely is never taken for another |
| WebSocketFrames.ReadExtends | native/tgwsproxy/mtproto_websocket_frames.go:161-212 | more input changes only the answer that input is missing |
| WebSocketFrames.HeadRead | native/tgwsproxy/flowseal_websocket_frames.go:252-289 | the header of every length reads back as written |
| WebSocketFrames.UnmaskedExamples | native/tgwsproxy/flowseal_websocket_frames.go:252-300 | the unmasked examples of section 5.7 of RFC 6455, byte for byte |
| WebSocketFrames.MaskedExample | native/tgwsproxy/flowseal_websocket_frames.go:291-299 | its masked example |
| WebSocketFrames.LongExamples | native/tgwsproxy/flowseal_websocket_frames.go:252-289 | its examples of the two longer length fields |
| WebSocketFrames.BuildSingleFrame | native/tgwsproxy/flowseal_websocket_frames.go:252-300 | the buffer filled by position is the encoding of the frame |
| WebSocketFrames.ReadNextFrame | native/tgwsproxy/flowseal_websocket_frames.go:207-246 | the step-by-step reader, unmasking in place, computes the specified result |
| WebSocketMessages.RecvMessage | native/tgwsproxy/mtproto_websocket_frames.go:108-159 | one Recv over one message returns its fragments joined, whatever control frames are mixed in, and answers the pings; it fails exactly when they exceed the limit |
| WebSocketMessages.Reassembly | native/tgwsproxy/mtproto_websocket_frames.go:108-159 | over any sequence of frames without a close, successive Recvs return exactly its messages and answer every ping in order |
| WebSocketMessages.GroupsPartition | native/tgwsproxy/flowseal_websocket_frames.go:134-171 | the messages of a frame sequence: every frame in one message or in the unfinished rest |
| WebSocketMessages.MessagesWithinLimit | native/tgwsproxy/mtproto_websocket_frames.go:134-152 | whatever bytes come in, no message over the limit comes out, and everything but a message closes the socket |
| WebSocketMessages.RecvClose | native/tgwsproxy/mtproto_websocket_frames.go:122-125 | a close frame ends the stream after the pings before it are answered; an incomplete message is not delivered |
| WebSocketMessages.ClosedForGood | native/tgwsproxy/mtproto_websocket_frames.go:108-120 | after anything but a message nothing is returned any more |
| WebSocketMessages.FrameSocket.Receive | native/tgwsproxy/mtproto_websocket_frames.go:108-159 | the Recv loop over the socket object is the one Reassembly and MessagesWithinLimit are about, in its result and in the state it leaves |
| WebSocketMessages.Connection.WriteFullCount | native/tgwsproxy/flowseal_websocket_frames.go:307-323 | what went out is exactly the reported prefix, however the connection shortens its writes; success means all of it, an error comes only from a failed or an empty write |
| WebSocketMessages.WriteAllEnds | native/tgwsproxy/flowseal_websocket_frames.go:307-323 | writing goes on while calls take something and do not fail; the first other call ends it for its own reason, and what it took counts |
| WebSocketMessages.Connection.WriteShapedFullCount | native/tgwsproxy/flowseal_websocket_frames.go:330-350 | the same, with no call offered more than the chunk size |
| FakeTls.WrapShape | native/tgwsproxy/mtproxyfrontend/fake_tls.go:151-168 | records carry exactly the data, each 1 to 16384 bytes, all full but the last |
| FakeTls.SmallExample | native/tgwsproxy/mtproxyfrontend/fake_tls.go:151-168 | two bytes on the wire, byte for byte, and the size limit of RFC 8446 |
| FakeTls.WrapFakeTLSRecords | native/tgwsproxy/mtproxyfrontend/fake_tls.go:151-168 | the append loop writes those records |
| FakeTls.ReadStep | native/tgwsproxy/mtproxyfrontend/fake_tls.go:207-249 | one Read returns a nonempty prefix of what is left and keeps `readLeft` the unread rest of the record; with nothing left it ends cleanly exactly if a record of another kind follows, and fails otherwise |
| FakeTls.ReadAnything | native/tgwsproxy/mtproxyfrontend/fake_tls.go:207-249 | on any input, well formed or not: data is never empty and stands just before what is left, a Read fails only at the end of the input, and the stream ends only with a header of another kind |
| FakeTls.ReadsReturnPlain | native/tgwsproxy/mtproxyfrontend/fake_tls.go:207-249 | reads of any nonempty sizes return the application data in order, and all of it once there are enough |
| FakeTls.WireIsStream | native/tgwsproxy/mtproxyfrontend/fake_tls.go:251-261 | the bytes of several writes are one record stream |
| FakeTls.RoundTrip | native/tgwsproxy/mtproxyfrontend/fake_tls.go:151-261 | reading back what was wrapped, change-cipher-spec records in between, gives what was written |
| FakeTls.FakeTLSStream.ReadInto | native/tgwsproxy/mtproxyfrontend/fake_tls.go:207-249 | the Read loop into a buffer of any size is the one RoundTrip is about, and leaves the rest of the buffer alone |
| ObfuscatedInit.OpenSeal | native/tgwsproxy/worker_reencrypt.go:91-105 | the encrypted tail of an init opens to what was sealed |
| ObfuscatedInit.StreamsKeyed | native/tgwsproxy/mtproxyfrontend/session.go:102-135 | the sender is keyed by bytes 8 to 39 and 40 to 55 as they stand, the receiver by bytes 55 to 24 and 23 to 8, backwards |
| ObfuscatedInit.ReceiverIsMirroredSender | native/tgwsproxy/mtproxyfrontend/session.go:309-315 | what is received on an init is what a sender keyed by the mirrored init sends |
| ObfuscatedInit.TailLayout | native/tgwsproxy/mtproxyfrontend/session.go:111-117 | where the protocol and the signed data centre stand in the tail, and in which byte order |
| ObfuscatedInit.MakeTailRoundTrip | native/tgwsproxy/mtproxyfrontend/session.go:247-248 | protocol and signed data centre read back from the tail |
| ObfuscatedInit.DecodedIff | native/tgwsproxy/tg-ws-proxy.go:1121-1160 | an init names a data centre and a sign exactly when it is complete, of one of the three protocols, and carries that number |
| ObfuscatedInit.DcFromInit | native/tgwsproxy/tg-ws-proxy.go:1121-1160 | the data centre an init names, or nothing unless complete, of a known protocol and a known data centre |
| ObfuscatedInit.InitProtoFromObfsInit | native/tgwsproxy/worker_reencrypt.go:43-62 | the protocol an init names |
| ObfuscatedInit.PatchInitDC | native/tgwsproxy/tg-ws-proxy.go:1162-1185 | the patch writes the encrypted number into its two bytes |
| ObfuscatedInit.PatchedDecodes | native/tgwsproxy/tg-ws-proxy.go:1162-1185 | a patch changes only those bytes; the packet keeps its protocol and free bytes and names the new number |
| ObfuscatedInit.PatchedReadsBack | native/tgwsproxy/tg-ws-proxy.go:1121-1185 | a packet patched to a known data centre is read as that data centre, with its sign |
| ObfuscatedInit.ForbiddenIsReservedOrOptions | native/tgwsproxy/worker_reencrypt.go:21-34 | the worker's reserved starts are the front end's forbidden ones but for "OPTI" |
| ObfuscatedInit.OptionsNotReserved | native/tgwsproxy/mtproxyfrontend/session.go:317-334 | a start that only the front end refuses |
| Reencryption.FirstAllowedIs | native/tgwsproxy/mtproxyfrontend/session.go:230-245 | generation takes the first candidate allowed among 1024, and fails exactly when there is none |
| Reencryption.FirstUnreservedIs | native/tgwsproxy/worker_reencrypt.go:64-84 | the worker takes the first candidate that is not reserved |
| Reencryption.GenerateRelayInit | native/tgwsproxy/mtproxyfrontend/session.go:225-264 | the init is the sealed candidate, and the two streams are keyed by it and stand at 64 and 0 |
| Reencryption.GenerateRelayObfsInit | native/tgwsproxy/worker_reencrypt.go:64-106 | the worker's generator seals the first start that is not reserved |
| Reencryption.RelayInitDecodes | native/tgwsproxy/mtproxyfrontend/session.go:247-263 | a generated init keeps its random start and decodes to the protocol and data centre put into it |
| Reencryption.AnyCut | native/tgwsproxy/mtproxyfrontend/session.go:266-274 | chunks re-encrypted one by one are the stream re-encrypted |
| Reencryption.PlaintextPreserved | native/tgwsproxy/worker_reencrypt.go:171-185 | what the sender encrypted the receiver decrypts, for any chunking |
| Reencryption.StreamTransform.Apply | native/tgwsproxy/mtproxyfrontend/session.go:266-274 | one chunk through decryptor and encryptor, both advancing |
| Reencryption.StreamTransform.CopyTransformed | native/tgwsproxy/mtproxyfrontend/runtime.go:683-729 | the copy loop, whatever reads and writes return: what is sent and counted and why it ends are those that CopyDecrypts is about |
| Reencryption.CopyDecrypts | native/tgwsproxy/mtproxyfrontend/runtime.go:683-743 | however reads, short writes, errors and cancellation go, what the other side decrypts is a prefix of the plaintext, holds all the bytes counted, and is all that was read unless a write failed |
| Reencryption.CopyEnds | native/tgwsproxy/mtproxyfrontend/runtime.go:697-727 | the first turn with an error or the end of the source ends the loop, for its own reason, and exactly the chunks written before count |
| Reencryption.Normalised | native/tgwsproxy/mtproxyfrontend/session.go:117-136 | a client is admitted for exactly +-n and +-(10000 + n) of the known data centres; the relay is told n with the client's sign, and the test flag is set accordingly |
| Reencryption.AdmitIff | native/tgwsproxy/mtproxyfrontend/session.go:89-132 | which client is refused, for which reason, each exactly and in their order, told by the bytes of its handshake |
| Reencryption.InitNamesTarget | native/tgwsproxy/mtproxyfrontend/session.go:111-148 | the init made for an admitted client names its protocol and its normalised data centre and is not forbidden |
| Reencryption.PrepareOutboundRequest | native/tgwsproxy/mtproxyfrontend/session.go:82-155 | the errors in order; otherwise the init, and the two transforms with their positions and with the keys that StreamsKeyed fixes by the bytes of the two inits |
| Reencryption.EndToEnd | native/tgwsproxy/mtproxyfrontend/session.go:102-154 | both directions preserve plaintext end to end with keys taken from the inits, for any chunking |
| Reencryption.NewWorkerReencryptContext | native/tgwsproxy/worker_reencrypt.go:116-169 | when the context can be made, and its four streams with their positions and with the keys that StreamsKeyed fixes by the bytes of the two inits |
| CfPool.CooldownBounds | native/tgwsproxy/tgwsroute/cfpool.go:448-469 | a burst's cooldown is 30 s to 6 h and does not shrink with the consecutive count |
| CfPool.CooldownIs | native/tgwsproxy/tgwsroute/cfpool.go:448-469 | the cooldown of every kind of failure and length of burst, in seconds |
| CfPool.SourceIs | native/tgwsproxy/tgwsroute/cfpool.go:394-402 | a domain is configured, else a cached upstream one, else built-in, by the lists it is on |
| CfPool.HealthIs | native/tgwsproxy/tgwsroute/cfpool.go:379-392 | an entry is kept with its source brought up to date, and a missing one starts empty |
| CfPoolRuns.RunInv | native/tgwsproxy/tgwsroute/cfpool.go:133-231 | in every reachable pool entries sit under their key, failure count is at least the consecutive one, and a cooldown ends 30 s to 6 h after the failure that set it |
| CfPoolRuns.BurstCoalesces | native/tgwsproxy/tgwsroute/cfpool.go:170-201 | whatever happens inside a cooldown, selections included, counts, reason and deadline stay, and no reservation is granted, unless a success, a reset or unlisting lifts it |
| CfPool.FailureCounted | native/tgwsproxy/tgwsroute/cfpool.go:188-200 | a failure outside a cooldown is counted, starts one as long as its kind and burst ask for, and gives the reservation back; successes and all other domains stay |
| CfPool.SuccessCounted | native/tgwsproxy/tgwsroute/cfpool.go:203-222 | a success is counted, ends the cooldown and the burst, and makes the domain preferred; failures on record, reservations and all other domains stay |
| CfPool.ReserveIff | native/tgwsproxy/tgwsroute/cfpool.go:133-152 | a reservation is granted exactly outside cooldown when nobody holds one |
| CfPoolRuns.ReservationKept | native/tgwsproxy/tgwsroute/cfpool.go:154-200 | only a release, a failure or unlisting ends a reservation |
| CfSelection.GatherPartitions | native/tgwsproxy/tgwsroute/cfpool.go:284-313 | every domain looked at is in exactly one of the three lists, once, by its state |
| CfSelection.StatusIs | native/tgwsproxy/tgwsroute/cfpool.go:296-308 | a domain is skipped as cooling, skipped as reserved, or offered, each exactly; offered are just those of which a reservation would be granted |
| CfSelection.GatherRetry | native/tgwsproxy/tgwsroute/cfpool.go:296-301 | the retry time is the true minimum |
| CfSelection.GatheredEntries | native/tgwsproxy/tgwsroute/cfpool.go:379-392 | looking at a domain creates a fresh entry or only updates the source of the old one |
| CfSelection.GatheredSource | native/tgwsproxy/tgwsroute/cfpool.go:316-334 | a domain takes the source under which it is met first |
| CfSelection.SourceScore | native/tgwsproxy/tgwsroute/cfpool.go:475-492 | what the source of a domain is worth |
| CfSelection.RecordScore | native/tgwsproxy/tgwsroute/cfpool.go:475-492 | what each success and each quarter of a second of latency is worth, up to their limits |
| CfSelection.RecencyScore | native/tgwsproxy/tgwsroute/cfpool.go:494-507 | what a success that came after the last failure is worth at any age |
| CfSelection.PenaltySteps | native/tgwsproxy/tgwsroute/cfpool.go:509-529 | what failures cost, and how it decays in steps |
| CfSelection.LessIff | native/tgwsproxy/tgwsroute/cfpool.go:336-349 | configured domains first, then by score, then cached upstream before built-in |
| CfSelection.SelectedInv | native/tgwsproxy/tgwsroute/cfpool.go:276-357 | a selection keeps the pool's invariant, every count and cooldown, and every reservation |
| CfSelection.WeakOrder | native/tgwsproxy/tgwsroute/cfpool.go:336-349 | the ranking order is a strict weak order |
| CfSelection.StableSortIsStable | native/tgwsproxy/tgwsroute/cfpool.go:336-349 | the ranking is sorted, keeps every candidate and the order of equivalent ones |
| CfSelection.RankingIff | native/tgwsproxy/tgwsroute/cfpool.go:336-349 | a list is the ranking exactly when it is sorted and keeps each class of equivalent candidates in order, so any stable sort gives it |
| CfSelection.RankedByScore | native/tgwsproxy/tgwsroute/cfpool.go:336-349 | the ranking goes down in score behind the configured domains |
| CfSelection.ManualsFirst | native/tgwsproxy/tgwsroute/cfpool.go:336-343 | manual candidates come first in the order met |
| CfSelection.ManualOrder | native/tgwsproxy/tgwsroute/cfpool.go:316-354 | the selection leads with the ready manual domains in configured order, exploration or not |
| CfSelection.ChoiceIsOldest | native/tgwsproxy/tgwsroute/cfpool.go:541-554 | exploration picks the candidate within the gap that has gone unobserved longest, the first of several |
| CfSelection.PromotionMovesOne | native/tgwsproxy/tgwsroute/cfpool.go:531-561 | at most one candidate, within 40 points of the best, moves to the front of the non-manual part |
| CfSelection.PromotedLeads | native/tgwsproxy/tgwsroute/cfpool.go:531-561 | if any other candidate is within 40 points of the best, one that was observed longest ago leads, and otherwise nothing moves |
| CfSelection.MoveKeepsOthers | native/tgwsproxy/tgwsroute/cfpool.go:558-560 | all others keep their order |
| CfSelection.SelectionPartitions | native/tgwsproxy/tgwsroute/cfpool.go:276-357 | the selection is a duplicate-free partition of the listed domains and, if there is one, the preferred unlisted one |
| CfSelection.AvailabilityAgrees | native/tgwsproxy/tgwsroute/cfpool.go:246-357 | selection and availability agree as sets exactly when no preferred domain is unlisted |
| CfSelection.AvailabilityOnce | native/tgwsproxy/tgwsroute/cfpool.go:246-274 | an observation names every listed domain once, and its retry time is the true minimum |
| CfRotation.EveryFifthExplores | native/tgwsproxy/tgwsroute/cfpool.go:351-354 | from a new pool exactly every fifth selection of a data centre explores, whatever the others select in between |
| CfRotation.ListsTakeTurns | native/tgwsproxy/tgwsroute/cfpool.go:404-424 | cached and built-in domains take turns at the head of their lists, selection by selection |
| CfSelection.RemovedDomainComesBack | native/tgwsproxy/tgwsroute/cfpool.go:322-330 | a removed preferred domain is offered again |
| CfDomainPool.CFDomainPool.Reserve | native/tgwsproxy/tgwsroute/cfpool.go:133-152 | TryReserve on the object is the reservation that ReserveIff is about; a name that does not normalise changes nothing |
| CfDomainPool.CFDomainPool.ReleaseReservation | native/tgwsproxy/tgwsroute/cfpool.go:154-163 | takes away exactly the one reservation, whoever holds it |
| CfDomainPool.CFDomainPool.RecordFailure | native/tgwsproxy/tgwsroute/cfpool.go:170-201 | MarkFailure on the object is the step that BurstCoalesces and FailureCounted are about, and returns the entry it leaves |
| CfDomainPool.CFDomainPool.RecordSuccess | native/tgwsproxy/tgwsroute/cfpool.go:203-222 | MarkSuccess on the object: ends the cooldown and the row of failures, prefers the domain, and leaves reservations alone |
| CfDomainPool.CFDomainPool.ResetAllCooldowns | native/tgwsproxy/tgwsroute/cfpool.go:224-231 | the loop over the map, in any order, resets every entry |
| CfDomainPool.CFDomainPool.IsCoolingDown | native/tgwsproxy/tgwsroute/cfpool.go:233-243 | true exactly when the domain stands as cooling, the state that selections and reservations go by |
| CfDomainPool.CFDomainPool.ReclassifyRemovedDomains | native/tgwsproxy/tgwsroute/cfpool.go:426-446 | the two loops, in any order, keep exactly the listed entries and reservations |
| CfDomainPool.CFDomainPool.SelectionForDC | native/tgwsproxy/tgwsroute/cfpool.go:276-357 | the selection computed step by step, with rotation, counting and exploration, is the one that SelectionPartitions and ManualOrder are about |
| CfDomainPool.CFDomainPool.AvailabilityForDC | native/tgwsproxy/tgwsroute/cfpool.go:246-274 | the observation that AvailabilityAgrees is about; it changes nothing |
| CfDomainPool.PromoteExplorationCandidate | native/tgwsproxy/tgwsroute/cfpool.go:531-561 | the search loop and the shift in place make exactly the move that PromotionMovesOne is about |
| CfConnector.StepMoves | native/tgwsproxy/mtproto_ws_route.go:240-333 | what each step of a call does to the reservations and to what calls hold |
| CfConnector.StepNoLeaks | native/tgwsproxy/mtproto_ws_route.go:240-333 | no step leaves a reservation without a live call |
| CfConnector.StepExclusiveIff | native/tgwsproxy/mtproto_ws_route.go:240-333 | a step keeps reservations exclusive exactly when it unlists no held domain |
| CfConnector.ReservationSafety | native/tgwsproxy/mtproto_ws_route.go:195-351 | over all interleavings of calls: no leak, and exclusive holding while held domains stay listed |
| CfConnector.AllOver | native/tgwsproxy/mtproto_ws_route.go:240-351 | when every call is over nothing is reserved |
| CfConnector.DialsReserved | native/tgwsproxy/mtproto_ws_route.go:252-260 | a call dials only after a reservation granted outside cooldown and held by no one |
| CfConnector.UnlistedWhileHeld | native/tgwsproxy/tgwsroute/cfpool.go:434-446 | from a new pool with one domain and two calls begun on it, both can come to hold the domain, unlisted and listed again in between |
| CfCall.TryGivesBack | native/tgwsproxy/mtproto_ws_route.go:252-333 | whatever becomes of a candidate its reservation is given back; a failure and a success are on record, the one cooling, the other preferred and free of cooldown, and nothing is on record of a cancelled dial |
| CfCall.AttemptsProper | native/tgwsproxy/mtproto_ws_route.go:240-351 | whatever happens outside: no reservation is left, dials go down the ranking and never to a cached upstream domain after a DNS failure of one, and the reason is that of the last dial |
| CfCall.AttemptsExplained | native/tgwsproxy/mtproto_ws_route.go:240-351 | a call is determined by the pool it starts from and the outside: it dials exactly the candidates that can be reserved, are not ruled out and are not cut off by a cancellation; the first that works or is cancelled ends it, and without one it goes through all of them; each dial is on record, and nothing else |
| CfCall.RefusalIff | native/tgwsproxy/mtproto_ws_route.go:202-224 | the reasons for which a call tries nothing, each exactly and in their order |
| CfCall.UndisturbedCall | native/tgwsproxy/mtproto_ws_route.go:240-351 | a call that is never cancelled does not end as cancelled, and streams exactly when some candidate can be reserved, is not ruled out and works: the first one |
| CfCall.CandidateIsTried | native/tgwsproxy/mtproto_ws_route.go:220-257 | a call given a candidate, run alone, never reports the pool as unavailable |
| CfCall.TryCandidate | native/tgwsproxy/mtproto_ws_route.go:252-333 | the loop body over the pool object does to the pool what TryGivesBack is about, at each of its six exits |
| CfCall.Connect | native/tgwsproxy/mtproto_ws_route.go:195-351 | one call alone: the refusals in their order leave the pool alone; otherwise pool, reason and dials are the ones that AttemptsExplained says, over the selection made at the start |
| CfAlone.AloneIff | native/tgwsproxy/mtproto_ws_route.go:240-351 | the machine of interleaved calls and the loop of one call agree: from its beginning, an undisturbed call of the machine can leave the pool in just those states in which its loop leaves it |
| Lifecycle.StepInv | native/tgwsproxy/mtproxyfrontend/runtime.go:154-262 | every step keeps: the count is the live connections of the current run plus the stale ones |
| Lifecycle.ActiveNeverBelowLive | native/tgwsproxy/mtproxyfrontend/runtime.go:345-397 | in every reachable state the count is never negative and never below the live connections |
| Lifecycle.CountFromFresh | native/tgwsproxy/mtproxyfrontend/runtime.go:345-397 | the same for every run from the start of the program |
| Lifecycle.TotalCounts | native/tgwsproxy/mtproxyfrontend/runtime.go:339-346 | the total counts every connection accepted since the last Start, and nothing else |
| Lifecycle.DriftIff | native/tgwsproxy/mtproxyfrontend/runtime.go:339-346 | which steps make the count differ, and which bring it back |
| Lifecycle.StaleAccept | native/tgwsproxy/mtproxyfrontend/runtime.go:339-346 | an interleaving after which a connection that is gone stays counted |
| Lifecycle.RunsAreIsolated | native/tgwsproxy/mtproxyfrontend/runtime.go:523-538 | until the next Start the route fields show exactly what the current run's own connections reported before its Stop |
| Lifecycle.StartForgets | native/tgwsproxy/mtproxyfrontend/runtime.go:186-212 | a Start shows nothing of any run before it, even if it cannot listen |
| Lifecycle.StartIff | native/tgwsproxy/mtproxyfrontend/runtime.go:154-238 | why a Start fails, each reason exactly, and what it leaves |
| Lifecycle.StopIff | native/tgwsproxy/mtproxyfrontend/runtime.go:240-262 | nothing runs after a Stop; it fails exactly when nothing ran |
| Lifecycle.Runtime.Start | native/tgwsproxy/mtproxyfrontend/runtime.go:154-238 | refused while running or invalid without any change; otherwise resets route and counters, and begins a new run only if it can listen |
| Lifecycle.Runtime.Stop | native/tgwsproxy/mtproxyfrontend/runtime.go:240-262 | ends the run and its count, and keeps the route fields |
| Lifecycle.Runtime.UpdateRouteTruthFor | native/tgwsproxy/mtproxyfrontend/runtime.go:523-538 | a report counts only for the current, uncancelled run |
| Lifecycle.Runtime.FinishConnection | native/tgwsproxy/mtproxyfrontend/runtime.go:390-397 | the deferred decrement counts only for the current run |
| Text.DecimalRoundTrip | native/tgwsproxy/tgwsroute/adaptive_codec.go:88-97 | every 64-bit number parses back from its decimal form |
| Text.ClampNearest | native/tgwsproxy/tgwsroute/adaptive_codec.go:88-97 | a number out of range is read as the nearest 64-bit one |
| Text.TrimIs | native/tgwsproxy/tgwsroute/adaptive_codec.go:53-59 | trimming cuts off white space on both sides, nothing else, and leaves none there |
| Text.SplitJoin | native/tgwsproxy/tgwsroute/adaptive_codec.go:50-59 | splitting what was joined gives the parts back if none has the separator |
| RouteStats.StatEntry | native/tgwsproxy/tgwsroute/adaptive_codec.go:53-116 | a statistic's entry, whatever its profile and reason, decodes to its normal form |
| RouteStats.GoodEntry | native/tgwsproxy/tgwsroute/adaptive_codec.go:118-133 | a last good route's entry decodes to its normal form |
| RouteStats.RoundTrip | native/tgwsproxy/tgwsroute/adaptive_codec.go:13-133 | decoding an encoded list gives every entry back, in order, in normal form |
| RouteStats.NormalIff | native/tgwsproxy/tgwsroute/adaptive_codec.go:148-156 | a profile survives exactly when it has no separator and no white space at its end |
| RouteStats.GoodNormalIff | native/tgwsproxy/tgwsroute/adaptive_codec.go:148-156 | a last good route survives exactly when its profile has no separator |
| RouteStats.EncodeRouteStats | native/tgwsproxy/tgwsroute/adaptive_codec.go:13-51 | the two append loops write the text that RoundTrip is about |
| RouteStats.DecodeRouteStats | native/tgwsproxy/tgwsroute/adaptive_codec.go:53-80 | the decoding loop, which skips what does not decode, gives the lists that RoundTrip is about |
| AdaptiveStores.KeyExact | native/tgwsproxy/tgwsroute/adaptive.go:125-131 | a key is the only one with its string exactly when neither its profile nor its route has a bar |
| AdaptiveStores.GoodKeyInjective | native/tgwsproxy/tgwsroute/adaptive.go:133-139 | last-good keys are equal exactly for equal profile, data centre and media flag |
| AdaptiveStores.RunInv | native/tgwsproxy/tgwsroute/adaptive.go:141-226 | in every reachable store, whatever was loaded, every entry sits under its own key |
| AdaptiveStores.StatForExact | native/tgwsproxy/tgwsroute/adaptive.go:141-155 | a lookup never yields the entry of another key, for routes without a bar |
| AdaptiveStores.StatForExactIff | native/tgwsproxy/tgwsroute/adaptive.go:141-155 | over all stores a lookup yields its own key exactly when that key has no bar in profile or route |
| AdaptiveStores.LoadedBarCollides | native/tgwsproxy/tgwsroute/adaptive_codec.go:135-146 | after loading one text into any store, the lookup of a known route yields another profile's entry |
| AdaptiveStores.SaveAndLoad | native/tgwsproxy/tgwsroute/adaptive_codec.go:135-146 | a store saved in any order and loaded into an empty one is as it was, but for separators in failure reasons |
| AdaptiveHistory.EntryAfter | native/tgwsproxy/tgwsroute/adaptive.go:141-226 | over every run without a reset or a load, an entry depends on the events of its own key alone |
| AdaptiveHistory.EntryTells | native/tgwsproxy/tgwsroute/adaptive.go:162-226 | its counts are the numbers of those events, its row of failures begins after the last success, its times and reason are those of the last event of their kind |
| AdaptiveHistory.CountsFromNew | native/tgwsproxy/tgwsroute/adaptive.go:141-226 | from a new store the counts of a key are the numbers of its events, and without any nothing is on record |
| AdaptiveHistory.LastEventTells | native/tgwsproxy/tgwsroute/adaptive.go:162-226 | a success ends the cooldown, a failure starts one exactly when the row has reached the limit; the average moves a quarter of the way to a new latency |
| AdaptiveHistory.ResetForgets | native/tgwsproxy/tgwsroute/adaptive.go:392-409 | a reset of the current profile forgets its entries and no others |
| AdaptiveHistory.GoodAfter | native/tgwsproxy/tgwsroute/adaptive.go:178-185 | the last good route of a place is that of the last success there under its profile |
| AdaptiveStores.AdaptiveStore.FindStat | native/tgwsproxy/tgwsroute/adaptive.go:141-155 | the entry under the key of the current profile, made if missing; nothing else changes |
| AdaptiveStores.AdaptiveStore.RecordSuccess | native/tgwsproxy/tgwsroute/adaptive.go:162-186 | one step of the runs RunInv is about: the entry counts the success, loses its cooldown and averages the latency, and the last good route is replaced |
| AdaptiveStores.AdaptiveStore.RecordFailure | native/tgwsproxy/tgwsroute/adaptive.go:192-226 | one step of the runs RunInv is about: a neutral failure changes nothing, any other is counted and may start a cooldown |
| AdaptiveStores.AdaptiveStore.ResetCurrentProfile | native/tgwsproxy/tgwsroute/adaptive.go:397-409 | exactly the entries of the current profile are removed |
| AdaptiveStores.AdaptiveStore.Snapshot | native/tgwsproxy/tgwsroute/adaptive.go:411-425 | every entry once, in any order |
| AdaptiveStores.AdaptiveStore.LoadEncodedStats | native/tgwsproxy/tgwsroute/adaptive_codec.go:135-146 | the entries of a text replace those under the same key |

## Left out

- Lifecycle.RunsAreIsolated: does not cover `status` and `lastError`, which the listener watchdog and `setFailure` may write from an older run.
- Lifecycle.ActiveNeverBelowLive: does not claim equality, which the code does not promise; DriftIff says when it fails.
- AdaptiveStores.SaveAndLoad: is for known route names, 64-bit numbers and profiles that NormalIff and GoodNormalIff admit; the strategy and the network profile are not saved by the code either.
- RouteStats.RoundTrip: characters are Unicode characters, not the bytes of their encoding.
- WebSocketMessages.Reassembly: is for frames without a close, messages within the limit and pongs that can be written; RecvClose, RecvMessage, MessagesWithinLimit and ClosedForGood say what happens otherwise.
- Reencryption.GenerateRelayObfsInit: the code draws candidates without a bound; here the random source runs out after a finite number of reads, as an error of it would have it.
- UploadResume.ClientResumeIff: is for histories whose earlier Writes met the condition; PrudentIff covers all runs up to the first Write that did not, and after that one ResumeIff says what is safe.
- UploadWindow.ChunkRelayConn.WriteSerial: a round's contexts end at the latest after the events given for it; time-outs are such events.
- DownRelay.ReadsPrefixOfStream: is about the bytes of one connection; poll intervals, deadlines and the choice of Worker are not modelled.
- CfSelection.StableSortIsStable: the library sort is modelled by insertion; RankingIff says that any stable sort gives the same list.
- HTTP clients, TLS dialing, DNS, sockets, request slots, deadlines and back-off times: they enter as results, errors or the order of events.
- AES, SHA-256, HMAC and random generation: arbitrary functions and inputs, so key lengths and cipher errors do not occur.
- Reading the init packet and the fake TLS hello, FakeTLS passthrough and redirect: only their outcome is an input.
- The plaintext check of the Flowseal socket (`acceptRelayMessage`), its Send bookkeeping, and `RawWebSocket.buildFrame`, whose layout is that of the frame builder modelled here.
- Normalisation of domain names and of the cached upstream list, the status strings and logs of the pool and the connector, and the pool's Snapshot.
- 64-bit wrap-around of counters and sequence numbers; machine integers are modelled as unbounded except where the code converts between widths.
- `MergeRouteStats`, whose truncation follows map order, and floating-point route scoring.
- Configuration, destination plans, worker circuit breaker, candidate rotation and poll-wait tiers: one-branch facts.
