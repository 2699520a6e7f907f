# RSocket sessions: a verification model

This project models the stateful protocol core of the `rsocket-ts` monorepo (RSocket Protocol 1.0
for client and server, and the WebTransport mapping RSWT/1) and proves what that core is there to
guarantee. `dafny verify dfyconfig.toml` checks all of it.

Code that changes things step by step is modelled as classes and methods, and every method is tied
to a function of the old state. What the source promises is then proved of those functions, over
every run where the promise is about runs. Code with `await` is cut at its awaits, one method or step
for each uninterrupted piece, so that anything may happen in between.

- **Resume.** `ReplayWindow` is a plain queue of unacknowledged frames, and `ReplayBuffer` the compacting
  table with binary search that refines it. `ResumeProtocol` is the two-party protocol over any number
  of transports, each a pair of FIFO queues of which a prefix arrives; stale RESUME attempts may be
  found late, and `ResumeHistory` what the applications handed over and how all of it arrives.
  `ResumeSessions` holds the two session objects, built on the buffer, and ties each of
  their operations to a protocol step. `PendingQueue` is the coalescing queue of a suspended client.
  `Coordinator` and `ResumeCoordinator` decide which logical session a client keeps.
- **Fragmentation.** `Frames` is what splitting and joining need of a frame, `Fragmentation` the splitter,
  `Reassembly` the joining of fragments and the round trip, `FragmentStores` the two reassemblers.
- **RSWT/1.** `BigEndian` and `Records` are the record framing, `OrderedReceiver` the reorder buffer,
  `WebTransportMapping` routing, queueing, skip markers and lane checks, `WebTransportDelivery` all of it
  from write to delivery over bytes, and `InteractionStreams` the life of bidirectional streams.
  `WriteLane` is the serial writer as a state machine, `WriteLaneRuns` what it promises over runs,
  `NativeWriteLane` the object, and `WebTransportMarkers` ties the markers to the datagram lanes' runs.
- **Demand.** `Demand` and `StreamSubscription` are the requester's response side, `DemandProtocol` puts it
  against a responder that obeys its credit, `ChannelOutbound` is the request-channel publisher.
- **Identifiers and dispatch.** `StreamIds` and `StreamIdAllocator` are the id sequence and its allocation,
  `StreamIdRuns` the runs of both ends, `Interactions` and `InteractionDispatcher` what a server session
  holds for each id, and `InteractionHistory` which events bring that about.
- **Async FIFO.** `ReadQueue` is the queue as a value, `CompactingQueue` the object with its two arrays.

Each part keeps its own view of a frame, holding only what that part of the source looks at.

## Findings

Where the code does less than its comments or the specifications it follows suggest, the model keeps
the code as it is and the exact condition is proved.

- After the id sequence wraps around, a request is accepted exactly if the server still knows every id the
  client passed over and does not know the one it picked (`StreamIdRuns.HandledExactly`). An interaction
  that the client still holds and the server released ends the connection; one that the server still
  holds and the client released makes the server drop the new request as a duplicate, without an answer
  (`StreamIdRuns.StaleStreamDisagrees`). A queued request dropped by CANCEL breaks the sequence at once
  (`StreamIdRuns.DroppedRequestBreaksSequence`).
- A gracefully closing server session ends with its last interaction, except exactly when that
  interaction is removed by an error that does not end a live stream and whose ERROR frame is sent:
  `streamError` unregisters without looking whether the session is idle (`Interactions.LingersExactly`,
  `Interactions.FailedLastStreamLingers`).
- A responder that obeys its credit is reported for undemanded payload, which ends the connection, exactly
  when it completes a stream with a payload of its own in fragments after its credit is used up: the
  first fragment carries FOLLOWS alone, and FOLLOWS asks for credit (`DemandProtocol.ReportedExactly`,
  `DemandProtocol.FragmentedCompletionIsReported`).
- A subscriber that throws from `onNext` after a request of its own failed the stream there is told of an
  error twice (`Demand.TerminatesOnceUnless`, `Demand.ToldTwice`).
- A write lane runs each callback exactly once, except exactly a callback displaced by another one for the
  same packet object, and one discarded behind a callback that throws (`WriteLaneRuns.CallbacksRunOnce`,
  `WriteLaneRuns.LostExactly`, `WriteLaneRuns.DisplacedCallbackIsLost`,
  `WriteLaneRuns.ThrowingCallbackLosesLater`). A throwing callback also hides the failure report
  (`WriteLaneRuns.FailureReportedExactly`, `WriteLaneRuns.ThrowingCallbackHidesFailure`), and a lane
  aborted while a write is pending then writes the rest of its queue (`WriteLaneRuns.ClosedWritesExactly`,
  `WriteLaneRuns.AbortedLaneWritesOn`).
- RESUME offers the token a session was set up with exactly if nothing rotated the token since; a SETUP
  rejected in parallel does, while the session lives (`Coordinator.OfferedTokenExactly`,
  `Coordinator.ParallelRejectionSpoilsResume`).

## Model

| member | source | states |
|---|---|---|
| ReplayWindow.FirstBoundaryIsLeast | rsocket-core-ts/src/resume/index.ts:126-150 | the position lookup of the plain queue finds the least boundary at a position, and finds none only if no boundary is there |
| ReplayWindow.LocateBoundary | rsocket-core-ts/src/resume/index.ts:126-150 | with non-empty frames every retained boundary is found at its own index |
| ReplayWindow.ReplayIsSuffix | rsocket-core-ts/src/resume/index.ts:85-111 | for any position, replay succeeds exactly when the position is a boundary of the retained frames, and then yields exactly the frames from there on; the check beforehand agrees |
| ReplayWindow.ThreadedFirstAvailable | rsocket-core-ts/src/resume/index.ts:40-45 | under a session's own positions the first available position is the acknowledged one |
| ReplayWindow.RecordKeepsThreaded | rsocket-core-ts/src/resume/index.ts:48-72 | recording at the session's position fails only over the cap, and otherwise appends the frame and keeps positions contiguous |
| ReplayWindow.DropKeepsThreaded | rsocket-core-ts/src/resume/index.ts:75-82 | acknowledging a boundary leaves exactly the frames after it |
| ReplayWindow.RecordAppends | rsocket-core-ts/src/resume/index.ts:48-72 | whatever the positions, a recorded frame goes to the end, and it is refused for lack of room exactly over the cap |
| ReplayWindow.AcknowledgeReleases | rsocket-core-ts/src/resume/index.ts:75-82 | an old acknowledgement changes nothing, one at a later boundary releases exactly the frames before it, and any other is refused |
| ReplayBuffer.RSocketReplayBuffer.Record | rsocket-core-ts/src/resume/index.ts:48-72 | refines recording in the plain queue, error by error; under the 16 MiB cap and legal frame lengths the safe-integer refusal cannot happen |
| ReplayBuffer.RSocketReplayBuffer.Acknowledge | rsocket-core-ts/src/resume/index.ts:75-82 | refines acknowledgement, including the refusal of a position that is no boundary |
| ReplayBuffer.RSocketReplayBuffer.CanReplayFrom | rsocket-core-ts/src/resume/index.ts:85-93 | answers whether the plain queue can replay from the position |
| ReplayBuffer.RSocketReplayBuffer.ReplayFrom | rsocket-core-ts/src/resume/index.ts:96-111 | emits exactly the retained suffix at the boundary, whatever frames a write records meanwhile; those are retained in order and left out of the pass |
| ReplayBuffer.RSocketReplayBuffer.FirstAvailablePosition | rsocket-core-ts/src/resume/index.ts:40-45 | the first position of the plain queue |
| ReplayBuffer.RSocketReplayBuffer.PositionIndex | rsocket-core-ts/src/resume/index.ts:126-150 | binary search over offsets finds the boundary the linear search of the queue finds |
| ReplayBuffer.RSocketReplayBuffer.AdvanceHead | rsocket-core-ts/src/resume/index.ts:153-161 | releases the consumed frames and their bytes, and nothing else |
| ReplayBuffer.RSocketReplayBuffer.Compact | rsocket-core-ts/src/resume/index.ts:164-187 | changes the storage and not the queue; afterwards the head is below 256 or at most half the table, and elements moved never exceed elements consumed |
| ReplayBuffer.RSocketReplayBuffer.Clear | rsocket-core-ts/src/resume/index.ts:114-123 | leaves an empty buffer |
| ReplayBuffer.SpanStaysSafe | rsocket-core-ts/src/resume/index.ts:54-64 | with legal frame lengths and a compacted table the recorded span stays far below 2^53 |
| ReplayBuffer.LowerBoundLocates | rsocket-core-ts/src/resume/index.ts:136-149 | the least offset not below a position decides whether the position is a boundary |
| ResumeProtocol.StepKeeps | rsocket-client-ts/src/client/session.ts:606-650 | the two-party invariant survives every send, flush, keepalive, loss, dial, handshake and replay step, and the end of either session at any moment |
| ResumeProtocol.ClientWriteKeeps | rsocket-client-ts/src/client/session.ts:606-650 | recording before writing keeps the invariant whether the write succeeds, fails, or finds the transport closed |
| ResumeProtocol.ClientFinishesKeeps | rsocket-client-ts/src/client/session.ts:830-864 | replaying from the acknowledged position restores a complete stream of frames |
| ResumeProtocol.ServerAcceptsKeeps | rsocket-server-ts/src/session/session.ts:323-375 | a RESUME on any transport, current or stale, keeps the invariant |
| ResumeProtocol.ServerSendsKeeps | rsocket-server-ts/src/session/session.ts:630-659 | so does a frame sent while bound, replaying or suspended |
| ResumeProtocol.ExactlyOnce | rsocket-client-ts/src/client/session.ts:1018-1100 | over every run no position check fails between conforming peers, each side accepted exactly a prefix of what the other recorded, and a live side still retains all the rest |
| ResumeProtocol.NothingLostAtRest | rsocket-server-ts/src/session/session.ts:340-396 | over every run, once both ends share a drained transport everything recorded was accepted |
| ResumeProtocol.ResumeSucceeds | rsocket-client-ts/src/client/session.ts:254-301 | whenever both sides are suspended an uninterrupted attempt reconnects them with exactly the missing frames under way |
| ResumeHistory.ServerTakes | rsocket-server-ts/src/session/session.ts:635-659 | a frame given to a server session that has not ended is recorded and counted, with or without a client, unless it does not fit the cap, which ends the session |
| ResumeHistory.ServerRecordsAll | rsocket-server-ts/src/session/session.ts:630-659 | over every run a server session that has not ended recorded exactly the frames its application sent, in order, and one that has ended a beginning of them |
| ResumeHistory.ClientKeepsAll | rsocket-client-ts/src/client/session.ts:574-650 | over every run a client session that has not ended has recorded or still queues every frame its application sent, each once, and in order unless a send overtook the flush |
| ResumeHistory.EverythingArrives | rsocket-client-ts/src/client/session.ts:254-301 | after any run that leaves both sides suspended, one undisturbed attempt gets across everything the applications ever sent, but for what the client still queues |
| ResumeHistory.KeepaliveReleases | rsocket-client-ts/src/client/session.ts:1177-1180 | between joined ends with nothing under way, one keepalive of either end releases all that the other retains |
| ResumeSessions.RSocketClient.WriteFrame | rsocket-client-ts/src/client/session.ts:606-650 | the session object does to its fields and transport what the protocol step does, using the replay buffer: a frame that is written, or whose write fails, is retained and counts in the position, and the session ends exactly if it does not fit the cap |
| ResumeSessions.RSocketClient.SendFrame | rsocket-client-ts/src/client/session.ts:574-582 | a frame is recorded and written when connected, queued last while suspended or when the transport turns out closed, and dropped once terminated |
| ResumeSessions.RSocketClient.BeginResume | rsocket-client-ts/src/client/session.ts:264-283 | announces the received position and the first position still retained |
| ResumeSessions.RSocketClient.ReceiveResumeOk | rsocket-client-ts/src/client/session.ts:285-288 | does what the protocol step does; from a conforming server the answer is never refused and names exactly what the server accepted |
| ResumeSessions.RSocketClient.ResumeWith | rsocket-client-ts/src/client/session.ts:830-864 | the replay is the protocol's, frame for frame |
| ResumeSessions.RSocketClient.HandleIncoming | rsocket-client-ts/src/client/session.ts:1082-1090 | a frame advances the implied position by its length and is accepted; an acknowledgement releases exactly the retained frames before its position, and one at no boundary is reported |
| ResumeSessions.RSocketClient.LoseTransport | rsocket-client-ts/src/client/session.ts:1326-1342 | suspends and forgets what was buffered from the lost transport |
| ResumeSessions.RSocketServerSession.SendSerialized | rsocket-server-ts/src/session/session.ts:630-659 | until the session has ended every frame is retained and counts in the position, whether the client is there or not, and is then written, held back during a replay, or only retained; the session ends exactly if the frame does not fit the cap, or, with a cap above 16 MiB, the offset table is exhausted |
| ResumeSessions.RSocketServerSession.AcceptsResume | rsocket-server-ts/src/session/session.ts:323-337 | accepts a RESUME exactly when suspended and both positions can be honoured |
| ResumeSessions.RSocketServerSession.AcceptResume | rsocket-server-ts/src/session/session.ts:340-375 | answers RESUME_OK first and then replays what the client is missing, as in the protocol |
| ResumeSessions.RSocketServerSession.FlushResumeOutbound | rsocket-server-ts/src/session/session.ts:672-686 | writes frames produced during the replay without assigning positions again |
| ResumeSessions.RSocketServerSession.TransportLost | rsocket-server-ts/src/session/session.ts:689-702 | suspends unless the session has ended |
| ResumeSessions.RSocketServerSession.HandleIncoming | rsocket-server-ts/src/session/session.ts:513-519 | a frame advances the implied position by its length and is accepted; an acknowledgement releases exactly the retained frames before its position, and one at no boundary is reported |
| PendingQueue.DropStream | rsocket-client-ts/src/client/session.ts:908-920 | the in-place filter leaves exactly the other streams' frames in order and notices an unsent request |
| PendingQueue.JoinDemand | rsocket-client-ts/src/client/session.ts:929-945 | the backward search merges into the stream's newest frame if that is demand, spills beyond 2^31-1, and drops demand after CANCEL |
| PendingQueue.QueueFrame | rsocket-client-ts/src/client/session.ts:903-946 | one queueing step, heartbeats dropped |
| PendingQueue.EnqueueStacks | rsocket-client-ts/src/client/session.ts:903-946 | queueing a frame changes its own stream's part only |
| PendingQueue.StreamsQueueIndependently | rsocket-client-ts/src/client/session.ts:903-946 | under any interleaving each stream's part is what it would be alone |
| PendingQueue.QueueKeepsMeaning | rsocket-client-ts/src/client/session.ts:929-945 | frames other than demand keep their order, every run of demand its exact sum, packed into full frames |
| PendingQueue.NeedsAtLeast | rsocket-client-ts/src/client/session.ts:936-940 | no list of legal REQUEST_N frames carries given sums in fewer frames than the rounded-up quotients |
| PendingQueue.PackedNeeds | rsocket-client-ts/src/client/session.ts:936-940 | a packed queue takes exactly that many |
| PendingQueue.SuspensionKeepsEachStream | rsocket-client-ts/src/client/session.ts:903-946 | over a whole suspension an uncancelled stream keeps its meaning in legal frames, and in no more of them than any other queue with that meaning |
| PendingQueue.CancelLeaves | rsocket-client-ts/src/client/session.ts:908-928 | a cancelled stream leaves nothing exactly if its request was still unsent, otherwise only CANCEL, whatever demand follows |
| PendingQueue.UnsentIsQueued | rsocket-client-ts/src/client/session.ts:917-920 | the queue holds a stream's request exactly if it was queued and not cancelled since |
| PendingQueue.SendPieces | rsocket-client-ts/src/client/session.ts:574-582 | of a frame sent in pieces, those written and those queued again after a loss are all of them, in order, once |
| PendingQueue.FlushPendingFrames | rsocket-client-ts/src/client/session.ts:876-894 | written pieces followed by those still pending are the pieces of the frames so far, also when the transport is lost between two fragments of one frame, and later frames stay pending whole |
| Coordinator.StepKeeps | rsocket-client-ts/src/resume/coordinator.ts:68-221 | the bookkeeping invariant survives every call, timer, settled promise and session event in any order |
| Coordinator.NeverReturnsAbandoned | rsocket-client-ts/src/resume/coordinator.ts:131-176 | in every run a session handed back was neither abandoned nor closed by the coordinator, which no longer holds it |
| Coordinator.NoSilentDrop | rsocket-client-ts/src/resume/coordinator.ts:68-128 | a retained session leaves only by being returned, abandoned or closed, or by being reported again when no longer suspended |
| Coordinator.RetainedIsKept | rsocket-client-ts/src/resume/coordinator.ts:68-91 | in every run a retained session has a token and its own armed timer, and is neither abandoned nor closed |
| Coordinator.FallbackTokenIsNew | rsocket-client-ts/src/resume/coordinator.ts:152-175 | the SETUP after a refused or superseded Resume offers a token newer than the one refused |
| Coordinator.EndedSessionRetiresToken | rsocket-client-ts/src/resume/coordinator.ts:68-144 | a retained session that expires, is reset, disposed, or given up by open or retain takes its token with it |
| Coordinator.TokenChangesExactly | rsocket-client-ts/src/resume/coordinator.ts:68-235 | which events make a new, never used token current; all others keep it, above all retaining another suspended session instead |
| Coordinator.OfferedTokenExactly | rsocket-client-ts/src/resume/coordinator.ts:131-186 | the token offered with RESUME is the one the retained session was set up with exactly if no event since its SETUP was sent rotated the token |
| Coordinator.ParallelRejectionSpoilsResume | rsocket-client-ts/src/resume/coordinator.ts:179-186 | a run in which a rejected SETUP in parallel rotates the token of a live session, so that its RESUME offers one the server never saw |
| Coordinator.LimitedDelayEndsInTime | rsocket-client-ts/src/resume/coordinator.ts:94-106 | a capped delay ends strictly before the deadline, so that the attempt after it can still resume, and is cut only to the last instant before it |
| Coordinator.RetryOffersTheSame | rsocket-client-ts/src/resume/coordinator.ts:168-169 | after a connection failure during Resume the next attempt in time offers the same session and token again, and nothing else changed |
| ResumeCoordinator.RSocketResumeCoordinator.Retain | rsocket-client-ts/src/resume/coordinator.ts:68-91 | a suspended session can be resumed at every time before its deadline and none after, whoever was retained before is abandoned, and a session that cannot be kept leaves nothing to resume and a fresh token |
| ResumeCoordinator.RSocketResumeCoordinator.Abandon | rsocket-client-ts/src/resume/coordinator.ts:109-112 | nothing can be resumed afterwards, the session that was retained is abandoned, and the token stays |
| ResumeCoordinator.RSocketResumeCoordinator.Reset | rsocket-client-ts/src/resume/coordinator.ts:115-118 | the same, and the token is newer than every one there was |
| ResumeCoordinator.RSocketResumeCoordinator.Open | rsocket-client-ts/src/resume/coordinator.ts:131-148 | offers the retained, suspended, unabandoned session with the current token exactly if asked to reconnect while it can resume, otherwise a SETUP with the current token and then nothing retained |
| ResumeCoordinator.RSocketResumeCoordinator.ResumeSucceeded | rsocket-client-ts/src/resume/coordinator.ts:149-167 | unless aborted, the session is handed back exactly if it is still retained, neither abandoned nor closed; otherwise it is abandoned, and a SETUP follows with a newer token |
| ResumeCoordinator.RSocketResumeCoordinator.ResumeFailed | rsocket-client-ts/src/resume/coordinator.ts:168-175 | a retryable failure changes nothing but the attempt; any other gives the session up, and a SETUP follows with a newer token exactly if nothing aborted the attempt |
| ResumeCoordinator.RSocketResumeCoordinator.ConnectSettled | rsocket-client-ts/src/resume/coordinator.ts:179-186 | a new session is recorded with the token of its SETUP, a rejection and nothing else makes a fresh token current, and what is retained stays |
| ResumeCoordinator.RSocketResumeCoordinator.TimerFired | rsocket-client-ts/src/resume/coordinator.ts:199-212 | only the current timer does anything: the session it was armed for is abandoned, nothing can be resumed, and the token is fresh |
| ResumeCoordinator.RSocketResumeCoordinator.Dispose | rsocket-client-ts/src/resume/coordinator.ts:121-128 | the retained session is closed and not abandoned, nothing can be resumed, and the token is fresh |
| ResumeCoordinator.RSocketResumeCoordinator.LimitDelay | rsocket-client-ts/src/resume/coordinator.ts:102-106 | while a session can resume the delay ends before its deadline, cut only to the last instant before it, and it can still resume then |
| Fragmentation.EstimateIsExact | rsocket-core-ts/src/fragmentation/index.ts:63-72 | the length estimated from overhead and sections is the serialized length |
| Fragmentation.SizePiece | rsocket-core-ts/src/fragmentation/index.ts:153-181 | one loop turn fails exactly where the limit leaves no room, and otherwise sizes metadata before data |
| Fragmentation.EmitFragmentFrames | rsocket-core-ts/src/fragmentation/index.ts:132-209 | splitting terminates and is all or nothing: it fails before the first fragment or emits the whole recursive list |
| Fragmentation.EmitSerializedOutboundFrames | rsocket-core-ts/src/fragmentation/index.ts:98-115 | a frame within the limit goes out whole and a larger one split; it fails exactly if its type cannot be split, it has nothing to split, or the limit leaves no room after a header of 6 bytes, 4 more for an initial request count and 3 more for a metadata length |
| Fragmentation.SentAboveThirteen | rsocket-core-ts/src/fragmentation/index.ts:98-115 | every frame that can be split at all is sent at every limit above 13 |
| Fragmentation.OutboundWellFormed | rsocket-core-ts/src/fragmentation/index.ts:98-209 | every emitted frame fits the limit, all but the last announce more, metadata never follows data, and splitting happens exactly above the limit |
| Fragmentation.ContinuationsWellFormed | rsocket-core-ts/src/fragmentation/index.ts:278-339 | the same of the continuations for any rest of metadata and data |
| Reassembly.AppendPartsExtends | rsocket-core-ts/src/reassembly/parts.ts:20-37 | accumulated sections grow by exactly the fragment's sections, and totals stay exact |
| Reassembly.ConcatFragmentBytes | rsocket-core-ts/src/reassembly/parts.ts:40-55 | the copied buffer is the concatenation of the chunks |
| Reassembly.FragmentsAssemble | rsocket-core-ts/src/fragmentation/index.ts:132-209 | the fragments of any frame at any workable limit yield nothing until the last and then the joined frame |
| Reassembly.RoundTrip | rsocket-core-ts/src/reassembly/request.ts:84-142 | whatever is sent for a valid frame arrives as a frame with the same type, stream, request count, flags, metadata presence and bytes, and data; an invalid PAYLOAD is refused |
| Reassembly.StreamsDoNotInterfere | rsocket-core-ts/src/reassembly/index.ts:46-99 | under any interleaving each stream sees what it would see alone |
| Reassembly.InterleavedRoundTrip | rsocket-core-ts/src/reassembly/index.ts:46-99 | so the round trip holds among any other streams' frames |
| FragmentStores.AppendFragmentParts | rsocket-core-ts/src/reassembly/parts.ts:20-37 | pushes the sections step by step, to the accumulated value, or leaves the state alone |
| FragmentStores.PayloadFragments.ReassemblePayloadFrame | rsocket-core-ts/src/reassembly/index.ts:46-99 | updates one stream's entry as the reassembly of that stream says, and no other entry |
| FragmentStores.RequestFragmentAssembler.Start | rsocket-core-ts/src/reassembly/request.ts:53-66 | opens a request sequence, or refuses a second one on the stream |
| FragmentStores.RequestFragmentAssembler.Continue | rsocket-core-ts/src/reassembly/request.ts:84-111 | adds a continuation or yields the rebuilt request, for its own stream only |
| FragmentStores.RequestFragmentAssembler.Rebuild | rsocket-core-ts/src/reassembly/request.ts:125-142 | the original request with joined sections, COMPLETE of a channel taken from the last fragment |
| Records.WriteOrdinal | rsocket-core-ts/src/webtransport/records.ts:186-192 | the eight bytes are the ordinal in network order, all others unchanged |
| Records.ReadOrdinal | rsocket-core-ts/src/webtransport/records.ts:208-214 | the loop computes the number the eight bytes denote |
| BigEndian.NumberOfDigits | rsocket-core-ts/src/webtransport/records.ts:186-228 | writing and then reading a number of the given width returns it |
| BigEndian.DigitsOfNumber | rsocket-core-ts/src/webtransport/records.ts:186-228 | reading and then writing bytes returns them |
| Records.EncodeWebTransportRecord | rsocket-core-ts/src/webtransport/records.ts:22-34 | encodes exactly the frames the limits allow, as header and body |
| Records.WriteLength | rsocket-core-ts/src/webtransport/records.ts:217-221 | the three bytes after the ordinal are the length in network order, all others unchanged |
| Records.EncodedReads | rsocket-core-ts/src/webtransport/records.ts:22-50 | an encoded record is read back whatever follows it |
| Records.ReadEncodes | rsocket-core-ts/src/webtransport/records.ts:104-120 | conversely the bytes of any record read are its encoding |
| Records.ParseContinues | rsocket-core-ts/src/webtransport/records.ts:74-122 | decoding goes on from the buffered rest as if all bytes had come at once, and a failure is final |
| Records.ChunkInvariance | rsocket-core-ts/src/webtransport/records.ts:74-122 | records, failure and buffered bytes depend only on the concatenation of the chunks |
| Records.RoundTrip | rsocket-core-ts/src/webtransport/records.ts:22-122 | decoding concatenated encodings yields the records and continues with the tail |
| Records.DecodedReencodes | rsocket-core-ts/src/webtransport/records.ts:74-122 | a stream that decodes is the encoding of its records and the incomplete rest |
| Records.BoundaryExactly | rsocket-core-ts/src/webtransport/records.ts:125-135 | nothing is buffered exactly when the stream is a concatenation of encoded records |
| Records.SentIsDecoded | rsocket-core-ts/src/webtransport/records.ts:22-122 | records sent are the records decoded for every cutting into chunks |
| Records.PrefixIsDecoded | rsocket-core-ts/src/webtransport/records.ts:74-122 | when the stream is cut off anywhere, what was decoded is a prefix of what was sent, and nothing fails |
| Records.RSocketWebTransportRecordDecoder.Push | rsocket-core-ts/src/webtransport/records.ts:74-122 | the decoder with its two buffers emits, fails and retains what decoding the retained bytes and the chunk yields |
| Records.RSocketWebTransportRecordDecoder.StartPendingBody | rsocket-core-ts/src/webtransport/records.ts:147-154 | takes a header exactly if its length is legal, keeping its bytes recoverable |
| Records.RSocketWebTransportRecordDecoder.AdvanceHeader | rsocket-core-ts/src/webtransport/records.ts:89-102 | completing a retained header byte by byte loses and repeats nothing |
| Records.RSocketWebTransportRecordDecoder.AdvanceBody | rsocket-core-ts/src/webtransport/records.ts:78-87 | nor does completing a retained body, which yields its record when full |
| Records.RSocketWebTransportRecordDecoder.AdvanceChunk | rsocket-core-ts/src/webtransport/records.ts:104-120 | nor does reading straight from the chunk |
| Records.RSocketWebTransportRecordDecoder.EmitPendingBody | rsocket-core-ts/src/webtransport/records.ts:157-170 | yields the record of a full body and retains nothing |
| Records.RSocketWebTransportRecordDecoder.Reset | rsocket-core-ts/src/webtransport/records.ts:138-144 | retains nothing |
| Records.RSocketWebTransportRecordDecoder.PendingIsIncomplete | rsocket-core-ts/src/webtransport/records.ts:74-122 | between chunks no whole record is retained |
| Records.RSocketWebTransportRecordDecoder.BufferedBytes | rsocket-core-ts/src/webtransport/records.ts:67-71 | the reported size covers the retained bytes, is bounded by one record, and is zero exactly on a boundary |
| Records.RSocketWebTransportRecordDecoder.Finish | rsocket-core-ts/src/webtransport/records.ts:125-135 | accepts the end of the stream exactly on a record boundary, and releases everything |
| OrderedReceiver.RSocketWebTransportOrderedReceiver.AcceptRecord | rsocket-core-ts/src/webtransport/ordered.ts:31-47 | the expected record is emitted first of its run, an early one buffered, a late or repeated one dropped, with exact accounting; the limit is exceeded exactly if an early record does not fit it any more |
| OrderedReceiver.RSocketWebTransportOrderedReceiver.Drain | rsocket-core-ts/src/webtransport/ordered.ts:56-65 | the loop emits the longest contiguous run and leaves the rest |
| OrderedReceiver.RSocketWebTransportOrderedReceiver.Clear | rsocket-core-ts/src/webtransport/ordered.ts:50-53 | releases every buffered record and its charge |
| OrderedReceiver.OrderIsRestored | rsocket-core-ts/src/webtransport/ordered.ts:31-65 | for any loss, duplication and reordering one record an ordinal is emitted, in ordinal order, and short of the cap nothing that arrived is forgotten |
| OrderedReceiver.NothingStaysBuffered | rsocket-core-ts/src/webtransport/ordered.ts:31-65 | once all ordinals arrived and the cap held, nothing is buffered or charged |
| OrderedReceiver.FittingNeverOverflows | rsocket-core-ts/src/webtransport/ordered.ts:31-47 | records that fit the limit together never overflow it, in whatever order they arrive |
| WebTransportMapping.MappingConnection.Write | rsocket-core-ts/src/webtransport/connection.ts:173-207 | which frames are accepted, by type and stream id, and on which lane each is queued, once, under the next ordinal; which fire-and-forget requests are tracked as fragmented; a refused frame changes nothing |
| WebTransportMapping.MappingConnection.WriteFireAndForget | rsocket-core-ts/src/webtransport/connection.ts:651-674 | only a whole fire-and-forget request that fits travels as a datagram, any other on the reliable stream, and stream id 0 is refused |
| WebTransportMapping.MappingConnection.WriteByStream | rsocket-core-ts/src/webtransport/connection.ts:196-206 | the control and interaction types: a frame of stream 0 goes to the control stream, any other to its interaction stream |
| WebTransportMapping.MappingConnection.WriteSkipMarker | rsocket-core-ts/src/webtransport/connection.ts:677-684 | the marker of a datagram that was sent or lost is queued last on the control lane under the ordinal of the datagram, unless the session is closing |
| WebTransportMapping.MappingConnection.EmitOrderedRecord | rsocket-core-ts/src/webtransport/connection.ts:571-648 | which records are accepted on which lane, by type and stream id, and which fire-and-forget requests are tracked as fragmented |
| WebTransportMapping.QueuedStandsFor | rsocket-core-ts/src/webtransport/connection.ts:651-713 | every record on a lane is a frame routed to it under its own ordinal, or the marker of a datagram written before |
| WebTransportMapping.AllIsQueued | rsocket-core-ts/src/webtransport/connection.ts:651-713 | every frame written is on its lane, every marker on the control lane |
| WebTransportMapping.RoutedIsAccepted | rsocket-core-ts/src/webtransport/connection.ts:594-648 | a frame routed anywhere is accepted there, and only datagram requests can be skipped |
| WebTransportMapping.AcceptedWhereRouted | rsocket-core-ts/src/webtransport/connection.ts:594-629 | conversely a frame is accepted on a lane exactly if a sender in step could route it there, but for two cases no sender produces |
| WebTransportMapping.TypesByStream | rsocket-core-ts/src/webtransport/connection.ts:945-968 | which types travel with stream id 0, which with any other, and which with both |
| WebTransportMapping.EndsAgree | rsocket-core-ts/src/webtransport/connection.ts:571-733 | over every sequence of writes both ends agree at each ordinal on the fragmented fire-and-forget ids |
| WebTransportMapping.DeliveredInOrder | rsocket-core-ts/src/webtransport/connection.ts:559-742 | from write to delivery: sender's order, one record an ordinal, all accepted, only datagram fire-and-forget skipped |
| WebTransportMapping.AllArrivedAllDelivered | rsocket-core-ts/src/webtransport/connection.ts:559-591 | once the records of the reliable lanes have arrived and the callbacks of the datagrams have run, everything written was delivered and nothing is buffered, whatever became of the datagrams |
| WebTransportMarkers.RestingLaneMarksAll | rsocket-core-ts/src/webtransport/connection.ts:662-684 | a datagram lane at rest or closed has marked every datagram it was given, sent, failed or discarded |
| WebTransportMarkers.ReliableRecordsSuffice | rsocket-core-ts/src/webtransport/connection.ts:559-684 | so the arrival of the reliable records alone delivers everything, over the runs of all datagram lanes |
| WebTransportDelivery.QueuedIsFaithful | rsocket-core-ts/src/webtransport/connection.ts:651-713 | what the mapping queues is, encoded, faithful to what was written |
| WebTransportDelivery.DecodedIsLegit | rsocket-core-ts/src/webtransport/connection.ts:430-513 | a record decoded on a stream is one the mapping queued for its lane, under its ordinal |
| WebTransportDelivery.BytesArriveInOrder | rsocket-core-ts/src/webtransport/connection.ts:430-591 | the same down to bytes: lanes cut into chunks and cut off anywhere, interleaved, with any loss, duplication and reordering of datagrams |
| WebTransportDelivery.AllBytesAllDelivered | rsocket-core-ts/src/webtransport/connection.ts:430-591 | with every stream drained and every datagram marked, all that was written is delivered |
| InteractionStreams.StepKeeps | rsocket-core-ts/src/webtransport/connection.ts:710-757 | streams stay dedicated to their owner under every write and read on either end |
| InteractionStreams.NoStreamIsShared | rsocket-core-ts/src/webtransport/connection.ts:594-648 | in every run no interaction stream carries two stream ids, and ends sharing a stream use it for the same id |
| InteractionStreams.ReadsWhatWasWritten | rsocket-core-ts/src/webtransport/connection.ts:710-733 | over every run, for every stream and direction, the frames read are the first of those written, in order, and the others still wait |
| InteractionStreams.ReleasedExactly | rsocket-core-ts/src/webtransport/connection.ts:834-857 | CANCEL and ERROR end an interaction, and COMPLETE of a payload or channel request does unless it is a channel whose other half goes on |
| InteractionStreams.WriteTracks | rsocket-core-ts/src/webtransport/connection.ts:710-733 | a written frame leaves its interaction with the writer exactly if it does not end it, and touches no other |
| InteractionStreams.ReadTracks | rsocket-core-ts/src/webtransport/connection.ts:627-648 | so does a frame read, with which an interaction unknown to the reader may begin on that stream |
| WriteLane.StepKeeps | rsocket-core-ts/src/webtransport/lane.ts:41-167 | the lane's invariant survives every call, every settled promise and every callback, throwing ones included |
| WriteLaneRuns.WritesInOrder | rsocket-core-ts/src/webtransport/lane.ts:88-122 | in every run the writer is given preface and packets in enqueue order, at most once, one at a time |
| WriteLaneRuns.CallbacksRunOnce | rsocket-core-ts/src/webtransport/lane.ts:41-167 | each callback runs at most once, and exactly once by the time the lane is closed or rests, unless an event of the run lost it: a second callback for the same packet object while it waited, or discarding it behind a callback that throws |
| WriteLaneRuns.LostExactly | rsocket-core-ts/src/webtransport/lane.ts:41-56 | those two guards are exactly when a step loses a callback |
| WriteLaneRuns.DisplacedCallbackIsLost | rsocket-core-ts/src/webtransport/lane.ts:41-48 | a run in which a packet object is enqueued twice and the first callback never runs |
| WriteLaneRuns.ThrowingCallbackLosesLater | rsocket-core-ts/src/webtransport/lane.ts:58-73 | a run in which an aborted lane runs the callback that throws, not the one after it, and keeps its queue |
| WriteLaneRuns.ThrowingCallbackHidesFailure | rsocket-core-ts/src/webtransport/lane.ts:136-154 | a run in which the lane fails and never reports it |
| WriteLaneRuns.FailureReportedExactly | rsocket-core-ts/src/webtransport/lane.ts:136-154 | a failure is reported exactly if the lane fails while no waiting callback throws, and a throwing one, on abort too, is all that leaves the queue in place |
| WriteLaneRuns.ClosedWritesExactly | rsocket-core-ts/src/webtransport/lane.ts:88-122 | in every run a closed lane starts a further write exactly when discarding was cut short by a throwing callback while the drain was in flight, and packets are left |
| WriteLaneRuns.AbortedLaneWritesOn | rsocket-core-ts/src/webtransport/lane.ts:58-111 | a run in which a lane writes its next packet after abort |
| WriteLaneRuns.CallbacksFollowWrites | rsocket-core-ts/src/webtransport/lane.ts:98-104 | unless work was discarded a callback runs only after its packet was written |
| WriteLaneRuns.RestsOnlyWhenWritten | rsocket-core-ts/src/webtransport/lane.ts:111-121 | no wake-up is lost, a graceful close comes after every accepted packet, and at most one failure is reported |
| WriteLane.CompactedStored | rsocket-core-ts/src/webtransport/lane.ts:157-160 | compaction moves packets, not the queue |
| WriteLaneRuns.StorageIsBounded | rsocket-core-ts/src/webtransport/lane.ts:105-109 | in every run an open writing lane stores fewer than 64 packets beyond twice those still to be written |
| NativeWriteLane.RSocketWebTransportWriteLane.Enqueue | rsocket-core-ts/src/webtransport/lane.ts:41-48 | refuses exactly when closed or finishing; otherwise the packet is the last in line, its callback waits, and a lane with its writer is draining |
| NativeWriteLane.RSocketWebTransportWriteLane.FinishCallbacks | rsocket-core-ts/src/webtransport/lane.ts:149-154 | runs the waiting callbacks in the order of the map up to the first that throws, and says whether one did |
| NativeWriteLane.RSocketWebTransportWriteLane.Abort | rsocket-core-ts/src/webtransport/lane.ts:58-73 | closes without a report; each callback that waited has run exactly if none before it threw, and none waits any more |
| NativeWriteLane.RSocketWebTransportWriteLane.Fail | rsocket-core-ts/src/webtransport/lane.ts:136-146 | closes, and on an open lane reports exactly one failure unless a waiting callback throws |
| NativeWriteLane.RSocketWebTransportWriteLane.WriteResolved | rsocket-core-ts/src/webtransport/lane.ts:98-104 | the packet of the write counts as written and every callback that waited for it has run once |
| NativeWriteLane.RSocketWebTransportWriteLane.CallbackReturned | rsocket-core-ts/src/webtransport/lane.ts:105-121 | an open lane writes the next accepted packet if there is one, and rests only if there is none |
| NativeWriteLane.RSocketWebTransportWriteLane.Finish | rsocket-core-ts/src/webtransport/lane.ts:51-55 | a resting lane closes at once with everything written, any other when its queue is written |
| NativeWriteLane.RSocketWebTransportWriteLane.WriterReady | rsocket-core-ts/src/webtransport/lane.ts:76-85 | writes what was accepted meanwhile, from its first packet on, unless the lane was closed |
| NativeWriteLane.RSocketWebTransportWriteLane.DrainRejected | rsocket-core-ts/src/webtransport/lane.ts:113-121 | a rejected write or a throwing callback closes the lane and ends its drain, with no callback waiting and one report at most |
| NativeWriteLane.RSocketWebTransportWriteLane.NativeClosed | rsocket-core-ts/src/webtransport/lane.ts:125-133 | the drain ends with everything accepted written, unless the lane was aborted |
| Demand.AdditionSaturates | rsocket-core-ts/src/flow/index.ts:15-22 | demand addition is commutative, never shrinks the window, and saturates exactly at 2^53-1 |
| Demand.PayloadKeeps | rsocket-client-ts/src/stream/session.ts:538-593 | one payload keeps credit and demand consistent whatever the subscriber calls inside onNext, and reports an error only without credit |
| Demand.PayloadValues | rsocket-client-ts/src/stream/session.ts:538-593 | a payload delivers its own element and no other, and only to a live stream with credit |
| Demand.RequestedKeeps | rsocket-client-ts/src/stream/session.ts:504-513 | a request, first or later, valid or not, on an open or closed session, keeps the accounting and leaves a running stream with credit |
| Demand.ReplenishedKeeps | rsocket-client-ts/src/stream/session.ts:686-703 | refilling after half the window keeps a stream with demand supplied |
| Demand.TerminatesOnceUnless | rsocket-client-ts/src/stream/session.ts:538-593 | an element brings more than one terminal signal exactly if the subscriber throws after a request of its own failed the stream |
| Demand.ToldTwice | rsocket-client-ts/src/stream/session.ts:569-575 | a concrete element after which the subscriber was told of an error twice |
| DemandProtocol.StepKeeps | rsocket-client-ts/src/stream/session.ts:447-713 | the invariant of both ends survives every step of subscriber, session, channel and responder, fragment arrivals included |
| DemandProtocol.CreditIsConserved | rsocket-client-ts/src/stream/session.ts:686-698 | in every run unspent credit, credit under way and elements under way add up to the credit counted, which stays within demand and 2^31-1 |
| DemandProtocol.NeverOverrun | rsocket-client-ts/src/stream/session.ts:706-713 | so a responder that obeys its credit and never splits a payload without NEXT is never reported |
| DemandProtocol.FragmentedCompletionIsReported | rsocket-core-ts/src/fragmentation/index.ts:326-339 | a concrete run in which the requester asks for one element, receives it, and reports the responder for completing the stream in fragments |
| DemandProtocol.ReportedExactly | rsocket-client-ts/src/stream/session.ts:447-454 | in every run of an obeying responder undemanded payload is reported exactly when the first fragment of a payload that only completes the stream arrives at a live stream without credit left, and by no other step |
| DemandProtocol.NeverStarves | rsocket-client-ts/src/stream/session.ts:701-703 | at rest a live stream with demand has a responder still sending and holding credit |
| DemandProtocol.DeliversOnlyDemand | rsocket-client-ts/src/stream/session.ts:504-713 | elements never exceed demand, grants are one request and legal REQUEST_N frames, nothing follows CANCEL |
| DemandProtocol.DeliversWhatWasSent | rsocket-client-ts/src/stream/session.ts:538-593 | over every run the subscriber receives, in order and unchanged, exactly the elements of the replies handled while it listens, a first part of those the responder sent |
| StreamSubscription.RSocketStreamSubscription.Request | rsocket-client-ts/src/stream/session.ts:504-513 | a positive safe integer or positive infinity is counted in full, up to the largest safe integer; the first one sends the request with all of it that one frame carries, a running stream then has all the credit its demand allows, and anything else fails the stream; no element is delivered |
| StreamSubscription.RSocketStreamSubscription.GrantAvailableDemand | rsocket-client-ts/src/stream/session.ts:686-698 | one frame at most fills the window exactly, with the difference, and a failed send takes the credit back |
| StreamSubscription.RSocketStreamSubscription.HandlePayload | rsocket-client-ts/src/stream/session.ts:538-593 | a live stream with credit is handed exactly the element of a NEXT payload, then OnComplete if the payload completes it and it was not cancelled meanwhile; COMPLETE alone is one OnComplete, a malformed payload one OnError and CANCEL, a missing credit is reported; afterwards the stream is supplied, over or reported |
| StreamSubscription.RSocketStreamSubscription.AcceptPayloadFragment | rsocket-client-ts/src/stream/session.ts:447-454 | a supplied live stream refuses exactly a first fragment that carries NEXT or FOLLOWS without any unspent credit, and reports it |
| StreamSubscription.RSocketStreamSubscription.Cancel | rsocket-client-ts/src/stream/session.ts:518-533 | the stream is over, the subscriber is told nothing, CANCEL is sent exactly if the request is out and the session open, nothing follows it, and cancelling again does nothing |
| StreamSubscription.RSocketStreamSubscription.FailOutbound | rsocket-client-ts/src/stream/session.ts:650-666 | a failed publisher ends and disposes the stream, the subscriber is told exactly if it still listened, and ERROR is sent exactly if asked for, the request is out and the session open |
| StreamSubscription.RSocketStreamSubscription.ReplenishDemand | rsocket-client-ts/src/stream/session.ts:701-703 | from half a window down the window is filled again, above it nothing is sent, and a live stream with demand is never left unsupplied |
| StreamSubscription.RSocketStreamSubscription.Fail | rsocket-client-ts/src/stream/session.ts:633-644 | the stream is over with its accounting intact, and the subscriber is told exactly if it still listened |
| StreamSubscription.RSocketStreamSubscription.FailAndCancel | rsocket-client-ts/src/stream/session.ts:716-725 | the same, with CANCEL sent exactly if the peer knows the request and the session is open |
| StreamSubscription.RSocketStreamSubscription.CompleteResponse | rsocket-client-ts/src/stream/session.ts:730-742 | OnComplete is told once, no element follows, and the stream is disposed exactly if cancelled or the publisher is done too |
| StreamSubscription.RSocketStreamSubscription.MarkOutboundComplete | rsocket-client-ts/src/stream/session.ts:495-499 | the publisher's half is done, and the stream is disposed exactly if cancelled or its responses have ended too |
| StreamSubscription.RSocketStreamSubscription.RunCalls | rsocket-client-ts/src/stream/session.ts:504-533 | calls re-entered from onNext act one after the other, deliver nothing, and keep the accounting |
| StreamSubscription.RSocketStreamSubscription.Begin | rsocket-client-ts/src/client/session.ts:707-726 | the request goes out with its initial count, and the difference to the window after it; a request that cannot be sent ends the stream with one OnError |
| ChannelOutbound.StepKeeps | rsocket-client-ts/src/channel/outbound.ts:133-254 | the drain's invariant survives every await, demand, abort and failure |
| ChannelOutbound.SendsTheInput | rsocket-client-ts/src/channel/outbound.ts:153-243 | in every run one REQUEST_CHANNEL, then the next items in order, then COMPLETE only after all of them and last |
| ChannelOutbound.StaysWithinDemand | rsocket-client-ts/src/channel/outbound.ts:187-231 | NEXT payloads never exceed demand received, and at most one item is read ahead |
| ChannelOutbound.ReportsOnce | rsocket-client-ts/src/channel/outbound.ts:203-242 | one outcome at most, success only for the whole input; the iterator is returned at most once, and always when the drain is aborted or over with items still unsent |
| ChannelOutbound.EndNeedsNoCredit | rsocket-client-ts/src/channel/outbound.ts:203-231 | reading ahead lets the end pass without credit |
| ChannelOutbound.SendsAll | rsocket-client-ts/src/channel/outbound.ts:153-243 | from every reachable state, given demand for what is left and no cancellation or failure, all of the input is sent, ended and reported |
| ChannelOutbound.WaitsExactly | rsocket-client-ts/src/channel/outbound.ts:187-231 | the drain waits exactly where it needs demand and has none, also for the end of the input after its first item |
| ChannelOutbound.RequestChannelOutbound.Proceed | rsocket-client-ts/src/channel/outbound.ts:153-243 | one piece of the drain keeps the invariant, sends one frame at most and an item exactly for one credit, and reports success only with the whole input sent |
| ChannelOutbound.RequestChannelOutbound.SendItem | rsocket-client-ts/src/channel/outbound.ts:211-231 | sends the next item of the input for one credit, and reads ahead exactly when it was the last credit |
| ChannelOutbound.RequestChannelOutbound.Begin | rsocket-client-ts/src/channel/outbound.ts:172-184 | the first frame is the request with the first item of the input, or complete for an empty input, which is then reported as sent |
| ChannelOutbound.RequestChannelOutbound.SettleRead | rsocket-client-ts/src/channel/outbound.ts:197-209 | an item waits for credit, the end is sent at once without any and reported, and success is reported only with the whole input sent |
| ChannelOutbound.RequestChannelOutbound.InputFailed | rsocket-client-ts/src/channel/outbound.ts:233-242 | nothing more is sent, and the failure is the one outcome reported, unless the drain was aborted before |
| ChannelOutbound.RequestChannelOutbound.AddDemand | rsocket-client-ts/src/channel/outbound.ts:133-137 | credit is the saturating sum, and unchanged once aborted or for a non-positive amount |
| ChannelOutbound.RequestChannelOutbound.Abort | rsocket-client-ts/src/channel/outbound.ts:142-148 | sends and reports nothing, and the iterator is returned exactly if it was neither aborted nor closed before |
| StreamIds.NthIs | rsocket-core-ts/src/protocol/stream-id.ts:12-15 | within one period the sequence is arithmetic with a single wrap |
| StreamIds.FullPeriod | rsocket-core-ts/src/protocol/stream-id.ts:12-15 | for either parity every legal id comes up exactly once before the sequence repeats |
| StreamIds.SomeIsFree | rsocket-client-ts/src/client/session.ts:742-750 | n open ids leave one of the next n + 1 ids free |
| StreamIdRuns.StepKeeps | rsocket-client-ts/src/client/session.ts:742-760 | each request on the wire starts where the one before it ended, the client held what it passed over, and the first starts where the server stands |
| StreamIdRuns.HandledExactly | rsocket-server-ts/src/session/interactions.ts:368-383 | over every run without a dropped request, past wrap-around too, as long as earlier requests were accepted, a request is ignored exactly if the server still holds its id open, and rejected exactly if the server only discards fragments of that id or no longer knows some id the client passed over |
| StreamIdRuns.StaleStreamDisagrees | rsocket-server-ts/src/session/interactions.ts:368-383 | two runs through all 2^30 ids with one long interaction: the connection ends if the server let it go first, and the request is dropped as a duplicate if the client did |
| StreamIdRuns.NeverRejected | rsocket-server-ts/src/session/interactions.ts:176-179 | in every run, until wrap-around and without a dropped request no request is rejected or ignored, whatever the ends close, discard and forget, and when |
| StreamIdRuns.DroppedRequestBreaksSequence | rsocket-client-ts/src/client/session.ts:908-924 | after any run before wrap-around, a queued request dropped by CANCEL makes the next one end the connection |
| StreamIdAllocator.RequesterIds.AllocateStreamId | rsocket-client-ts/src/client/session.ts:742-750 | returns the first free id and moves past it; fails only with all ids open, and then always |
| StreamIdAllocator.RequesterIds.RollbackUnsentStreamId | rsocket-client-ts/src/client/session.ts:757-760 | the latest id, if certainly unsent, is the very next one allocated; an id whose request may have been sent comes up again only after all others |
| Interactions.StepKeeps | rsocket-server-ts/src/session/interactions.ts:92-195 | the dispatcher's invariant survives every frame and stream signal |
| Interactions.RolesStaySeparate | rsocket-server-ts/src/session/interactions.ts:304-347 | in every run incomplete requests and active streams are disjoint, payload fragments belong to active streams, and an idle session keeps none |
| Interactions.AcceptsExactlyTheFirstFree | rsocket-server-ts/src/session/interactions.ts:368-383 | in every reachable state the one acceptable id is the first free one, and nothing holds it |
| Interactions.LingersExactly | rsocket-server-ts/src/session/session.ts:232-240 | a graceful close misses its end exactly if the only interaction left is removed by an error that does not end a live stream and whose ERROR frame is sent |
| Interactions.FailedLastStreamLingers | rsocket-server-ts/src/session/session.ts:232-234 | a reachable closing session whose last stream fails: it lingers if the ERROR frame is sent, and ends if it cannot be |
| Interactions.OtherInteractionsGoOn | rsocket-server-ts/src/session/interactions.ts:123-143 | no event ends an interaction it is not about, as long as its ERROR frames can be sent |
| InteractionHistory.StepOpens | rsocket-server-ts/src/session/interactions.ts:176-195 | an id becomes an active stream exactly when a whole request is admitted and registered under it or its incomplete request is completed, and an incomplete request exactly when one that announces more is admitted |
| InteractionHistory.StreamsWereWhole | rsocket-server-ts/src/session/interactions.ts:176-315 | over every run an active stream began with a request in one frame, or with one that announced more and was completed by a later fragment, and every incomplete request with one that announced more |
| InteractionHistory.CancelForgets | rsocket-server-ts/src/session/interactions.ts:293-301 | CANCEL or ERROR for an incomplete request forgets it and nothing else, and for an unknown id does nothing |
| InteractionDispatcher.ServerInteractionDispatcher.ValidateNewStreamId | rsocket-server-ts/src/session/interactions.ts:368-383 | the loop ends at the first free id; exactly that id is accepted, nothing holds it, and a duplicate is held |
| InteractionDispatcher.ServerInteractionDispatcher.HandleInitialRequest | rsocket-server-ts/src/session/interactions.ts:176-195 | under the first free id, an admitted request is kept incomplete exactly if it announces more and is otherwise active exactly if a controller registers it, a refused one leaves nothing; a duplicate changes no interaction and any other id ends the session; a closing session never starts to linger, and no other interaction ends while ERROR frames can be sent |
| InteractionDispatcher.ServerInteractionDispatcher.HandlePayload | rsocket-server-ts/src/session/interactions.ts:304-347 | an unknown id changes nothing and an ignored sequence only ends; an incomplete request stays so, becomes a stream or is gone, and an active stream goes on, exactly under the stated conditions; no other interaction ends, and a closing session lingers exactly under the condition stated before the call |
| InteractionDispatcher.ServerInteractionDispatcher.HandleCancelOrError | rsocket-server-ts/src/session/interactions.ts:293-301 | an incomplete request is forgotten, an active stream goes on exactly if it says so, and any other id changes nothing |
| InteractionDispatcher.ServerInteractionDispatcher.IgnoreInvalidRequest | rsocket-server-ts/src/session/interactions.ts:146-153 | a malformed request uses up the expected id, and is ignored from then on exactly if more of it follows |
| InteractionDispatcher.ServerInteractionDispatcher.IgnoreInvalidPayload | rsocket-server-ts/src/session/interactions.ts:154-161 | a malformed payload drops its incomplete request, or its fragments, and then what follows of them |
| InteractionDispatcher.ServerInteractionDispatcher.SkipFireAndForget | rsocket-server-ts/src/session/interactions.ts:169-173 | a lost datagram request with the expected id uses it up and leaves nothing held |
| InteractionDispatcher.ServerInteractionDispatcher.Unregister | rsocket-server-ts/src/session/session.ts:226-229 | forgets one id everywhere and leaves no closing session lingering |
| InteractionDispatcher.ServerInteractionDispatcher.StreamError | rsocket-server-ts/src/session/session.ts:232-240 | forgets one id, ends the session if the ERROR frame cannot be sent, and otherwise lets a closing session linger exactly if the error did not end a live stream and nothing is left |
| InteractionDispatcher.ServerInteractionDispatcher.FinishGracefulCloseIfIdle | rsocket-server-ts/src/session/session.ts:753-757 | afterwards no closing session lingers |
| InteractionDispatcher.ServerInteractionDispatcher.Dispatch | rsocket-server-ts/src/session/interactions.ts:211-283 | keeps the stream exactly if a controller registered it, keeps the invariant, and lingers exactly if a closing session was otherwise idle and the request failed quietly |
| InteractionDispatcher.ServerInteractionDispatcher.ContinueRequest | rsocket-server-ts/src/session/interactions.ts:306-315 | the request stays incomplete exactly if more fragments are to come and none was broken, becomes a stream exactly if it is complete and a controller registers it, and a broken one is gone |
| InteractionDispatcher.ServerInteractionDispatcher.ContinuePayload | rsocket-server-ts/src/session/interactions.ts:316-346 | a fragment is kept exactly while its stream accepts it, it is not broken and more is to come, and the stream goes on exactly if it refuses the fragment, waits for more, or stays after the payload |
| InteractionDispatcher.ServerInteractionDispatcher.Close | rsocket-server-ts/src/session/interactions.ts:137-143 | nothing is known of any interaction afterwards |
| ReadQueue.KthReadGetsKthValue | rsocket-core-ts/src/async/queue.ts:19-55 | in every run the k-th read that yields a value yields the k-th pushed, and until return it does as soon as both exist |
| ReadQueue.AnswersExactly | rsocket-core-ts/src/async/queue.ts:19-82 | the outcome of every read of a consumer that has not returned, from the events alone: the k-th read yields the k-th value pushed before the queue ended, or else how it ended, and waits until then |
| ReadQueue.NobodyWaitsForNothing | rsocket-core-ts/src/async/queue.ts:27-82 | values and waiting reads never coexist, an ended queue leaves no read open, and completion is seen only after all values |
| ReadQueue.SettlesOnce | rsocket-core-ts/src/async/queue.ts:19-82 | no event changes the outcome of a settled read |
| ReadQueue.FlushSettles | rsocket-core-ts/src/async/queue.ts:72-80 | ending answers every waiting read alike and no other |
| CompactingQueue.CompactSlots | rsocket-core-ts/src/async/queue.ts:83-92 | compaction keeps what is still to be read and moves no more than was consumed since the last |
| CompactingQueue.TakeSlot | rsocket-core-ts/src/async/queue.ts:95-103 | reading yields the oldest slot and leaves the rest |
| CompactingQueue.AsyncQueue.StorageIsBounded | rsocket-core-ts/src/async/queue.ts:83-114 | storage stays proportional to what is queued, and elements moved never exceed elements consumed |
| CompactingQueue.AsyncQueue.Push | rsocket-core-ts/src/async/queue.ts:19-24 | answers the oldest waiting read or appends |
| CompactingQueue.AsyncQueue.Next | rsocket-core-ts/src/async/queue.ts:42-53 | takes the oldest value, sees the end, or waits |
| CompactingQueue.AsyncQueue.Complete | rsocket-core-ts/src/async/queue.ts:27-31 | ends the queue once, answering every waiting read |
| CompactingQueue.AsyncQueue.Error | rsocket-core-ts/src/async/queue.ts:34-39 | fails the queue once, rejecting every waiting read |
| CompactingQueue.AsyncQueue.NextWaiter | rsocket-core-ts/src/async/queue.ts:95-114 | takes the oldest waiting read, compacting now and then |
| CompactingQueue.AsyncQueue.FlushTerminal | rsocket-core-ts/src/async/queue.ts:72-80 | answers all waiting reads, compacting on the way |
| CompactingQueue.AsyncQueue.Return | rsocket-core-ts/src/async/queue.ts:56-64 | drops queued values, forgets a failure, and ends every waiting read |

## Left out

- Activity and diagnostic listeners: they are user code that may cut a session short between two statements of it, and with them the replay buffer's optional array of frame objects.
- MIME types, metadata formats, authentication, tracing, logging, browser wake signals and facade options: application bytes are opaque here.
- Socket adapters and the TCP splitter: a transport is a FIFO of which some prefix arrives.
- Timers: expiry, abandoning a session and transport loss are steps that may happen at any moment.
- Leases: admission of a request is an input of the dispatcher.
- User callbacks that re-enter objects other than through `request` and `cancel` in `onNext`, `record` during a replay, and the lane's completion callbacks.
- Server output and channel input: an abstract responder that obeys its credit.
- The upstream bridge of a deferred Flux source, which only forwards signals.
- Frame bodies other than the header fields, sections and request counts that splitting looks at.
- The keepalive data and the lifetime timer; only the position a KEEPALIVE carries matters.
- ResumeSessions.RSocketClient.WriteFrame: takes frames within the negotiated frame length, because longer ones are refused before they reach it.
- ResumeSessions.RSocketClient.SendFrame: queues frames as they are; what queueing merges and drops is the subject of `PendingQueue`.
- ResumeHistory.ClientKeepsAll: promises the order of sending only for runs in which no send overtakes a flush, which in the source takes a send from within a write of the flush.
- ResumeProtocol.ExactlyOnce: a session whose unacknowledged frames exceed its cap ends there, as in the source; nothing is said of it afterwards.
- Records.RSocketWebTransportRecordDecoder.Push: says nothing of a decoder used again after it failed, because the connection is then closed.
- StreamIdRuns.HandledExactly: says nothing of requests after the first one ignored or rejected; and runs stop changing once all 2^30 ids are open at one end, where the source's search for a free id would not end.
- WebTransportMapping.MappingConnection.EmitOrderedRecord: leaves the check that an interaction stream keeps one stream id to `InteractionStreams`, which models those streams.
- WebTransportMapping.DeliveredInOrder: a datagram lane that cannot be acquired after its ordinal was taken is not represented.
- WebTransportDelivery.BytesArriveInOrder: starts after each stream's six-byte preface, whose decoding is not part of this model.
- InteractionStreams.NoStreamIsShared: native streams never fail here; a failed stream ends the connection in the source.
- InteractionStreams.ReadsWhatWasWritten: says nothing of the order between streams, which the ordinals restore before a record is looked at (`OrderedReceiver.OrderIsRestored`).
- InteractionDispatcher.ServerInteractionDispatcher.IgnoreInvalidPayload: takes known ids whose sequence is not ignored already, because the session filters the others out before (`rsocket-server-ts/src/session/session.ts:489-499`).
- Coordinator.NeverReturnsAbandoned: a Resume is taken to hand back the very session it was given.
