# A verified model of the host and client protocol machines

This project models the protocol machines that this repository puts between its hosts and its clients, and proves what
they keep over every run. Each machine is a module; a module ending in `Runs`, `Simulation`, `Trace`, `Wire`,
`Ends`, `Repeats`, `Links` or `Laws` holds the theorems about it. `dafny verify dfyconfig.toml` checks everything.

- `SessionFollow` is the session-follow stream encoder. Its legacy side turns a durable event log into the log plus
  bracketed transient attempts; its current side is a strict validator of that protocol. `SessionFollowSimulation` proves
  that the validator accepts what the legacy side emits, that erasing what was added gives back the input, and that the
  chain of both is the identity. `SessionFollowTrace` says which traces the validator accepts without mentioning its state.
- `AggregateView` merges many hosts into one client stream of a baseline and increments, with a difference burst when a
  host reconnects. `AggregateRuns` proves that a client folding the stream always sees the merge of the hosts' views, and
  when it sees it in the same order. `AggregateEnds` says when a stream ends, `AggregateRepeats` and
  `AggregateRepeatsRuns` what happens when a host lists an id twice.
- `LateRows` is the publication of session lists that arrive after their caller gave up; `LateRowsRuns` proves that only
  fresh rows reach the clients, and that every fresh row does.
- `CompositeId` is the codec of composite host identities, over the UTF-8 encoder and decoder of `Unicode`.
- `FairSender` is the round-robin sender of one socket, `StreamMux` the life of the streams above it. `FairSenderRuns`,
  `StreamMuxRuns` and `StreamMuxWire` prove exact accounting, bounded waiting, and what one stream looks like on the wire.
- `AssistantCache` maps raw assistant revisions to one rising public revision and keeps a replayable baseline;
  `AssistantCacheRuns` proves that frames and baselines agree on every run.
- `DeltaSync` reads bounded deltas from a controller it does not trust, `DeltaSyncRuns` proves that repeated deltas
  converge on a growing log, and `HistoryWalk` that walking the history backwards visits every event once.
- `Bootstrap` is the scheduler of expensive reads, `Subscriber` the bounded queue of one live subscriber, `DetailPaging`
  the paging of long fields and their cache.
- `WireConversion` and `WireHistory` are the conversions between the legacy and the current event formats, with the exact
  condition under which a round trip is the identity; `WirePages` converts a page of history, whose messages embed the
  chunks that came before them.
- `WriteQueue` is the per-session write queue with its latch for unknown outcomes, `BoundedReader` the chunked reads of a
  log that may grow meanwhile.

A module ending in `Laws` says what the single operations do, in every reachable state and without naming the functions that
compute it: which frames come when, what they contain, which limit or version decides, and which error is given. The theorems
over runs say what follows from that. `AggregateLinks` does the same for the connections and the queue of the aggregate.

A machine that the source keeps in an object or a closure is a class here, with the same fields, and each of its methods is
proved equal to a step function on the values of those fields. The theorems are about these step functions, composed over
arbitrary sequences of steps. Promises, timers and callbacks are steps that may come in any order; JSON sizes are
uninterpreted functions; a controller is a function that answers calls, and a theorem that needs it to be honest says so.
References to shared objects are numbers where identity matters: session-state objects in `Bootstrap`, connection
generations in `LateRows`, tracked promises in `WriteQueue`.

## Model

| member | source | states |
|---|---|---|
| `SessionFollow.OpeningAttempt` | packages/runtime-interface/src/browser-stream.js:154-179 | the loop over the snapshot's records gives no opening, the opening made of the trailing chunks, or the bound error, as their number says |
| `SessionFollow.TrailingChunksAreTheLastRun` | packages/runtime-interface/src/browser-stream.js:154-168 | those chunks are exactly the chunks of the longest run the records end with: no settlement, turn start or step start inside, one turn and step throughout |
| `SessionFollow.LegacyAttemptIdBounded` | packages/runtime-interface/src/browser-stream.js:250-255 | a generated attempt id is non-empty, short and free of NUL, so the current protocol's identity check accepts it |
| `SessionFollow.Encoder.constructor` | packages/runtime-interface/src/browser-stream.js:194-216 | a new encoder has seen nothing and keeps the versions, the opt-in and the chunk bound it was made with |
| `SessionFollow.Encoder.Abandon` | packages/runtime-interface/src/browser-stream.js:234-248 | closes the open attempt with one abandoned end of the next revision, or does nothing when there is none |
| `SessionFollow.Encoder.StartAttempt` | packages/runtime-interface/src/browser-stream.js:250-270 | opens an attempt named after the next durable seq, with one start frame of the next revision |
| `SessionFollow.Encoder.PushLegacyFrame` | packages/runtime-interface/src/browser-stream.js:290-354 | a pushed legacy frame changes the closure exactly as the legacy step function says, and returns or throws the same |
| `SessionFollow.Encoder.PushLegacyChunk` | packages/runtime-interface/src/browser-stream.js:312-321 | a durable chunk: abandon on a change of step, start when none is open, one chunk frame, then the event |
| `SessionFollow.Encoder.PushLegacyOther` | packages/runtime-interface/src/browser-stream.js:323-353 | any other event: abandon at a boundary, the event, then a committed or abandoned end for a settlement |
| `SessionFollow.Encoder.PushCurrentFrame` | packages/runtime-interface/src/browser-stream.js:374-430 | a pushed current frame is validated and changes the closure exactly as the validator's step function says |
| `SessionFollow.Encoder.PushCurrentTransient` | packages/runtime-interface/src/browser-stream.js:392-417 | a transient frame is rejected with the closure as the source leaves it, or moves revision, index, pending settlements and attempt |
| `SessionFollow.Encoder.Push` | packages/runtime-interface/src/browser-stream.js:432-439 | the public entry: closed encoders throw, without the opt-in frames are only mapped, else the source version decides the side |
| `SessionFollow.Encoder.Close` | packages/runtime-interface/src/browser-stream.js:441-445 | closing is final and forgets the open attempt |
| `SessionFollowSimulation.LegacyOutputIsAccepted` | packages/runtime-interface/src/browser-stream.js:290-430 | simulation: for every input the legacy side does not reject, a fresh current-mode encoder with the same chunk bound returns the legacy output unchanged if and only if the last revision is still a safe integer |
| `SessionFollowSimulation.LongRunsAreAccepted` | packages/runtime-interface/src/browser-stream.js:229-232 | that condition holds for every connection of fewer than 3 * 10^15 frames |
| `SessionFollowSimulation.FollowsStep` | packages/runtime-interface/src/browser-stream.js:290-430 | one pushed frame, from any reachable legacy state: the validator accepts what it emits and ends in the corresponding state |
| `SessionFollowSimulation.FollowsSettlement` | packages/runtime-interface/src/browser-stream.js:333-352 | a settlement followed by its committed end: the first makes the settlement pending, the second consumes it |
| `SessionFollowSimulation.LegacyOutputErasesToInput` | packages/runtime-interface/src/browser-stream.js:290-354 | erasure: deleting the transient frames and the snapshot's added field from the output gives back the input in order |
| `SessionFollowSimulation.LegacyTargetErases` | packages/runtime-interface/src/browser-stream.js:218-227 | serving a legacy browser differs from serving a current one by that erasure alone |
| `SessionFollowSimulation.ChainIsIdentity` | packages/runtime-interface/src/index.js:554-577 | the production chain, legacy host to current protocol to legacy browser, returns the input frames |
| `SessionFollowSimulation.ChunkFramesMatchDurableChunks` | packages/runtime-interface/src/browser-stream.js:312-321 | the chunk frames after the snapshot are the durable legacy chunks, one for one and in order |
| `SessionFollowTrace.AcceptedIffWellBracketed` | packages/runtime-interface/src/browser-stream.js:356-430 | the validator accepts exactly the traces in which every frame is in place with respect to the frames before it: contiguous revisions, matching indices, one open attempt, each committed end matched by an unconsumed settlement of that attempt, no abandoned end over one |
| `SessionFollowTrace.LegacyOutputIsWellBracketed` | packages/runtime-interface/src/browser-stream.js:290-354 | every trace the legacy side emits within the safe integers is well bracketed |
| `FairSender.FairSocketSender.constructor` | packages/browser-host-hub-rc1/src/stream-mux.js:40-47 | a new sender is idle and keeps its limits |
| `FairSender.FairSocketSender.EnqueueFrame` | packages/browser-host-hub-rc1/src/stream-mux.js:49-76 | accepts, refuses or reports an overflow as the limits say, and hands over the next frame when none is in flight |
| `FairSender.FairSocketSender.DropStream` | packages/browser-host-hub-rc1/src/stream-mux.js:78-88 | forgets the stream's waiting frames and their bytes, keeping the frame in flight accounted |
| `FairSender.FairSocketSender.DrainReady` | packages/browser-host-hub-rc1/src/stream-mux.js:106-145 | hands the first ready stream's oldest frame to the socket, unless one is in flight |
| `FairSender.FairSocketSender.OnSent` | packages/browser-host-hub-rc1/src/stream-mux.js:118-137 | the send callback: bytes released, the stream asks for another turn or is forgotten, the next frame is handed over; a failed send closes the sender |
| `FairSender.FairSocketSender.CloseSender` | packages/browser-host-hub-rc1/src/stream-mux.js:90-95 | closing empties the queues, the ready list and the byte count |
| `FairSenderRuns.ReachableStatesAreExact` | packages/browser-host-hub-rc1/src/stream-mux.js:49-145 | in every reachable state a stream with waiting frames that is not in flight is exactly once in the ready list, both levels of byte counts are exact and within their limits, and the socket is never idle while a frame waits |
| `FairSenderRuns.NextKeeps` | packages/browser-host-hub-rc1/src/stream-mux.js:49-145 | each of enqueue, drop, send completion and close keeps that invariant, forced terminal frames after a drop in flight included |
| `FairSenderRuns.BoundedBypass` | packages/browser-host-hub-rc1/src/stream-mux.js:49-145 | from any moment at which a stream has a frame waiting, another of its own in flight or not: until its next frame is sent no other stream is sent twice |
| `FairSenderRuns.BypassFromReady` | packages/browser-host-hub-rc1/src/stream-mux.js:49-145 | while a ready stream waits, the turns taken are distinct and belong to streams that were ahead of it |
| `FairSenderRuns.BypassFromFlight` | packages/browser-host-hub-rc1/src/stream-mux.js:118-137 | while its own frame is in flight nothing is sent; from the moment that lands the stream waits like any ready one, behind those ready then |
| `FairSenderRuns.TurnComes` | packages/browser-host-hub-rc1/src/stream-mux.js:106-145 | its turn comes after at most as many sends as there were streams ahead of it, or, if its own frame was in flight, as were ready when that landed |
| `FairSenderRuns.FramesConserved` | packages/browser-host-hub-rc1/src/stream-mux.js:49-145 | unless dropped, a stream's accepted frames are sent and still waiting in the order they were accepted, none lost or doubled |
| `StreamMux.StreamSocket.constructor` | packages/browser-host-hub-rc1/src/stream-mux.js:149-161 | a new socket is open, with no stream and an idle sender |
| `StreamMux.StreamSocket.AcceptStreamId` | packages/browser-host-hub-rc1/src/stream-mux.js:207-219 | an id is accepted when its base-36 number exceeds the last one behind the same prefix; then both are remembered |
| `StreamMux.StreamSocket.StartStream` | packages/browser-host-hub-rc1/src/stream-mux.js:229-252 | an open request is refused with an error frame, fails the socket, or adds one pumping stream |
| `StreamMux.StreamSocket.PumpStream` | packages/browser-host-hub-rc1/src/stream-mux.js:253-267 | one turn of a stream's loop: an item is queued, overflows, or finds the socket gone; the end and an error end the stream |
| `StreamMux.StreamSocket.EndStream` | packages/browser-host-hub-rc1/src/stream-mux.js:181-190 | a live stream is marked terminal, its iterator is returned on an error, its last frame is forced into the queue, and only then does it leave the table |
| `StreamMux.StreamSocket.CloseIterator` | packages/browser-host-hub-rc1/src/stream-mux.js:163-170 | a record's iterator is returned unless it has been |
| `StreamMux.StreamSocket.OnOverflow` | packages/browser-host-hub-rc1/src/stream-mux.js:191-204 | a socket overflow fails the socket; a stream overflow drops the waiting frames and ends the stream with an error |
| `StreamMux.StreamSocket.Cancel` | packages/browser-host-hub-rc1/src/stream-mux.js:221-228 | a cancelled stream leaves the table, its waiting frames are dropped and its iterator is returned |
| `StreamMux.StreamSocket.SendForced` | packages/browser-host-hub-rc1/src/stream-mux.js:54-62 | a frame of the socket's own that cannot be queued fails the socket |
| `StreamMux.StreamSocket.SendFinished` | packages/browser-host-hub-rc1/src/stream-mux.js:118-142 | a send callback that reports an error fails the socket |
| `StreamMux.StreamSocket.Fail` | packages/browser-host-hub-rc1/src/stream-mux.js:171-180 | every record of the table whose iterator has not been returned is returned and the sender is closed, once |
| `StreamMuxRuns.RunKeeps` | packages/browser-host-hub-rc1/src/stream-mux.js:149-284 | the invariant of every reachable socket: rising ids, no iterator returned twice, terminal frames last, and the sender's own invariant inside |
| `StreamMuxRuns.IdsAreNeverReused` | packages/browser-host-hub-rc1/src/stream-mux.js:207-219 | no stream id is opened twice in the life of a socket |
| `StreamMuxRuns.StreamsEndOnce` | packages/browser-host-hub-rc1/src/stream-mux.js:181-190 | at most one terminal frame is accepted per stream, and after it only refusals of requests under its id |
| `StreamMuxRuns.NothingLeaks` | packages/browser-host-hub-rc1/src/stream-mux.js:163-190 | in every reachable state the iterator of a live stream has not been returned and that of a stream that is over has been exactly once; one that ended by itself is returned, once, if and only if its own end frame failed the socket; a failed socket has no live stream |
| `StreamMuxRuns.EndedShape` | packages/browser-host-hub-rc1/src/stream-mux.js:181-190 | when a stream's last frame fails, in terms of limits, counts and the send; only an iterator that ended by itself notices that the record is still in the table then |
| `StreamMuxRuns.AnEndedIteratorIsReturned` | packages/browser-host-hub-rc1/src/stream-mux.js:181-190 | such a run: the stream's queue is full with the frame in flight when its iterator ends |
| `StreamMuxWire.OneStreamOnTheWire` | packages/browser-host-hub-rc1/src/stream-mux.js:49-284 | what the socket was handed under any id, in order of acceptance: a prefix of what was accepted before the stream's end, then what was accepted from the end on, at most one terminal frame among it; refusals under the id stand where they were accepted; something is left out before the end only after a cancel or an overflow |
| `StreamMuxWire.OneStreamUnrefused` | packages/browser-host-hub-rc1/src/stream-mux.js:49-284 | under an id that no request was refused for, that is a prefix of the stream's items and at most its one terminal frame |
| `StreamMuxWire.CancelledStaysSilent` | packages/browser-host-hub-rc1/src/stream-mux.js:221-228 | from a cancel on, over every continuation of the run, nothing more of the stream is handed to the socket |
| `AggregateView.MergeBaselines` | packages/browser-host-hub-rc1/src/index.js:684-721 | merging keeps the first workspace of each id in order, the first occurrence of each archived id, and every control entry |
| `AggregateView.MergeWorkspaces` | packages/browser-host-hub-rc1/src/index.js:684-703 | the workspace merge's loops compute that list |
| `AggregateView.MergeControls` | packages/browser-host-hub-rc1/src/index.js:705-719 | the control merge's loops compute those maps |
| `AggregateView.ReplacementIncrements` | packages/browser-host-hub-rc1/src/index.js:751-778 | the increments between a host's old and new baseline, in any key order; none exactly when a projection key vanished |
| `AggregateView.AggregateStream.constructor` | packages/browser-host-hub-rc1/src/index.js:1692-1706 | a new aggregate has no host view and has sent nothing |
| `AggregateView.AggregateStream.OnDeadline` | packages/browser-host-hub-rc1/src/index.js:1710-1722 | when the deadline passes with some hosts missing, the merge of those present seeds the client |
| `AggregateView.AggregateStream.Deliver` | packages/browser-host-hub-rc1/src/index.js:1725-1749 | one dequeued packet: first baseline, replacement burst, end of stream, or forwarded increment |
| `AggregateView.AggregateStream.DeliverIncrement` | packages/browser-host-hub-rc1/src/index.js:1740-1748 | an increment is applied to its host's view and forwarded, order and archive frames rewritten to the merge's |
| `AggregateView.AggregateStream.DeliverReplacement` | packages/browser-host-hub-rc1/src/index.js:1735-1739 | a later baseline becomes the difference burst, or ends the stream |
| `AggregateRuns.ClientSeesMerge` | packages/browser-host-hub-rc1/src/index.js:684-778 | view agreement: along every interleaving, a client folding what it was sent holds the merge of the hosts' current views (workspaces as an id map, archived ids exactly, queues, jobs and projection values by lookup), and in the merge's order while no new workspace landed out of place |
| `AggregateRuns.UpsertOrder` | packages/browser-host-hub-rc1/src/index.js:723-730 | an upsert leaves the client in the merge's order if and only if the workspace is known or no later host has workspaces |
| `AggregateRuns.OrderAgrees` | packages/browser-host-hub-rc1/src/index.js:732-737 | an order frame of the merge's ids restores the merge's order whatever order the client had |
| `AggregateRuns.WorkspaceReplacementAgrees` | packages/browser-host-hub-rc1/src/index.js:751-760 | a workspace replacement burst takes the client to the new merge, order included |
| `AggregateRuns.ControlReplacementAgrees` | packages/browser-host-hub-rc1/src/index.js:764-777 | a control replacement burst takes every lookup to the new merge's |
| `AggregateEnds.StreamEnds` | packages/browser-host-hub-rc1/src/index.js:764-767 | over every run the stream has ended exactly if some replacement of a control baseline lacked a projection key of the one before, and nothing is sent from then on |
| `AggregateEnds.NeverStalls` | packages/browser-host-hub-rc1/src/index.js:1673-1749 | in every reachable state that has not ended, whatever waits first in the queue can be delivered; no increment of a host without a view is ever met |
| `AggregateRuns.IncrementAgrees` | packages/browser-host-hub-rc1/src/index.js:1740-1748 | a forwarded increment keeps client and merge in agreement |
| `AggregateRepeats.OrderAgreesIff` | packages/browser-host-hub-rc1/src/index.js:732-737 | with repeated ids in the hosts' lists and in the frame: after a host's order frame the client sees the merge if and only if, for each id of the frame, the host's first and last workspaces of that id are the same |
| `AggregateRepeats.BurstAgreesIff` | packages/browser-host-hub-rc1/src/index.js:751-760 | after a late or reconnected host's burst the client sees the merge if and only if, for each id of the new baseline, its first and last workspaces of that id are the same |
| `AggregateRepeats.FindAfterBurst` | packages/browser-host-hub-rc1/src/index.js:751-760 | what a client finds after a burst: the last workspace of each id of the new baseline, nothing under the ids that are gone, the rest as before |
| `AggregateRepeatsRuns.OtherIncrement` | packages/browser-host-hub-rc1/src/index.js:723-739 | upserts, removals and archive frames keep agreement, repeats or not |
| `AggregateRepeatsRuns.LooseStep` | packages/browser-host-hub-rc1/src/index.js:1710-1749 | from a state in which the client sees the merge, a step keeps that exactly if it does not deliver a harmful order frame or baseline |
| `AggregateRepeatsRuns.SeesMergeIffHarmless` | packages/browser-host-hub-rc1/src/index.js:684-778 | over every run, whatever ids the hosts repeat: the client sees the merge in every state if and only if no step delivers a harmful order frame or baseline |
| `AggregateRepeatsRuns.ClientIsFold` | packages/browser-host-hub-rc1/src/index.js:1710-1749 | in such a run the client's value is the fold of the frames it was sent |
| `AggregateRepeats.RepeatedIdsDisagree` | packages/browser-host-hub-rc1/src/index.js:732-737 | so a host that lists one id with two workspaces and orders by it separates client and merge |
| `AggregateRepeats.RepeatedBaselineDisagrees` | packages/browser-host-hub-rc1/src/index.js:751-760 | so does a late or reconnected host whose baseline lists one id with two workspaces, without any order frame |
| `LateRows.SessionListTables.constructor` | packages/browser-host-hub-rc1/src/index.js:1345-1348 | the hub starts with empty tables |
| `LateRows.SessionListTables.BumpVersion` | packages/browser-host-hub-rc1/src/index.js:1484-1492 | an event or projection of a session raises its version by one |
| `LateRows.SessionListTables.CaptureTargets` | packages/browser-host-hub-rc1/src/index.js:1525-1533 | the targets are the ready connections of the open clients, each with the versions of the moment |
| `LateRows.SessionListTables.BeginRefresh` | packages/browser-host-hub-rc1/src/index.js:1556-1566 | a list request joins the refresh of the same key that is still known, or begins one with captured versions and targets |
| `LateRows.SessionListTables.RegisterTargets` | packages/browser-host-hub-rc1/src/index.js:1535-1542 | a connection that becomes ready joins every unfinished refresh of its host once, with that refresh's own versions |
| `LateRows.SessionListTables.CompleteRefresh` | packages/browser-host-hub-rc1/src/index.js:1567-1576 | a list that arrives after its caller gave up is offered row by row to each target |
| `LateRowsRuns.LateRowsAreFresh` | packages/browser-host-hub-rc1/src/index.js:1544-1576 | freshness: every open client with a ready connection to the host is given exactly the listed sessions for which nothing was recorded since the refresh began and which are not archived, under the connection's current generation; other clients get nothing |
| `LateRowsRuns.RunKeeps` | packages/browser-host-hub-rc1/src/index.js:1484-1576 | in every reachable state versions count the recorded events, each refresh carries the versions of its beginning, and every ready connection is a target of it once |
| `LateRowsRuns.EveryRowWasFresh` | packages/browser-host-hub-rc1/src/index.js:1544-1576 | over every run a client has, waiting or delivered, only rows that some late list call published to it while they were fresh, listed, not archived, and under its ready generation |
| `LateRowsRuns.RowsArriveCurrent` | packages/browser-host-hub-rc1/src/index.js:1845-1848 | over every run each row was handed over while the generation it was published under was still the client's ready one |
| `CompositeId.DecodeEncode` | packages/browser-host-hub-rc1/src/index.js:222-233 | decoding inverts encoding for every byte string |
| `CompositeId.EncodeDecode` | packages/browser-host-hub-rc1/src/index.js:228-233 | a segment decodes unless a single letter is left over, and re-encodes to itself exactly when its pad bits are zero |
| `CompositeId.CompositeRoundTrip` | packages/browser-host-hub-rc1/src/index.js:236-250 | a pair of non-empty ids has a composite id that decodes to it if and only if neither has a surrogate or a leading byte order mark |
| `CompositeId.AcceptedIffCanonical` | packages/browser-host-hub-rc1/src/index.js:242-250 | an id is accepted if and only if it is the prefix and two canonical segments, each the UTF-8 form of a non-empty text without a leading byte order mark |
| `Unicode.TextRoundTrip` | packages/browser-host-hub-rc1/src/index.js:236-248 | text comes back from its encoder and decoder if and only if it has no surrogate and no leading byte order mark (section 3 of RFC 3629) |
| `Unicode.BytesRoundTrip` | packages/browser-host-hub-rc1/src/index.js:242-249 | bytes come back from the decoder and encoder if and only if they are the UTF-8 form of such a text |
| `CompositeId.IdsArePairs` | packages/browser-host-hub-rc1/src/index.js:236-250 | an id is accepted as a pair exactly if it is that pair's encoding and both texts are encodable: accepted ids and encodable pairs stand one for one |
| `AssistantCache.MobileAssistantStream.constructor` | packages/runtime-interface/src/mobile-assistant-stream.js:276-280 | a new cache holds no session and no attempt |
| `AssistantCache.MobileAssistantStream.IngestFrame` | packages/runtime-interface/src/mobile-assistant-stream.js:304-352 | ingest changes the session and the attempt count, and answers, exactly as its specification says |
| `AssistantCache.MobileAssistantStream.IngestStart` | packages/runtime-interface/src/mobile-assistant-stream.js:319-327 | a start within the limits opens an attempt, retires the old one and installs the new offset |
| `AssistantCache.MobileAssistantStream.IngestChunk` | packages/runtime-interface/src/mobile-assistant-stream.js:330-336 | a chunk at the next index within the byte limit is appended |
| `AssistantCache.MobileAssistantStream.IngestEnd` | packages/runtime-interface/src/mobile-assistant-stream.js:337-342 | an end at the next index retires and closes the attempt |
| `AssistantCache.MobileAssistantStream.Baseline` | packages/runtime-interface/src/mobile-assistant-stream.js:354-388 | an incoming baseline is installed, refused or answered from the live attempt as its specification says |
| `AssistantCache.MobileAssistantStream.DisposeSession` | packages/runtime-interface/src/mobile-assistant-stream.js:398-403 | disposing forgets the session and releases its attempt |
| `AssistantCache.MobileAssistantStream.Reset` | packages/runtime-interface/src/mobile-assistant-stream.js:405-408 | a reset forgets everything |
| `AssistantCache.ExpandCompactStream` | packages/runtime-interface/src/mobile-assistant-stream.js:202-224 | the expansion of compact records, or an overflow exactly when a running time leaves the safe integers |
| `AssistantCache.ExpandRun` | packages/runtime-interface/src/mobile-assistant-stream.js:208-222 | the loop over one packed run, with its running time |
| `AssistantCacheRuns.IngestAgrees` | packages/runtime-interface/src/mobile-assistant-stream.js:304-352 | an emitted frame takes the previous public baseline exactly to the next; ignored and throwing calls leave the session and the attempt count unchanged; other sessions never move |
| `AssistantCacheRuns.InstallAgrees` | packages/runtime-interface/src/mobile-assistant-stream.js:354-388 | a baseline answer is the session's baseline afterwards, never lowers the revision, never replaces a live attempt, and a throwing call changes nothing |
| `AssistantCacheRuns.ClientHoldsBaseline` | packages/runtime-interface/src/mobile-assistant-stream.js:254-258 | over any run of ingests, baselines, disposals and resets a strict client of one session holds the cache's baseline |
| `AssistantCacheRuns.ReachableCachesAreExact` | packages/runtime-interface/src/mobile-assistant-stream.js:230-252 | in every reachable cache the attempt count is the number of sessions with an attempt and within its limit, and each attempt's bytes and next index are those of its chunks and within theirs |
| `AssistantCacheRuns.RevisionsCountUp` | packages/runtime-interface/src/mobile-assistant-stream.js:314-317 | until the session is disposed, emitted frames carry public revisions rising by exactly one, source restarts included |
| `AssistantCacheRuns.ExpansionShape` | packages/runtime-interface/src/mobile-assistant-stream.js:202-224 | a packed run expands to one chunk per value |
| `AssistantCacheRuns.RunMembersGaps` | packages/runtime-interface/src/mobile-assistant-stream.js:209-216 | consecutive members of a run lie exactly its gaps apart |
| `DeltaSync.DedupeAndSort` | packages/mobile-session-sync-rc1/src/index.js:593-605 | one entry per seq in range in ascending order, or a conflict exactly when two different entries share a seq in range |
| `DeltaSync.ScanPages` | packages/mobile-stream-compat-rc1/src/index.js:189-240 | which pages are read, each below the least seq of the one before, and what ends the loop: the asked seq or the origin is reached, or the reason it stops for (page bound, malformed answer, first unusable record, empty page with more to come); of an honest log everything back to the asked seq is gathered, and the loop gives up exactly when that takes more pages than allowed |
| `DeltaSync.GatherRecords` | packages/mobile-stream-compat-rc1/src/index.js:161-258 | the records gathered or the reason there are none, for any controller: a client ahead of the log, the first unusable record, a snapshot that misses its own cursor, or the end of the scan; an honest live controller is answered with every due event unless the client is ahead of the log or the scan is too long |
| `DeltaSync.ReadSessionDelta` | packages/mobile-stream-compat-rc1/src/index.js:124-285 | on the records gathered the first up to the limit are delivered in order, or a conflict is reported; of an honest log these are the first due events, throughSeq is the last of them, and caughtUp says whether the log ends there; recovery gives the reason and leaves the client where it was |
| `DeltaSync.FitCandidates` | packages/mobile-stream-compat-rc1/src/index.js:3458-3482 | the fitter keeps the longest prefix within the limits, or the shell of a first event too large to send |
| `DeltaSync.FitEvents` | packages/mobile-stream-compat-rc1/src/index.js:3453-3487 | the same from either end |
| `DeltaSync.KeptIsLongest` | packages/mobile-stream-compat-rc1/src/index.js:3458-3482 | no longer prefix than the kept one fits |
| `DeltaSync.ReadV3Delta` | packages/mobile-stream-compat-rc1/src/index.js:3557-3588 | a v3 delta without recovery sends the most due events that fit, at least one if any is due; caughtUp, hasMore and throughSeq follow exactly |
| `DeltaSyncRuns.HeldIsExact` | packages/mobile-stream-compat-rc1/src/index.js:3557-3588 | resuming at throughSeq against a log that grows between calls, the client always holds exactly the log's events after its start up to where it stands, each once and in order |
| `DeltaSyncRuns.EveryRoundAdvances` | packages/mobile-stream-compat-rc1/src/index.js:3557-3588 | a call moves the client forward if and only if it is behind, and caughtUp is never claimed early |
| `DeltaSyncRuns.SettledRunCatchesUp` | packages/mobile-stream-compat-rc1/src/index.js:3557-3588 | against a log that stopped growing, one call more than there are due events ends caught up, and so does every later one |
| `DeltaSyncRuns.ConvergesOnceGrowthStops` | packages/mobile-stream-compat-rc1/src/index.js:124-285 | however the log grew before, once it stops the client holds all of it after at most that many calls |
| `DeltaSyncRuns.ShellAsksAgain` | packages/mobile-stream-compat-rc1/src/index.js:3570-3583 | hasMore at the end of the log: exactly when the one due event was too large to send whole |
| `HistoryWalk.ReadHistory` | packages/mobile-stream-compat-rc1/src/index.js:3509-3556 | a page holds the newest events below the bound that fit, or the shell of the newest, and names where to go on; an error names a malformed answer or the first unusable record |
| `HistoryWalk.SortedPage` | packages/mobile-stream-compat-rc1/src/index.js:3536-3541 | sorting a page that lists no event twice gives the newest events below the bound |
| `HistoryWalk.WalkIsExact` | packages/mobile-stream-compat-rc1/src/index.js:3509-3556 | walking by nextBeforeSeq, after any number of pages the client holds the newest events of the first page's log, each once and in order, whatever was appended meanwhile |
| `HistoryWalk.FinishedWalkCovers` | packages/mobile-stream-compat-rc1/src/index.js:3542-3543 | a walk that is given no further bound has visited every event exactly once |
| `HistoryWalk.WalkEnds` | packages/mobile-stream-compat-rc1/src/index.js:3542-3543 | every page but the last visits an event, so a walk is at most one page longer than its log |
| `Bootstrap.BootstrapScheduler.constructor` | packages/mobile-stream-compat-rc1/src/index.js:1253-1261 | a new scheduler is idle |
| `Bootstrap.BootstrapScheduler.SessionState` | packages/mobile-stream-compat-rc1/src/index.js:1328-1329 | the session's state object is found or created once |
| `Bootstrap.BootstrapScheduler.AcquireBootstrap` | packages/mobile-stream-compat-rc1/src/index.js:1325-1344 | a request is rejected, granted at once or queued, as its specification says |
| `Bootstrap.BootstrapScheduler.GrantBootstrap` | packages/mobile-stream-compat-rc1/src/index.js:1345-1351 | a grant marks the session busy and takes a slot |
| `Bootstrap.BootstrapScheduler.ReleaseGrant` | packages/mobile-stream-compat-rc1/src/index.js:1352-1363 | a release frees its slot once, drains, and forgets a session nobody holds or waits for |
| `Bootstrap.BootstrapScheduler.EligibleWaiter` | packages/mobile-stream-compat-rc1/src/index.js:1366-1371 | the search finds the first waiter whose session is not busy |
| `Bootstrap.BootstrapScheduler.DrainBootstrapQueue` | packages/mobile-stream-compat-rc1/src/index.js:1364-1383 | eligible waiters are served in order until the slots are taken or nobody is eligible; aborted ones are rejected |
| `Bootstrap.BootstrapScheduler.OnAbort` | packages/mobile-stream-compat-rc1/src/index.js:1333-1338 | an aborted waiter leaves the queue and is rejected |
| `Bootstrap.BootstrapScheduler.Dispose` | packages/mobile-stream-compat-rc1/src/index.js:2018-2021 | disposal rejects every waiter |
| `BootstrapRuns.RunKeeps` | packages/mobile-stream-compat-rc1/src/index.js:1325-1383 | in every reachable state: the active count is the number of unreleased grants and within the limit, no session has two, sessions are busy exactly while held, no free slot coexists with an eligible waiter, same-session requests are granted in request order, and every request is waiting, granted or rejected, only one of these |
| `BootstrapRuns.ImmediateGrantOvertakesNobody` | packages/mobile-stream-compat-rc1/src/index.js:1330 | a request granted at once overtakes no waiter that could have had the slot, and none of its own session |
| `BootstrapRuns.DrainOvertakesOnlyBusy` | packages/mobile-stream-compat-rc1/src/index.js:1364-1383 | a grant made by a drain overtakes only waiters whose session is busy |
| `BootstrapRuns.DrainSettles` | packages/mobile-stream-compat-rc1/src/index.js:1364-1383 | a drain stops only when the slots are taken or every waiter's session is busy |
| `BootstrapRuns.NobodyWaitsForNobody` | packages/mobile-stream-compat-rc1/src/index.js:1364-1383 | once every grant is released the queue is empty |
| `BootstrapRuns.LingersIffStranded` | packages/mobile-stream-compat-rc1/src/index.js:1325-1383 | over every run, aborts and disposals included, a session is remembered though nobody holds it or waits for it if and only if some step stranded it and nobody asked for it since |
| `BootstrapRuns.StepLingers` | packages/mobile-stream-compat-rc1/src/index.js:1325-1383 | which steps strand a session, readable before the step: the abort of its only waiter, a disposal while somebody waits, or another session's release that rejects all its waiters, each while nobody holds it |
| `BootstrapRuns.DrainLingers` | packages/mobile-stream-compat-rc1/src/index.js:1364-1383 | a drain leaves a session to nobody exactly if it rejects every waiter of it, all of whom it meets before its one grant |
| `BootstrapRuns.AnAbortLingers` | packages/mobile-stream-compat-rc1/src/index.js:1333-1338 | an aborted waiter can leave its session remembered though nobody holds it or waits for it |
| `Subscriber.LiveSubscriber.constructor` | packages/mobile-stream-compat-rc1/src/index.js:1904-1914 | a new subscriber has an empty queue |
| `Subscriber.LiveSubscriber.EnqueueEvent` | packages/mobile-stream-compat-rc1/src/index.js:2058-2079 | an event is ignored, queued with its seq and key remembered, or overflows the subscriber |
| `Subscriber.LiveSubscriber.RememberKey` | packages/mobile-stream-compat-rc1/src/index.js:2085-2092 | the oldest remembered keys are forgotten beyond the limit |
| `Subscriber.LiveSubscriber.FailSubscriber` | packages/mobile-stream-compat-rc1/src/index.js:2093-2115 | an overflow replaces everything queued by one overflow frame |
| `Subscriber.LiveSubscriber.TakeQueued` | packages/mobile-stream-compat-rc1/src/index.js:2080-2084 | taking hands over the oldest frame and its bytes |
| `Subscriber.LiveSubscriber.CloseSubscriber` | packages/mobile-stream-compat-rc1/src/index.js:2122-2132 | closing empties the subscriber |
| `SubscriberRuns.RunKeeps` | packages/mobile-stream-compat-rc1/src/index.js:2058-2115 | in every reachable state queue length and byte count are exact and bounded, the remembered keys are the newest ones, and each session's last seq is the last handed over |
| `SubscriberRuns.ReceivedIsMaxima` | packages/mobile-stream-compat-rc1/src/index.js:2058-2065 | what a session's subscriber was given is exactly what exceeded everything offered before it and sinceSeq |
| `SubscriberRuns.HandedOverIsPrefix` | packages/mobile-stream-compat-rc1/src/index.js:2058-2115 | what the client was handed, overflow or not, is a prefix of that |
| `SubscriberRuns.InOrderNothingIsSkipped` | packages/mobile-stream-compat-rc1/src/index.js:1985-1996 | the seqs handed over rise strictly above sinceSeq, and of events emitted in order none is skipped |
| `SubscriberRuns.OverflowIsTheLastFrame` | packages/mobile-stream-compat-rc1/src/index.js:2093-2115 | after an overflow the client is handed one overflow frame and nothing more |
| `SubscriberRuns.NoControlRepeatsSoon` | packages/mobile-stream-compat-rc1/src/index.js:2066-2070 | a control event with an identity is not handed over again before the window of remembered keys has passed |
| `DetailPaging.ReadDetailPage` | packages/mobile-stream-compat-rc1/src/index.js:3647-3711 | a page starts at the offset and holds as many code points as fit the limit, at least one; it is an error exactly when the offset splits a code point |
| `DetailPaging.FindBoundary` | packages/mobile-stream-compat-rc1/src/index.js:3675-3683 | the loop finds the code points before the offset, or that the offset splits one |
| `DetailPaging.PageHoldsItsBytes` | packages/mobile-stream-compat-rc1/src/index.js:3684-3695 | a page's text encodes to exactly the bytes between its two offsets in UTF-8 (section 3 of RFC 3629) |
| `DetailPaging.WalkIsPrefix` | packages/mobile-stream-compat-rc1/src/index.js:3684-3708 | walking by nextOffset never meets a split code point and has read a prefix of the text, whatever the limits |
| `DetailPaging.FinishedWalkIsTheText` | packages/mobile-stream-compat-rc1/src/index.js:3707 | a walk is done exactly when its pages concatenate to the text, within as many pages as code points plus one |
| `DetailPaging.DetailCache.constructor` | packages/mobile-stream-compat-rc1/src/index.js:1237-1239 | the cache starts empty |
| `DetailPaging.DetailCache.PutDetail` | packages/mobile-stream-compat-rc1/src/index.js:1578-1604 | putting a detail stores or replaces it and evicts the oldest beyond the limits; the byte count stays exact |
| `DetailPaging.DetailCache.EvictOldest` | packages/mobile-stream-compat-rc1/src/index.js:1595-1603 | the eviction loop ends, because an empty cache counts no bytes |
| `DetailPaging.NewestSurvive` | packages/mobile-stream-compat-rc1/src/index.js:1595-1603 | eviction keeps exactly the newest details that fit together |
| `DetailPaging.PutDetailStays` | packages/mobile-stream-compat-rc1/src/index.js:1578-1604 | a detail under a new key stays whenever an entry is allowed; under a known key it keeps its old place and stays exactly if everything put since fits beside it |
| `DetailPaging.RefreshCanEvictItself` | packages/mobile-stream-compat-rc1/src/index.js:1587-1603 | putting a known detail again with a longer text can evict that very detail |
| `WireConversion.LegacyRoundTrip` | packages/runtime-interface/src/index.js:304-325 | a legacy event that converts comes back from its canonical form unchanged if and only if it speaks the legacy vocabulary, which leaves out the names of inherited object members |
| `WireConversion.AnInheritedNameIsLost` | packages/runtime-interface/src/index.js:323-324 | an event of type constructor gets an inherited member for its type, because the rename table is a plain object |
| `WireConversion.InheritedTrip` | packages/runtime-interface/src/index.js:323-408 | so does every event named after an inherited member, and it does not come back |
| `WireConversion.MessageBack` | packages/runtime-interface/src/index.js:312-320 | a message comes back with its source list and without the stream derived from it |
| `WireConversion.WrappedBack` | packages/runtime-interface/src/index.js:278-286 | an event kept opaque comes back with the fields the wrapping carries |
| `WireConversion.PlainBack` | packages/runtime-interface/src/index.js:396-414 | any other canonical event comes back under its legacy name, or as an inherited member if it is named after one, with its replacement rewritten |
| `WireConversion.ReplaceRewritten` | packages/runtime-interface/src/index.js:410-413 | a replacement written for a legacy browser is itself exactly when it was in legacy form |
| `WireHistory.CurrentRoundTrip` | packages/runtime-interface/src/index.js:239-248 | a current event comes back unchanged if and only if it speaks the current vocabulary |
| `WireHistory.ExpandLegacyChunkRun` | packages/runtime-interface/src/index.js:326-351 | a packed row expands to consecutive seqs with prefix-sum times, one chunk each, or is rejected exactly when it is malformed, of unknown type or overflows a time |
| `WireHistory.MemberRoundTrips` | packages/runtime-interface/src/index.js:352-360 | every member of an expanded row survives the round trip |
| `WirePages.LegacyStreamIndex.constructor` | packages/runtime-interface/src/index.js:288-289 | the index starts empty |
| `WirePages.LegacyStreamIndex.Remember` | packages/runtime-interface/src/index.js:290-292 | a chunk event is remembered under its seq |
| `WirePages.LegacyStreamIndex.TakeStream` | packages/runtime-interface/src/index.js:293-302 | all the named chunks in the order named, given away; or none, with nothing changed |
| `WirePages.HistoryContext.CanonicalEvent` | packages/runtime-interface/src/index.js:304-325 | one event is converted with the stream the index has for it, and the index remembers its chunk or gives away the chunks it embeds |
| `WirePages.HistoryContext.CanonicalHistoryRecords` | packages/runtime-interface/src/index.js:352-360 | a page converts exactly when every row expands and every event converts, each with the index as the events before left it |
| `WirePages.MessageEmbeds` | packages/runtime-interface/src/index.js:288-317 | over a page of interleaved chunks and messages: a message embeds exactly the chunks it names, in that order, if each was given before it and not taken in between, and otherwise nothing; no chunk is embedded by two messages |
| `WirePages.PageRoundTrip` | packages/runtime-interface/src/index.js:267-277 | a converted page reaches a legacy browser with header and events unchanged if and only if the header has no newer field and every event that was not packed speaks the legacy vocabulary, names of inherited members excluded |
| `WriteQueue.WithCurrentWriteHandle` | packages/runtime-interface/src/session-persistence.js:397-423 | the calls made and the outcome of one write: a known failure only before anything was written, success only after every call succeeded, unknown otherwise |
| `WriteQueue.PersistencePort.constructor` | packages/runtime-interface/src/session-persistence.js:184-185 | a new port has no queue and no latched session |
| `WriteQueue.PersistencePort.EnqueueWrite` | packages/runtime-interface/src/session-persistence.js:187-205 | a submitted write is refused by the latch or chained behind the session's newest promise |
| `WriteQueue.PersistencePort.BeginWrite` | packages/runtime-interface/src/session-persistence.js:190-192 | a write whose predecessor is done is refused by the latch or invoked |
| `WriteQueue.PersistencePort.FinishWrite` | packages/runtime-interface/src/session-persistence.js:193-198 | an unknown outcome latches the session |
| `WriteQueue.PersistencePort.RetireWrite` | packages/runtime-interface/src/session-persistence.js:200-202 | the tracked promise leaves the table only if it is still the newest |
| `WriteQueueRuns.RunKeeps` | packages/runtime-interface/src/session-persistence.js:187-205 | every reachable state keeps the chain: a write leaves the waiting state only after all earlier writes of its session have retired, the table names the newest unretired one, and the latch holds exactly the sessions with an unknown outcome |
| `WriteQueueRuns.OneWriteAtATime` | packages/runtime-interface/src/session-persistence.js:187-205 | at most one write of a session runs |
| `WriteQueueRuns.InSubmissionOrder` | packages/runtime-interface/src/session-persistence.js:187-205 | one session's writes reach the service in the order they were submitted |
| `WriteQueueRuns.NothingAfterUnknown` | packages/runtime-interface/src/session-persistence.js:189-198 | after an unknown outcome no further write of the session reaches the service |
| `WriteQueueRuns.OthersUntouched` | packages/runtime-interface/src/session-persistence.js:184-205 | a turn about another session leaves this session's writes, queue, latch and invocations alone |
| `WriteQueueRuns.NeverStuck` | packages/runtime-interface/src/session-persistence.js:190-202 | while a session has an unfinished write its oldest one can take its next turn |
| `BoundedReader.ReadFrom` | packages/runtime-interface/src/session-persistence.js:344-354 | the chunked read of a log that may grow meanwhile returns the log as it stood at the read whose empty answer ended it, from the asked offset; it fails exactly as its last answer is malformed or oversized, or leads beyond the safe integers |
| `BoundedReader.InspectEvents` | packages/runtime-interface/src/session-persistence.js:287-309 | the chunked inspection returns the number of events at the read whose empty answer ended it and the first import marker among them; it succeeds whenever the log stays within the safe integers |
| `BoundedReader.FirstMarker` | packages/runtime-interface/src/session-persistence.js:296-304 | the marker found is the first one, and none is found exactly when there is none |
| `SessionFollowLaws.OpeningAnswered` | packages/runtime-interface/src/browser-stream.js:154-188 | a snapshot is accepted exactly if its cursor and the bound on its last run's chunks allow it, and is sent on with exactly that run for its open attempt: name, place, times, chunks and indices |
| `SessionFollowLaws.AnswersToEvents` | packages/runtime-interface/src/browser-stream.js:290-354 | in every connection the next durable event is accepted exactly if it continues the log and finds room, and is answered by exactly these frames, read off the trace and the event alone: a chunk by a needed end and start, one chunk frame and itself, any other event by itself between the ends it calls for |
| `SessionFollowLaws.Boundaries` | packages/runtime-interface/src/browser-stream.js:323-331 | a non-chunk event is directly preceded by an abandoned end exactly if an attempt is open and the event is a turn end, a step end, or a turn or step start that is not the attempt's or is not named; no attempt is open after an end of a turn or step |
| `SessionFollowLaws.Settlements` | packages/runtime-interface/src/browser-stream.js:333-352 | an event is directly followed by an end of the open attempt exactly if it is an assistant message or attempt of that attempt's turn and step, and the end is committed or abandoned as the event says |
| `SessionFollowLaws.TraceShows` | packages/runtime-interface/src/browser-stream.js:218-354 | after every accepted prefix the encoder's state is what its trace shows: last revision, last durable seq, open attempt and its next index |
| `SessionFollowLaws.LegacyRefusals` | packages/runtime-interface/src/browser-stream.js:272-322 | the error of a frame that the legacy side refuses, in the order of its checks |
| `SessionFollowLaws.CurrentRefusals` | packages/runtime-interface/src/browser-stream.js:356-430 | the error of a frame that the current side refuses, in the order of its checks |
| `AggregateLaws.FirstIdsLaw` | packages/browser-host-hub-rc1/src/index.js:697-700 | first occurrences: every id once, and in the order in which each first occurs |
| `AggregateLaws.MergedWorkspaces` | packages/browser-host-hub-rc1/src/index.js:684-703 | of the merge itself: its archived list holds exactly the ids some view archives, each once, in order of first occurrence over the views; its workspaces are the first of each id, in that order |
| `AggregateLaws.MergedControls` | packages/browser-host-hub-rc1/src/index.js:705-719 | its queues, jobs and projections are those of the last view that has the session |
| `AggregateLaws.WorkspaceIncrements` | packages/browser-host-hub-rc1/src/index.js:723-749 | what each workspace frame makes of a view: an upsert replaces in place or appends, a removal and an archive frame take away exactly the named, an order frame moves the named to the front |
| `AggregateLaws.ControlIncrements` | packages/browser-host-hub-rc1/src/index.js:723-749 | each control frame changes one entry of one session, and a projection only rises |
| `AggregateLinks.Moved` | packages/browser-host-hub-rc1/src/index.js:1692-1757 | one event of the aggregate, said of packets, hosts and views: what is queued, delivered, sent and kept |
| `AggregateLinks.LinksAndQueue` | packages/browser-host-hub-rc1/src/index.js:1708-1749 | along every run the queue holds what live connections sent, in order, less what has been delivered |
| `AggregateLinks.SeededWhen` | packages/browser-host-hub-rc1/src/index.js:1710-1734 | along every run the client has been seeded exactly if every host has given a view or the deadline has passed |
| `AssistantCacheLaws.IngestAnswers` | packages/runtime-interface/src/mobile-assistant-stream.js:304-361 | in every reachable cache: exactly when a raw frame is emitted and when it is ignored, and that an emitted one has the raw frame's kind, attempt, index, time, chunk, outcome, turn and step, with the given cursor and the next public revision |
| `AssistantCacheLaws.IngestRefuses` | packages/runtime-interface/src/mobile-assistant-stream.js:304-361 | every other frame is refused, and for which reason |
| `AssistantCacheLaws.IngestRemembers` | packages/runtime-interface/src/mobile-assistant-stream.js:304-361 | what an emitted frame leaves behind: its raw revision, and the attempt it ended or replaced among the most recently retired |
| `AssistantCacheLaws.BaselineAnswers` | packages/runtime-interface/src/mobile-assistant-stream.js:362-388 | when a baseline is taken, what is then held, when it is refused, and that it is otherwise answered by the session's own |
| `AssistantCacheLaws.RecordMembers` | packages/runtime-interface/src/mobile-assistant-stream.js:202-224 | what one packed record stands for: one delta of its kind for each of its values |
| `FairSenderLaws.CountsAreLoads` | packages/browser-host-hub-rc1/src/stream-mux.js:49-145 | the byte counts of a stream and of the socket are the bytes of waiting and in-flight frames |
| `FairSenderLaws.Admission` | packages/browser-host-hub-rc1/src/stream-mux.js:49-76 | in every reachable state an unforced frame is accepted exactly if it fits the frame, stream and socket limits in those bytes; otherwise which of the three overflows it is, and that nothing changes; a forced one fails instead and closes the sender |
| `FairSenderLaws.DropLeaves` | packages/browser-host-hub-rc1/src/stream-mux.js:78-88 | a drop leaves the stream its frame in flight, and every other stream as it was |
| `FairSenderLaws.Completion` | packages/browser-host-hub-rc1/src/stream-mux.js:106-145 | a landed frame is accounted no longer, its stream goes behind those ready if it has more, and the first ready stream's oldest frame is handed over next |
| `StreamMuxLaws.Numerals` | packages/browser-host-hub-rc1/src/stream-mux.js:207-213 | a numeral is accepted exactly if it is how a positive number is written in base 36 |
| `StreamMuxLaws.StreamIds` | packages/browser-host-hub-rc1/src/stream-mux.js:207-213 | an id is well formed exactly if it is a prefix, a colon and a positive safe integer in base 36 |
| `StreamMuxLaws.Requests` | packages/browser-host-hub-rc1/src/stream-mux.js:207-252 | what an open request leads to: an error frame, a new live stream, or nothing, and when the socket fails over it |
| `StreamMuxLaws.Cancels` | packages/browser-host-hub-rc1/src/stream-mux.js:221-228 | a cancel takes exactly its stream out of the table and the queue and returns its iterator |
| `StreamMuxLaws.Ends` | packages/browser-host-hub-rc1/src/stream-mux.js:181-190 | the end of a stream by itself or by an error leaves every other record in the table, unless its last frame fails |
| `StreamMuxLaws.OwnLimits` | packages/browser-host-hub-rc1/src/stream-mux.js:191-204 | a stream over a limit of its own ends alone, with an error: every other record stays, unless even the error frame fails |
| `StreamMuxLaws.Pulls` | packages/browser-host-hub-rc1/src/stream-mux.js:253-267 | a pulled item, in bytes against limits: over its own limits the stream ends alone; the table is emptied exactly if the socket's own limit is exceeded, the send throws or the last frame fails; otherwise the frame is accepted |
| `WireLaws.Types` | packages/runtime-interface/src/index.js:239-325 | the canonical type of every legacy event that converts, in literal types and versions: for each of the four opaque kinds and the two renamed types exactly which events get it, and that all others keep theirs |
| `WireLaws.Contents` | packages/runtime-interface/src/index.js:239-325 | field by field, what the canonical form of a wrapped event, a message and any other event holds |
| `WireLaws.GivenForLegacy` | packages/runtime-interface/src/index.js:239-414 | what a current browser is given for every legacy event that converts: that type, and these fields |
| `WireLaws.Converts` | packages/runtime-interface/src/index.js:239-325 | which events convert, and the error of those that do not |
| `WireLaws.Replacements` | packages/runtime-interface/src/index.js:233-236 | a replacement keeps its two bounds under the names the reader knows, or is refused |
| `WireLaws.CurrentGiven` | packages/runtime-interface/src/index.js:396-414 | what a current browser is given for any canonical event, and when it is given nothing |
| `WireLaws.LegacyGiven` | packages/runtime-interface/src/index.js:396-414 | what a legacy browser is given for any canonical event, wrappings opened, and when it is given nothing |
| `WireLaws.Headers` | packages/runtime-interface/src/index.js:267-277 | the seed of a canonical header, and the length or mark that a legacy or current browser is given for it |
| `WireLaws.Rows` | packages/runtime-interface/src/index.js:326-351 | a packed row expands exactly if it is one of the three kinds, in its place, with texts and safe times that match; each member's fields in literal names |
| `WireLaws.Chunks` | packages/runtime-interface/src/index.js:287-317 | which events of a page are chunks, which messages are rebuilt, and what a message holds of a chunk |
| `LateRowsLaws.Recorded` | packages/browser-host-hub-rc1/src/index.js:1484-1507 | a session is recorded by exactly its projections and its events over ready connections of open clients |
| `LateRowsLaws.Connections` | packages/browser-host-hub-rc1/src/index.js:1870-1926 | only a client's own steps change its connections, and how |
| `LateRowsLaws.GenerationsAreNew` | packages/browser-host-hub-rc1/src/index.js:1870-1926 | over every run each generation in use was handed out before, so a new connection's is like no other |
| `LateRowsLaws.Refreshes` | packages/browser-host-hub-rc1/src/index.js:1525-1566 | a refresh is deferred, completed and retired by its own steps alone, and gains each connection that becomes ready until it completes |
| `LateRowsLaws.Started` | packages/browser-host-hub-rc1/src/index.js:1525-1566 | a call joins the unretired refresh under its key or begins one, whose targets are exactly the ready connections of the moment |
| `LateRowsLaws.Queues` | packages/browser-host-hub-rc1/src/index.js:1544-1576 | all that a client's queue ever gains: events of its ready connections, and the rows nothing was recorded for and that are not archived; a delivery drops exactly the rows of a connection that is not the ready one |
| `BootstrapLaws.Requests` | packages/mobile-stream-compat-rc1/src/index.js:1325-1344 | in every reachable state: a request is rejected if its signal has fired, granted at once exactly if a slot is free and no grant of its session is in hand, and queued last otherwise |
| `BootstrapLaws.Releases` | packages/mobile-stream-compat-rc1/src/index.js:1352-1383 | a release counts once; of the waiters that leave the queue then, those whose signal has fired are rejected and the others granted, and none is left that could have been |
| `BootstrapLaws.Signals` | packages/mobile-stream-compat-rc1/src/index.js:1333-1338 | what a fired signal, its listener and a disposal change, and that they change nothing else |
| `SubscriberLaws.Emitted` | packages/mobile-stream-compat-rc1/src/index.js:2058-2115 | in every reachable state: an event is ignored exactly if it is not asked for, its seq is not new to its session, or its topic is among the last remembered keys; else it is queued, unless that exceeds a limit in frames or bytes: then one overflow frame replaces the queue |
| `DeltaSyncLaws.OneOutcome` | packages/mobile-stream-compat-rc1/src/index.js:124-260 | the outcome of gathering records, reason included, is settled by the snapshot, the pages, the seq and the page bound |
| `DeltaSyncLaws.FitsWhen` | packages/mobile-stream-compat-rc1/src/index.js:3453-3487 | what fits one reply, in sizes and brackets, and what a shell keeps |
| `DeltaSync.DecodeReason` | packages/mobile-stream-compat-rc1/src/index.js:704-716 | the first record that cannot be used decides the reason: out of range or beyond the log, or not below the page's bound |
| `CompositeIdLaws.LettersByPosition` | packages/browser-host-hub-rc1/src/index.js:229-234 | each letter stands for its position in the alphabet of section 5 of RFC 4648 |
| `CompositeIdLaws.Spelled` | packages/browser-host-hub-rc1/src/index.js:222-234 | the encoding of bytes is the one string whose letters, six bits each, spell the bytes' bits and fewer than six zeros |
| `CompositeIdLaws.IdIsSpelled` | packages/browser-host-hub-rc1/src/index.js:235-241 | a composite id is the prefix and the two texts so spelled, between dots |
| `CompositeIdLaws.ByteForms` | packages/browser-host-hub-rc1/src/index.js:235-241 | the bytes of a code point, by the table of section 3 of RFC 3629 |
| `WriteQueueLaws.Submitted` | packages/runtime-interface/src/session-persistence.js:187-205 | in every reachable state a submitted write is turned away exactly if a write of its session had an unknown outcome, and otherwise waits for the newest unfinished one |
| `WriteQueueLaws.Turns` | packages/runtime-interface/src/session-persistence.js:187-205 | a write runs exactly if it waits, all earlier ones of its session have retired and none had an unknown outcome; what every turn changes, and nothing else |

## Left out

Stated more weakly than one might expect, or under a condition:

- SessionFollowSimulation.LegacyOutputIsAccepted: the host's frame mapping is taken as the identity, because the encoder passes events through it unchanged in shape; the chunk payload is opaque.
- SessionFollowSimulation.ChainIsIdentity: covers the stream encoders of both ends; the conversion of event fields is the subject of `WireConversion.LegacyRoundTrip`.
- SessionFollow.TrailingChunksAreTheLastRun: the opening is not claimed to equal a replay of the records, because the source does not reset it at a turn end or step end.
- AggregateRuns.ClientSeesMerge: workspace ids are distinct within a host and within an order frame; without that, agreement lasts exactly until a harmful order frame or a harmful baseline of a late or reconnected host is delivered (`AggregateRepeatsRuns.SeesMergeIffHarmless`); queue, job and projection lookups are compared with an empty default, and `asOfSeq` is not compared, because the protocol cannot clear either.
- AggregateRuns.UpsertOrder: between an upsert of a new workspace and the next order frame or burst only the id maps agree, because the source appends it at the client's end.
- LateRowsRuns.LateRowsAreFresh: rows are session ids; a row whose id is missing or belongs to another host is dropped by the source before the check and is not modelled.
- CompositeId.CompositeRoundTrip: a text is a sequence of code points, so a surrogate pair is one code point and a surrogate one that stands alone.
- DeltaSync.ReadSessionDelta: errors of the opening call, cancellation and projections are left out; what is proved of the events assumes a controller that answers about one log during a call.
- DeltaSync.ReadV3Delta: the field conversion of an event is any function that keeps its seq.
- HistoryWalk.ReadHistory: an answer lists no event twice, because the history reader does not remove duplicates; `maxMessages` only reaches the controller.
- HistoryWalk.WalkIsExact: the bound of a later page is a seq of the first page's log, so events appended during the walk are not visited.
- SubscriberRuns.InOrderNothingIsSkipped: the assistant baselines a subscription hands out before its queue are left out.
- DetailPaging.DetailCache.PutDetail: the detail loader that reads a missing text again is left out.
- StreamMux.StreamSocket.SendForced: a frame whose content cannot be written as JSON is not modelled; an item of that kind counts as a failing iterator.
- StreamMuxWire.CancelledStaysSilent: leaves aside ids under which a malformed open request was refused, because the source answers such a request under the id it names.
- WirePages.HistoryContext.CanonicalHistoryRecords: records that are no events are converted or passed on without touching the index, and are not modelled.
- WirePages.PageRoundTrip: a packed row comes back as the events it expands to; the index is not followed past a page that fails.
- WireConversion.LegacyRoundTrip: fields whose value is undefined count as absent; numbers are integers.
- WriteQueue.WithCurrentWriteHandle: a service error that itself carries the unknown-outcome code is not modelled.
- BoundedReader.ReadFrom: opening and closing the handle, and the copied metadata, are left out.

Not modelled:

- HTTP routing, authentication, server-sent events, SSH tunnels, process restart, WebSocket internals: input and output.
- Injected browser scripts, React components, locales: user interface.
- The field-by-field sanitizers and the mobile event conversions: each branch is settled by reading it.
- Payload id rewriting per endpoint, the RPC allowlist, settings dispatch, list merging: they would only add easy members.
- Snapshot reading, cold tails, watermarks and the event replay cache of the mobile synchronizer: bookkeeping around the readers modelled here.
- `lazyCarrier`, the interaction bridge and the older Android variant of the synchronizer.
